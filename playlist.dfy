/**
 * The playlist container: a doubly linked list of song nodes with a head, a
 * tail, a "now playing" cursor and a size counter, updated in place.
 *
 * The abstract view is the ghost sequence `Nodes` (the nodes from head to
 * tail), the songs they hold (`Songs()`) and the ghost `Cursor`, which says
 * where `currentSong` stands in `Nodes`.
 */
module Playlists {
  import opened PlaylistSpec

  /** One list node: an immutable song record with its two links. */
  class Song {
    const title: string
    const artist: string
    const duration: int
    var next: Song?
    var prev: Song?

    constructor (title: string, artist: string, duration: int)
      ensures this.title == title && this.artist == artist && this.duration == duration
      ensures next == null && prev == null
    {
      this.title := title;
      this.artist := artist;
      this.duration := duration;
      next := null;
      prev := null;
    }

    function View(): (v: SongView)
      ensures v.title == title && v.artist == artist && v.duration == duration
    {
      SongView(title, artist, duration)
    }
  }

  /** The songs held by a sequence of nodes, in the same order. */
  function Views(ns: seq<Song>): (r: seq<SongView>)
    ensures |r| == |ns|
    ensures forall k :: 0 <= k < |ns| ==> r[k] == ns[k].View()
  {
    seq(|ns|, k requires 0 <= k < |ns| => ns[k].View())
  }

  lemma ViewsRemoveAt(ns: seq<Song>, i: nat)
    requires i < |ns|
    ensures Views(RemoveAt(ns, i)) == RemoveAt(Views(ns), i)
  {
  }

  class Playlist {
    var head: Song?
    var tail: Song?
    var currentSong: Song?
    var size: int

    ghost var Nodes: seq<Song>
    ghost var Cursor: CursorState
    ghost var Repr: set<object>

    /**
     * The nodes reachable from `head` are exactly `Nodes`, linked both ways;
     * `size` counts them; `tail` is the last one whenever the list is not
     * empty (after the last entry is removed it is left stale, and nothing
     * reads it until the next append tests `head`). The cursor is null only
     * before the first append; otherwise it is on a node of the list or on a
     * node that was unlinked.
     */
    ghost predicate Valid()
      reads this, Repr
    {
      && this in Repr
      && (forall k :: 0 <= k < |Nodes| ==> Nodes[k] in Repr)
      && (forall p, q :: 0 <= p < q < |Nodes| ==> Nodes[p] != Nodes[q])
      && size == |Nodes|
      && (|Nodes| == 0 ==> head == null)
      && (|Nodes| > 0 ==> head == Nodes[0] && tail == Nodes[|Nodes| - 1])
      && (|Nodes| > 0 ==> Nodes[0].prev == null && Nodes[|Nodes| - 1].next == null)
      && (forall k :: 0 <= k && k + 1 < |Nodes| ==> Nodes[k].next == Nodes[k + 1])
      && (forall k :: 0 < k < |Nodes| ==> Nodes[k].prev == Nodes[k - 1])
      && (Cursor == Unset <==> currentSong == null)
      && (Cursor == Unset ==> |Nodes| == 0)
      && (Cursor.At? ==> Cursor.index < |Nodes| && currentSong == Nodes[Cursor.index])
      && (Cursor == Dangling ==> currentSong != null && currentSong !in Nodes)
    }

    ghost function Songs(): seq<SongView>
      reads this
    {
      Views(Nodes)
    }

    constructor ()
      ensures Valid() && fresh(Repr)
      ensures Nodes == [] && Cursor == Unset
    {
      head, tail, currentSong, size := null, null, null, 0;
      Nodes, Cursor := [], Unset;
      Repr := {this};
    }

    /**
     * Appends a new song at the tail. The first song of an empty list
     * becomes the current one; otherwise the cursor is left alone.
     */
    method AddSong(title: string, artist: string, duration: int)
      requires Valid()
      modifies Repr
      ensures Valid() && fresh(Repr - old(Repr))
      ensures |Nodes| == |old(Nodes)| + 1 && Nodes[..|old(Nodes)|] == old(Nodes)
      ensures Songs() == old(Songs()) + [SongView(title, artist, duration)]
      ensures size == old(size) + 1
      ensures Cursor == CursorAfterAdd(old(Cursor), |old(Nodes)|)
      ensures |old(Nodes)| > 0 ==> currentSong == old(currentSong)
    {
      var newSong := new Song(title, artist, duration);
      if head == null {
        head := newSong;
        tail := newSong;
        currentSong := newSong;
        Cursor := At(0);
      } else {
        tail.next := newSong;
        newSong.prev := tail;
        tail := newSong;
      }
      size := size + 1;
      Nodes := Nodes + [newSong];
      Repr := Repr + {newSong};
      assert Songs() == old(Songs()) + [newSong.View()];
    }

    /** The song under the cursor, or none when no song is selected. */
    method PlayCurrentSong() returns (r: Option<SongView>)
      requires Valid() && Cursor != Dangling
      ensures r.Some? <==> Cursor.At?
      ensures Cursor.At? ==> r.value == Songs()[Cursor.index]
    {
      if currentSong != null {
        r := Some(currentSong.View());
      } else {
        r := None;
      }
    }

    /**
     * Moves the cursor to its successor and reports true when there is one;
     * otherwise reports the end of the playlist and leaves the cursor alone.
     */
    method NextSong() returns (moved: bool)
      requires Valid() && Cursor != Dangling
      modifies this`currentSong, this`Cursor
      ensures Valid()
      ensures moved <==> old(Cursor).At? && old(Cursor).index + 1 < |Nodes|
      ensures Cursor == CursorNext(old(Cursor), |Nodes|)
    {
      assert Cursor.At? && Cursor.index + 1 < |Nodes| ==> Nodes[Cursor.index].next == Nodes[Cursor.index + 1];
      if currentSong != null && currentSong.next != null {
        currentSong := currentSong.next;
        Cursor := At(Cursor.index + 1);
        moved := true;
      } else {
        moved := false;
      }
    }

    /** The mirror image of NextSong, towards the head. */
    method PrevSong() returns (moved: bool)
      requires Valid() && Cursor != Dangling
      modifies this`currentSong, this`Cursor
      ensures Valid()
      ensures moved <==> old(Cursor).At? && old(Cursor).index > 0
      ensures Cursor == CursorPrev(old(Cursor))
    {
      assert Cursor.At? && Cursor.index > 0 ==> Nodes[Cursor.index].prev == Nodes[Cursor.index - 1];
      if currentSong != null && currentSong.prev != null {
        currentSong := currentSong.prev;
        Cursor := At(Cursor.index - 1);
        moved := true;
      } else {
        moved := false;
      }
    }

    /** Walks the list from the head and yields every song in list order. */
    method DisplayPlaylist() returns (entries: seq<SongView>)
      requires Valid()
      ensures entries == Songs()
    {
      var current := head;
      entries := [];
      ghost var i := 0;
      while current != null
        invariant 0 <= i <= |Nodes|
        invariant current == (if i < |Nodes| then Nodes[i] else null)
        invariant entries == Songs()[..i]
        decreases |Nodes| - i
      {
        entries := entries + [current.View()];
        current := current.next;
        i := i + 1;
      }
    }

    /**
     * Unlinks the first node, scanning from the head, whose title is `title`,
     * and reports whether there was one. The cursor is not touched: if it
     * stood on the removed node it is left dangling.
     */
    method RemoveSong(title: string) returns (found: bool)
      requires Valid()
      modifies Repr
      ensures Valid() && Repr <= old(Repr)
      ensures found <==> FindFirst(old(Songs()), title).Some?
      ensures Songs() == RemoveFirst(old(Songs()), title)
      ensures !found ==> Nodes == old(Nodes) && Cursor == old(Cursor)
      ensures found ==>
        var k := FindFirst(old(Songs()), title).value;
        Nodes == RemoveAt(old(Nodes), k) && Cursor == CursorAfterRemove(old(Cursor), k)
      ensures size == |Nodes| && currentSong == old(currentSong)
      ensures found && FindFirst(old(Songs()), title).value == 0 ==> tail == old(tail)
    {
      var current := head;
      ghost var i := 0;
      while current != null
        invariant 0 <= i <= |Nodes|
        invariant current == (if i < |Nodes| then Nodes[i] else null)
        invariant forall j :: 0 <= j < i ==> Nodes[j].title != title
        decreases |Nodes| - i
      {
        if current.title == title {
          assert FindFirst(Songs(), title) == Some(i);
          Unlink(current, i);
          ViewsRemoveAt(old(Nodes), i);
          found := true;
          return;
        }
        current := current.next;
        i := i + 1;
      }
      found := false;
    }

    /**
     * Unlinks the node at position i, by the branch for the head, for the
     * tail or for a node in the middle. The cursor is left as it was.
     */
    method Unlink(current: Song, ghost i: nat)
      requires Valid() && i < |Nodes| && current == Nodes[i]
      modifies Repr
      ensures Valid() && Repr == old(Repr) - {current}
      ensures Nodes == RemoveAt(old(Nodes), i)
      ensures Cursor == CursorAfterRemove(old(Cursor), i) && currentSong == old(currentSong)
      ensures i == 0 ==> tail == old(tail)
    {
      if current == head {
        assert i == 0;
        UnlinkHead();
      } else if current == tail {
        assert 0 < i == |Nodes| - 1;
        UnlinkTail();
      } else {
        assert 0 < i < |Nodes| - 1;
        UnlinkMiddle(current, i);
      }
    }

    /** The head branch of the removal: the first node is unlinked. */
    method UnlinkHead()
      requires Valid() && |Nodes| > 0
      modifies Repr
      ensures Valid() && Repr == old(Repr) - {old(head)}
      ensures Nodes == RemoveAt(old(Nodes), 0)
      ensures Cursor == CursorAfterRemove(old(Cursor), 0) && currentSong == old(currentSong)
      ensures tail == old(tail)
    {
      ghost var nodes := Nodes;
      ghost var first := head;
      head := head.next;
      if head != null {
        assert head == nodes[1];
        head.prev := null;
      }
      size := size - 1;
      Nodes := RemoveAt(nodes, 0);
      Cursor := CursorAfterRemove(Cursor, 0);
      Repr := Repr - {first};
    }

    /** The tail branch of the removal: the last node of a list of two or more is unlinked. */
    method UnlinkTail()
      requires Valid() && |Nodes| > 1
      modifies Repr
      ensures Valid() && Repr == old(Repr) - {old(tail)}
      ensures Nodes == RemoveAt(old(Nodes), |old(Nodes)| - 1)
      ensures Cursor == CursorAfterRemove(old(Cursor), |old(Nodes)| - 1)
      ensures currentSong == old(currentSong)
    {
      ghost var nodes := Nodes;
      ghost var last := tail;
      ghost var i := |nodes| - 1;
      assert tail.prev == nodes[i - 1];
      tail := tail.prev;
      tail.next := null;
      size := size - 1;
      Nodes := RemoveAt(nodes, i);
      Cursor := CursorAfterRemove(Cursor, i);
      Repr := Repr - {last};
    }

    /** The middle branch of the removal: a node with both neighbours is unlinked. */
    method UnlinkMiddle(current: Song, ghost i: nat)
      requires Valid() && 0 < i < |Nodes| - 1 && current == Nodes[i]
      modifies Repr
      ensures Valid() && Repr == old(Repr) - {current}
      ensures Nodes == RemoveAt(old(Nodes), i)
      ensures Cursor == CursorAfterRemove(old(Cursor), i) && currentSong == old(currentSong)
    {
      ghost var nodes := Nodes;
      assert current.prev == nodes[i - 1] && current.next == nodes[i + 1];
      current.prev.next := current.next;
      current.next.prev := current.prev;
      size := size - 1;
      Nodes := RemoveAt(nodes, i);
      Cursor := CursorAfterRemove(Cursor, i);
      Repr := Repr - {current};
    }

    /** Like DisplayPlaylist, but reports an empty playlist explicitly. */
    method RepeatPlaylist() returns (r: Rendering)
      requires Valid()
      ensures r == EmptyPlaylist <==> |Songs()| == 0
      ensures r.Listing? ==> r.entries == Songs()
    {
      if size == 0 {
        return EmptyPlaylist;
      }
      var entries := DisplayPlaylist();
      r := Listing(entries);
    }

    /**
     * Shuffles the positions [0, size) with Fisher-Yates, drawing from
     * `draws` in place of the library generator, and yields the song at each
     * shuffled position, found by walking from the head. The list and the
     * cursor are not changed.
     */
    method ShufflePlaylist(draws: seq<nat>) returns (r: Rendering)
      requires Valid() && |Nodes| <= |draws| + 1
      ensures r == EmptyPlaylist <==> |Songs()| == 0
      ensures r.Listing? ==> r.entries == FisherYates(Songs(), draws)
      ensures r.Listing? ==> multiset(r.entries) == multiset(Songs())
    {
      if size == 0 {
        return EmptyPlaylist;
      }
      var n := size;
      var indices := ShuffledIndices(n, draws);
      ghost var songs, order := Songs(), indices[..];
      ShuffledIndicesArePermutation(songs, draws);
      assert InRange(order, n);

      var entries := [];
      for p := 0 to n
        invariant indices[..] == order
        invariant |entries| == p
        invariant forall k :: 0 <= k < p ==> entries[k] == songs[order[k]]
      {
        var song := SongAt(indices[p]);
        entries := entries + [song];
      }
      assert entries == Resolve(songs, order);
      r := Listing(entries);
    }

    /** The song `p` steps after the head, found by following `next` links. */
    method SongAt(p: int) returns (v: SongView)
      requires Valid() && 0 <= p < |Nodes|
      ensures v == Songs()[p]
    {
      var temp := head;
      for q := 0 to p
        invariant temp == Nodes[q]
      {
        temp := temp.next;
      }
      v := temp.View();
    }
  }

  /**
   * The index array of the shuffle: [0, n) filled in order, then the
   * Fisher-Yates swaps from the last position down to position 1, position
   * i exchanged with the draw for it taken modulo i + 1.
   */
  method ShuffledIndices(n: nat, draws: seq<nat>) returns (indices: array<int>)
    requires 0 < n <= |draws| + 1
    ensures fresh(indices)
    ensures indices[..] == FisherYates(Range(n), draws)
  {
    indices := new int[n];
    for i := 0 to n
      invariant forall k :: 0 <= k < i ==> indices[k] == k
    {
      indices[i] := i;
    }
    assert indices[..] == Range(n);

    var i := n - 1;
    while i > 0
      invariant 0 <= i < n
      invariant ShuffleSteps(indices[..], i, draws[n - 1 - i..]) == FisherYates(Range(n), draws)
    {
      var j := Pick(draws[n - 1 - i], i);
      ghost var before := indices[..];
      indices[i], indices[j] := indices[j], indices[i];
      assert indices[..] == Swap(before, i, j);
      assert draws[n - 1 - i..][1..] == draws[n - 1 - (i - 1)..];
      i := i - 1;
    }
  }
}

/**
 * Two clients. The first appends three songs, steps forward to the last one
 * and then hits the end of the playlist. The second removes the current song
 * from such a playlist: the other two songs keep their order and the cursor
 * is left on the unlinked node, so no move or play is allowed until the list
 * has been emptied and a song appended again.
 */
module PlaylistClient {
  import opened PlaylistSpec
  import opened Playlists

  method AppendAndStepScenario()
  {
    var p := new Playlist();
    p.AddSong("A", "X", 100);
    p.AddSong("B", "Y", 200);
    p.AddSong("C", "Z", 150);
    assert p.Songs() == [SongView("A", "X", 100), SongView("B", "Y", 200), SongView("C", "Z", 150)];
    assert p.Cursor == At(0);
    var moved := p.NextSong();
    assert moved && p.Cursor == At(1);
    moved := p.NextSong();
    moved := p.NextSong();
    assert !moved && p.Cursor == At(2);
  }

  method RemoveCurrentScenario(p: Playlist)
    requires p.Valid()
    requires p.Songs() == [SongView("A", "X", 100), SongView("B", "Y", 200), SongView("C", "Z", 150)]
    requires p.Cursor == At(1)
    modifies p.Repr
  {
    var a, b, c := SongView("A", "X", 100), SongView("B", "Y", 200), SongView("C", "Z", 150);
    assert [a, b, c][1..] == [b, c];
    assert FindFirst([b, c], "B") == Some(0);
    assert FindFirst([a, b, c], "B") == Some(1);
    assert RemoveFirst([a, b, c], "B") == RemoveAt([a, b, c], 1) == [a, c];
    var found := p.RemoveSong("B");
    assert found && p.Cursor == Dangling;
    assert p.Songs() == [a, c];

    assert FindFirst([a, c], "A") == Some(0);
    found := p.RemoveSong("A");
    assert p.Songs() == [c] && p.Cursor == Dangling;
    found := p.RemoveSong("C");
    assert p.Songs() == [] && p.Cursor == Dangling;
    p.AddSong("D", "W", 90);
    assert p.Cursor == At(0);
  }
}

/**
 * The abstract values behind the playlist: what a song looks like to a
 * caller, where the "now playing" cursor can be, how title lookup and
 * removal act on the ordered list of songs, and the Fisher-Yates shuffle of
 * positional indices that the shuffled view is built from.
 */
module PlaylistSpec {

  datatype Option<T> = None | Some(value: T)

  /** A song as the playlist reports it; the duration is in seconds. */
  datatype SongView = SongView(title: string, artist: string, duration: int)

  /**
   * Where the cursor stands: not set yet, on the entry at a position of the
   * list, or on an entry that has been unlinked from the list (the playlist
   * keeps pointing at storage it has released).
   */
  datatype CursorState = Unset | At(index: nat) | Dangling

  /** What a read-only listing yields: the empty-playlist report or the entries. */
  datatype Rendering = EmptyPlaylist | Listing(entries: seq<SongView>)

  // ---------------------------------------------------------------------------
  // Lookup and removal by title
  // ---------------------------------------------------------------------------

  /** Position of the first entry, scanning from the head, whose title is `title`. */
  function FindFirst(s: seq<SongView>, title: string): (r: Option<nat>)
    ensures r.Some? ==> r.value < |s| && s[r.value].title == title
    ensures r.Some? ==> forall j :: 0 <= j < r.value ==> s[j].title != title
    ensures r.None? <==> forall j :: 0 <= j < |s| ==> s[j].title != title
  {
    if |s| == 0 then None
    else if s[0].title == title then Some(0)
    else match FindFirst(s[1..], title)
      case None => None
      case Some(k) => Some(k + 1)
  }

  /** The list with the entry at position k unlinked; the others keep their order. */
  function RemoveAt<T>(s: seq<T>, k: nat): (r: seq<T>)
    requires k < |s|
    ensures |r| == |s| - 1
    ensures forall j :: 0 <= j < k ==> r[j] == s[j]
    ensures forall j :: k <= j < |r| ==> r[j] == s[j + 1]
    ensures multiset(r) == multiset(s) - multiset{s[k]}
  {
    assert s == s[..k] + [s[k]] + s[k + 1..];
    s[..k] + s[k + 1..]
  }

  /** Removing by title: the list afterwards, unchanged when no title matches. */
  function RemoveFirst(s: seq<SongView>, title: string): (r: seq<SongView>)
    ensures |r| <= |s|
  {
    match FindFirst(s, title)
    case None => s
    case Some(k) => RemoveAt(s, k)
  }

  lemma RemoveFirstDeletesOneMatch(s: seq<SongView>, title: string)
    ensures FindFirst(s, title).None? ==> RemoveFirst(s, title) == s
    ensures FindFirst(s, title).Some? ==>
      |RemoveFirst(s, title)| == |s| - 1 &&
      multiset(RemoveFirst(s, title)) + multiset{s[FindFirst(s, title).value]} == multiset(s)
    ensures (exists j :: 0 <= j < |s| && s[j].title == title) <==> |RemoveFirst(s, title)| == |s| - 1
  {
    match FindFirst(s, title)
    case None =>
    case Some(k) =>
      assert s[k].title == title;
  }

  /**
   * The cursor after the entry at position k is unlinked. The removal never
   * touches the cursor: it stays on the same entry, whose position drops by
   * one when the removed entry came before it, and dangles when the removed
   * entry is the one it stood on.
   */
  function CursorAfterRemove(c: CursorState, k: nat): (r: CursorState)
  {
    match c
    case At(i) => if i == k then Dangling else if k < i then At(i - 1) else At(i)
    case _ => c
  }

  lemma RemoveKeepsOtherCurrent<T>(s: seq<T>, c: CursorState, k: nat)
    requires k < |s| && c.At? && c.index < |s|
    ensures c.index != k ==>
      CursorAfterRemove(c, k).At? &&
      CursorAfterRemove(c, k).index < |RemoveAt(s, k)| &&
      RemoveAt(s, k)[CursorAfterRemove(c, k).index] == s[c.index]
    ensures c.index == k <==> CursorAfterRemove(c, k) == Dangling
  {
  }

  // ---------------------------------------------------------------------------
  // Cursor movement
  // ---------------------------------------------------------------------------

  /** Appending to a list of n entries: the first entry becomes current. */
  function CursorAfterAdd(c: CursorState, n: nat): (r: CursorState)
  {
    if n == 0 then At(0) else c
  }

  /** One step towards the tail in a list of n entries, if there is a successor. */
  function CursorNext(c: CursorState, n: nat): (r: CursorState)
  {
    if c.At? && c.index + 1 < n then At(c.index + 1) else c
  }

  /** One step towards the head, if there is a predecessor. */
  function CursorPrev(c: CursorState): (r: CursorState)
  {
    if c.At? && c.index > 0 then At(c.index - 1) else c
  }

  lemma NextPrevRoundTrip(c: CursorState, n: nat)
    requires c.At? && c.index < n
    ensures c.index + 1 < n ==> CursorPrev(CursorNext(c, n)) == c
    ensures c.index > 0 ==> CursorNext(CursorPrev(c), n) == c
    ensures c.index + 1 == n <==> CursorNext(c, n) == c
    ensures c.index == 0 <==> CursorPrev(c) == c
  {
  }

  // ---------------------------------------------------------------------------
  // The shuffled view
  // ---------------------------------------------------------------------------

  /** The positional indices 0, 1, ..., n - 1. */
  function Range(n: nat): (r: seq<int>)
    ensures |r| == n && forall k :: 0 <= k < n ==> r[k] == k
  {
    seq(n, k => k)
  }

  ghost predicate Distinct<T>(a: seq<T>)
  {
    forall p, q :: 0 <= p < q < |a| ==> a[p] != a[q]
  }

  ghost predicate InRange(idx: seq<int>, n: nat)
  {
    forall k :: 0 <= k < |idx| ==> 0 <= idx[k] < n
  }

  /** Exchanges the entries at i and j. */
  function Swap<T>(a: seq<T>, i: nat, j: nat): (r: seq<T>)
    requires i < |a| && j < |a|
    ensures |r| == |a| && r[i] == a[j] && r[j] == a[i]
    ensures forall k :: 0 <= k < |a| && k != i && k != j ==> r[k] == a[k]
  {
    a[i := a[j]][j := a[i]]
  }

  lemma SwapPermutes<T>(a: seq<T>, i: nat, j: nat)
    requires i < |a| && j < |a|
    ensures multiset(Swap(a, i, j)) == multiset(a)
  {
  }

  /** The position chosen for position i from a raw draw: the draw modulo i + 1. */
  function Pick(draw: nat, i: nat): (j: nat)
    ensures j <= i
  {
    draw % (i + 1)
  }

  /**
   * The Fisher-Yates steps for positions i, i - 1, ..., 1: position p is
   * exchanged with the position drawn for it, the raw draw reduced modulo
   * p + 1. draws[0] is the draw for position i, the next one for i - 1, and so on.
   */
  function ShuffleSteps<T>(a: seq<T>, i: nat, draws: seq<nat>): (r: seq<T>)
    requires i < |a| && i <= |draws|
    decreases i
  {
    if i == 0 then a
    else ShuffleSteps(Swap(a, i, Pick(draws[0], i)), i - 1, draws[1..])
  }

  /** The whole shuffle of a list, from its last position down to position 1. */
  function FisherYates<T>(a: seq<T>, draws: seq<nat>): (r: seq<T>)
    requires |a| <= |draws| + 1
  {
    if |a| == 0 then a else ShuffleSteps(a, |a| - 1, draws)
  }

  /** Looks each index up in s: the entry each shuffled index stands for. */
  function Resolve<T>(s: seq<T>, idx: seq<int>): (r: seq<T>)
    requires InRange(idx, |s|)
    ensures |r| == |idx| && forall k :: 0 <= k < |idx| ==> r[k] == s[idx[k]]
  {
    seq(|idx|, k requires 0 <= k < |idx| => s[idx[k]])
  }

  lemma {:induction false} ShuffleStepsPermutes<T>(a: seq<T>, i: nat, draws: seq<nat>)
    requires i < |a| && i <= |draws|
    ensures |ShuffleSteps(a, i, draws)| == |a|
    ensures multiset(ShuffleSteps(a, i, draws)) == multiset(a)
    decreases i
  {
    if i > 0 {
      SwapPermutes(a, i, Pick(draws[0], i));
      ShuffleStepsPermutes(Swap(a, i, Pick(draws[0], i)), i - 1, draws[1..]);
    }
  }

  lemma {:induction false} ShuffleStepsKeepsDistinct<T>(a: seq<T>, i: nat, draws: seq<nat>)
    requires i < |a| && i <= |draws| && Distinct(a)
    ensures Distinct(ShuffleSteps(a, i, draws))
    decreases i
  {
    if i > 0 {
      SwapKeepsDistinct(a, i, Pick(draws[0], i));
      ShuffleStepsKeepsDistinct(Swap(a, i, Pick(draws[0], i)), i - 1, draws[1..]);
    }
  }

  lemma SwapKeepsDistinct<T>(a: seq<T>, i: nat, j: nat)
    requires i < |a| && j < |a| && Distinct(a)
    ensures Distinct(Swap(a, i, j))
  {
    var b := Swap(a, i, j);
    forall p, q | 0 <= p < q < |b| ensures b[p] != b[q] {
      var p' := if p == i then j else if p == j then i else p;
      var q' := if q == i then j else if q == j then i else q;
      assert b[p] == a[p'] && b[q] == a[q'] && p' != q';
    }
  }

  /** Shuffling the indices and then looking them up is shuffling the entries. */
  lemma {:induction false} ResolveShuffleSteps<T>(s: seq<T>, idx: seq<int>, i: nat, draws: seq<nat>)
    requires InRange(idx, |s|) && i < |idx| && i <= |draws|
    ensures InRange(ShuffleSteps(idx, i, draws), |s|)
    ensures Resolve(s, ShuffleSteps(idx, i, draws)) == ShuffleSteps(Resolve(s, idx), i, draws)
    decreases i
  {
    if i > 0 {
      var j := Pick(draws[0], i);
      var idx' := Swap(idx, i, j);
      assert InRange(idx', |s|) by {
        forall k | 0 <= k < |idx'| ensures 0 <= idx'[k] < |s| {
          assert idx'[k] == idx[if k == i then j else if k == j then i else k];
        }
      }
      assert Resolve(s, idx') == Swap(Resolve(s, idx), i, j);
      ResolveShuffleSteps(s, idx', i - 1, draws[1..]);
    }
  }

  /**
   * The shuffled view of a list of n songs: the index list [0, n) ends up
   * a permutation of itself, so every index lies in the list and appears
   * exactly once, and looking the shuffled indices up yields every song
   * exactly as often as it is in the list -- the same result as shuffling
   * the songs themselves.
   */
  lemma ShuffledIndicesArePermutation<T>(s: seq<T>, draws: seq<nat>)
    requires |s| <= |draws| + 1
    ensures |FisherYates(Range(|s|), draws)| == |s|
    ensures multiset(FisherYates(Range(|s|), draws)) == multiset(Range(|s|))
    ensures Distinct(FisherYates(Range(|s|), draws))
    ensures InRange(FisherYates(Range(|s|), draws), |s|)
    ensures Resolve(s, FisherYates(Range(|s|), draws)) == FisherYates(s, draws)
    ensures multiset(Resolve(s, FisherYates(Range(|s|), draws))) == multiset(s)
  {
    var n := |s|;
    assert Resolve(s, Range(n)) == s;
    if n > 0 {
      ShuffleStepsPermutes(Range(n), n - 1, draws);
      ShuffleStepsKeepsDistinct(Range(n), n - 1, draws);
      ResolveShuffleSteps(s, Range(n), n - 1, draws);
      ShuffleStepsPermutes(s, n - 1, draws);
    }
  }
}

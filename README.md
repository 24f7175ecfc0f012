# Playlist manager: the linked playlist, modelled in Dafny

This project models the `Playlist` class of a terminal playlist manager
(`projectdatastructures_finalversion.cpp`). A playlist is a doubly linked list
of song nodes with four fields: `head`, `tail`, the cursor `currentSong` and a
`size` counter. Its operations are:

- append at the tail (`addSong`)
- unlink the first song with a given title (`removeSong`)
- step the cursor forward or back (`nextSong`, `prevSong`)
- show the current song (`playCurrentSong`)
- list the songs from the head (`displayPlaylist`, `repeatPlaylist`)
- list them in Fisher–Yates shuffled order (`shufflePlaylist`)

The model has three modules:

- `PlaylistSpec` (playlist_spec.dfy) holds the values and pure functions:
  - `SongView` is a song as callers see it.
  - `CursorState` is where the cursor stands: `Unset`, `At(i)` or `Dangling`.
  - `Rendering` is either the empty-playlist report or a listing.
  - It has first-match lookup, removal at a position and the cursor moves.
  - It has the Fisher–Yates steps over a sequence, with the lemmas that they
    permute it.
- `Playlists` (playlist.dfy) holds two classes, written in the source's
  imperative form:
  - `Song` is a node. Its title, artist and duration are constants. Its
    `next`/`prev` links are fields.
  - `Playlist` keeps the source's four fields. Its ghost state is the node
    sequence `Nodes`, the footprint `Repr` and the cursor position `Cursor`.
  - `Valid()` ties the fields to the ghost state. The nodes are distinct and
    linked both ways. `head` is the first node and `tail` the last. `size`
    equals `|Nodes|`. `currentSong` matches `Cursor`.
  - Every method is a loop or a pointer update, as in the source. Each one is
    proved against the abstract sequence `Songs()` and the functions of
    `PlaylistSpec`.
  - The shuffle's index array is an `array<int>`, shuffled in place
    (`ShuffledIndices`).
- `PlaylistClient` holds two client methods that exercise the model on
  three songs. The first appends A, B, C and steps forward to the end. The
  second removes the current song B, then A and C, and appends D.

## What the code does not do (the model follows the code)

- **No cursor repair on removal.** A reader might expect removing the
  current song to move the cursor to the next song, else to the previous
  one, else to unset it. The code does none of this: `removeSong` never
  touches `currentSong` (projectdatastructures_finalversion.cpp:91-119). The model makes the cursor
  `Dangling` when its node is unlinked (`CursorAfterRemove`).
  `NextSong`, `PrevSong` and `PlayCurrentSong` require a cursor that is not
  dangling. In C++ those calls would read freed memory, which is undefined
  behaviour.
- **A dangling cursor is repaired only by an append to an empty list.** The
  code tests `head == nullptr` and then overwrites `currentSong`
  (`CursorAfterAdd`). Removing the current song from a longer list leaves the
  cursor dangling until every song has been removed and a new one appended
  (`PlaylistClient.RemoveCurrentScenario` exercises this).
- **Stale `tail`.** Removing the only song takes the head branch
  (projectdatastructures_finalversion.cpp:95-101), so `tail` keeps pointing
  at the removed node. `Valid()` constrains `tail` only when the list is not
  empty. This is harmless because `addSong` tests `head`, not `tail`.
- **Empty-list reports.** `displayPlaylist` prints nothing special for an
  empty list: `DisplayPlaylist` returns `[]`. `repeatPlaylist` and
  `shufflePlaylist` report the empty list, and so does their `Rendering`.

## Model

| member | source | states |
|---|---|---|
| `PlaylistSpec.FindFirst` | projectdatastructures_finalversion.cpp:92-118 | the scan from the head finds the first position whose title matches: every earlier title differs, and there is no result exactly when no title matches |
| `PlaylistSpec.RemoveAt` | projectdatastructures_finalversion.cpp:95-113 | unlinking one node shortens the list by one; the nodes before it keep their positions and those after it move down by one, so relative order is kept; the multiset loses exactly the removed entry |
| `PlaylistSpec.RemoveFirstDeletesOneMatch` | projectdatastructures_finalversion.cpp:91-118 | removal by title changes nothing when no title matches; otherwise it deletes exactly one occurrence of the matched song; the list shrinks if and only if some title matches |
| `PlaylistSpec.RemoveKeepsOtherCurrent` | projectdatastructures_finalversion.cpp:91-117 | since the removal does not touch the cursor, a cursor on another entry stays on the same song (its index drops by one if the removed entry came first); it dangles exactly when its own entry is removed |
| `PlaylistSpec.NextPrevRoundTrip` | projectdatastructures_finalversion.cpp:65-78 | a step forward then back (or back then forward) away from a boundary returns the cursor to its entry; a forward step leaves the cursor unchanged exactly at the last entry and a backward step exactly at the first |
| `PlaylistSpec.Range` | projectdatastructures_finalversion.cpp:146-148 | the index array starts as 0, 1, ..., size - 1 |
| `PlaylistSpec.Pick` | projectdatastructures_finalversion.cpp:152 | a raw draw taken modulo i + 1 picks a position j with 0 <= j <= i |
| `PlaylistSpec.Swap` | projectdatastructures_finalversion.cpp:153 | the swap exchanges positions i and j and leaves every other position alone |
| `PlaylistSpec.SwapPermutes` | projectdatastructures_finalversion.cpp:153 | a swap keeps the multiset of entries |
| `PlaylistSpec.SwapKeepsDistinct` | projectdatastructures_finalversion.cpp:153 | a swap keeps a repetition-free sequence repetition-free |
| `PlaylistSpec.ShuffleStepsPermutes` | projectdatastructures_finalversion.cpp:151-154 | the loop of swaps from position i down to 1 keeps the length and the multiset of entries |
| `PlaylistSpec.ShuffleStepsKeepsDistinct` | projectdatastructures_finalversion.cpp:151-154 | the loop of swaps keeps the indices free of repetitions |
| `PlaylistSpec.Resolve` | projectdatastructures_finalversion.cpp:158-161 | each shuffled index stands for the song at that position of the list |
| `PlaylistSpec.ResolveShuffleSteps` | projectdatastructures_finalversion.cpp:151-161 | shuffling the indices and then resolving them gives the same songs as shuffling the songs themselves, and the indices stay inside the list |
| `PlaylistSpec.ShuffledIndicesArePermutation` | projectdatastructures_finalversion.cpp:146-163 | after the loop the index array is a permutation of 0..size-1 with no repetition; so each song is emitted exactly once (multiset of emitted songs = multiset of the playlist), and each forward walk stays in the list |
| `Playlists.Song.constructor` | projectdatastructures_finalversion.cpp:17 | a new node holds the given title, artist and duration and has no links |
| `Playlists.Playlist.constructor` | projectdatastructures_finalversion.cpp:30 | a new playlist is valid, empty, and has no current song |
| `Playlists.Playlist.AddSong` | projectdatastructures_finalversion.cpp:42-54 | the new song is appended at the tail (songs = old songs + [song], existing nodes stay in place); size grows by one; the invariant is kept; on an empty list the cursor moves to the new song, otherwise both `currentSong` and its position are unchanged, even when it dangles |
| `Playlists.Playlist.PlayCurrentSong` | projectdatastructures_finalversion.cpp:57-62 | returns the song under the cursor, or none exactly when no song is selected |
| `Playlists.Playlist.NextSong` | projectdatastructures_finalversion.cpp:65-70 | moves to the successor and reports true exactly when the cursor is on an entry with a successor; otherwise reports the end and leaves the cursor unchanged, including when it is unset; the list is not changed |
| `Playlists.Playlist.PrevSong` | projectdatastructures_finalversion.cpp:73-78 | the mirror image of NextSong towards the head |
| `Playlists.Playlist.DisplayPlaylist` | projectdatastructures_finalversion.cpp:81-88 | the walk from the head yields exactly the stored songs in list order |
| `Playlists.Playlist.RemoveSong` | projectdatastructures_finalversion.cpp:91-119 | reports found exactly when some title matches; unlinks only the first match (songs = RemoveFirst(old songs)); the cursor field is untouched and its position follows CursorAfterRemove; with no match the list and cursor are unchanged; the invariant, including size = node count, is kept; removing the head leaves `tail` as it was, which is stale when the head was the only song |
| `Playlists.Playlist.Unlink` | projectdatastructures_finalversion.cpp:94-114 | unlinking the node at position i, by whichever of the three branches applies, removes exactly that node from the list and the footprint and keeps the invariant; at position 0 `tail` is left as it was |
| `Playlists.Playlist.UnlinkHead` | projectdatastructures_finalversion.cpp:95-101 | the head branch: the second node becomes the head with no predecessor; `tail` keeps its old value (so after removing the only song it still names the removed node) |
| `Playlists.Playlist.UnlinkTail` | projectdatastructures_finalversion.cpp:102-107 | the tail branch: the last-but-one node becomes the tail with no successor |
| `Playlists.Playlist.UnlinkMiddle` | projectdatastructures_finalversion.cpp:108-113 | the middle branch: the two neighbours are linked to each other |
| `Playlists.Playlist.RepeatPlaylist` | projectdatastructures_finalversion.cpp:122-133 | reports an empty playlist exactly when size is 0; otherwise yields the songs in list order |
| `Playlists.Playlist.ShufflePlaylist` | projectdatastructures_finalversion.cpp:136-166 | reports an empty playlist exactly when size is 0; otherwise yields the Fisher–Yates shuffle of the songs under the given draws, which holds every song exactly as often as the playlist does; the list and the cursor are not changed (the method modifies nothing) |
| `Playlists.Playlist.SongAt` | projectdatastructures_finalversion.cpp:159-161 | walking p steps forward from the head reaches the song at position p |
| `Playlists.ShuffledIndices` | projectdatastructures_finalversion.cpp:146-154 | the index array, filled with 0..n-1 and swapped in place from the last position down to 1, equals the Fisher–Yates shuffle of 0..n-1 under the draws |

## Left out

- `displayMenu` and `main` (projectdatastructures_finalversion.cpp:170-243) are not modelled. They are the interactive console loop and the `cin`/`getline` parsing.
- Console output is not modelled. Each operation returns what it would print instead: a `SongView`, a sequence of them, a `Rendering`, or a found/moved flag.
- `srand(time(nullptr))` and `rand()` (projectdatastructures_finalversion.cpp:143, 152) are not modelled. The shuffle takes the sequence of raw draws `draws` as a parameter instead, and needs at least size - 1 of them.
- The destructor and `new`/`delete` (projectdatastructures_finalversion.cpp:33-39, 99-111) are not modelled. A removed node simply leaves `Nodes` and `Repr`.
- Playlists.Playlist.NextSong: requires a cursor that is not dangling. The source reads the freed node in that case, which is undefined behaviour.
- Playlists.Playlist.PrevSong: requires a cursor that is not dangling, for the same reason.
- Playlists.Playlist.PlayCurrentSong: requires a cursor that is not dangling, for the same reason.
- Playlists.Playlist.AddSong: `size` is an unbounded integer. The C++ `int` would overflow after 2^31 - 1 appends, which memory rules out long before.
- Negative durations and empty titles are accepted unchanged, as in the source. It validates neither.
- Helper methods hold parts of the source's methods, so that each proof stays small:
  - `Unlink`, `UnlinkHead`, `UnlinkTail` and `UnlinkMiddle` hold the three branches of `removeSong`.
  - `ShuffledIndices` holds the index loops of `shufflePlaylist`.
  - `SongAt` holds its inner walk.

  The order of the steps is the source's.

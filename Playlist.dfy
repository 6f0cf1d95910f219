// The list of videos and its cursor (MediaPlayer/Playlist.cpp). The cursor is
// a size_t: it starts at npos (the largest size_t), is clamped by
// setCurrentIndex and steps circularly in next/previous. A QUrl is its text;
// the empty QUrl is the empty string.

module Playlists {

  /** 2^64, the number of size_t values. */
  const SizeRange: nat := 0x1_0000_0000_0000_0000

  /** Playlist::npos: size_t(-1). */
  const Npos: nat := SizeRange - 1

  type Url = string

  /**
   * setCurrentIndex on a list of n items: 0 when empty; otherwise an in-range
   * index is kept and any other becomes the last position.
   */
  function ClampIndex(index: nat, n: nat): (r: nat)
    ensures n == 0 ==> r == 0
    ensures n > 0 ==> r < n
    ensures n > 0 && index < n ==> r == index
    ensures n > 0 && index >= n ==> r == n - 1
  {
    if n == 0 then 0 else if index < n - 1 then index else n - 1
  }

  /** The cursor after next() on n >= 2 items: last goes to 0, anything else is incremented as a size_t. */
  function NextIndex(i: nat, n: nat): nat {
    if i == n - 1 then 0 else (i + 1) % SizeRange
  }

  /** The cursor after previous() on n >= 2 items: 0 goes to the last item, anything else is decremented. */
  function PrevIndex(i: nat, n: nat): nat
    requires 1 <= n
  {
    if i == 0 then n - 1 else i - 1
  }

  /** On a valid cursor, next and previous are the successor and predecessor modulo the size. */
  lemma StepsAreModular(i: nat, n: nat)
    requires 2 <= n <= SizeRange && i < n
    ensures NextIndex(i, n) == (i + 1) % n
    ensures PrevIndex(i, n) == (i + n - 1) % n
  {
    if i < n - 1 {
      ModOfSmall(i + 1, SizeRange);
      ModOfSmall(i + 1, n);
    }
    if i == 0 {
      ModOfSmall(n - 1, n);
    } else {
      ModOfOneMore(i - 1, n);
    }
  }

  lemma ModOfSmall(a: nat, m: nat)
    requires a < m
    ensures a % m == a
  {
  }

  lemma ModOfOneMore(a: nat, m: nat)
    requires a < m
    ensures (a + m) % m == a
  {
  }

  /** On a valid cursor, next then previous, and previous then next, come back to it. */
  lemma NextPreviousRoundTrip(i: nat, n: nat)
    requires 2 <= n <= SizeRange && i < n
    ensures NextIndex(i, n) < n && PrevIndex(i, n) < n
    ensures PrevIndex(NextIndex(i, n), n) == i
    ensures NextIndex(PrevIndex(i, n), n) == i
  {
    if i < n - 1 {
      ModOfSmall(i + 1, SizeRange);
    }
    if 0 < i {
      ModOfSmall(i, SizeRange);
    }
  }

  /** From npos, the size_t wrap-around sends next() to the first item. */
  lemma NextFromNpos(n: nat)
    requires 2 <= n <= Npos
    ensures NextIndex(Npos, n) == 0
  {
  }

  class Playlist {
    var urls: seq<Url>
    var currentIndex: nat

    /** The cursor points at an item (or the list is empty). */
    predicate CursorValid()
      reads this
    {
      urls == [] || currentIndex < |urls|
    }

    /** Playlist(urls): the cursor starts at npos. */
    constructor (urls0: seq<Url>)
      ensures urls == urls0 && currentIndex == Npos
    {
      urls := urls0;
      currentIndex := Npos;
    }

    /** size() */
    function Size(): (n: nat)
      reads this
      ensures n == |urls|
    {
      |urls|
    }

    /** empty() */
    function Empty(): (b: bool)
      reads this
      ensures b <==> Size() == 0
    {
      |urls| == 0
    }

    /** push_back: appends at the end; the cursor and the earlier items stay. */
    method PushBack(url: Url)
      modifies this
      ensures urls == old(urls) + [url] && currentIndex == old(currentIndex)
      ensures old(urls) != [] && old(CursorValid()) ==> CursorValid()
    {
      urls := urls + [url];
    }

    /** clear(): no items, cursor 0. */
    method Clear()
      modifies this
      ensures urls == [] && currentIndex == 0
      ensures CursorValid()
    {
      urls := [];
      currentIndex := 0;
    }

    /** setCurrentIndex */
    method SetCurrentIndex(index: nat)
      requires index <= Npos
      modifies this
      ensures urls == old(urls) && currentIndex == ClampIndex(index, |urls|)
      ensures CursorValid()
    {
      if urls == [] {
        currentIndex := 0;
        return;
      }
      currentIndex := if index < |urls| - 1 then index else |urls| - 1;
    }

    /** current(): the empty URL on an empty list, else the item under the cursor. */
    method Current() returns (url: Url)
      requires CursorValid()
      ensures urls == [] ==> url == ""
      ensures urls != [] ==> url == urls[currentIndex] && url in urls
    {
      if urls == [] {
        return "";
      }
      url := urls[currentIndex];
    }

    /** next(): false and no change on fewer than two items; otherwise one step forward, wrapping. */
    method Next() returns (moved: bool)
      requires currentIndex <= Npos
      modifies this
      ensures urls == old(urls)
      ensures moved <==> |urls| >= 2
      ensures !moved ==> currentIndex == old(currentIndex)
      ensures moved ==> currentIndex == NextIndex(old(currentIndex), |urls|)
      ensures old(CursorValid()) ==> CursorValid()
    {
      if urls == [] || |urls| == 1 {
        return false;
      }
      if currentIndex == |urls| - 1 {
        currentIndex := 0;
      } else {
        currentIndex := (currentIndex + 1) % SizeRange;
      }
      return true;
    }

    /** previous(): false and no change on fewer than two items; otherwise one step back, wrapping. */
    method Previous() returns (moved: bool)
      modifies this
      ensures urls == old(urls)
      ensures moved <==> |urls| >= 2
      ensures !moved ==> currentIndex == old(currentIndex)
      ensures moved ==> currentIndex == PrevIndex(old(currentIndex), |urls|)
      ensures old(CursorValid()) ==> CursorValid()
    {
      if urls == [] || |urls| == 1 {
        return false;
      }
      if currentIndex == 0 {
        currentIndex := |urls| - 1;
      } else {
        currentIndex := currentIndex - 1;
      }
      return true;
    }
  }
}

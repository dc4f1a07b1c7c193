/** The playlist cursor (`current_index_song`) and the steps `next` and
    `before` take, exactly as written: `next` wraps to 0 only once the
    incremented cursor is past the length, `before` wraps from -1 to the
    last position, and the track is then read with Python's list indexing. */
module Cursor {
  import opened Wrappers

  /** Python's `s[k]`: a negative index counts from the end, and an index
      outside `-|s| .. |s| - 1` raises `IndexError` (here: None). */
  function PyIndex<T>(s: seq<T>, k: int): Option<T> {
    if 0 <= k < |s| then Some(s[k])
    else if -|s| <= k < 0 then Some(s[|s| + k])
    else None
  }

  /** The cursor after `next` on a playlist of length `n`. */
  function NextIndex(k: int, n: nat): int {
    if k + 1 > n then 0 else k + 1
  }

  /** The cursor after `before` on a playlist of length `n`. */
  function BeforeIndex(k: int, n: nat): int {
    if k - 1 == -1 then n - 1 else k - 1
  }

  /** The cursor after `m` calls of `next`. */
  function NextIter(k: int, n: nat, m: nat): int {
    if m == 0 then k else NextIndex(NextIter(k, n, m - 1), n)
  }

  /** On a non-empty playlist both steps keep the cursor in `0 .. n`:
      `before` always lands on a track, `next` may land one past the end. */
  lemma CursorBounds(k: int, n: nat)
    requires 0 < n && 0 <= k <= n
    ensures 0 <= NextIndex(k, n) <= n
    ensures 0 <= BeforeIndex(k, n) < n
  {
  }

  /** What `next` reads, from each cursor in `0 .. |s|`: the following track
      while there is one; nothing (`IndexError`) from the last track, where
      the cursor moves to `|s|`; the first track from `|s|`. On an empty
      playlist every index fails. */
  lemma NextOutcome<T>(s: seq<T>, k: int)
    requires 0 <= k <= |s|
    ensures k + 1 < |s| ==> NextIndex(k, |s|) == k + 1 && PyIndex(s, k + 1) == Some(s[k + 1])
    ensures |s| > 0 && k == |s| - 1 ==> NextIndex(k, |s|) == |s| && PyIndex(s, |s|) == None
    ensures |s| > 0 && k == |s| ==> NextIndex(k, |s|) == 0 && PyIndex(s, 0) == Some(s[0])
    ensures |s| > 0 ==> (PyIndex(s, NextIndex(k, |s|)) == None <==> k == |s| - 1)
    ensures |s| == 0 ==> forall j :: PyIndex(s, j) == None
  {
  }

  /** What `before` reads, from each cursor in `0 .. |s|`: the preceding
      track, or the last track from 0; it never fails on a non-empty playlist. */
  lemma BeforeOutcome<T>(s: seq<T>, k: int)
    requires 0 <= k <= |s|
    ensures 0 < k ==> BeforeIndex(k, |s|) == k - 1 && PyIndex(s, k - 1) == Some(s[k - 1])
    ensures |s| > 0 && k == 0 ==> BeforeIndex(k, |s|) == |s| - 1 && PyIndex(s, |s| - 1) == Some(s[|s| - 1])
    ensures |s| > 0 ==> PyIndex(s, BeforeIndex(k, |s|)) != None
  {
  }

  /** From 0 on an empty playlist the cursor goes to -1 and the read fails. */
  lemma BeforeOnEmpty<T>(s: seq<T>)
    requires |s| == 0
    ensures BeforeIndex(0, |s|) == -1 && PyIndex(s, -1) == None
  {
  }

  /** Calls of `next` compose: `a` calls and then `b` calls are `a + b` calls. */
  lemma {:induction false} NextIterSplit(k: int, n: nat, a: nat, b: nat)
    ensures NextIter(k, n, a + b) == NextIter(NextIter(k, n, a), n, b)
  {
    if b > 0 {
      NextIterSplit(k, n, a, b - 1);
    }
  }

  /** Below the length, repeated `next` counts the cursor up one at a time,
      and one more call from the length wraps it to 0. */
  lemma {:induction false} NextRun(k: int, n: nat, m: nat)
    requires 0 <= k && k + m <= n
    ensures NextIter(k, n, m) == k + m
    ensures k + m == n ==> NextIter(k, n, m + 1) == 0
  {
    if m > 0 {
      NextRun(k, n, m - 1);
    }
  }

  /** So repeated `next` runs through the `n + 1` cursors `0 .. n` in a
      cycle: the cursor returns to where it started after `n + 1` calls, not
      after `n`, and one call in each cycle reads past the end. */
  lemma NextPeriod(k: int, n: nat)
    requires 0 < n && 0 <= k <= n
    ensures NextIter(k, n, n + 1) == k
    ensures NextIter(k, n, n) != k
  {
    NextRun(k, n, n - k);
    NextIterSplit(k, n, n - k + 1, k);
    NextRun(0, n, k);
    if k > 0 {
      NextIterSplit(k, n, n - k + 1, k - 1);
      NextRun(0, n, k - 1);
    } else {
      NextRun(0, n, n);
    }
  }

  /** `before` undoes `next` from every track; `next` undoes `before` from
      every track but the first, where it moves one past the end. */
  lemma StepsUndo(k: int, n: nat)
    requires 0 <= k < n
    ensures BeforeIndex(NextIndex(k, n), n) == k
    ensures 0 < k ==> NextIndex(BeforeIndex(k, n), n) == k
    ensures NextIndex(BeforeIndex(0, n), n) == n
  {
  }
}

/** The position arithmetic of play(): the clamp of each frame's move and the
    two edge tests that end a walk animation early. */
module Motion {

  /** `max(0, min(hi, v))` */
  function Clamp(v: int, hi: int): (r: int)
    ensures 0 <= r
    ensures 0 <= hi ==> r <= hi
    ensures 0 <= v <= hi ==> r == v
    ensures v < 0 ==> r == 0
    ensures 0 <= hi < v ==> r == hi
  {
    if hi < v then (if hi < 0 then 0 else hi) else (if v < 0 then 0 else v)
  }

  /** The sprite's x is within the screen. */
  predicate InBounds(x: int, screenWidth: int, gifWidth: int) {
    0 <= x <= screenWidth - gifWidth
  }

  predicate AllInBounds(xs: seq<int>, screenWidth: int, gifWidth: int) {
    forall k :: 0 <= k < |xs| ==> InBounds(xs[k], screenWidth, gifWidth)
  }

  /** The test play() makes after showing a frame and before moving: walking
      right stops once the sprite is within 5 px of the right edge, walking
      left once it is at or beyond the left edge. */
  predicate StopsAt(x: int, moveX: int, screenWidth: int, gifWidth: int) {
    (moveX > 0 && x + gifWidth + 5 >= screenWidth) || (moveX < 0 && x <= 0)
  }

  /** What one play() over n frames does to x: the x after every frame that
      moved, and whether the loop was left by an edge test. */
  datatype Run = Run(xs: seq<int>, stopped: bool)

  function Prepend(xs: seq<int>, r: Run): Run {
    Run(xs + r.xs, r.stopped)
  }

  function PlayRun(x: int, n: nat, moveX: int, screenWidth: int, gifWidth: int): Run
    decreases n
  {
    if n == 0 then Run([], false)
    else if StopsAt(x, moveX, screenWidth, gifWidth) then Run([], true)
    else
      var x' := Clamp(x + moveX, screenWidth - gifWidth);
      Prepend([x'], PlayRun(x', n - 1, moveX, screenWidth, gifWidth))
  }

  /** Frames shown: every frame that moved, plus the one shown before an edge test stopped the loop. */
  function Rendered(r: Run): nat {
    |r.xs| + if r.stopped then 1 else 0
  }

  /** x after the run (the starting x if no frame moved). */
  function Last(x: int, xs: seq<int>): int {
    if xs == [] then x else xs[|xs| - 1]
  }

  /** x at the start of frame k: the starting x, then the x each frame left. */
  function Before(x: int, xs: seq<int>, k: nat): int
    requires k <= |xs|
  {
    if k == 0 then x else xs[k - 1]
  }

  predicate Ascending(s: seq<int>) {
    forall i, j :: 0 <= i < j < |s| ==> s[i] <= s[j]
  }

  predicate Descending(s: seq<int>) {
    forall i, j :: 0 <= i < j < |s| ==> s[i] >= s[j]
  }

  /** play() shows at most len(frames) frames; it runs through all of them
      unless an edge test stops it, which cannot happen without movement. */
  lemma {:induction false} RunLength(x: int, n: nat, moveX: int, screenWidth: int, gifWidth: int)
    ensures var r := PlayRun(x, n, moveX, screenWidth, gifWidth);
      Rendered(r) <= n && (r.stopped ==> |r.xs| < n) && (!r.stopped ==> |r.xs| == n)
      && (moveX == 0 ==> !r.stopped)
    decreases n
  {
    if n > 0 && !StopsAt(x, moveX, screenWidth, gifWidth) {
      RunLength(Clamp(x + moveX, screenWidth - gifWidth), n - 1, moveX, screenWidth, gifWidth);
    }
  }

  /** After every frame that moved, the sprite is on the screen, whatever x it started from. */
  lemma {:induction false} RunInBounds(x: int, n: nat, moveX: int, screenWidth: int, gifWidth: int)
    requires gifWidth <= screenWidth
    ensures AllInBounds(PlayRun(x, n, moveX, screenWidth, gifWidth).xs, screenWidth, gifWidth)
    decreases n
  {
    if n > 0 && !StopsAt(x, moveX, screenWidth, gifWidth) {
      var x' := Clamp(x + moveX, screenWidth - gifWidth);
      RunInBounds(x', n - 1, moveX, screenWidth, gifWidth);
      var rest := PlayRun(x', n - 1, moveX, screenWidth, gifWidth);
      var r := PlayRun(x, n, moveX, screenWidth, gifWidth);
      assert r.xs == [x'] + rest.xs;
      forall k | 0 <= k < |r.xs| ensures InBounds(r.xs[k], screenWidth, gifWidth) {
        if k > 0 {
          assert r.xs[k] == rest.xs[k - 1];
          assert InBounds(rest.xs[k - 1], screenWidth, gifWidth);
        } else {
          assert r.xs[0] == x';
          assert InBounds(x', screenWidth, gifWidth);
        }
      }
    }
  }

  /** Walking right never moves the sprite left. */
  lemma {:induction false} RunRightAscends(x: int, n: nat, moveX: int, screenWidth: int, gifWidth: int)
    requires moveX > 0
    ensures Ascending([x] + PlayRun(x, n, moveX, screenWidth, gifWidth).xs)
    decreases n
  {
    if n > 0 && !StopsAt(x, moveX, screenWidth, gifWidth) {
      var x' := Clamp(x + moveX, screenWidth - gifWidth);
      RunRightAscends(x', n - 1, moveX, screenWidth, gifWidth);
      var rest := PlayRun(x', n - 1, moveX, screenWidth, gifWidth).xs;
      assert x <= x';
      var s := [x] + ([x'] + rest);
      assert PlayRun(x, n, moveX, screenWidth, gifWidth).xs == [x'] + rest;
      forall i, j | 0 <= i < j < |s| ensures s[i] <= s[j] {
        if i == 0 {
          assert ([x'] + rest)[0] <= ([x'] + rest)[j - 1];
        } else {
          assert s[i] == ([x'] + rest)[i - 1] && s[j] == ([x'] + rest)[j - 1];
        }
      }
    }
  }

  /** Walking left never moves the sprite right. */
  lemma {:induction false} RunLeftDescends(x: int, n: nat, moveX: int, screenWidth: int, gifWidth: int)
    requires moveX < 0
    ensures Descending([x] + PlayRun(x, n, moveX, screenWidth, gifWidth).xs)
    decreases n
  {
    if n > 0 && !StopsAt(x, moveX, screenWidth, gifWidth) {
      var x' := Clamp(x + moveX, screenWidth - gifWidth);
      RunLeftDescends(x', n - 1, moveX, screenWidth, gifWidth);
      var rest := PlayRun(x', n - 1, moveX, screenWidth, gifWidth).xs;
      assert x >= x';
      var s := [x] + ([x'] + rest);
      assert PlayRun(x, n, moveX, screenWidth, gifWidth).xs == [x'] + rest;
      forall i, j | 0 <= i < j < |s| ensures s[i] >= s[j] {
        if i == 0 {
          assert ([x'] + rest)[0] >= ([x'] + rest)[j - 1];
        } else {
          assert s[i] == ([x'] + rest)[i - 1] && s[j] == ([x'] + rest)[j - 1];
        }
      }
    }
  }

  /** A play without movement leaves an on-screen sprite where it is and shows every frame. */
  lemma {:induction false} RunStill(x: int, n: nat, screenWidth: int, gifWidth: int)
    requires InBounds(x, screenWidth, gifWidth)
    ensures var r := PlayRun(x, n, 0, screenWidth, gifWidth);
      !r.stopped && |r.xs| == n && forall k :: 0 <= k < n ==> r.xs[k] == x
    decreases n
  {
    if n > 0 {
      RunStill(x, n - 1, screenWidth, gifWidth);
      var rest := PlayRun(x, n - 1, 0, screenWidth, gifWidth);
      assert PlayRun(x, n, 0, screenWidth, gifWidth).xs == [x] + rest.xs;
    }
  }

  /** The edge tests stop the loop as soon as they hold and not before: no frame
      that moved started at a stopping x, and a stopped run ends at one. */
  lemma {:induction false} RunStopsAsSoonAs(x: int, n: nat, moveX: int, screenWidth: int, gifWidth: int)
    ensures var r := PlayRun(x, n, moveX, screenWidth, gifWidth);
      (forall k :: 0 <= k < |r.xs| ==> !StopsAt(Before(x, r.xs, k), moveX, screenWidth, gifWidth))
      && (r.stopped ==> StopsAt(Last(x, r.xs), moveX, screenWidth, gifWidth))
    decreases n
  {
    if n > 0 && !StopsAt(x, moveX, screenWidth, gifWidth) {
      var x' := Clamp(x + moveX, screenWidth - gifWidth);
      RunStopsAsSoonAs(x', n - 1, moveX, screenWidth, gifWidth);
      var rest := PlayRun(x', n - 1, moveX, screenWidth, gifWidth);
      var r := PlayRun(x, n, moveX, screenWidth, gifWidth);
      assert r.xs == [x'] + rest.xs;
      forall k | 0 <= k < |r.xs| ensures !StopsAt(Before(x, r.xs, k), moveX, screenWidth, gifWidth) {
        if k > 0 {
          assert Before(x, r.xs, k) == Before(x', rest.xs, k - 1);
        }
      }
      assert Last(x, r.xs) == Last(x', rest.xs);
    }
  }
}

/** The typing-mode state machine of the chat overlay: the cyclic frame index
    of the typing loop and the bookkeeping of entering and leaving the mode. */
module TypingMode {
  import opened Options

  /** `(idx + 1) % len(frames)`: the index the typing loop passes to its next callback. */
  function NextIndex(idx: nat, n: nat): (r: nat)
    requires n > 0
    ensures r < n
    ensures idx < n - 1 ==> r == idx + 1
    ensures idx == n - 1 ==> r == 0
  {
    (idx + 1) % n
  }

  /** The index the k-th callback of a loop started at 0 receives. */
  function IndexAfter(k: nat, n: nat): nat
    requires n > 0
  {
    if k == 0 then 0 else NextIndex(IndexAfter(k - 1, n), n)
  }

  /** The typing loop walks the frames in order: the k-th callback of the first
      pass shows frame k. */
  lemma {:induction false} IndexAfterFirstPass(k: nat, n: nat)
    requires k < n
    ensures IndexAfter(k, n) == k
  {
    if k > 0 {
      IndexAfterFirstPass(k - 1, n);
    }
  }

  /** After the last frame the loop wraps to frame 0. */
  lemma IndexAfterWraps(n: nat)
    requires n > 0
    ensures IndexAfter(n, n) == 0
  {
    IndexAfterFirstPass(n - 1, n);
  }

  /** The loop is periodic with period len(frames): together with the first
      pass, the k-th callback shows frame k mod len(frames). */
  lemma {:induction false} IndexAfterPeriodic(k: nat, n: nat)
    requires n > 0
    ensures IndexAfter(k + n, n) == IndexAfter(k, n)
  {
    if k == 0 {
      IndexAfterWraps(n);
    } else {
      IndexAfterPeriodic(k - 1, n);
      assert IndexAfter(k + n, n) == NextIndex(IndexAfter(k - 1 + n, n), n);
    }
  }

  /** The flags the mode transitions touch. `timers` are the pending timer
      callbacks, by id; `loopId` is the id of the typing loop's pending callback. */
  datatype Flags<P> = Flags(paused: bool, running: bool, loopId: Option<nat>, timers: map<nat, P>)

  /** stop_typing_animation before its closing idle play: the loop is marked
      stopped, its pending callback (if any) cancelled and forgotten, and the
      scheduler resumed. */
  function Stop<P>(f: Flags<P>): (r: Flags<P>)
    ensures !r.paused && !r.running && r.loopId == None
    ensures r.timers.Keys <= f.timers.Keys
    ensures forall id :: id in r.timers ==> r.timers[id] == f.timers[id]
    ensures f.loopId.Some? ==> r.timers.Keys == f.timers.Keys - {f.loopId.value}
    ensures f.loopId.None? ==> r.timers == f.timers
  {
    Flags(false, false, None, if f.loopId.Some? then f.timers - {f.loopId.value} else f.timers)
  }

  /** Stopping twice is stopping once. */
  lemma StopIdempotent<P>(f: Flags<P>)
    ensures Stop(Stop(f)) == Stop(f)
  {
  }

  /** With no pending loop callback, stopping touches no timer; cancelling an id
      that is no longer pending (already run) changes nothing either. */
  lemma StopWithoutPending<P>(f: Flags<P>)
    requires f.loopId.None? || f.loopId.value !in f.timers
    ensures Stop(f).timers == f.timers
  {
  }
}

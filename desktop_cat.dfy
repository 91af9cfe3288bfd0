/** DesktopCatApp: the sprite's action scheduler, its typing mode and the chat
    bookkeeping, with Tk replaced by explicit state. The label's image, the
    window position, the pending `after` callbacks and the chat windows are
    fields; `root.update()` is an oracle that may pause or resume the actions;
    the sleep between frames is a running total of milliseconds. */
module DesktopCat {
  import opened Options
  import opened Text
  import opened ChatPrompt
  import opened ActionBag
  import opened Motion
  import TypingMode

  /** The animations of GIF_FILES. */
  datatype Anim =
    | Idle | IdleToSleep | Sleep | SleepToIdle | Pizza | PizzaToIdle
    | WalkLeft | WalkRight | IdleToTyping | Typing

  /** The frame count GIF_FILES asks for; a GIF with fewer frames loads fewer. */
  function FrameLimit(a: Anim): nat {
    match a
    case Idle => 13
    case IdleToSleep => 12
    case Sleep => 22
    case SleepToIdle => 22
    case Pizza => 24
    case PizzaToIdle => 16
    case WalkLeft => 18
    case WalkRight => 14
    case IdleToTyping => 23
    case Typing => 9
  }

  /** Frame `index` of animation `anim`, as shown by the label. */
  datatype Frame = Frame(anim: Anim, index: nat)

  /** One call of play(frames, delay, move_x). */
  datatype PlayCall = PlayCall(anim: Anim, delay: nat, moveX: int)

  /** What a pending `root.after` runs. */
  datatype Callback = NextActionCb | TypingLoopCb(idx: nat)

  datatype Pending = Pending(delayMs: nat, callback: Callback)

  datatype Speaker = User | Miki

  /** A message bubble packed into the chat container of window `win`. */
  datatype Bubble = Bubble(win: nat, speaker: Speaker, text: string)

  /** A stripped, non-empty message handed to generate_response, with the window it was typed in. */
  datatype Request = Request(win: nat, msg: string)

  /** actions_paused after update k: a UI event handled inside that `root.update()`
      gives it the value `events[k]` (opening the chat sets it, closing the chat
      clears it); an update without one leaves it alone. */
  function ApplyEvent(events: map<nat, bool>, k: nat, paused: bool): bool {
    if k in events then events[k] else paused
  }

  /** actions_paused after the updates numbered from, from + 1, ..., from + m - 1. */
  function PausedAfter(events: map<nat, bool>, paused: bool, from: nat, m: nat): bool
    decreases m
  {
    if m == 0 then paused else PausedAfter(events, ApplyEvent(events, from, paused), from + 1, m - 1)
  }

  /** Without a UI event during those updates, actions_paused keeps its value. */
  lemma {:induction false} QuietKeepsPaused(events: map<nat, bool>, paused: bool, from: nat, m: nat)
    requires forall k :: from <= k < from + m ==> k !in events
    ensures PausedAfter(events, paused, from, m) == paused
    decreases m
  {
    if m > 0 {
      QuietKeepsPaused(events, paused, from + 1, m - 1);
    }
  }

  /** The last event before the updates end decides: if the last update carried one, that is the value. */
  lemma {:induction false} LastEventDecides(events: map<nat, bool>, paused: bool, from: nat, m: nat)
    requires m > 0 && from + m - 1 in events
    ensures PausedAfter(events, paused, from, m) == events[from + m - 1]
    decreases m
  {
    if m > 1 {
      LastEventDecides(events, ApplyEvent(events, from, paused), from + 1, m - 1);
    }
  }

  /** `n` copies of one play call. */
  function Repeat(c: PlayCall, n: nat): (r: seq<PlayCall>)
    ensures |r| == n
    ensures forall k :: 0 <= k < n ==> r[k] == c
  {
    if n == 0 then [] else [c] + Repeat(c, n - 1)
  }

  predicate IsPrefix(a: seq<PlayCall>, b: seq<PlayCall>) {
    |a| <= |b| && a == b[..|a|]
  }

  const IdleCall := PlayCall(Idle, 180, 0)

  /** _do_idle_n(): ten idle loops. */
  const IdleRounds: nat := 10

  const IdleScript := Repeat(IdleCall, IdleRounds)

  /** The play calls action `choice` makes when nothing pauses it (`steps` is
      the walk length random.randint(3, 6) picks). */
  function ActionScript(choice: int, steps: nat): seq<PlayCall> {
    if choice == WalkLeftAction then Repeat(PlayCall(WalkLeft, 100, -3), steps) + IdleScript
    else if choice == EatAction then [PlayCall(Pizza, 150, 0), PlayCall(PizzaToIdle, 150, 0)] + IdleScript
    else if choice == WalkRightAction then Repeat(PlayCall(WalkRight, 100, 3), steps) + IdleScript
    else if choice == SleepAction then
      [PlayCall(IdleToSleep, 150, 0), PlayCall(Sleep, 500, 0), PlayCall(SleepToIdle, 150, 0)] + IdleScript
    else IdleScript
  }

  /** How many of those calls come before the first pause check after entry. */
  function Unconditional(choice: int): nat {
    if choice == EatAction then 2 else if choice == SleepAction then 3 else 1
  }

  /** An action that started unpaused made the first plays of its script, at
      least the unconditional ones, and ended early only because it found
      actions_paused set at one of its checks. */
  predicate RanScript(done: seq<PlayCall>, script: seq<PlayCall>, unconditional: nat, pausedAfter: bool) {
    IsPrefix(done, script) && unconditional <= |done| && (done != script ==> pausedAfter)
  }

  /** The part of the app play() changes: the sprite's x, the label's image,
      actions_paused (through root.update()), the number of updates so far and
      the milliseconds slept. */
  datatype Sprite = Sprite(x: int, image: Option<Frame>, paused: bool, updates: nat, sleptMs: nat)

  /** The state after play() has run frames i, i + 1, ..., n - 1 of `anim` from state `s`. */
  function Frames(s: Sprite, anim: Anim, i: nat, n: nat, delay: nat, moveX: int,
                  screenWidth: int, gifWidth: int, events: map<nat, bool>): Sprite
    decreases n - i
  {
    if i >= n then s
    else if StopsAt(s.x, moveX, screenWidth, gifWidth) then s.(image := Some(Frame(anim, i)))
    else
      Frames(Sprite(Clamp(s.x + moveX, screenWidth - gifWidth), Some(Frame(anim, i)),
                    ApplyEvent(events, s.updates, s.paused), s.updates + 1, s.sleptMs + delay),
             anim, i + 1, n, delay, moveX, screenWidth, gifWidth, events)
  }

  /** play() follows the position run of Motion: x ends where the run ends; there
      is one update and one sleep per frame that moved; the label shows the last
      frame rendered; actions_paused is what the oracle made of it over those updates. */
  lemma FramesFollowRun(s: Sprite, anim: Anim, i: nat, n: nat, delay: nat, moveX: int,
                        screenWidth: int, gifWidth: int, events: map<nat, bool>)
    requires i <= n
    ensures var r := Frames(s, anim, i, n, delay, moveX, screenWidth, gifWidth, events);
      var run := PlayRun(s.x, n - i, moveX, screenWidth, gifWidth);
      r.x == Last(s.x, run.xs)
      && r.updates == s.updates + |run.xs|
      && r.sleptMs == s.sleptMs + |run.xs| * delay
      && r.paused == PausedAfter(events, s.paused, s.updates, |run.xs|)
      && r.image == (if Rendered(run) == 0 then s.image else Some(Frame(anim, i + Rendered(run) - 1)))
  {
    FramesPosition(s, anim, i, n, delay, moveX, screenWidth, gifWidth, events);
    FramesClock(s, anim, i, n, delay, moveX, screenWidth, gifWidth, events);
    FramesSleep(s, anim, i, n, delay, moveX, screenWidth, gifWidth, events);
  }

  /** Where the sprite ends and which frame the label shows. */
  lemma {:induction false} FramesPosition(s: Sprite, anim: Anim, i: nat, n: nat, delay: nat, moveX: int,
                                          screenWidth: int, gifWidth: int, events: map<nat, bool>)
    requires i <= n
    ensures var r := Frames(s, anim, i, n, delay, moveX, screenWidth, gifWidth, events);
      var run := PlayRun(s.x, n - i, moveX, screenWidth, gifWidth);
      r.x == Last(s.x, run.xs)
      && r.image == (if Rendered(run) == 0 then s.image else Some(Frame(anim, i + Rendered(run) - 1)))
    decreases n - i
  {
    if i < n && !StopsAt(s.x, moveX, screenWidth, gifWidth) {
      var x' := Clamp(s.x + moveX, screenWidth - gifWidth);
      var s' := Sprite(x', Some(Frame(anim, i)), ApplyEvent(events, s.updates, s.paused), s.updates + 1, s.sleptMs + delay);
      FramesPosition(s', anim, i + 1, n, delay, moveX, screenWidth, gifWidth, events);
      var rest := PlayRun(x', n - i - 1, moveX, screenWidth, gifWidth);
      assert PlayRun(s.x, n - i, moveX, screenWidth, gifWidth).xs == [x'] + rest.xs;
      assert Last(s.x, [x'] + rest.xs) == Last(x', rest.xs);
    }
  }

  /** The updates and actions_paused: one update per frame that moved. */
  lemma {:induction false} FramesClock(s: Sprite, anim: Anim, i: nat, n: nat, delay: nat, moveX: int,
                                       screenWidth: int, gifWidth: int, events: map<nat, bool>)
    requires i <= n
    ensures var r := Frames(s, anim, i, n, delay, moveX, screenWidth, gifWidth, events);
      var m := |PlayRun(s.x, n - i, moveX, screenWidth, gifWidth).xs|;
      r.updates == s.updates + m && r.paused == PausedAfter(events, s.paused, s.updates, m)
    decreases n - i
  {
    if i < n && !StopsAt(s.x, moveX, screenWidth, gifWidth) {
      var x' := Clamp(s.x + moveX, screenWidth - gifWidth);
      var s' := Sprite(x', Some(Frame(anim, i)), ApplyEvent(events, s.updates, s.paused), s.updates + 1, s.sleptMs + delay);
      FramesClock(s', anim, i + 1, n, delay, moveX, screenWidth, gifWidth, events);
      var k := |PlayRun(x', n - i - 1, moveX, screenWidth, gifWidth).xs|;
      assert |PlayRun(s.x, n - i, moveX, screenWidth, gifWidth).xs| == k + 1;
      PausedShift(events, s.paused, s.updates, k);
    }
  }

  /** The sleeping: one sleep of `delay` milliseconds per frame that moved. */
  lemma {:induction false} FramesSleep(s: Sprite, anim: Anim, i: nat, n: nat, delay: nat, moveX: int,
                                       screenWidth: int, gifWidth: int, events: map<nat, bool>)
    requires i <= n
    ensures Frames(s, anim, i, n, delay, moveX, screenWidth, gifWidth, events).sleptMs
      == s.sleptMs + |PlayRun(s.x, n - i, moveX, screenWidth, gifWidth).xs| * delay
    decreases n - i
  {
    if i < n && !StopsAt(s.x, moveX, screenWidth, gifWidth) {
      var x' := Clamp(s.x + moveX, screenWidth - gifWidth);
      var s' := Sprite(x', Some(Frame(anim, i)), ApplyEvent(events, s.updates, s.paused), s.updates + 1, s.sleptMs + delay);
      FramesSleep(s', anim, i + 1, n, delay, moveX, screenWidth, gifWidth, events);
      var k := |PlayRun(x', n - i - 1, moveX, screenWidth, gifWidth).xs|;
      assert |PlayRun(s.x, n - i, moveX, screenWidth, gifWidth).xs| == k + 1;
      MulSucc(k, delay);
    }
  }

  lemma MulSucc(k: nat, d: nat)
    ensures (k + 1) * d == k * d + d
  {
  }

  lemma PausedShift(events: map<nat, bool>, paused: bool, from: nat, m: nat)
    ensures PausedAfter(events, ApplyEvent(events, from, paused), from + 1, m) == PausedAfter(events, paused, from, m + 1)
  {
  }

  /** An on-screen sprite stays on screen through play(), and one that does not
      move stays where it is; a play without movement shows every frame. */
  lemma {:induction false} FramesInBounds(s: Sprite, anim: Anim, i: nat, n: nat, delay: nat, moveX: int,
                                          screenWidth: int, gifWidth: int, events: map<nat, bool>)
    requires i <= n && gifWidth <= screenWidth
    ensures var r := Frames(s, anim, i, n, delay, moveX, screenWidth, gifWidth, events);
      (InBounds(s.x, screenWidth, gifWidth) ==> InBounds(r.x, screenWidth, gifWidth))
      && (moveX == 0 && InBounds(s.x, screenWidth, gifWidth) ==> r.x == s.x)
      && (moveX == 0 && i < n ==>
            InBounds(r.x, screenWidth, gifWidth) && r.updates == s.updates + (n - i)
            && r.image == Some(Frame(anim, n - 1)))
    decreases n - i
  {
    if i < n && !StopsAt(s.x, moveX, screenWidth, gifWidth) {
      var x' := Clamp(s.x + moveX, screenWidth - gifWidth);
      var s' := Sprite(x', Some(Frame(anim, i)), ApplyEvent(events, s.updates, s.paused), s.updates + 1, s.sleptMs + delay);
      FramesInBounds(s', anim, i + 1, n, delay, moveX, screenWidth, gifWidth, events);
    }
  }

  /** What play() depends on besides the sprite: the loaded frame counts, the
      screen and sprite widths and the UI events of root.update(). */
  datatype Stage = Stage(frameCounts: Anim -> nat, screenWidth: int, gifWidth: int, events: map<nat, bool>)

  /** The sprite state after one play call from `s`. */
  function PlayOnce(s: Sprite, c: PlayCall, st: Stage): Sprite {
    Frames(s, c.anim, 0, st.frameCounts(c.anim), c.delay, c.moveX, st.screenWidth, st.gifWidth, st.events)
  }

  /** A routine checks actions_paused right before call k of its script: before
      the first call and before every call from `unconditional` on. */
  predicate CheckedAt(k: nat, unconditional: nat) {
    k == 0 || unconditional <= k
  }

  /** Where a routine ends: the sprite state and how many calls of its script it made. */
  datatype Outcome = Outcome(state: Sprite, made: nat)

  /** Calls k, k + 1, ... of a script as the action routines make them: a check
      that finds actions_paused set ends the routine before that call;
      otherwise the call is played and the routine goes on. */
  function RunFrom(s: Sprite, script: seq<PlayCall>, unconditional: nat, k: nat, st: Stage): (r: Outcome)
    requires k <= |script|
    ensures k <= r.made <= |script|
    decreases |script| - k
  {
    if k == |script| || (CheckedAt(k, unconditional) && s.paused) then Outcome(s, k)
    else RunFrom(PlayOnce(s, script[k], st), script, unconditional, k + 1, st)
  }

  /** A run that ends early ends at a check that found actions_paused set; the
      calls before the first check after entry are all made unless the routine
      was paused on entry. */
  lemma {:induction false} RunFromStops(s: Sprite, script: seq<PlayCall>, unconditional: nat, k: nat, st: Stage)
    requires k <= |script|
    ensures var r := RunFrom(s, script, unconditional, k, st);
      (r.made < |script| ==> r.state.paused && CheckedAt(r.made, unconditional))
      && (k < unconditional && (k > 0 || !s.paused) ==>
            r.made >= (if unconditional < |script| then unconditional else |script|))
    decreases |script| - k
  {
    if k < |script| && !(CheckedAt(k, unconditional) && s.paused) {
      RunFromStops(PlayOnce(s, script[k], st), script, unconditional, k + 1, st);
    }
  }

  /** A routine paused on entry makes no call and changes nothing. */
  lemma PausedRunsNothing(s: Sprite, script: seq<PlayCall>, unconditional: nat, st: Stage)
    requires s.paused
    ensures RunFrom(s, script, unconditional, 0, st) == Outcome(s, 0)
  {
  }

  /** An action that starts unpaused makes a prefix of its script, at least its
      unconditional calls, and ends early only on finding actions_paused set. */
  lemma ActionRanScript(s: Sprite, choice: int, steps: nat, st: Stage)
    requires !s.paused
    ensures var script := ActionScript(choice, steps);
      var r := RunFrom(s, script, Unconditional(choice), 0, st);
      RanScript(script[..r.made], script, Unconditional(choice), r.state.paused)
  {
    var script := ActionScript(choice, steps);
    assert |IdleScript| == 10;
    assert Unconditional(choice) < |script|;
    RunFromStops(s, script, Unconditional(choice), 0, st);
  }

  /** With no UI event at or after the run's first update (earlier ones, such as
      chat activity before it, are allowed), nothing pauses a running routine:
      it makes every call of its script. */
  lemma {:induction false} QuietRunsAll(s: Sprite, script: seq<PlayCall>, unconditional: nat, k: nat, st: Stage)
    requires k <= |script| && !s.paused
    requires forall e :: e in st.events ==> e < s.updates
    ensures RunFrom(s, script, unconditional, k, st).made == |script|
    ensures !RunFrom(s, script, unconditional, k, st).state.paused
    decreases |script| - k
  {
    if k < |script| {
      var c := script[k];
      var n := st.frameCounts(c.anim);
      FramesClock(s, c.anim, 0, n, c.delay, c.moveX, st.screenWidth, st.gifWidth, st.events);
      var m := |PlayRun(s.x, n, c.moveX, st.screenWidth, st.gifWidth).xs|;
      QuietKeepsPaused(st.events, s.paused, s.updates, m);
      QuietRunsAll(PlayOnce(s, c, st), script, unconditional, k + 1, st);
    }
  }

  /** Running a script whose tail `b` is checked call by call is running `a`,
      then `b` on its own. */
  lemma {:induction false} RunFromAppend(s: Sprite, a: seq<PlayCall>, b: seq<PlayCall>, unconditional: nat, j: nat, st: Stage)
    requires j <= |b| && (unconditional <= |a| || unconditional <= 1)
    ensures var r := RunFrom(s, b, 1, j, st);
      RunFrom(s, a + b, unconditional, |a| + j, st) == Outcome(r.state, |a| + r.made)
    decreases |b| - j
  {
    if j < |b| {
      assert (a + b)[|a| + j] == b[j];
      if !s.paused {
        RunFromAppend(PlayOnce(s, b[j], st), a, b, unconditional, j + 1, st);
      }
    }
  }

  class DesktopCatApp {
    const screenWidth: int
    const screenHeight: int
    const gifWidth: int
    const gifHeight: int
    /** len(self.frames[k]) for each animation. */
    const frameCounts: Anim -> nat
    /** For each root.update() that handles a UI event, the value that event gives actions_paused. */
    const uiEvents: map<nat, bool>
    /** self.gpt.ready */
    const modelReady: bool

    var x: int
    var y: int
    /** The frame the label shows. */
    var image: Option<Frame>
    /** How many root.update() calls were made. */
    var updates: nat
    /** Total time.sleep in milliseconds. */
    var sleptMs: nat
    /** Every play() call made. */
    ghost var log: seq<PlayCall>

    var actionsPaused: bool
    var actionBag: seq<int>
    var typingAnimationRunning: bool
    var typingLoopId: Option<nat>

    /** Pending root.after callbacks by id, and the id the next one gets. */
    var timers: map<nat, Pending>
    var nextTimerId: nat

    var chatCount: nat
    var chatHistory: seq<string>
    var chatWindowOpen: bool
    var currentChatWindow: Option<nat>
    /** Chat windows not yet destroyed (winfo_exists), and the id the next one gets. */
    var liveWindows: set<nat>
    var nextWindowId: nat
    var bubbles: seq<Bubble>
    /** chat_win.quit() was called: root.mainloop() returns. */
    var quitRequested: bool

    /** __init__: the sprite starts 100 px left of the right edge and 40 px
        above the bottom, every flag is cleared, the bag is full, the idle
        animation plays once and next_action is scheduled after `firstDelay`
        (random.randint(2000, 5000)). The screen size, the loaded frame counts,
        the UI events and the model are parameters. */
    constructor (screenWidth: int, screenHeight: int, gifWidth: int, gifHeight: int,
                 frameCounts: Anim -> nat, uiEvents: map<nat, bool>,
                 modelReady: bool, firstDelay: nat)
      requires gifWidth <= screenWidth && forall a :: 1 <= frameCounts(a) <= FrameLimit(a)
      requires 2000 <= firstDelay <= 5000
      ensures Valid()
      ensures this.screenWidth == screenWidth && this.screenHeight == screenHeight
      ensures this.gifWidth == gifWidth && this.gifHeight == gifHeight
      ensures this.frameCounts == frameCounts && this.uiEvents == uiEvents
      ensures this.modelReady == modelReady
      ensures y == screenHeight - gifHeight - 40
      ensures SpriteState() == Frames(Sprite(screenWidth - gifWidth - 100, None, false, 0, 0), Idle, 0,
                                      frameCounts(Idle), 180, 0, screenWidth, gifWidth, uiEvents)
      ensures log == [IdleCall]
      ensures actionBag == FullBag && !typingAnimationRunning && typingLoopId == None
      ensures timers == map[0 := Pending(firstDelay, NextActionCb)] && nextTimerId == 1
      ensures chatCount == 0 && chatHistory == [] && !chatWindowOpen && currentChatWindow == None
      ensures liveWindows == {} && bubbles == [] && !quitRequested
    {
      this.screenWidth := screenWidth;
      this.screenHeight := screenHeight;
      this.gifWidth := gifWidth;
      this.gifHeight := gifHeight;
      this.frameCounts := frameCounts;
      this.uiEvents := uiEvents;
      this.modelReady := modelReady;
      x := screenWidth - gifWidth - 100;
      y := screenHeight - gifHeight - 40;
      image := None;
      updates := 0;
      sleptMs := 0;
      log := [];
      actionsPaused := false;
      actionBag := FullBag;
      typingAnimationRunning := false;
      typingLoopId := None;
      timers := map[];
      nextTimerId := 0;
      chatCount := 0;
      chatHistory := [];
      chatWindowOpen := false;
      currentChatWindow := None;
      liveWindows := {};
      nextWindowId := 0;
      bubbles := [];
      quitRequested := false;
      new;
      Appear(firstDelay);
    }

    /** The end of __init__: the idle animation, then the first next_action timer. */
    method Appear(firstDelay: nat)
      requires Sized() && BagOk() && ChatOk() && timers == map[] && nextTimerId == 0 && typingLoopId == None
      modifies this`x, this`image, this`actionsPaused, this`updates, this`sleptMs, this`log, this`timers, this`nextTimerId
      ensures Valid()
      ensures SpriteState() == Frames(old(SpriteState()), Idle, 0, frameCounts(Idle), 180, 0, screenWidth, gifWidth, uiEvents)
      ensures log == old(log) + [IdleCall]
      ensures timers == map[0 := Pending(firstDelay, NextActionCb)] && nextTimerId == 1
    {
      ghost var start := SpriteState();
      Play(Idle, 180, 0);
      FramesInBounds(start, Idle, 0, frameCounts(Idle), 180, 0, screenWidth, gifWidth, uiEvents);
      var first := Schedule(firstDelay, NextActionCb);
    }

    /** The sprite fits on the screen and every animation loaded at least one frame. */
    predicate Sized() {
      gifWidth <= screenWidth && forall a :: 1 <= frameCounts(a) <= FrameLimit(a)
    }

    /** The action bag is a duplicate-free selection of the five actions
        (ActionBag.WellFormedMeans: the same as ActionBag.WellFormed). */
    predicate BagOk()
      reads this`actionBag
    {
      NoDup(actionBag) && forall v :: v in actionBag ==> 1 <= v <= 5
    }

    /** Every pending id, the typing loop's included, was handed out, and every
        pending typing callback carries a frame index of the typing animation. */
    predicate TimersOk()
      reads this`timers, this`typingLoopId, this`nextTimerId
    {
      (forall id :: id in timers ==> id < nextTimerId)
      && (forall id :: id in timers && timers[id].callback.TypingLoopCb? ==>
            timers[id].callback.idx < frameCounts(Typing))
      && (typingLoopId.Some? ==> typingLoopId.value < nextTimerId)
    }

    /** The history holds two alternating lines per exchange; at most one chat
        window exists, and it is the current one; bubbles belong to created windows. */
    predicate ChatOk()
      reads this`chatHistory, this`chatCount, this`chatWindowOpen, this`currentChatWindow
      reads this`liveWindows, this`nextWindowId, this`bubbles
    {
      WellFormedHistory(chatHistory) && |chatHistory| == 2 * chatCount
      && chatWindowOpen == currentChatWindow.Some?
      && liveWindows == (if currentChatWindow.Some? then {currentChatWindow.value} else {})
      && (currentChatWindow.Some? ==> currentChatWindow.value < nextWindowId)
      && (forall k :: 0 <= k < |bubbles| ==> bubbles[k].win < nextWindowId)
    }

    /** What play() and the actions need and keep. */
    predicate OnScreen()
      reads this`x
    {
      Sized() && InBounds(x, screenWidth, gifWidth)
    }

    predicate Valid()
      reads this
    {
      OnScreen() && BagOk() && TimersOk() && ChatOk()
    }

    ghost function TypingFlags(): TypingMode.Flags<Pending>
      reads this`actionsPaused, this`typingAnimationRunning, this`typingLoopId, this`timers
    {
      TypingMode.Flags(actionsPaused, typingAnimationRunning, typingLoopId, timers)
    }

    /** root.update(): pending UI events run; their effect on actions_paused is the oracle's. */
    method Update()
      modifies this`actionsPaused, this`updates
      ensures updates == old(updates) + 1
      ensures actionsPaused == ApplyEvent(uiEvents, old(updates), old(actionsPaused))
    {
      actionsPaused := ApplyEvent(uiEvents, updates, actionsPaused);
      updates := updates + 1;
    }

    /** The stage play() runs on. */
    function Setting(): Stage {
      Stage(frameCounts, screenWidth, gifWidth, uiEvents)
    }

    ghost function SpriteState(): Sprite
      reads this`x, this`image, this`actionsPaused, this`updates, this`sleptMs
    {
      Sprite(x, image, actionsPaused, updates, sleptMs)
    }

    /** play(frames, delay, move_x): show each frame; stop at an edge; else move
        by move_x within the screen, update and sleep. */
    method Play(anim: Anim, delay: nat, moveX: int)
      requires gifWidth <= screenWidth && 1 <= frameCounts(anim)
      modifies this`x, this`image, this`actionsPaused, this`updates, this`sleptMs, this`log
      ensures SpriteState() == Frames(old(SpriteState()), anim, 0, frameCounts(anim), delay, moveX, screenWidth, gifWidth, uiEvents)
      ensures SpriteState() == PlayOnce(old(SpriteState()), PlayCall(anim, delay, moveX), Setting())
      ensures log == old(log) + [PlayCall(anim, delay, moveX)]
      ensures InBounds(old(x), screenWidth, gifWidth) ==> InBounds(x, screenWidth, gifWidth)
      ensures moveX == 0 && InBounds(old(x), screenWidth, gifWidth) ==> x == old(x)
    {
      var n := frameCounts(anim);
      ghost var start := SpriteState();
      ghost var target := Frames(start, anim, 0, n, delay, moveX, screenWidth, gifWidth, uiEvents);
      for i := 0 to n
        invariant Frames(SpriteState(), anim, i, n, delay, moveX, screenWidth, gifWidth, uiEvents) == target
        modifies this`x, this`image, this`actionsPaused, this`updates, this`sleptMs
      {
        image := Some(Frame(anim, i));
        if StopsAt(x, moveX, screenWidth, gifWidth) {
          break;
        }
        x := Clamp(x + moveX, screenWidth - gifWidth);
        Update();
        sleptMs := sleptMs + delay;
      }
      FramesInBounds(start, anim, 0, n, delay, moveX, screenWidth, gifWidth, uiEvents);
      log := log + [PlayCall(anim, delay, moveX)];
    }

    /** _do_idle_n(n): up to n idle loops, each after a check that ends the
        loop if actions_paused is set. */
    method DoIdleN(n: nat) returns (ghost done: seq<PlayCall>)
      requires OnScreen()
      modifies this`x, this`image, this`actionsPaused, this`updates, this`sleptMs, this`log
      ensures OnScreen()
      ensures log == old(log) + done
      ensures var r := RunFrom(old(SpriteState()), Repeat(IdleCall, n), 1, 0, Setting());
        SpriteState() == r.state && done == Repeat(IdleCall, n)[..r.made]
      ensures x == old(x) && y == old(y)
    {
      ghost var script := Repeat(IdleCall, n);
      ghost var target := RunFrom(SpriteState(), script, 1, 0, Setting());
      done := [];
      var i := 0;
      while i < n
        invariant 0 <= i <= n
        invariant OnScreen()
        invariant x == old(x)
        invariant log == old(log) + done && done == script[..i]
        invariant RunFrom(SpriteState(), script, 1, i, Setting()) == target
      {
        if actionsPaused {
          return;
        }
        Play(Idle, 180, 0);
        done := done + [IdleCall];
        assert done == script[..i + 1];
        i := i + 1;
      }
    }

    /** The walk loop of action_walk_left/right: up to `steps` walk plays, each
        after a pause check; `completed` is false when a check returned from
        the action. `rest` is what the action would run after the loop. */
    method WalkSteps(anim: Anim, moveX: int, steps: nat, ghost rest: seq<PlayCall>)
      returns (completed: bool, ghost done: seq<PlayCall>)
      requires OnScreen()
      modifies this`x, this`image, this`actionsPaused, this`updates, this`sleptMs, this`log
      ensures OnScreen()
      ensures log == old(log) + done && y == old(y)
      ensures var script := Repeat(PlayCall(anim, 100, moveX), steps) + rest;
        |done| <= steps && done == script[..|done|]
        && RunFrom(SpriteState(), script, 1, |done|, Setting()) == RunFrom(old(SpriteState()), script, 1, 0, Setting())
      ensures completed <==> |done| == steps
      ensures !completed ==> actionsPaused
    {
      ghost var script := Repeat(PlayCall(anim, 100, moveX), steps) + rest;
      done := [];
      var i := 0;
      while i < steps
        invariant 0 <= i <= steps
        invariant OnScreen()
        invariant y == old(y)
        invariant log == old(log) + done && done == script[..i]
        invariant RunFrom(SpriteState(), script, 1, i, Setting()) == RunFrom(old(SpriteState()), script, 1, 0, Setting())
      {
        if actionsPaused {
          return false, done;
        }
        assert script[i] == PlayCall(anim, 100, moveX);
        Play(anim, 100, moveX);
        done := done + [PlayCall(anim, 100, moveX)];
        assert done == script[..i + 1];
        i := i + 1;
      }
      completed := true;
    }

    /** The body of action_walk_left/right: the walk loop, then _do_idle_n(). */
    method Walk(anim: Anim, moveX: int, steps: nat) returns (ghost done: seq<PlayCall>)
      requires OnScreen()
      modifies this`x, this`image, this`actionsPaused, this`updates, this`sleptMs, this`log
      ensures OnScreen()
      ensures log == old(log) + done
      ensures y == old(y)
      ensures var script := Repeat(PlayCall(anim, 100, moveX), steps) + IdleScript;
        var r := RunFrom(old(SpriteState()), script, 1, 0, Setting());
        SpriteState() == r.state && done == script[..r.made]
    {
      ghost var walks := Repeat(PlayCall(anim, 100, moveX), steps);
      ghost var script := walks + IdleScript;
      var completed;
      completed, done := WalkSteps(anim, moveX, steps, IdleScript);
      if !completed {
        return;
      }
      ghost var walked := done;
      assert walked == walks;
      RunFromAppend(SpriteState(), walks, IdleScript, 1, 0, Setting());
      var idle := DoIdleN(IdleRounds);
      done := walked + idle;
      assert done == script[..|walks| + |idle|];
    }

    /** action_walk_left(): `steps` is random.randint(3, 6). */
    method ActionWalkLeft(steps: nat) returns (ghost done: seq<PlayCall>)
      requires OnScreen() && 3 <= steps <= 6
      modifies this`x, this`image, this`actionsPaused, this`updates, this`sleptMs, this`log
      ensures OnScreen()
      ensures log == old(log) + done && y == old(y)
      ensures var script := ActionScript(WalkLeftAction, steps);
        var r := RunFrom(old(SpriteState()), script, Unconditional(WalkLeftAction), 0, Setting());
        SpriteState() == r.state && done == script[..r.made]
    {
      done := Walk(WalkLeft, -3, steps);
    }

    /** action_walk_right(): `steps` is random.randint(3, 6). */
    method ActionWalkRight(steps: nat) returns (ghost done: seq<PlayCall>)
      requires OnScreen() && 3 <= steps <= 6
      modifies this`x, this`image, this`actionsPaused, this`updates, this`sleptMs, this`log
      ensures OnScreen()
      ensures log == old(log) + done && y == old(y)
      ensures var script := ActionScript(WalkRightAction, steps);
        var r := RunFrom(old(SpriteState()), script, Unconditional(WalkRightAction), 0, Setting());
        SpriteState() == r.state && done == script[..r.made]
    {
      done := Walk(WalkRight, 3, steps);
    }

    /** action_eat(): a check on entry, then eat and return to idle without a
        check in between, then _do_idle_n(). */
    method ActionEat() returns (ghost done: seq<PlayCall>)
      requires OnScreen()
      modifies this`x, this`image, this`actionsPaused, this`updates, this`sleptMs, this`log
      ensures OnScreen()
      ensures log == old(log) + done && x == old(x) && y == old(y)
      ensures var script := ActionScript(EatAction, 0);
        var r := RunFrom(old(SpriteState()), script, Unconditional(EatAction), 0, Setting());
        SpriteState() == r.state && done == script[..r.made]
    {
      ghost var head := [PlayCall(Pizza, 150, 0), PlayCall(PizzaToIdle, 150, 0)];
      ghost var script := head + IdleScript;
      done := [];
      if actionsPaused {
        return;
      }
      ghost var s0 := SpriteState();
      Play(Pizza, 150, 0);
      ghost var s1 := SpriteState();
      Play(PizzaToIdle, 150, 0);
      assert RunFrom(s0, script, 2, 0, Setting()) == RunFrom(s1, script, 2, 1, Setting());
      assert RunFrom(s1, script, 2, 1, Setting()) == RunFrom(SpriteState(), script, 2, 2, Setting());
      RunFromAppend(SpriteState(), head, IdleScript, 2, 0, Setting());
      var idle := DoIdleN(IdleRounds);
      done := head + idle;
      assert done == script[..2 + |idle|];
    }

    /** action_sleep(): a check on entry, then fall asleep, sleep and wake up
        without a check in between, then _do_idle_n(). */
    method ActionSleep() returns (ghost done: seq<PlayCall>)
      requires OnScreen()
      modifies this`x, this`image, this`actionsPaused, this`updates, this`sleptMs, this`log
      ensures OnScreen()
      ensures log == old(log) + done && x == old(x) && y == old(y)
      ensures var script := ActionScript(SleepAction, 0);
        var r := RunFrom(old(SpriteState()), script, Unconditional(SleepAction), 0, Setting());
        SpriteState() == r.state && done == script[..r.made]
    {
      ghost var head := [PlayCall(IdleToSleep, 150, 0), PlayCall(Sleep, 500, 0), PlayCall(SleepToIdle, 150, 0)];
      ghost var script := head + IdleScript;
      done := [];
      if actionsPaused {
        return;
      }
      ghost var s0 := SpriteState();
      Play(IdleToSleep, 150, 0);
      ghost var s1 := SpriteState();
      Play(Sleep, 500, 0);
      ghost var s2 := SpriteState();
      Play(SleepToIdle, 150, 0);
      assert RunFrom(s0, script, 3, 0, Setting()) == RunFrom(s1, script, 3, 1, Setting());
      assert RunFrom(s1, script, 3, 1, Setting()) == RunFrom(s2, script, 3, 2, Setting());
      assert RunFrom(s2, script, 3, 2, Setting()) == RunFrom(SpriteState(), script, 3, 3, Setting());
      RunFromAppend(SpriteState(), head, IdleScript, 3, 0, Setting());
      var idle := DoIdleN(IdleRounds);
      done := head + idle;
      assert done == script[..3 + |idle|];
    }

    /** action_idle_only(): a check on entry, then _do_idle_n(). */
    method ActionIdleOnly() returns (ghost done: seq<PlayCall>)
      requires OnScreen()
      modifies this`x, this`image, this`actionsPaused, this`updates, this`sleptMs, this`log
      ensures OnScreen()
      ensures log == old(log) + done && x == old(x) && y == old(y)
      ensures var script := ActionScript(IdleAction, 0);
        var r := RunFrom(old(SpriteState()), script, Unconditional(IdleAction), 0, Setting());
        SpriteState() == r.state && done == script[..r.made]
    {
      done := [];
      if actionsPaused {
        return;
      }
      done := DoIdleN(IdleRounds);
    }

    /** root.after(delay, callback): a new pending callback under a fresh id. */
    method Schedule(delay: nat, callback: Callback) returns (id: nat)
      requires forall k :: k in timers ==> k < nextTimerId
      modifies this`timers, this`nextTimerId
      ensures id == old(nextTimerId) && id !in old(timers)
      ensures timers == old(timers)[id := Pending(delay, callback)]
      ensures nextTimerId == id + 1
    {
      id := nextTimerId;
      timers := timers[id := Pending(delay, callback)];
      nextTimerId := nextTimerId + 1;
    }

    /** next_action(): re-arm after a second while paused; otherwise draw an
        action from the bag (refilled when empty), run it and re-arm after a
        random delay. `choice` is random.choice(bag), `steps` the walk length,
        `delay` random.randint(2000, 5000). */
    method NextAction(choice: int, steps: nat, delay: nat) returns (ghost done: seq<PlayCall>)
      requires Valid()
      requires 3 <= steps <= 6 && 2000 <= delay <= 5000
      requires !actionsPaused ==> choice in Refilled(actionBag)
      modifies this`x, this`image, this`actionsPaused, this`updates, this`sleptMs, this`log
      modifies this`actionBag, this`timers, this`nextTimerId
      ensures Valid()
      ensures log == old(log) + done
      ensures nextTimerId == old(nextTimerId) + 1
      ensures old(actionsPaused) ==>
        actionBag == old(actionBag) && done == [] && SpriteState() == old(SpriteState())
        && timers == old(timers)[old(nextTimerId) := Pending(1000, NextActionCb)]
      ensures !old(actionsPaused) ==>
        var r := RunFrom(old(SpriteState()), ActionScript(choice, steps), Unconditional(choice), 0, Setting());
        actionBag == Draw(old(actionBag), choice)
        && SpriteState() == r.state && done == ActionScript(choice, steps)[..r.made]
        && timers == old(timers)[old(nextTimerId) := Pending(delay, NextActionCb)]
    {
      done := [];
      if actionsPaused {
        var _ := Schedule(1000, NextActionCb);
        return;
      }
      done := DrawAndRun(choice, steps);
      var _ := Schedule(delay, NextActionCb);
    }

    /** The unpaused part of next_action before it re-arms: refill an empty bag,
        take the chosen action out of it and run that action. */
    method DrawAndRun(choice: int, steps: nat) returns (ghost done: seq<PlayCall>)
      requires OnScreen() && BagOk() && !actionsPaused && 3 <= steps <= 6
      requires choice in Refilled(actionBag)
      modifies this`x, this`image, this`actionsPaused, this`updates, this`sleptMs, this`log
      modifies this`actionBag
      ensures OnScreen() && BagOk()
      ensures log == old(log) + done
      ensures actionBag == Draw(old(actionBag), choice)
      ensures var r := RunFrom(old(SpriteState()), ActionScript(choice, steps), Unconditional(choice), 0, Setting());
        SpriteState() == r.state && done == ActionScript(choice, steps)[..r.made]
    {
      WellFormedMeans(actionBag);
      DrawKeepsWellFormed(actionBag, choice);
      WellFormedMeans(Draw(actionBag, choice));
      actionBag := Draw(actionBag, choice);
      done := RunAction(choice, steps);
    }

    /** The if/elif chain of next_action: 1 walks left, 2 eats, 3 walks right,
        4 sleeps, anything else idles. */
    method RunAction(choice: int, steps: nat) returns (ghost done: seq<PlayCall>)
      requires OnScreen() && !actionsPaused && 3 <= steps <= 6
      modifies this`x, this`image, this`actionsPaused, this`updates, this`sleptMs, this`log
      ensures OnScreen()
      ensures log == old(log) + done
      ensures var r := RunFrom(old(SpriteState()), ActionScript(choice, steps), Unconditional(choice), 0, Setting());
        SpriteState() == r.state && done == ActionScript(choice, steps)[..r.made]
    {
      if choice == WalkLeftAction {
        done := ActionWalkLeft(steps);
      } else if choice == EatAction {
        done := ActionEat();
      } else if choice == WalkRightAction {
        done := ActionWalkRight(steps);
      } else if choice == SleepAction {
        done := ActionSleep();
      } else {
        done := ActionIdleOnly();
      }
    }

    /** _start_typing_loop(idx): while typing mode runs, show typing frame
        idx % len(frames) and come back with (idx + 1) % len(frames) after 120 ms;
        once the mode has stopped, show nothing and schedule nothing. */
    method StartTypingLoop(idx: nat)
      requires Sized() && TimersOk()
      modifies this`image, this`timers, this`nextTimerId, this`typingLoopId
      ensures TimersOk()
      ensures !typingAnimationRunning ==>
        image == old(image) && timers == old(timers) && nextTimerId == old(nextTimerId)
        && typingLoopId == old(typingLoopId)
      ensures typingAnimationRunning ==>
        image == Some(Frame(Typing, idx % frameCounts(Typing)))
        && typingLoopId == Some(old(nextTimerId)) && nextTimerId == old(nextTimerId) + 1
        && timers == old(timers)[old(nextTimerId) :=
                                 Pending(120, TypingLoopCb(TypingMode.NextIndex(idx, frameCounts(Typing))))]
    {
      if !typingAnimationRunning {
        return;
      }
      var n := frameCounts(Typing);
      image := Some(Frame(Typing, idx % n));
      var next := TypingMode.NextIndex(idx, n);
      var id := Schedule(120, TypingLoopCb(next));
      typingLoopId := Some(id);
    }

    /** start_typing_animation(): pause the scheduler, enter typing mode and start
        the loop at frame 0. */
    method StartTypingAnimation()
      requires Sized() && TimersOk()
      modifies this`actionsPaused, this`typingAnimationRunning
      modifies this`image, this`timers, this`nextTimerId, this`typingLoopId
      ensures TimersOk()
      ensures actionsPaused && typingAnimationRunning
      ensures image == Some(Frame(Typing, 0))
      ensures typingLoopId == Some(old(nextTimerId)) && nextTimerId == old(nextTimerId) + 1
      ensures timers == old(timers)[old(nextTimerId) :=
                                    Pending(120, TypingLoopCb(TypingMode.NextIndex(0, frameCounts(Typing))))]
    {
      actionsPaused := true;
      typingAnimationRunning := true;
      StartTypingLoop(0);
    }

    /** stop_typing_animation(): leave typing mode, cancel the pending loop
        callback if there is one (cancelling one that already ran does nothing),
        resume the scheduler and play the idle animation once. */
    method StopTypingAnimation()
      requires OnScreen() && TimersOk()
      modifies this`typingAnimationRunning, this`typingLoopId, this`timers
      modifies this`x, this`image, this`actionsPaused, this`updates, this`sleptMs, this`log
      ensures OnScreen() && TimersOk()
      ensures !typingAnimationRunning && typingLoopId == None
      ensures timers == TypingMode.Stop(old(TypingFlags())).timers
      ensures SpriteState() == Frames(old(SpriteState()).(paused := false), Idle, 0, frameCounts(Idle), 180, 0,
                                      screenWidth, gifWidth, uiEvents)
      ensures log == old(log) + [IdleCall] && x == old(x)
    {
      typingAnimationRunning := false;
      if typingLoopId.Some? {
        timers := timers - {typingLoopId.value};
        typingLoopId := None;
      }
      actionsPaused := false;
      Play(Idle, 180, 0);
    }

    /** open_chat_window(): destroy the current chat window if there is one,
        create a new one (`w`), make it current and enter typing mode. The chat
        count and history are left as they are. */
    method OpenChatWindow() returns (w: nat)
      requires Sized() && TimersOk() && ChatOk()
      modifies this`liveWindows, this`nextWindowId, this`currentChatWindow, this`chatWindowOpen
      modifies this`actionsPaused, this`typingAnimationRunning
      modifies this`image, this`timers, this`nextTimerId, this`typingLoopId
      ensures TimersOk() && ChatOk()
      ensures w == old(nextWindowId) && w !in old(liveWindows) && nextWindowId == w + 1
      ensures liveWindows == {w} && currentChatWindow == Some(w) && chatWindowOpen
      ensures chatCount == old(chatCount) && chatHistory == old(chatHistory) && bubbles == old(bubbles)
      ensures actionsPaused && typingAnimationRunning
      ensures image == Some(Frame(Typing, 0))
      ensures typingLoopId == Some(old(nextTimerId)) && nextTimerId == old(nextTimerId) + 1
      ensures timers == old(timers)[old(nextTimerId) :=
                                    Pending(120, TypingLoopCb(TypingMode.NextIndex(0, frameCounts(Typing))))]
    {
      w := ReplaceWindow();
      StartTypingAnimation();
    }

    /** The window half of open_chat_window(): destroy the current window if
        there is one, create the new one and make it current. */
    method ReplaceWindow() returns (w: nat)
      requires ChatOk()
      modifies this`liveWindows, this`nextWindowId, this`currentChatWindow, this`chatWindowOpen
      ensures ChatOk()
      ensures w == old(nextWindowId) && w !in old(liveWindows) && nextWindowId == w + 1
      ensures liveWindows == {w} && currentChatWindow == Some(w) && chatWindowOpen
    {
      if currentChatWindow.Some? {
        liveWindows := liveWindows - {currentChatWindow.value};
      }
      w := nextWindowId;
      nextWindowId := nextWindowId + 1;
      liveWindows := liveWindows + {w};
      currentChatWindow := Some(w);
      chatWindowOpen := true;
    }

    /** send_message() of window `w` with the entry holding `entryText`: nothing
        happens if the window is gone or the stripped text is empty; otherwise
        the user's bubble is added and the stripped text goes to generate_response. */
    method SendMessage(w: nat, entryText: string) returns (req: Option<Request>)
      requires ChatOk() && w < nextWindowId
      modifies this`bubbles
      ensures ChatOk()
      ensures req.None? <==> w !in liveWindows || AllSpace(entryText)
      ensures req.None? ==> bubbles == old(bubbles)
      ensures req.Some? ==>
        req.value == Request(w, Strip(entryText)) && Strip(entryText) != []
        && bubbles == old(bubbles) + [Bubble(w, User, Strip(entryText))]
    {
      if w !in liveWindows {
        return None;
      }
      var msg := Strip(entryText);
      StripEmptyIff(entryText);
      if msg == [] {
        return None;
      }
      bubbles := bubbles + [Bubble(w, User, msg)];
      req := Some(Request(w, msg));
    }

    /** generate_response() for a message sent from window `req.win`: count the
        exchange, build the prompt, get the reply (the canned one when the model
        is not ready, else `modelReply`, what self.gpt.generate(prompt)
        answered), record both lines in the history, and add Miki's bubble only
        if that window still exists. */
    method GenerateResponse(req: Request, modelReply: string) returns (prompt: string, response: string)
      requires ChatOk() && req.win < nextWindowId
      modifies this`chatCount, this`chatHistory, this`bubbles
      ensures ChatOk()
      ensures prompt == Prompt(req.msg)
      ensures response == Respond(req.msg, modelReady, modelReply)
      ensures chatCount == old(chatCount) + 1
      ensures chatHistory == old(chatHistory) + [UserTag + req.msg, MikiTag + response]
      ensures req.win in liveWindows ==> bubbles == old(bubbles) + [Bubble(req.win, Miki, response)]
      ensures req.win !in liveWindows ==> bubbles == old(bubbles)
    {
      chatCount := chatCount + 1;
      prompt := Prompt(req.msg);
      response := Respond(req.msg, modelReady, modelReply);
      ExchangeKeepsHistory(chatHistory, req.msg, response);
      chatHistory := chatHistory + Exchange(req.msg, response);
      if req.win !in liveWindows {
        return;
      }
      bubbles := bubbles + [Bubble(req.win, Miki, response)];
    }

    /** on_close() of window `w`: no chat window is open any more, typing mode
        stops, the main loop is asked to return and the window is destroyed. */
    method OnClose(w: nat)
      requires OnScreen() && TimersOk() && ChatOk() && w in liveWindows
      modifies this`chatWindowOpen, this`currentChatWindow, this`liveWindows, this`quitRequested
      modifies this`typingAnimationRunning, this`typingLoopId, this`timers
      modifies this`x, this`image, this`actionsPaused, this`updates, this`sleptMs, this`log
      ensures OnScreen() && TimersOk() && ChatOk()
      ensures !chatWindowOpen && currentChatWindow == None && liveWindows == {} && quitRequested
      ensures chatCount == old(chatCount) && chatHistory == old(chatHistory)
      ensures !typingAnimationRunning && typingLoopId == None
      ensures timers == TypingMode.Stop(old(TypingFlags())).timers
      ensures SpriteState() == Frames(old(SpriteState()).(paused := false), Idle, 0, frameCounts(Idle), 180, 0,
                                      screenWidth, gifWidth, uiEvents)
    {
      CloseWindow(w);
      StopTypingAnimation();
    }

    /** The window half of on_close(): chat_window_open and current_chat_window
        are cleared, then chat_win.quit() and chat_win.destroy(). Nothing the
        stop of typing mode reads or writes depends on these fields, so the
        model clears them all before the stop, where the source runs the two
        calls on the window after it. */
    method CloseWindow(w: nat)
      requires ChatOk() && w in liveWindows
      modifies this`chatWindowOpen, this`currentChatWindow, this`liveWindows, this`quitRequested
      ensures ChatOk()
      ensures !chatWindowOpen && currentChatWindow == None && liveWindows == old(liveWindows) - {w} == {}
      ensures quitRequested
    {
      chatWindowOpen := false;
      currentChatWindow := None;
      quitRequested := true;
      liveWindows := liveWindows - {w};
    }

    /** Tk's event loop running pending callback `id` (registered by root.after):
        it stops being pending, then next_action or the typing loop runs.
        `choice`, `steps` and `delay` are the random draws next_action makes. */
    method Fire(id: nat, choice: int, steps: nat, delay: nat) returns (ghost done: seq<PlayCall>)
      requires Valid() && id in timers
      requires 3 <= steps <= 6 && 2000 <= delay <= 5000
      requires timers[id].callback.NextActionCb? && !actionsPaused ==> choice in Refilled(actionBag)
      modifies this`x, this`image, this`actionsPaused, this`updates, this`sleptMs, this`log
      modifies this`actionBag, this`timers, this`nextTimerId, this`typingLoopId
      ensures Valid()
      ensures id !in timers
      ensures log == old(log) + done
      ensures old(timers[id].callback).NextActionCb? ==>
        typingLoopId == old(typingLoopId) && nextTimerId == old(nextTimerId) + 1
      ensures old(timers[id].callback).NextActionCb? && old(actionsPaused) ==>
        actionBag == old(actionBag) && done == [] && SpriteState() == old(SpriteState())
        && timers == (old(timers) - {id})[old(nextTimerId) := Pending(1000, NextActionCb)]
      ensures old(timers[id].callback).NextActionCb? && !old(actionsPaused) ==>
        var r := RunFrom(old(SpriteState()), ActionScript(choice, steps), Unconditional(choice), 0, Setting());
        actionBag == Draw(old(actionBag), choice)
        && SpriteState() == r.state && done == ActionScript(choice, steps)[..r.made]
        && timers == (old(timers) - {id})[old(nextTimerId) := Pending(delay, NextActionCb)]
      ensures old(timers[id].callback).TypingLoopCb? ==>
        var idx := old(timers[id].callback).idx;
        done == [] && actionBag == old(actionBag) && SpriteState().(image := old(image)) == old(SpriteState())
        && (!typingAnimationRunning ==>
              image == old(image) && timers == old(timers) - {id} && nextTimerId == old(nextTimerId)
              && typingLoopId == old(typingLoopId))
        && (typingAnimationRunning ==>
              image == Some(Frame(Typing, idx % frameCounts(Typing)))
              && typingLoopId == Some(old(nextTimerId)) && nextTimerId == old(nextTimerId) + 1
              && timers == (old(timers) - {id})[old(nextTimerId) :=
                                                Pending(120, TypingLoopCb(TypingMode.NextIndex(idx, frameCounts(Typing))))])
    {
      var callback := timers[id].callback;
      timers := timers - {id};
      match callback
      case NextActionCb =>
        done := NextAction(choice, steps, delay);
      case TypingLoopCb(idx) =>
        StartTypingLoop(idx);
        done := [];
    }
  }
}

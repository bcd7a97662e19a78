/**
 * The hotkey listener's long-press detector: a `playPause` arriving less than
 * 50 ms after the previous hotkey starts a fast-playback press, and a single
 * 500 ms end timer, restarted by every such repeat, ends it. Time is an explicit
 * argument and the timer is its deadline.
 */
module LongPress {
  import opened Common
  import opened Router

  const LONGPRESS_THRESHOLD_MS := 50
  const LONGPRESS_END_TIME_MS := 500

  /** What the detector hands to `sendAction`. */
  datatype Output =
    | Forward(command: string)   // a standard press: the hotkey's own command, no arguments
    | PressStart                 // `sendAction("playBackRate", 2)`
    | PressEnd                   // `sendAction("playBackRate", 1)`

  /** The command name and arguments `sendAction` receives for an output. */
  function ToAction(o: Output): (string, seq<Value>) {
    match o
    case Forward(c) => (c, [])
    case PressStart => ("playBackRate", [Num(2)])
    case PressEnd => ("playBackRate", [Num(1)])
  }

  /** The hotkey listener hands the detector's output to `sendAction`. */
  function Dispatch(o: Output, ctx: Context): seq<Send> {
    SendAction(ToAction(o).0, ToAction(o).1, ctx)
  }

  /** `lastCmdTimestamp`, `longPressStarted` and the deadline of `longPressEndTimer`, if one is pending. */
  datatype PressState = PressState(lastCmdTimestamp: int, longPressStarted: bool, endDeadline: Option<int>)

  /** The values at page load: no hotkey yet (time 0), no press, no timer. */
  const Initial := PressState(0, false, None)

  /** A hotkey that continues or starts a long press. */
  predicate Qualifies(s: PressState, command: string, now: int) {
    now - s.lastCmdTimestamp < LONGPRESS_THRESHOLD_MS && command == "playPause"
  }

  /** A press is under way exactly when its end timer is pending. */
  predicate Consistent(s: PressState) {
    s.longPressStarted <==> s.endDeadline.Some?
  }

  /** The hotkey listener for `command` arriving at `now`. */
  function OnCommand(s: PressState, command: string, now: int): (r: (PressState, seq<Output>))
    ensures r.0.lastCmdTimestamp == now
    ensures Qualifies(s, command, now) ==>
              r.0.longPressStarted && r.0.endDeadline == Some(now + LONGPRESS_END_TIME_MS)
              && r.1 == (if s.longPressStarted then [] else [PressStart])
    ensures !Qualifies(s, command, now) ==>
              r.1 == [Forward(command)]
              && r.0.longPressStarted == s.longPressStarted && r.0.endDeadline == s.endDeadline
    ensures Consistent(s) ==> Consistent(r.0)
  {
    var timeBetweenCmds := now - s.lastCmdTimestamp;
    if timeBetweenCmds < LONGPRESS_THRESHOLD_MS && command == "playPause" then
      var out := if !s.longPressStarted then [PressStart] else [];
      (PressState(now, true, Some(now + LONGPRESS_END_TIME_MS)), out)
    else
      (PressState(now, s.longPressStarted, s.endDeadline), [Forward(command)])
  }

  /** The end timer fires: the press ends and playback returns to normal speed. */
  function OnEndTimer(s: PressState): (r: (PressState, seq<Output>))
    requires s.endDeadline.Some?
    ensures r.0 == PressState(s.lastCmdTimestamp, false, None) && r.1 == [PressEnd]
  {
    (PressState(s.lastCmdTimestamp, false, None), [PressEnd])
  }

  /** The detector as the script's variables, updated in place by its two callbacks. */
  class LongPressDetector {
    var lastCmdTimestamp: int
    var longPressStarted: bool
    var longPressEndTimer: Option<int>

    function State(): PressState
      reads this
    {
      PressState(lastCmdTimestamp, longPressStarted, longPressEndTimer)
    }

    constructor ()
      ensures State() == Initial
    {
      lastCmdTimestamp := 0;
      longPressStarted := false;
      longPressEndTimer := None;
    }

    /** `chrome.commands.onCommand`. */
    method HandleCommand(command: string, now: int) returns (out: seq<Output>)
      modifies this
      ensures (State(), out) == OnCommand(old(State()), command, now)
    {
      var timeBetweenCmds := now - lastCmdTimestamp;
      lastCmdTimestamp := now;
      if timeBetweenCmds < LONGPRESS_THRESHOLD_MS && command == "playPause" {
        out := [];
        if !longPressStarted {
          out := LongPressEventStarted();
        }
        RestartLongPressEndTimer(now);
      } else {
        out := [Forward(command)];
      }
    }

    /** `restartLongPressEndTimer`: cancel any pending timer and schedule a new one. */
    method RestartLongPressEndTimer(now: int)
      modifies this
      ensures longPressEndTimer == Some(now + LONGPRESS_END_TIME_MS)
      ensures lastCmdTimestamp == old(lastCmdTimestamp) && longPressStarted == old(longPressStarted)
    {
      longPressEndTimer := Some(now + LONGPRESS_END_TIME_MS);
    }

    /** `longPressEventStarted`. */
    method LongPressEventStarted() returns (out: seq<Output>)
      modifies this
      ensures longPressStarted && out == [PressStart]
      ensures lastCmdTimestamp == old(lastCmdTimestamp) && longPressEndTimer == old(longPressEndTimer)
    {
      longPressStarted := true;
      out := [PressStart];
    }

    /** The end timer's callback, `longPressEventEnded`; it runs only while the timer is pending. */
    method LongPressEventEnded() returns (out: seq<Output>)
      requires longPressEndTimer.Some?
      modifies this
      ensures (State(), out) == OnEndTimer(old(State()))
    {
      longPressStarted := false;
      longPressEndTimer := None;
      out := [PressEnd];
    }
  }

  /** An event the detector reacts to. */
  datatype Event = Hotkey(command: string, at: int) | EndTimerFired

  /** One event; a timer event with no timer pending does nothing. */
  function Step(s: PressState, e: Event): (PressState, seq<Output>) {
    match e
    case Hotkey(c, t) => OnCommand(s, c, t)
    case EndTimerFired => if s.endDeadline.Some? then OnEndTimer(s) else (s, [])
  }

  /** A run of events: the final state and everything emitted, in order. */
  function Run(s: PressState, es: seq<Event>): (PressState, seq<Output>)
    decreases |es|
  {
    if es == [] then (s, [])
    else
      var first := Step(s, es[0]);
      var rest := Run(first.0, es[1..]);
      (rest.0, first.1 + rest.1)
  }

  /** The press-start and press-end outputs of a run, in order. */
  function Marks(outs: seq<Output>): seq<Output> {
    Filter(outs, (o: Output) => !o.Forward?)
  }

  /** Marks alternate, beginning with a press end when a press is under way and with a press start otherwise. */
  predicate Alternating(marks: seq<Output>, started: bool)
    decreases |marks|
  {
    marks == [] || (marks[0] == (if started then PressEnd else PressStart) && Alternating(marks[1..], !started))
  }
}

/** What the long-press detector promises over whole runs of events. */
module LongPressProperties {
  import opened Common
  import opened Tabs
  import opened Router
  import opened RouterProperties
  import opened LongPress

  lemma AlternatingConcatOne(m: Output, rest: seq<Output>, started: bool)
    requires m == (if started then PressEnd else PressStart)
    requires Alternating(rest, !started)
    ensures Alternating([m] + rest, started)
  {
    assert ([m] + rest)[1..] == rest;
  }

  /** One step from a consistent state either emits no mark and keeps the press flag, or emits the one mark that flips it. */
  lemma StepMarks(s: PressState, e: Event)
    requires Consistent(s)
    ensures Consistent(Step(s, e).0)
    ensures || (Marks(Step(s, e).1) == [] && Step(s, e).0.longPressStarted == s.longPressStarted)
            || (Marks(Step(s, e).1) == [if s.longPressStarted then PressEnd else PressStart]
                && Step(s, e).0.longPressStarted == !s.longPressStarted)
  {
    var o := Step(s, e).1;
    assert o == [] || o == [PressStart] || o == [PressEnd] || o == [Forward(e.command)];
  }

  /**
   * Over any run from a consistent state, press starts and press ends strictly
   * alternate, the detector stays consistent, and a press is under way at the
   * end exactly when the last mark emitted was a press start (or, with no
   * marks, when one was under way at the beginning).
   */
  lemma {:induction false} RunAlternates(s: PressState, es: seq<Event>)
    requires Consistent(s)
    ensures Consistent(Run(s, es).0)
    ensures Alternating(Marks(Run(s, es).1), s.longPressStarted)
    ensures Run(s, es).0.longPressStarted
            == if Marks(Run(s, es).1) == [] then s.longPressStarted
               else Marks(Run(s, es).1)[|Marks(Run(s, es).1)| - 1] == PressStart
    decreases |es|
  {
    if es != [] {
      var s1 := Step(s, es[0]).0;
      var o1 := Step(s, es[0]).1;
      var o2 := Run(s1, es[1..]).1;
      assert Run(s, es) == (Run(s1, es[1..]).0, o1 + o2);
      StepMarks(s, es[0]);
      RunAlternates(s1, es[1..]);
      FilterConcat(o1, o2, (o: Output) => !o.Forward?);
      if Marks(o1) != [] {
        AlternatingConcatOne(Marks(o1)[0], Marks(o2), s.longPressStarted);
        var m := Marks(o1) + Marks(o2);
        assert Marks(o2) != [] ==> m[|m| - 1] == Marks(o2)[|Marks(o2)| - 1];
      } else {
        assert Marks(o1) + Marks(o2) == Marks(o2);
      }
    }
  }

  /** `playPause` hotkeys at the given times. */
  function Hotkeys(ts: seq<int>): (es: seq<Event>)
    ensures |es| == |ts|
    ensures forall i :: 0 <= i < |ts| ==> es[i] == Hotkey("playPause", ts[i])
  {
    if ts == [] then [] else [Hotkey("playPause", ts[0])] + Hotkeys(ts[1..])
  }

  /** Each time is less than 50 ms after the one before it (and the first after the state's last hotkey). */
  predicate RapidFrom(last: int, ts: seq<int>) {
    && (|ts| > 0 ==> ts[0] - last < LONGPRESS_THRESHOLD_MS)
    && (forall i :: 0 < i < |ts| ==> ts[i] - ts[i - 1] < LONGPRESS_THRESHOLD_MS)
  }

  /**
   * While the key is held, each repeat arrives within 50 ms of the previous one:
   * during a press the repeats emit nothing and the end timer always ends up
   * 500 ms after the last repeat.
   */
  lemma {:induction false} HeldKeyOnlyMovesDeadline(s: PressState, ts: seq<int>)
    requires s.longPressStarted && Consistent(s)
    requires |ts| > 0 && RapidFrom(s.lastCmdTimestamp, ts)
    ensures Run(s, Hotkeys(ts)).1 == []
    ensures Run(s, Hotkeys(ts)).0 == PressState(ts[|ts| - 1], true, Some(ts[|ts| - 1] + LONGPRESS_END_TIME_MS))
    decreases |ts|
  {
    var es := Hotkeys(ts);
    assert es[0] == Hotkey("playPause", ts[0]);
    assert ts[0] - s.lastCmdTimestamp < LONGPRESS_THRESHOLD_MS;
    var (s1, o1) := Step(s, es[0]);
    assert s1 == PressState(ts[0], true, Some(ts[0] + LONGPRESS_END_TIME_MS)) && o1 == [];
    assert es[1..] == Hotkeys(ts[1..]);
    if |ts| > 1 {
      assert RapidFrom(s1.lastCmdTimestamp, ts[1..]) by {
        assert ts[1..][0] - s1.lastCmdTimestamp == ts[1] - ts[0];
        forall i | 0 < i < |ts[1..]| ensures ts[1..][i] - ts[1..][i - 1] < LONGPRESS_THRESHOLD_MS {
          assert ts[1..][i] == ts[i + 1] && ts[1..][i - 1] == ts[i];
        }
      }
      HeldKeyOnlyMovesDeadline(s1, ts[1..]);
    } else {
      assert es[1..] == [];
    }
  }

  lemma RunCons(s: PressState, e: Event, es: seq<Event>)
    ensures Run(s, [e] + es) == (Run(Step(s, e).0, es).0, Step(s, e).1 + Run(Step(s, e).0, es).1)
  {
    assert ([e] + es)[0] == e && ([e] + es)[1..] == es;
  }

  /**
   * Two `playPause` hotkeys 30 ms apart from an idle detector, then the end
   * timer: the first is a standard press, the second starts exactly one long
   * press with its end timer due 500 ms after it, and the timer's firing ends it.
   */
  lemma TwoQuickPressesThenRelease(s: PressState, t: int)
    requires Consistent(s) && !s.longPressStarted
    requires t - s.lastCmdTimestamp >= LONGPRESS_THRESHOLD_MS
    ensures Run(s, [Hotkey("playPause", t), Hotkey("playPause", t + 30)]).0.endDeadline == Some(t + 530)
    ensures Run(s, [Hotkey("playPause", t), Hotkey("playPause", t + 30), EndTimerFired]).1
            == [Forward("playPause"), PressStart, PressEnd]
    ensures !Run(s, [Hotkey("playPause", t), Hotkey("playPause", t + 30), EndTimerFired]).0.longPressStarted
  {
    var s1 := PressState(t, false, None);
    var s2 := PressState(t + 30, true, Some(t + 530));
    var s3 := PressState(t + 30, false, None);
    assert Step(s, Hotkey("playPause", t)) == (s1, [Forward("playPause")]);
    assert Step(s1, Hotkey("playPause", t + 30)) == (s2, [PressStart]);
    assert Step(s2, EndTimerFired) == (s3, [PressEnd]);
    RunCons(s2, EndTimerFired, []);
    RunCons(s1, Hotkey("playPause", t + 30), [EndTimerFired]);
    RunCons(s, Hotkey("playPause", t), [Hotkey("playPause", t + 30), EndTimerFired]);
    RunCons(s1, Hotkey("playPause", t + 30), []);
    RunCons(s, Hotkey("playPause", t), [Hotkey("playPause", t + 30)]);
  }

  /**
   * The start and the end of a long press only ever change the playback rate,
   * to 2 and back to 1, and only on tabs the extension knows.
   */
  lemma PressOnlySetsPlaybackRate(o: Output, ctx: Context)
    requires !o.Forward?
    ensures forall s :: s in Dispatch(o, ctx) ==>
              && s.message == Message("playBackRate", Some([Num(if o.PressStart? then 2 else 1)]))
              && exists t :: t in ctx.tabs && t.id == s.tabId
  {
    SendActionOnlyActiveTabs(ToAction(o).0, ToAction(o).1, ctx);
  }

  /** In single-player mode a long press reaches every targeted playing tab. */
  lemma PressReachesPlayingTabs(o: Output, ctx: Context, p: Tab)
    requires !o.Forward? && SinglePlayerModeOn(ctx.singlePlayerMode)
    requires Targeted("playBackRate", ctx, p) && IsPlaying(ctx.states, p)
    ensures forall t :: Targeted("playBackRate", ctx, t) && IsPlaying(ctx.states, t) ==>
              Send(t.id, Message("playBackRate", Some([Num(if o.PressStart? then 2 else 1)]))) in Dispatch(o, ctx)
  {
    assert !IsBroadcastCommand("playBackRate");
    SinglePlayerReachesAllPlayingTargets("playBackRate", ToAction(o).1, ctx, p);
  }
}

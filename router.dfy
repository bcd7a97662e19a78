/**
 * The command router of the background page: `sendAction`,
 * `sendActionSinglePlayer`, `sendActionAllPlayers` and `processCommand`.
 * Messages handed to `chrome.tabs.sendMessage` are returned as a sequence of sends.
 */
module Router {
  import opened Common
  import opened Tabs
  import opened Selector

  /** An opaque command argument. */
  datatype Value = Num(n: int) | Str(s: string)

  /** The message a content script receives: `args` is present only when it was defined. */
  datatype Message = Message(action: string, args: Option<seq<Value>>)

  /** One `chrome.tabs.sendMessage(tabId, message)` call. */
  datatype Send = Send(tabId: TabId, message: Message)

  /**
   * What the router reads besides the command: the active music tabs, the
   * `hotkey-single_player_mode` setting (`None` when the key is not stored), the
   * tabs whose site has secondary controls enabled, and the tab-state registry.
   */
  datatype Context = Context(
    tabs: seq<Tab>,
    singlePlayerMode: Option<bool>,
    secondary: set<TabId>,
    states: TabStates)

  /** The same message to every tab of `tabs`, in order. */
  function Broadcast(command: string, tabs: seq<Tab>, args: Option<seq<Value>>): (r: seq<Send>)
    ensures |r| == |tabs|
    ensures forall i :: 0 <= i < |tabs| ==> r[i] == Send(tabs[i].id, Message(command, args))
  {
    if tabs == [] then [] else [Send(tabs[0].id, Message(command, args))] + Broadcast(command, tabs[1..], args)
  }

  /** `sendActionAllPlayers`: the `forEach` loop that sends the message to each tab in turn. */
  method SendActionAllPlayers(command: string, tabs: seq<Tab>, args: Option<seq<Value>>) returns (sent: seq<Send>)
    ensures sent == Broadcast(command, tabs, args)
  {
    sent := [];
    for i := 0 to |tabs|
      invariant |sent| == i
      invariant forall k :: 0 <= k < i ==> sent[k] == Send(tabs[k].id, Message(command, args))
    {
      var message := Message(command, args);
      sent := sent + [Send(tabs[i].id, message)];
    }
  }

  /** The commands that always go to every active music tab. */
  predicate IsBroadcastCommand(command: string) {
    command == "mute" || command == "stop" || command == "playerStateNotify" || command == "getPlayerState"
  }

  /** `command.toLowerCase().endsWith("secondary")`. */
  predicate TargetsSecondary(command: string) {
    EndsWith(ToLowerAscii(command), "secondary")
  }

  /** The stored setting enables single-player mode only when present and true. */
  predicate SinglePlayerModeOn(setting: Option<bool>) {
    setting == Some(true)
  }

  /** The tabs a command targets in single-player mode: secondary-controlled tabs, or the rest. */
  function RestrictTabs(command: string, tabs: seq<Tab>, secondary: set<TabId>): (r: seq<Tab>)
    ensures forall t :: t in r <==> t in tabs && (t.id in secondary <==> TargetsSecondary(command))
  {
    if TargetsSecondary(command) then Filter(tabs, (t: Tab) => t.id in secondary)
    else Filter(tabs, (t: Tab) => t.id !in secondary)
  }

  /** What a handler run ends with: sends made, or an uncaught `TypeError` before any send. */
  datatype Outcome = Delivered(sends: seq<Send>) | TypeError

  /**
   * `sendActionSinglePlayer` as the source writes it: the emptiness test comes
   * before the secondary/primary partition, so a restricted list that ends up
   * empty reaches `getBestSinglePlayerTab([])`, whose `undefined` result is then
   * dereferenced by `sendActionAllPlayers`.
   */
  function SendActionSinglePlayerAsWritten(command: string, tabs: seq<Tab>, args: Option<seq<Value>>,
                                           secondary: set<TabId>, states: TabStates): Outcome
  {
    if tabs == [] then Delivered([])
    else
      var restricted := RestrictTabs(command, tabs, secondary);
      var playing := GetPlayingTabs(states, restricted);
      if playing == [] then
        match GetBestSinglePlayerTab(states, restricted)
        case None => TypeError
        case Some(best) => Delivered(Broadcast(command, [best], args))
      else Delivered(Broadcast(command, playing, args))
  }

  /**
   * `sendActionSinglePlayer` with the emptiness test applied to the restricted
   * list: all targeted playing tabs if there are any, else the one best targeted
   * tab, else nothing.
   */
  function SendActionSinglePlayer(command: string, tabs: seq<Tab>, args: Option<seq<Value>>,
                                  secondary: set<TabId>, states: TabStates): seq<Send>
  {
    var restricted := RestrictTabs(command, tabs, secondary);
    var playing := GetPlayingTabs(states, restricted);
    if playing != [] then Broadcast(command, playing, args)
    else
      match GetBestSinglePlayerTab(states, restricted)
      case None => []
      case Some(best) => Broadcast(command, [best], args)
  }

  /**
   * `sendAction(command, ...args)`: the rest parameter makes `args` an array,
   * so every message it sends carries `args`, possibly empty.
   */
  function SendAction(command: string, args: seq<Value>, ctx: Context): seq<Send> {
    if IsBroadcastCommand(command) then Broadcast(command, ctx.tabs, Some(args))
    else if SinglePlayerModeOn(ctx.singlePlayerMode) then
      SendActionSinglePlayer(command, ctx.tabs, Some(args), ctx.secondary, ctx.states)
    else Broadcast(command, ctx.tabs, Some(args))
  }

  /** A `command` request from the popup or a content script. */
  datatype Request = Request(command: string, args: Option<seq<Value>>, tabTarget: Option<int>)

  /** `request.tab_target && parseInt(request.tab_target)`: present and not zero. */
  predicate HasTabTarget(req: Request) {
    req.tabTarget.Some? && req.tabTarget.value != 0
  }

  /**
   * `processCommand`: a request pinned to a tab is sent to that tab alone with
   * its own `args` if defined; any other is routed by `sendAction` with no arguments.
   */
  function ProcessCommand(req: Request, ctx: Context): seq<Send> {
    if HasTabTarget(req) then [Send(req.tabTarget.value, Message(req.command, req.args))]
    else SendAction(req.command, [], ctx)
  }
}

/** What the router promises about who receives a command. */
module RouterProperties {
  import opened Common
  import opened Tabs
  import opened Selector
  import opened Router

  /** Every send `SendAction` makes goes to an active music tab and carries the command and its arguments unchanged. */
  lemma SendActionOnlyActiveTabs(command: string, args: seq<Value>, ctx: Context)
    ensures forall s :: s in SendAction(command, args, ctx) ==>
              s.message == Message(command, Some(args)) && exists t :: t in ctx.tabs && t.id == s.tabId
  {
    var r := SendAction(command, args, ctx);
    forall s | s in r
      ensures s.message == Message(command, Some(args)) && exists t :: t in ctx.tabs && t.id == s.tabId
    {
      var i :| 0 <= i < |r| && r[i] == s;
      if !IsBroadcastCommand(command) && SinglePlayerModeOn(ctx.singlePlayerMode) {
        var restricted := RestrictTabs(command, ctx.tabs, ctx.secondary);
        var playing := GetPlayingTabs(ctx.states, restricted);
        if playing != [] {
          assert playing[i] in ctx.tabs;
        } else {
          assert GetBestSinglePlayerTab(ctx.states, restricted).value in ctx.tabs;
        }
      } else {
        assert ctx.tabs[i] in ctx.tabs;
      }
    }
  }

  /** `mute`, `stop`, `playerStateNotify` and `getPlayerState` reach every active music tab, in order, whatever the mode. */
  lemma BroadcastCommandReachesEveryTab(command: string, args: seq<Value>, ctx: Context)
    requires IsBroadcastCommand(command)
    ensures |SendAction(command, args, ctx)| == |ctx.tabs|
    ensures forall i :: 0 <= i < |ctx.tabs| ==>
              SendAction(command, args, ctx)[i] == Send(ctx.tabs[i].id, Message(command, Some(args)))
  {
  }

  /** Without single-player mode every command reaches every active music tab, in order. */
  lemma EveryTabWhenModeOff(command: string, args: seq<Value>, ctx: Context)
    requires !SinglePlayerModeOn(ctx.singlePlayerMode)
    ensures |SendAction(command, args, ctx)| == |ctx.tabs|
    ensures forall i :: 0 <= i < |ctx.tabs| ==>
              SendAction(command, args, ctx)[i] == Send(ctx.tabs[i].id, Message(command, Some(args)))
  {
  }

  /** A tab the command targets in single-player mode: secondary-controlled exactly when the command is a secondary one. */
  predicate Targeted(command: string, ctx: Context, t: Tab) {
    t in ctx.tabs && (t.id in ctx.secondary <==> TargetsSecondary(command))
  }

  /**
   * Single-player mode with some targeted tab playing: the command goes to every
   * targeted playing tab and to no other tab.
   */
  lemma SinglePlayerReachesAllPlayingTargets(command: string, args: seq<Value>, ctx: Context, p: Tab)
    requires !IsBroadcastCommand(command) && SinglePlayerModeOn(ctx.singlePlayerMode)
    requires Targeted(command, ctx, p) && IsPlaying(ctx.states, p)
    ensures forall t :: Targeted(command, ctx, t) && IsPlaying(ctx.states, t) ==>
              Send(t.id, Message(command, Some(args))) in SendAction(command, args, ctx)
    ensures forall s :: s in SendAction(command, args, ctx) ==>
              s.message == Message(command, Some(args))
              && exists t :: Targeted(command, ctx, t) && IsPlaying(ctx.states, t) && t.id == s.tabId
  {
    var restricted := RestrictTabs(command, ctx.tabs, ctx.secondary);
    var playing := GetPlayingTabs(ctx.states, restricted);
    assert p in playing;
    var r := SendAction(command, args, ctx);
    assert r == Broadcast(command, playing, Some(args));
    forall t | Targeted(command, ctx, t) && IsPlaying(ctx.states, t)
      ensures Send(t.id, Message(command, Some(args))) in r
    {
      assert t in playing;
      var i :| 0 <= i < |playing| && playing[i] == t;
      assert r[i] == Send(t.id, Message(command, Some(args)));
    }
    forall s | s in r
      ensures exists t :: Targeted(command, ctx, t) && IsPlaying(ctx.states, t) && t.id == s.tabId
    {
      var i :| 0 <= i < |r| && r[i] == s;
      assert playing[i] in playing;
    }
  }

  /** The best tab among those a command targets. */
  function FallbackTab(command: string, ctx: Context): Option<Tab> {
    GetBestSinglePlayerTab(ctx.states, RestrictTabs(command, ctx.tabs, ctx.secondary))
  }

  /**
   * Single-player mode with no targeted tab playing: exactly one send, to the
   * best targeted tab.
   */
  lemma SinglePlayerFallsBackToBestTab(command: string, args: seq<Value>, ctx: Context, q: Tab)
    requires !IsBroadcastCommand(command) && SinglePlayerModeOn(ctx.singlePlayerMode)
    requires Targeted(command, ctx, q)
    requires forall t :: Targeted(command, ctx, t) ==> !IsPlaying(ctx.states, t)
    ensures FallbackTab(command, ctx).Some?
    ensures Targeted(command, ctx, FallbackTab(command, ctx).value)
    ensures SendAction(command, args, ctx) == [Send(FallbackTab(command, ctx).value.id, Message(command, Some(args)))]
  {
    var restricted := RestrictTabs(command, ctx.tabs, ctx.secondary);
    assert q in restricted;
    var playing := GetPlayingTabs(ctx.states, restricted);
    assert forall t :: t !in playing;
    NonEmptyHasFirst(playing);
    var best := FallbackTab(command, ctx);
    assert best.Some? && best.value in restricted;
    var one := Broadcast(command, [best.value], Some(args));
    assert |one| == 1 && one[0] == Send(best.value.id, Message(command, Some(args)));
  }

  /** Single-player mode with no targeted tab at all: nothing is sent. */
  lemma SinglePlayerNothingTargeted(command: string, args: seq<Value>, ctx: Context)
    requires !IsBroadcastCommand(command) && SinglePlayerModeOn(ctx.singlePlayerMode)
    requires forall t :: t in ctx.tabs ==> !Targeted(command, ctx, t)
    ensures SendAction(command, args, ctx) == []
  {
  }

  /** If exactly one targeted tab is playing, single-player mode sends the command to that tab alone. */
  lemma OnePlayingTabGetsCommandAlone(command: string, args: seq<Value>, ctx: Context, p: Tab)
    requires !IsBroadcastCommand(command) && SinglePlayerModeOn(ctx.singlePlayerMode)
    requires Targeted(command, ctx, p) && IsPlaying(ctx.states, p)
    requires forall t :: Targeted(command, ctx, t) && IsPlaying(ctx.states, t) ==> t == p
    ensures Send(p.id, Message(command, Some(args))) in SendAction(command, args, ctx)
    ensures forall s :: s in SendAction(command, args, ctx) ==> s == Send(p.id, Message(command, Some(args)))
  {
    SinglePlayerReachesAllPlayingTargets(command, args, ctx, p);
  }

  /** A request pinned to a tab is sent to that tab alone, with its own arguments, whatever the routing inputs. */
  lemma PinnedRequestBypassesRouting(req: Request, ctx1: Context, ctx2: Context)
    requires HasTabTarget(req)
    ensures ProcessCommand(req, ctx1) == ProcessCommand(req, ctx2)
    ensures |ProcessCommand(req, ctx1)| == 1
    ensures ProcessCommand(req, ctx1)[0].tabId == req.tabTarget.value
    ensures ProcessCommand(req, ctx1)[0].message == Message(req.command, req.args)
  {
  }

  /** A request without a usable tab target is routed, and the messages carry an empty argument list, not the request's `args`. */
  lemma UnpinnedRequestIsRoutedWithoutArgs(req: Request, ctx: Context)
    requires !HasTabTarget(req)
    ensures ProcessCommand(req, ctx) == SendAction(req.command, [], ctx)
    ensures forall s :: s in ProcessCommand(req, ctx) ==> s.message == Message(req.command, Some([]))
  {
    SendActionOnlyActiveTabs(req.command, [], ctx);
  }

  /** The as-written handler fails exactly when tabs exist but none is targeted. */
  lemma AsWrittenFailsExactlyOnEmptyTarget(command: string, tabs: seq<Tab>, args: Option<seq<Value>>,
                                           secondary: set<TabId>, states: TabStates)
    ensures SendActionSinglePlayerAsWritten(command, tabs, args, secondary, states).TypeError?
            <==> tabs != [] && RestrictTabs(command, tabs, secondary) == []
    ensures !SendActionSinglePlayerAsWritten(command, tabs, args, secondary, states).TypeError?
            ==> SendActionSinglePlayerAsWritten(command, tabs, args, secondary, states)
                == Delivered(SendActionSinglePlayer(command, tabs, args, secondary, states))
  {
    var restricted := RestrictTabs(command, tabs, secondary);
    var playing := GetPlayingTabs(states, restricted);
    if tabs != [] && restricted == [] {
      assert playing == [];
      assert GetBestSinglePlayerTab(states, restricted) == None;
    } else if restricted != [] {
      assert GetBestSinglePlayerTab(states, restricted).Some?;
    } else {
      assert tabs == [];
    }
  }

  /**
   * The input that shows it: one active music tab whose site has secondary
   * controls enabled, and a primary command such as `playPause` in single-player
   * mode. The source throws; the corrected router sends nothing.
   */
  lemma AsWrittenCrashExample()
    ensures SendActionSinglePlayerAsWritten("playPause", [Tab(7, true)], Some([]), {7}, map[]) == TypeError
    ensures SendActionSinglePlayer("playPause", [Tab(7, true)], Some([]), {7}, map[]) == []
  {
    assert ToLowerAscii("playPause") == "playpause";
    assert "playpause"[0] != "secondary"[0];
    assert !TargetsSecondary("playPause");
    assert Filter([Tab(7, true)], (t: Tab) => t.id !in {7}) == [];
    assert RestrictTabs("playPause", [Tab(7, true)], {7}) == [];
  }
}

/**
 * The bridge to the desktop media-player interface (MPRIS) through the native
 * messaging host: native commands mapped onto hotkey commands, the player
 * state mirrored to the desktop, and the connection's life cycle.
 */
module Mpris {
  import opened Common
  import opened Tabs
  import opened Selector
  import opened Router
  import opened Hms

  /** `handleNativeMsg`: the hotkey command a native command stands for, if any. */
  function NativeCommand(command: string): (r: Option<string>)
    ensures r == Some("playPause") <==> command == "play" || command == "pause" || command == "playpause"
    ensures r == Some("stop") <==> command == "stop"
    ensures r == Some("playNext") <==> command == "next"
    ensures r == Some("playPrev") <==> command == "previous"
    ensures r.Some? ==> r.value in {"playPause", "stop", "playNext", "playPrev"}
  {
    if command == "play" || command == "pause" || command == "playpause" then Some("playPause")
    else if command == "stop" then Some("stop")
    else if command == "next" then Some("playNext")
    else if command == "previous" then Some("playPrev")
    else None
  }

  /** `handleNativeMsg`: a native message is routed like a hotkey with no arguments; an unknown one sends nothing. */
  function HandleNativeMessage(command: string, ctx: Context): seq<Send> {
    match NativeCommand(command)
    case None => []
    case Some(c) => SendAction(c, [], ctx)
  }

  /** A time sent to the desktop: the text the page reported, or a number of microseconds. */
  datatype Duration = Reported(text: string) | Micros(n: int) | NotANumber

  /**
   * `hmsToSecondsOnly(text.trim()) * 1000000` for a text of colon-separated digit
   * groups. Any other text is `NotANumber` here, although `parseInt` would read a
   * leading run of digits ("2x" as 2); `TimeField` discards the value for every
   * reported text, so only "0" reaches a message.
   */
  function HmsMicros(text: string): Duration {
    var t := Trim(text);
    if IsHms(t) then Micros(HmsSeconds(t) * 1000000) else NotANumber
  }

  /**
   * `Position` and `mpris:length`: first converted from `(field || "0")`, then
   * overwritten with the reported text whenever the field is not `null`/`undefined`,
   * so the conversion survives only for an absent field.
   */
  function TimeField(o: Option<string>): Duration {
    if o.Some? then Reported(o.value) else HmsMicros(OrElse(o, "0"))
  }

  datatype Metadata = Metadata(
    trackId: Option<TabId>,
    title: Option<string>,
    artist: Option<seq<string>>,
    album: Option<string>,
    artUrl: Option<string>,
    length: Duration)

  datatype PlayerProperties = PlayerProperties(
    canGoNext: bool,
    canGoPrevious: bool,
    playbackStatus: string,
    canPlay: bool,
    canPause: bool,
    canSeek: bool,
    metadata: Metadata,
    position: Duration,
    volume: Option<real>)

  /** The messages the background page posts to the native host. */
  datatype PortMessage = RemovePlayer | UpdateState(props: PlayerProperties) | AddPlayer | Quit

  /** `updateMPRISState` for a stored state and the tab it belongs to. */
  function UpdateMprisState(state: PlayerState, tab: Tab): PortMessage {
    var metadata := Metadata(
      if Truthy(state.song) then Some(tab.id) else None,
      state.song,
      if Truthy(state.artist) then Some([Trim(state.artist.value)]) else None,
      state.album,
      state.art,
      TimeField(state.totalTime));
    UpdateState(PlayerProperties(
      state.canPlayNext,
      state.canPlayPrev,
      if state.isPlaying then "Playing" else "Paused",
      state.canPlayPause,
      state.canPlayPause,
      state.canSeek,
      metadata,
      TimeField(state.currentTime),
      state.volume))
  }

  /**
   * The tab `handleStateData` mirrors: none without active music tabs, else the
   * best playing tab, or the best tab when none plays.
   */
  function MirrorTarget(tabs: seq<Tab>, states: TabStates): (r: Option<Tab>)
    ensures r.Some? <==> tabs != []
    ensures r.Some? ==> r.value in tabs
    ensures r.Some? && (exists p :: p in tabs && IsPlaying(states, p)) ==> IsPlaying(states, r.value)
    ensures r.Some? ==>
              var pool := MirrorPool(tabs, states);
              && r.value in pool
              && InWindow(states, pool, r.value)
              && forall t :: t in pool && InWindow(states, pool, t) ==> KeyLe(states, t, r.value)
  {
    if tabs == [] then None
    else
      var playing := GetPlayingTabs(states, tabs);
      if playing == [] then GetBestSinglePlayerTab(states, tabs)
      else
        NonEmptyHasFirst(playing);
        GetBestSinglePlayerTab(states, playing)
  }

  /** The tabs the mirrored tab is the best of: the playing ones, or all of them when none plays. */
  function MirrorPool(tabs: seq<Tab>, states: TabStates): seq<Tab> {
    var playing := GetPlayingTabs(states, tabs);
    if playing != [] then playing else tabs
  }

  /**
   * `handleStateData(updateMPRISState)`: no active music tab removes the desktop
   * player; otherwise the mirrored tab's stored state is sent, and nothing is sent
   * while that tab has not reported yet.
   */
  function MirrorMessage(tabs: seq<Tab>, states: TabStates): (r: Option<PortMessage>)
    ensures r == Some(RemovePlayer) <==> tabs == []
    ensures tabs != [] ==>
              (r.Some? <==> MirrorTarget(tabs, states).value.id in states)
              && (r.Some? ==> r.value == UpdateMprisState(states[MirrorTarget(tabs, states).value.id].state,
                                                          MirrorTarget(tabs, states).value))
  {
    if tabs == [] then Some(RemovePlayer)
    else
      var best := MirrorTarget(tabs, states).value;
      if best.id in states then Some(UpdateMprisState(states[best.id].state, best)) else None
  }

  /**
   * The connection to the native host. Only a stored `hotkey-use_mpris` that is
   * true opens it; the suspend, tab-removed and tab-activated listeners exist
   * only then. A disconnected port is still referenced, as in the background page.
   */
  class MprisBridge {
    var connections: int
    var port: bool
    var disconnected: bool
    var hooked: bool
    var sent: seq<PortMessage>

    constructor (useMpris: Option<bool>)
      ensures port == hooked == (useMpris == Some(true))
      ensures connections == if useMpris == Some(true) then 1 else 0
      ensures !disconnected && sent == []
    {
      var on := useMpris == Some(true);
      connections := if on then 1 else 0;
      port := on;
      hooked := on;
      disconnected := false;
      sent := [];
    }

    /** `if (mprisPort) handleStateData(updateMPRISState)`. */
    method Refresh(tabs: seq<Tab>, states: TabStates)
      modifies this
      ensures sent == old(sent) + (if port && MirrorMessage(tabs, states).Some? then [MirrorMessage(tabs, states).value] else [])
      ensures connections == old(connections) && port == old(port) && disconnected == old(disconnected) && hooked == old(hooked)
    {
      if port {
        var m := MirrorMessage(tabs, states);
        if m.Some? {
          sent := sent + [m.value];
        }
      }
    }

    /** An `inject_controller` request announces a new player to the host. */
    method OnInjectController()
      modifies this
      ensures sent == old(sent) + (if port then [AddPlayer] else [])
      ensures connections == old(connections) && port == old(port) && disconnected == old(disconnected) && hooked == old(hooked)
    {
      if port {
        sent := sent + [AddPlayer];
      }
    }

    /** An `update_player_state` report: stored in the registry, then mirrored. */
    method OnUpdatePlayerState(registry: TabRegistry, tabId: TabId, now: int, state: PlayerState, tabs: seq<Tab>)
      modifies this, registry
      ensures registry.states == old(registry.states)[tabId := TabEntry(now, state)]
      ensures sent == old(sent) + (if port && MirrorMessage(tabs, registry.states).Some?
                                   then [MirrorMessage(tabs, registry.states).value] else [])
      ensures connections == old(connections) && port == old(port) && disconnected == old(disconnected) && hooked == old(hooked)
    {
      registry.Update(tabId, now, state);
      Refresh(tabs, registry.states);
    }

    /** `chrome.tabs.onRemoved`: a reported tab is forgotten and the desktop state refreshed. */
    method OnTabRemoved(registry: TabRegistry, tabId: TabId, tabs: seq<Tab>)
      modifies this, registry
      ensures registry.states == if hooked then old(registry.states) - {tabId} else old(registry.states)
      ensures sent == old(sent) + (if hooked && port && tabId in old(registry.states) && MirrorMessage(tabs, registry.states).Some?
                                   then [MirrorMessage(tabs, registry.states).value] else [])
      ensures connections == old(connections) && port == old(port) && disconnected == old(disconnected) && hooked == old(hooked)
    {
      if hooked {
        var removed := registry.Remove(tabId);
        if removed {
          Refresh(tabs, registry.states);
        }
      }
    }

    /** `chrome.tabs.onActivated`: focusing a reported tab may change the mirrored tab. */
    method OnTabActivated(tabId: TabId, tabs: seq<Tab>, states: TabStates)
      modifies this
      ensures sent == old(sent) + (if hooked && port && tabId in states && MirrorMessage(tabs, states).Some?
                                   then [MirrorMessage(tabs, states).value] else [])
      ensures connections == old(connections) && port == old(port) && disconnected == old(disconnected) && hooked == old(hooked)
    {
      if hooked && port && tabId in states {
        Refresh(tabs, states);
      }
    }

    /**
     * A message from the native host. Its listener is added with the port and
     * removed on suspend, so nothing is routed without a port or once disconnected.
     */
    method OnNativeMessage(command: string, ctx: Context) returns (sends: seq<Send>)
      ensures sends == if port && !disconnected then HandleNativeMessage(command, ctx) else []
    {
      if port && !disconnected {
        sends := HandleNativeMessage(command, ctx);
      } else {
        sends := [];
      }
    }

    /** `chrome.runtime.onSuspend`: the last connection tells the host to quit; the port is disconnected. */
    method Suspend()
      requires hooked
      modifies this
      ensures connections == old(connections) - 1
      ensures sent == old(sent) + (if connections == 0 then [Quit] else [])
      ensures disconnected && port == old(port) && hooked == old(hooked)
    {
      connections := connections - 1;
      if connections == 0 {
        sent := sent + [Quit];
      }
      disconnected := true;
    }
  }
}

module MprisProperties {
  import opened Common
  import opened Tabs
  import opened Selector
  import opened Router
  import opened RouterProperties
  import opened Hms
  import opened Mpris

  /** The desktop sees "Playing" exactly when the page says it is playing. */
  lemma PlaybackStatusFollowsPage(state: PlayerState, tab: Tab)
    ensures UpdateMprisState(state, tab).props.playbackStatus == "Playing" <==> state.isPlaying
    ensures UpdateMprisState(state, tab).props.canPlay == UpdateMprisState(state, tab).props.canPause == state.canPlayPause
  {
  }

  /** The track id is the tab's id exactly when a song is known. */
  lemma TrackIdIsTheTab(state: PlayerState, tab: Tab)
    ensures UpdateMprisState(state, tab).props.metadata.trackId.Some? <==> Truthy(state.song)
    ensures Truthy(state.song) ==> UpdateMprisState(state, tab).props.metadata.trackId == Some(tab.id)
  {
  }

  /**
   * The position and the length are the two time fields, read as `TimeField`
   * reads them, and the volume is passed on exactly when the page reported one.
   */
  lemma TimesAndVolumeFollowPage(state: PlayerState, tab: Tab)
    ensures UpdateMprisState(state, tab).props.position == TimeField(state.currentTime)
    ensures UpdateMprisState(state, tab).props.metadata.length == TimeField(state.totalTime)
    ensures UpdateMprisState(state, tab).props.position
            == if state.currentTime.Some? then Reported(state.currentTime.value) else Micros(0)
    ensures UpdateMprisState(state, tab).props.metadata.length
            == if state.totalTime.Some? then Reported(state.totalTime.value) else Micros(0)
    ensures UpdateMprisState(state, tab).props.volume == state.volume
  {
    TimeFieldIsReportedOrZero(state.currentTime);
    TimeFieldIsReportedOrZero(state.totalTime);
  }

  /**
   * The position and the length are the reported text whenever the page
   * reported one. The seconds conversion of the reported text is discarded then,
   * and survives only for an absent field, where it reads "0" and gives 0.
   */
  lemma TimeFieldIsReportedOrZero(o: Option<string>)
    ensures TimeField(o) == if o.Some? then Reported(o.value) else Micros(0)
  {
    if o.None? {
      assert "0"[0] == '0' && !IsJsWhitespace('0');
      TrimOfTrimmed("0");
      assert IsDigitGroup("0");
      SingleGroupIsSeconds("0");
      assert "0"[..0] == "";
      assert ParseDecimal("0") == 0;
    }
  }

  /**
   * In single-player mode, with no secondary-controlled site, a primary command
   * reaches the tab whose state the desktop player shows.
   */
  lemma MirroredTabReceivesCommand(command: string, args: seq<Value>, ctx: Context)
    requires SinglePlayerModeOn(ctx.singlePlayerMode) && ctx.secondary == {}
    requires !IsBroadcastCommand(command) && !TargetsSecondary(command)
    requires ctx.tabs != []
    ensures Send(MirrorTarget(ctx.tabs, ctx.states).value.id, Message(command, Some(args)))
            in SendAction(command, args, ctx)
  {
    var t := MirrorTarget(ctx.tabs, ctx.states).value;
    var restricted := RestrictTabs(command, ctx.tabs, ctx.secondary);
    FilterKeepsAll(ctx.tabs, (t: Tab) => t.id !in ctx.secondary);
    assert restricted == ctx.tabs;
    var playing := GetPlayingTabs(ctx.states, ctx.tabs);
    if playing != [] {
      NonEmptyHasFirst(playing);
      SinglePlayerReachesAllPlayingTargets(command, args, ctx, playing[0]);
      assert Targeted(command, ctx, t) && IsPlaying(ctx.states, t);
    } else {
      NonEmptyHasFirst(ctx.tabs);
      assert forall q :: Targeted(command, ctx, q) ==> !IsPlaying(ctx.states, q);
      SinglePlayerFallsBackToBestTab(command, args, ctx, ctx.tabs[0]);
      assert FallbackTab(command, ctx) == GetBestSinglePlayerTab(ctx.states, ctx.tabs);
    }
  }

  /** A native message is a hotkey command with no arguments, sent only to active music tabs. */
  lemma NativeMessagesAreHotkeys(command: string, ctx: Context)
    ensures NativeCommand(command).None? ==> HandleNativeMessage(command, ctx) == []
    ensures forall s :: s in HandleNativeMessage(command, ctx) ==>
              s.message.action in {"playPause", "stop", "playNext", "playPrev"}
              && s.message.args == Some([])
              && exists t :: t in ctx.tabs && t.id == s.tabId
  {
    if NativeCommand(command).Some? {
      SendActionOnlyActiveTabs(NativeCommand(command).value, [], ctx);
    }
  }
}

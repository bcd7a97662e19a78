/**
 * The tab-state registry of the background page: for every music tab that has
 * reported, the last player state it sent and the time the report arrived.
 */
module Tabs {
  import opened Common

  type TabId = int

  /** A browser tab as the background page sees it: its id and whether it is the active tab of its window. */
  datatype Tab = Tab(id: TabId, active: bool)

  /**
   * The state a content script reports for its player. Text fields may be absent;
   * `volume` is passed through to the desktop bridge and never inspected.
   */
  datatype PlayerState = PlayerState(
    siteName: string,
    isPlaying: bool,
    song: Option<string>,
    artist: Option<string>,
    album: Option<string>,
    art: Option<string>,
    currentTime: Option<string>,
    totalTime: Option<string>,
    volume: Option<real>,
    canPlayNext: bool,
    canPlayPrev: bool,
    canPlayPause: bool,
    canSeek: bool)

  /** One registry entry: when the report arrived (milliseconds) and what it said. */
  datatype TabEntry = TabEntry(timestamp: int, state: PlayerState)

  type TabStates = map<TabId, TabEntry>

  /** The time of a tab's last report; a tab that never reported reads as 0. */
  function GetTabUpdateTime(states: TabStates, tab: Tab): int {
    if tab.id in states then states[tab.id].timestamp else 0
  }

  /** A tab counts as playing when it has reported and its last report says so. */
  predicate IsPlaying(states: TabStates, tab: Tab) {
    tab.id in states && states[tab.id].state.isPlaying
  }

  /** The tabs of `tabs` whose stored state says they are playing, in order. */
  function GetPlayingTabs(states: TabStates, tabs: seq<Tab>): (r: seq<Tab>)
    ensures forall t :: t in r <==> t in tabs && IsPlaying(states, t)
    ensures forall i :: 0 <= i < |r| ==> r[i].id in states && states[r[i].id].state.isPlaying
  {
    Filter(tabs, t => IsPlaying(states, t))
  }

  /** The registry itself: a map that report and tab-removal events change in place. */
  class TabRegistry {
    var states: TabStates

    constructor ()
      ensures states == map[]
    {
      states := map[];
    }

    /** An `update_player_state` report from tab `tabId` arriving at time `now`. */
    method Update(tabId: TabId, now: int, state: PlayerState)
      modifies this
      ensures states == old(states)[tabId := TabEntry(now, state)]
      ensures GetTabUpdateTime(states, Tab(tabId, true)) == now
      ensures forall t: Tab :: t.id != tabId ==> GetTabUpdateTime(states, t) == GetTabUpdateTime(old(states), t)
    {
      states := states[tabId := TabEntry(now, state)];
    }

    /** Tab removal: the entry is deleted if present; `removed` says whether it was. */
    method Remove(tabId: TabId) returns (removed: bool)
      modifies this
      ensures removed <==> tabId in old(states)
      ensures states == old(states) - {tabId}
      ensures tabId !in states
    {
      removed := tabId in states;
      if removed {
        states := states - {tabId};
      }
    }
  }
}

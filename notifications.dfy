/**
 * Track-change notifications: the list notification built from a reported
 * player state, and the per-notification timers that clear it after five seconds.
 */
module Notifications {
  import opened Common
  import opened Tabs

  /** How long a notification stays up before it is cleared. */
  const NOTIFICATION_CLEAR_MS := 5000

  /** One row of a list notification. */
  datatype Item = Item(title: string, message: string)

  /** The options of `chrome.notifications.create` together with the notification id. */
  datatype Notification = Notification(id: string, title: string, message: string, iconUrl: string, items: seq<Item>)

  /** The artist/album row is shown when either field is non-empty. */
  predicate HasArtistRow(state: PlayerState) {
    Truthy(state.artist) || Truthy(state.album)
  }

  /** The time row is shown when either time field is non-empty. */
  predicate HasTimeRow(state: PlayerState) {
    Truthy(state.currentTime) || Truthy(state.totalTime)
  }

  function ArtistRow(state: PlayerState): Item {
    Item(Trim(OrElse(state.artist, "")), Trim(OrElse(state.album, "")))
  }

  function TimeRow(state: PlayerState): Item {
    Item(Trim(OrElse(state.currentTime, "")), Trim(OrElse(state.totalTime, "")))
  }

  /**
   * `sendChangeNotification`: nothing without a song; otherwise a list notification
   * whose id is the extension id followed by the site name, whose rows are the
   * song, then artist/album if known, then the times if known, and whose icon is
   * the album art or the extension's default icon.
   */
  function BuildNotification(state: PlayerState, senderId: string, defaultIcon: string): (r: Option<Notification>)
    ensures r.Some? <==> Truthy(state.song)
    ensures r.Some? ==>
              && r.value.id == senderId + state.siteName
              && r.value.title == state.siteName
              && r.value.message == Trim(state.song.value)
              && r.value.iconUrl == OrElse(state.art, defaultIcon)
    ensures r.Some? ==>
              && |r.value.items| == 1 + (if HasArtistRow(state) then 1 else 0) + (if HasTimeRow(state) then 1 else 0)
              && r.value.items[0] == Item(Trim(state.song.value), "")
              && (HasArtistRow(state) ==> r.value.items[1] == ArtistRow(state))
              && (HasTimeRow(state) ==> r.value.items[|r.value.items| - 1] == TimeRow(state))
  {
    if !Truthy(state.song) then None
    else
      var song := Trim(state.song.value);
      var items := [Item(song, "")]
        + (if HasArtistRow(state) then [ArtistRow(state)] else [])
        + (if HasTimeRow(state) then [TimeRow(state)] else []);
      Some(Notification(senderId + state.siteName, state.siteName, song, OrElse(state.art, defaultIcon), items))
  }

  /** Neither text of a row has white space at either end, so trimming it again changes nothing. */
  predicate ItemTrimmed(it: Item) {
    IsTrimmed(it.title) && IsTrimmed(it.message)
  }

  /** The message is its own trim, and every row text has white space at neither end. */
  lemma NotificationTextIsTrimmed(state: PlayerState, senderId: string, defaultIcon: string)
    requires Truthy(state.song)
    ensures Trim(BuildNotification(state, senderId, defaultIcon).value.message)
            == BuildNotification(state, senderId, defaultIcon).value.message
    ensures forall it :: it in BuildNotification(state, senderId, defaultIcon).value.items ==> ItemTrimmed(it)
  {
    var n := BuildNotification(state, senderId, defaultIcon).value;
    TrimIdempotent(state.song.value);
    RowsTrimmed(n.items, Item(Trim(state.song.value), ""), ArtistRow(state), TimeRow(state),
                HasArtistRow(state), HasTimeRow(state));
  }

  /**
   * Every row of a list made of a first row, an optional second row and an
   * optional last row is one of those rows, so it is trimmed when all three are.
   */
  lemma RowsTrimmed(items: seq<Item>, first: Item, second: Item, third: Item, hasSecond: bool, hasThird: bool)
    requires ItemTrimmed(first) && ItemTrimmed(second) && ItemTrimmed(third)
    requires |items| == 1 + (if hasSecond then 1 else 0) + (if hasThird then 1 else 0)
    requires items[0] == first
    requires hasSecond ==> items[1] == second
    requires hasThird ==> items[|items| - 1] == third
    ensures forall it :: it in items ==> ItemTrimmed(it)
  {
    forall it | it in items
      ensures ItemTrimmed(it)
    {
      var i :| 0 <= i < |items| && items[i] == it;
      if i == 0 {
      } else if i == 1 && hasSecond {
      } else {
        assert hasThird && i == |items| - 1;
      }
    }
  }

  /** Two reports from the same site give the same notification id, so the second replaces the first. */
  lemma SameSiteSameNotification(a: PlayerState, b: PlayerState, senderId: string, defaultIcon: string)
    requires Truthy(a.song) && Truthy(b.song) && a.siteName == b.siteName
    ensures BuildNotification(a, senderId, defaultIcon).value.id == BuildNotification(b, senderId, defaultIcon).value.id
  {
  }

  /** One entry of `notificationTimeouts`: when the timer is due and whether it is still pending. */
  datatype Timer = Timer(deadline: int, pending: bool)

  type Timeouts = map<string, Timer>

  /** One `chrome.notifications.clear(id)` call, at the time the timer fires. */
  datatype Clear = Clear(id: string, at: int)

  /**
   * The `create` callback for notification `id` at time `now`: a timer already
   * stored for that id is cancelled and deleted, and a fresh one is stored.
   */
  function OnCreated(ts: Timeouts, id: string, now: int): (r: Timeouts)
    ensures id in r && r[id] == Timer(now + NOTIFICATION_CLEAR_MS, true)
    ensures forall other :: other != id ==> (other in r <==> other in ts) && (other in ts ==> r[other] == ts[other])
  {
    ts[id := Timer(now + NOTIFICATION_CLEAR_MS, true)]
  }

  /**
   * The pending timer of `id` fires: the notification is cleared at the timer's
   * deadline. The entry stays in the map, no longer pending.
   */
  function OnFired(ts: Timeouts, id: string): (r: (Timeouts, seq<Clear>))
    ensures id in ts && ts[id].pending ==>
              r.1 == [Clear(id, ts[id].deadline)] && r.0 == ts[id := Timer(ts[id].deadline, false)]
    ensures !(id in ts && ts[id].pending) ==> r == (ts, [])
  {
    if id in ts && ts[id].pending then (ts[id := Timer(ts[id].deadline, false)], [Clear(id, ts[id].deadline)])
    else (ts, [])
  }

  /** The timers of the background page, changed in place by the two callbacks. */
  class NotificationTimers {
    var timeouts: Timeouts
    var cleared: seq<Clear>

    constructor ()
      ensures timeouts == map[] && cleared == []
    {
      timeouts := map[];
      cleared := [];
    }

    /**
     * A `send_change_notification` message at time `now`: when the site allows
     * notifications and the state has a song, the notification is created and its timer (re)started.
     */
    method Show(allowed: bool, state: PlayerState, senderId: string, defaultIcon: string, now: int)
      returns (shown: Option<Notification>)
      modifies this
      ensures shown == if allowed then BuildNotification(state, senderId, defaultIcon) else None
      ensures timeouts == if shown.Some? then OnCreated(old(timeouts), shown.value.id, now) else old(timeouts)
      ensures cleared == old(cleared)
    {
      shown := if allowed then BuildNotification(state, senderId, defaultIcon) else None;
      if shown.Some? {
        timeouts := OnCreated(timeouts, shown.value.id, now);
      }
    }

    /** The timer of notification `id` fires. */
    method Fire(id: string)
      modifies this
      ensures |old(cleared)| <= |cleared|
      ensures (timeouts, cleared[|old(cleared)|..]) == OnFired(old(timeouts), id)
      ensures cleared[..|old(cleared)|] == old(cleared)
    {
      var next := OnFired(timeouts, id);
      timeouts := next.0;
      cleared := cleared + next.1;
    }
  }

  /** The two things that happen to the timers: a notification is created, or a pending timer fires. */
  datatype TimerEvent = Created(id: string, at: int) | Fired(id: string)

  function TimerStep(ts: Timeouts, e: TimerEvent): (Timeouts, seq<Clear>) {
    match e
    case Created(id, at) => (OnCreated(ts, id, at), [])
    case Fired(id) => OnFired(ts, id)
  }

  function RunTimers(ts: Timeouts, es: seq<TimerEvent>): (Timeouts, seq<Clear>)
    decreases |es|
  {
    if es == [] then (ts, [])
    else
      var first := TimerStep(ts, es[0]);
      var rest := RunTimers(first.0, es[1..]);
      (rest.0, first.1 + rest.1)
  }
}

module NotificationProperties {
  import opened Common
  import opened Notifications

  lemma RunTimersCons(ts: Timeouts, e: TimerEvent, es: seq<TimerEvent>)
    ensures RunTimers(ts, [e] + es)
            == (RunTimers(TimerStep(ts, e).0, es).0, TimerStep(ts, e).1 + RunTimers(TimerStep(ts, e).0, es).1)
  {
    assert ([e] + es)[0] == e && ([e] + es)[1..] == es;
  }

  /** Every clear happens five seconds after a creation of the same notification. */
  lemma {:induction false} ClearsFollowCreations(ts: Timeouts, es: seq<TimerEvent>, before: seq<TimerEvent>)
    requires forall id :: id in ts && ts[id].pending ==> Created(id, ts[id].deadline - NOTIFICATION_CLEAR_MS) in before
    ensures forall c :: c in RunTimers(ts, es).1 ==> Created(c.id, c.at - NOTIFICATION_CLEAR_MS) in before + es
    decreases |es|
  {
    if es != [] {
      var first := TimerStep(ts, es[0]);
      var seen := before + [es[0]];
      forall id | id in first.0 && first.0[id].pending
        ensures Created(id, first.0[id].deadline - NOTIFICATION_CLEAR_MS) in seen
      {
        if es[0].Created? && es[0].id == id {
          assert first.0[id].deadline - NOTIFICATION_CLEAR_MS == es[0].at;
        } else {
          assert id in ts && ts[id].pending && first.0[id] == ts[id];
        }
      }
      forall c | c in first.1
        ensures Created(c.id, c.at - NOTIFICATION_CLEAR_MS) in seen
      {
        assert es[0].Fired? && c == Clear(es[0].id, ts[es[0].id].deadline);
      }
      ClearsFollowCreations(first.0, es[1..], seen);
      assert seen + es[1..] == before + es;
    }
  }

  /** Number of creations of notification `id`. */
  function CountCreated(es: seq<TimerEvent>, id: string): nat {
    if es == [] then 0 else (if es[0].Created? && es[0].id == id then 1 else 0) + CountCreated(es[1..], id)
  }

  /** Number of clears of notification `id`. */
  function CountClears(cs: seq<Clear>, id: string): nat {
    if cs == [] then 0 else (if cs[0].id == id then 1 else 0) + CountClears(cs[1..], id)
  }

  lemma {:induction false} CountClearsConcat(a: seq<Clear>, b: seq<Clear>, id: string)
    ensures CountClears(a + b, id) == CountClears(a, id) + CountClears(b, id)
  {
    if a == [] {
      assert a + b == b;
    } else {
      assert (a + b)[1..] == a[1..] + b;
      CountClearsConcat(a[1..], b, id);
    }
  }

  function PendingCount(ts: Timeouts, id: string): nat {
    if id in ts && ts[id].pending then 1 else 0
  }

  /**
   * A notification is cleared at most once per creation: the clears of `id`
   * plus the timer still pending for it never exceed its creations plus the
   * timer pending at the start.
   */
  lemma {:induction false} ClearedAtMostOncePerCreation(ts: Timeouts, es: seq<TimerEvent>, id: string)
    ensures CountClears(RunTimers(ts, es).1, id) + PendingCount(RunTimers(ts, es).0, id)
            <= CountCreated(es, id) + PendingCount(ts, id)
    decreases |es|
  {
    if es != [] {
      var first := TimerStep(ts, es[0]);
      var rest := RunTimers(first.0, es[1..]);
      ClearedAtMostOncePerCreation(first.0, es[1..], id);
      CountClearsConcat(first.1, rest.1, id);
      assert CountClears(first.1, id) + PendingCount(first.0, id)
             <= (if es[0].Created? && es[0].id == id then 1 else 0) + PendingCount(ts, id) by {
        match es[0]
        case Created(i, at) =>
        case Fired(i) =>
          if i == id && id in ts && ts[id].pending {
            assert first.1 == [Clear(id, ts[id].deadline)] && first.1[1..] == [];
          } else if id in ts && ts[id].pending {
            assert first.1 == [] || first.1 == [Clear(i, ts[i].deadline)];
            assert first.1 != [] ==> first.1[1..] == [];
          } else {
            assert first.1 != [] ==> first.1 == [Clear(i, ts[i].deadline)] && first.1[1..] == [];
          }
      }
    }
  }

  /**
   * The same notification shown twice: the second creation cancels the first
   * timer, so only one clear happens, five seconds after the second showing.
   */
  lemma ShownTwiceClearedOnce(id: string, t1: int, t2: int)
    ensures RunTimers(map[], [Created(id, t1), Created(id, t2), Fired(id), Fired(id)]).1
            == [Clear(id, t2 + NOTIFICATION_CLEAR_MS)]
  {
    var s1 := OnCreated(map[], id, t1);
    var s2 := OnCreated(s1, id, t2);
    var s3 := OnFired(s2, id).0;
    assert s3[id] == Timer(t2 + NOTIFICATION_CLEAR_MS, false);
    RunTimersCons(s3, Fired(id), []);
    RunTimersCons(s2, Fired(id), [Fired(id)]);
    RunTimersCons(s1, Created(id, t2), [Fired(id), Fired(id)]);
    RunTimersCons(map[], Created(id, t1), [Created(id, t2), Fired(id), Fired(id)]);
  }
}

# Streamkeys background page: a Dafny model

Streamkeys is a browser extension that maps global media hotkeys onto the
music player running in a browser tab. This project models the extension's
background page (`code/js/background.js`) and the extension-id check and
manifest construction of its native-host installer
(`code/native/mpris_host_setup.py`), and proves what they promise.

- **Tab registry** (`tabs.dfy`): the map from tab id to the last reported player
  state and the time it arrived, updated on reports and tab removal.
- **Best-tab selection** (`selector.dfy`): `getBestSinglePlayerTab`. The model
  keeps tabs whose report is within 200 ms of the latest one. It sorts them
  stably by (active in its window, report time) and takes the last one. lodash's stable
  `sortBy` is written as an insertion sort.
- **Command routing** (`router.dfy`): `sendAction`, `sendActionSinglePlayer`,
  `sendActionAllPlayers` and `processCommand`. Broadcast commands go to every
  tab. Single-player mode goes to the playing tabs, or else to the best tab. It
  splits tabs into secondary-controlled and primary-controlled ones, and tab
  pinning is modelled too.
- **Long press** (`longpress.dfy`): the hotkey listener's detector for a held
  `playPause` key. It uses a 50 ms threshold and a 500 ms end timer. Time is an
  explicit argument, and a pending timer is represented by its deadline.
- **Notifications** (`notifications.dfy`): the list notification built from a
  state report, and the per-notification five-second clear timers.
- **Durations** (`hms.dfy`): `hmsToSecondsOnly`. This covers JavaScript
  `split(":")` and `parseInt` on digit groups, and the pop-and-accumulate loop.
- **MPRIS bridge** (`mpris.dfy`): the native-command mapping and the choice of
  the tab whose state is mirrored. It also covers the `update_state` message and
  the port's life cycle.
- **Script injection** (`injection.dfy`): the `ignoreTabIds` toggle, which
  injects the media interceptor on every second page load of a music tab.
- **Host installer** (`hostsetup.dfy`): the Chrome extension-id format
  (32 characters in `a`..`p`) and the per-browser manifest record. Its allowed
  list is shared with the module-level template.

The browser supplies some values that the model takes as inputs:

- the active music tabs;
- the stored settings;
- the sites with secondary controls;
- whether a URL is a music site;
- a site's patch file;
- whether notifications are enabled;
- the current time.

The external effects are recorded as values:

- tab messages (`Send`);
- requests to clear a notification (`Clear`);
- messages posted to the native host (`PortMessage`);
- injected files.

Stateful parts of the source are classes whose methods are tied to pure step
functions, and their properties are proved about those functions.

## Model

| member | source | states |
|---|---|---|
| Tabs.GetTabUpdateTime | code/js/background.js:89-94 | A tab's stored report time, or 0 for a tab that never reported; `UnreportedTabNeverChosen` shows such a tab loses to any report at least 200 ms old. |
| Tabs.GetPlayingTabs | code/js/background.js:99-104 | Keeps exactly the listed tabs that have reported and whose last report says playing. |
| Tabs.TabRegistry.constructor | code/js/background.js:17 | The registry starts empty. |
| Tabs.TabRegistry.Update | code/js/background.js:235-239 | The reporting tab's entry becomes (arrival time, state). Every other tab's update time is unchanged. |
| Tabs.TabRegistry.Remove | code/js/background.js:485-487 | The tab's entry is gone afterwards. `removed` is true exactly when the entry existed. |
| Selector.MaxUpdateTime | code/js/background.js:79-80 | The maximum is an upper bound of every tab's update time and is attained by some tab. |
| Selector.Window | code/js/background.js:81-84 | A tab is kept exactly when it is within 200 ms of the latest report. A non-empty list always keeps at least one tab. |
| Selector.SortByKey | code/js/background.js:85 | The result is a permutation of the input, sorted by (active in its window, update time). |
| Selector.LastOfSort | code/js/background.js:85-86 | The stable sort's last element has the greatest key, and no tab after it in the input has an equal key. |
| Selector.GetBestSinglePlayerTab | code/js/background.js:78-87 | Returns a tab exactly when the list is non-empty. That tab is within the window, and no tab in the window has a greater key. |
| SelectorProperties.BestTabTieBreak | code/js/background.js:85-86 | Among equal keys the chosen tab is the last one in list order. |
| SelectorProperties.ActiveTabWinsWithinWindow | code/js/background.js:72-87 | When two tabs reported less than 200 ms apart, the one active in its window is chosen, whatever the list order. |
| SelectorProperties.StaleTabNeverChosen | code/js/background.js:81-84 | A tab that reported at least 200 ms after another is chosen over it, whichever is active in its window. |
| SelectorProperties.UnreportedTabNeverChosen | code/js/background.js:78-94 | If any tab has a report time of at least 200 ms, the chosen tab has reported. |
| Router.Broadcast | code/js/background.js:109-118 | One message per tab, in order, each with the command and the arguments. |
| Router.SendActionAllPlayers | code/js/background.js:109-118 | The `forEach` loop sends exactly the broadcast sequence. |
| Router.RestrictTabs | code/js/background.js:54-62 | A command ending in "secondary" (any case) keeps exactly the secondary-controlled tabs. Any other command keeps exactly the others. |
| Router.SendAction | code/js/background.js:25-44 | Dispatches broadcast commands and mode-off commands to `sendActionAllPlayers`, and the rest to single-player routing; what it sends is stated by `SendActionOnlyActiveTabs`, `BroadcastCommandReachesEveryTab`, `EveryTabWhenModeOff` and the single-player lemmas below. |
| Router.SendActionSinglePlayerAsWritten | code/js/background.js:51-70 | The single-player routing as the source writes it, with its `TypeError` outcome; `AsWrittenFailsExactlyOnEmptyTarget` says exactly when it throws and that it agrees with the corrected routing otherwise. |
| Router.SendActionSinglePlayer | code/js/background.js:51-70 | The corrected single-player routing; `SinglePlayerReachesAllPlayingTargets`, `OnePlayingTabGetsCommandAlone`, `SinglePlayerFallsBackToBestTab` and `SinglePlayerNothingTargeted` state who receives the command. |
| Router.ProcessCommand | code/js/background.js:124-135 | A `command` request; `PinnedRequestBypassesRouting` and `UnpinnedRequestIsRoutedWithoutArgs` state its two cases. |
| RouterProperties.SendActionOnlyActiveTabs | code/js/background.js:25-44 | Every message goes to an active music tab and carries the command with its (possibly empty) argument list. |
| RouterProperties.BroadcastCommandReachesEveryTab | code/js/background.js:28-33 | mute, stop, playerStateNotify and getPlayerState go to every active tab, in order. |
| RouterProperties.EveryTabWhenModeOff | code/js/background.js:35-41 | Without single-player mode every command goes to every active tab. |
| RouterProperties.SinglePlayerReachesAllPlayingTargets | code/js/background.js:64-69 | In single-player mode with a targeted tab playing, every targeted playing tab gets the command and nothing else is sent. |
| RouterProperties.OnePlayingTabGetsCommandAlone | code/js/background.js:64-69 | When exactly one targeted tab plays, it alone gets the command. |
| RouterProperties.SinglePlayerFallsBackToBestTab | code/js/background.js:64-66 | When no targeted tab plays, exactly one message goes to the best targeted tab. |
| RouterProperties.SinglePlayerNothingTargeted | code/js/background.js:51-70 | With the corrected routing, no targeted tab means nothing is sent. |
| RouterProperties.PinnedRequestBypassesRouting | code/js/background.js:124-131 | A request pinned to a tab sends one message to that tab with the request's own args, independent of the tabs and settings. |
| RouterProperties.UnpinnedRequestIsRoutedWithoutArgs | code/js/background.js:132-134 | Any other request is routed by `sendAction` with an empty argument list; the request's args are dropped. |
| RouterProperties.AsWrittenFailsExactlyOnEmptyTarget | code/js/background.js:51-70 | The routing as written throws exactly when tabs exist but none is targeted. Otherwise it equals the corrected routing. |
| RouterProperties.AsWrittenCrashExample | code/js/background.js:52-66 | One active, secondary-controlled tab and the command playPause: the source throws, while the corrected routing sends nothing. |
| LongPress.OnCommand | code/js/background.js:144-170 | Records the hotkey time. A playPause within 50 ms starts a press if none is under way and (re)sets the end deadline to now + 500 ms. Any other hotkey is forwarded and leaves the press state alone. The press flag and the timer stay in step. |
| LongPress.OnEndTimer | code/js/background.js:195-200 | Ends the press, clears the timer and restores normal playback speed. |
| LongPress.LongPressDetector.constructor | code/js/background.js:137-138 | No hotkey yet (time 0), no press, no timer. |
| LongPress.LongPressDetector.HandleCommand | code/js/background.js:144-170 | The listener's updates to the three variables and its outputs are exactly those of `OnCommand`. |
| LongPress.LongPressDetector.RestartLongPressEndTimer | code/js/background.js:175-185 | The pending timer is replaced by one due 500 ms from now. |
| LongPress.LongPressDetector.LongPressEventStarted | code/js/background.js:187-193 | The press starts and playback speeds up (`playBackRate` 2). |
| LongPress.LongPressDetector.LongPressEventEnded | code/js/background.js:195-200 | Matches `OnEndTimer`. |
| LongPress.Dispatch | code/js/background.js:168-198 | The listener hands a forwarded hotkey, the press start and the press end to `sendAction`; `PressOnlySetsPlaybackRate` and `PressReachesPlayingTabs` state what reaches the tabs. |
| LongPressProperties.PressOnlySetsPlaybackRate | code/js/background.js:187-200 | The start and the end of a long press send only `playBackRate` 2 and 1 respectively, and only to active music tabs. |
| LongPressProperties.PressReachesPlayingTabs | code/js/background.js:187-200 | In single-player mode with a targeted tab playing, the speed change reaches every targeted playing tab. |
| LongPressProperties.RunAlternates | code/js/background.js:144-200 | Over any run of hotkeys and timer firings, speed-up and slow-down alternate, starting from the current press state. The final press flag matches the last of them, and timer and flag stay consistent. |
| LongPressProperties.HeldKeyOnlyMovesDeadline | code/js/background.js:158-164 | While a press is under way, a held key (repeats under 50 ms apart) sends nothing. It only pushes the end deadline to 500 ms after the last repeat. |
| LongPressProperties.TwoQuickPressesThenRelease | code/js/background.js:144-200 | From idle, two playPause hotkeys 30 ms apart and then the timer give a forwarded playPause, then speed-up, then slow-down. The deadline is 530 ms after the first press, and the detector ends idle. |
| Hms.Split | code/js/background.js:357 | `split(":")` always yields at least one part, and no part contains a colon. |
| Hms.JoinSplit | code/js/background.js:357 | Joining the parts with ":" gives back the string. |
| Hms.SplitJoin | code/js/background.js:357 | Splitting the join of colon-free parts gives back the parts. |
| Hms.HmsToSecondsOnly | code/js/background.js:356-367 | The loop returns the sum of each group's value times 60 to the power of its distance from the last group. |
| Hms.WeightedIsHorner | code/js/background.js:360-363 | The right-to-left loop agrees with the left-to-right reading (total times 60 plus the next group). |
| Hms.HoursMinutesSeconds | code/js/background.js:356-367 | "h:m:s" is h·3600 + m·60 + s. |
| Hms.SingleGroupIsSeconds | code/js/background.js:356-367 | A duration without colons is its own number of seconds. |
| Hms.OneHourTwoMinutesThreeSeconds | code/js/background.js:356-367 | "1:02:03" is 3723 seconds. |
| Notifications.BuildNotification | code/js/background.js:263-285 | No notification without a song. The id is the extension id plus the site name; the title is the site and the message is the trimmed song. The items are the song, then artist/album only when either is known, then the times only when either is known. The icon is the art, or else the default icon. |
| Notifications.NotificationTextIsTrimmed | code/js/background.js:268-282 | The message and every item text are already trimmed. |
| Notifications.SameSiteSameNotification | code/js/background.js:280 | Reports from the same site share one notification id, so a later one replaces the earlier. |
| Notifications.OnCreated | code/js/background.js:286-295 | The notification's timer becomes a pending one due 5000 ms after creation. The other timers are unchanged. |
| Notifications.OnFired | code/js/background.js:293-295 | A pending timer clears its notification at its deadline and stays stored as no longer pending. Otherwise nothing happens. |
| Notifications.NotificationTimers.constructor | code/js/background.js:10 | No timers and nothing cleared. |
| Notifications.NotificationTimers.Show | code/js/background.js:255-297 | Builds the notification only when the site allows it. Starting or restarting its timer matches `OnCreated`. |
| Notifications.NotificationTimers.Fire | code/js/background.js:293-295 | Matches `OnFired`, appending its clears. |
| NotificationProperties.ClearsFollowCreations | code/js/background.js:286-296 | Every clear happens exactly 5000 ms after some creation of the same notification. |
| NotificationProperties.ClearedAtMostOncePerCreation | code/js/background.js:286-296 | For each notification, clears plus still-pending timers never exceed creations plus the timer pending at the start. |
| NotificationProperties.ShownTwiceClearedOnce | code/js/background.js:286-296 | Showing the same notification twice gives a single clear, 5000 ms after the second showing. |
| Mpris.NativeCommand | code/js/background.js:369-388 | play, pause and playpause map to playPause; stop to stop; next to playNext; previous to playPrev. Anything else maps to nothing. |
| Mpris.HandleNativeMessage | code/js/background.js:369-388 | `handleNativeMsg`: maps the native command and routes it as a hotkey; `NativeMessagesAreHotkeys` states what it sends. |
| Mpris.MprisBridge.OnNativeMessage | code/js/background.js:369-388 | The port's message listener routes a native message only while a port exists and has not been disconnected on suspend; otherwise nothing is sent. |
| MprisProperties.NativeMessagesAreHotkeys | code/js/background.js:369-388 | A native message sends nothing if unknown. Otherwise it sends one of those four commands with no arguments, to active music tabs only. |
| Mpris.MirrorTarget | code/js/background.js:403-417 | A tab is mirrored exactly when there are active music tabs, and it is one of them. When any of them plays, it is a playing one. It is the best of its pool (the playing tabs, or all tabs when none plays): inside the pool's 200 ms window, and no tab in that window has a greater (active in its window, update time) key. |
| Mpris.MirrorMessage | code/js/background.js:403-422 | With no active music tab the desktop player is removed. Otherwise the mirrored tab's stored state is sent, and nothing is sent while that tab has not reported. |
| MprisProperties.MirroredTabReceivesCommand | code/js/background.js:389-422 | In single-player mode without secondary sites, a primary command reaches the tab the desktop player shows. |
| MprisProperties.PlaybackStatusFollowsPage | code/js/background.js:441-446 | The status is "Playing" exactly when the page plays. CanPlay and CanPause both follow canPlayPause. |
| MprisProperties.TrackIdIsTheTab | code/js/background.js:434 | The track id is the tab id exactly when a song is known. |
| Mpris.UpdateMprisState | code/js/background.js:429-460 | Builds the `update_state` arguments; `PlaybackStatusFollowsPage`, `TrackIdIsTheTab` and `TimeFieldIsReportedOrZero` state its fields. |
| Mpris.TimeField | code/js/background.js:439-454 | `Position` and `mpris:length`; `TimeFieldIsReportedOrZero` states their value. |
| MprisProperties.TimesAndVolumeFollowPage | code/js/background.js:439-457 | Position and length are the current and total time fields (the reported text, or 0 µs when absent). The volume is sent exactly as the page reported it, and is absent when the page reported none. |
| MprisProperties.TimeFieldIsReportedOrZero | code/js/background.js:439-454 | Position and length are the reported text whenever the field is present. The seconds conversion is applied to every text but is overwritten then, so it survives only for an absent field, where it reads "0" and gives 0 µs. |
| Mpris.MprisBridge.constructor | code/js/background.js:465-473 | A port and listeners exist exactly when the stored use_mpris setting is true, with one connection. |
| Mpris.MprisBridge.Refresh | code/js/background.js:245 | Posts the mirror message only when a port exists. |
| Mpris.MprisBridge.OnInjectController | code/js/background.js:223 | Announces a new player when a port exists. |
| Mpris.MprisBridge.OnUpdatePlayerState | code/js/background.js:235-246 | Stores the report, then mirrors the new registry. The connection count, the port and its listeners are unchanged. |
| Mpris.MprisBridge.OnTabRemoved | code/js/background.js:485-490 | With listeners, the tab is forgotten, and the state is mirrored only if it had reported. The connection count, the port and its listeners are unchanged. |
| Mpris.MprisBridge.OnTabActivated | code/js/background.js:496-500 | Mirrors only when the newly activated tab has reported. |
| Mpris.MprisBridge.Suspend | code/js/background.js:474-479 | Drops a connection and sends quit when none is left. The port is disconnected. |
| Injection.IndexOf | code/js/background.js:512 | -1 exactly when absent; otherwise the first position of the tab. |
| Injection.InjectedFiles | code/js/background.js:515-525 | The media interceptor first, then the site's patch exactly when it has one. |
| Injection.InjectionToggle.constructor | code/js/background.js:508 | The list of tabs to inject on their next load starts empty. |
| Injection.InjectionToggle.OnUpdated | code/js/background.js:509-531 | The list update and the injected files are exactly those of the load step. |
| Injection.LoadStep | code/js/background.js:509-531 | One `tabs.onUpdated` event on the `ignoreTabIds` list; `LoadToggles`, `OtherUpdatesAreIgnored` and `LoadTwiceInjectsOnce` state what it does. |
| InjectionProperties.LoadToggles | code/js/background.js:509-531 | A music-tab load flips whether the tab is recorded and injects exactly when it was recorded. Other tabs are untouched and the list stays free of duplicates. |
| InjectionProperties.OtherUpdatesAreIgnored | code/js/background.js:510-511 | Updates that are not loads of a music site change nothing. |
| InjectionProperties.LoadTwiceInjectsOnce | code/js/background.js:509-531 | Two loads of an unrecorded tab: no injection on the first, injection on the second, and the list as it was. |
| HostSetup.ChromeOrigin | code/native/mpris_host_setup.py:107 | The origin is "chrome-extension://", then the id, then "/", with the length that implies. |
| HostSetup.PathJoin | code/native/mpris_host_setup.py:88 | The host path ends with the host file name, and equals it when the directory is empty. |
| HostSetup.Install | code/native/mpris_host_setup.py:152-172 | A Chrome install fails exactly for an invalid id, with the source's message. Otherwise the manifest points at the host path and allows just this extension: its origin for Chrome, the bare id for Firefox. |
| HostSetup.Installer.constructor | code/native/mpris_host_setup.py:13-26 | Both template lists start empty. |
| HostSetup.Installer.InstallHost | code/native/mpris_host_setup.py:98-107 | Appends to the browser's shared template list and returns a manifest that carries that very list. |
| HostSetup.Installer.MainInstall | code/native/mpris_host_setup.py:152-172 | Rejects an invalid Chrome id before touching any list; otherwise behaves as `InstallHost`. |
| HostSetup.RunInstall | code/native/mpris_host_setup.py:142-172 | One installer run gives exactly `Install`'s result. |
| HostSetupProperties.ValidIdsAreShiftedHex | code/native/mpris_host_setup.py:153-157 | A valid id is exactly 32 hexadecimal digits written with a..p. |
| HostSetupProperties.ShiftedHexIsValid | code/native/mpris_host_setup.py:153-157 | Any 32 hex digits shifted onto a..p form a valid id, and shifting back recovers the digits. |
| HostSetupProperties.OriginRoundTrip | code/native/mpris_host_setup.py:107 | The extension id can be read back from its origin. |
| HostSetupProperties.ChromeManifestAllowsOnlyThatExtension | code/native/mpris_host_setup.py:153-158 | A Chrome install succeeds exactly for valid ids, and its single allowed origin names that extension. |
| HostSetupProperties.FirefoxSkipsIdCheck | code/native/mpris_host_setup.py:153 | The Firefox default id is installed for Firefox but refused for Chrome. |
| HostSetupProperties.HexAndShortIdsRefused | code/native/mpris_host_setup.py:156-157 | Digits 0-9 and a 31-character id are refused, and a 32-character a..p id is accepted. |
| HostSetupProperties.HostPathInInstallDir | code/native/mpris_host_setup.py:88 | The host script sits directly inside the install directory. |

## Left out

- Browser APIs: `chrome.tabs`, `chrome.storage`, `chrome.notifications`, `executeScript` and the native port. Their inputs are parameters, and their effects are recorded values.
- The other `runtime.onMessage` requests: settings updates, site lists, controller lookup, music-site checks, command lists, music-tab lists and the popup update message. They are plumbing to the `Sitelist` module, which is not part of this model.
- The storage migration and the install page (`storageInitializedCheck`, `onInstalled`). They are one-off I/O.
- The `Sitelist` predicates (active music tabs, secondary controls, show-notifications, tab enabled, patch file). They are inputs.
- Router.HasTabTarget: `parseInt` of a non-numeric tab target (NaN) is not modelled; the target is an integer or absent.
- Common.ToLowerAscii: lower-cases ASCII only, not all of Unicode; command names are ASCII.
- Mpris.UpdateMprisState: a stored `null` state is not modelled; reports always carry a state. In the source such a state would make `getPlayingTabs` throw on `null.isPlaying` before anything is posted, and `remove_player` is posted only when there is no active music tab (see `MirrorMessage`). The volume is passed through as an opaque value.
- Mpris.HmsMicros: only text made of colon-separated digit groups is converted; any other text is `NotANumber`, where `parseInt` would read a leading run of digits ("2x" as 2). The converted value is discarded whenever the field is present, so only "0" reaches a message.
- Router.SendAction: single-player commands go through the corrected `SendActionSinglePlayer`, so the source's `TypeError` on an empty targeted list is not raised there; outside that case both send the same messages (`AsWrittenFailsExactlyOnEmptyTarget`).
- Mpris.MprisBridge: posting on a port after it was disconnected is recorded like any other post; the source's exception there is not modelled.
- Timers are deadlines. Their firing is an explicit event; the clock and concurrent callbacks are not modelled.
- Hms.HmsToSecondsOnly: only well-formed durations (digit groups) are modelled; `parseInt` on other text (NaN, or a leading-digit prefix) is not.
- In the installer: argument parsing, file copies and writes, `chmod`, JSON serialisation, dependency imports, logging, and uninstall. None of this is part of the id check or the manifest record.
- HostSetup.PathJoin: an absolute second argument is not modelled; the host file name is relative.

## Findings

| source | as written | input that shows it | evidently intended | confidence | as-written member | corrected member |
|---|---|---|---|---|---|---|
| code/js/background.js:51-70 | `sendActionSinglePlayer` tests for an empty tab list before restricting it to secondary or primary tabs. An empty restricted list reaches `getBestSinglePlayerTab([])`, whose `undefined` result `sendActionAllPlayers` dereferences (`tab.id`), which throws a TypeError. | single-player mode, command `playPause`, one active tab whose site has secondary controls enabled | send nothing when no tab is targeted | not executed | RouterProperties.AsWrittenCrashExample | RouterProperties.SinglePlayerNothingTargeted |

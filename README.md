# DeepSeaGuard alert core, modelled in Dafny

DeepSeaGuard is a browser dashboard for deep-sea mining vehicles. Nearly all
of it is map and panel rendering over fixed mock data. The part with logic
of its own is the handling of alerts:

- the root component (`src/App.jsx`) holds the alert list and some UI flags
  in state, loads three alerts when it mounts, and dismisses alerts by id;
- the header bell (`Header.jsx`) counts the alerts of each severity (`high`,
  `medium`, `low`) and shows their sum, a "critical" highlight, and one
  sample row per severity that is present;
- the alert widget (`AlertSystem.jsx`) shows `alerts.length` on its own
  badge, highlights it when some alert has severity `high`, and labels
  each listed alert with its age ("Just now", "5 minutes ago",
  "3 hours ago", or a calendar date).

The model has five modules, one per file:

- `Alerts` (alerts.dfy): the alert record and the array operations
  `filter` and `some`.
- `Decimal` (decimal.dfy): the decimal text that `${n}` produces.
- `AlertSystem` (alert_system.dfy): `formatRelativeTime`, the badge, the
  panel and the widget's local state.
- `Header` (header.dfy): the per-severity counts, the total, the panel rows
  and the header's local state.
- `App` (app.dfy): the root component's state as a class with one method
  per handler, the dismissal function, the initial list, and lemmas that
  compare the two bells when both get the same `alerts`.

Values that the source reads from the environment are parameters:

- `now` replaces `new Date()`.
- `renderNow` stands for the `Date.now()` read when the widget's mock list
  is built.
- Instants are integer milliseconds.

### Behaviour worth knowing

- Unknown severities are never rejected. The header's total is the sum of
  the three counts, so an alert with any other severity is silently left
  out of it. The widget's badge is `alerts.length`, which counts it. The
  two badges therefore differ exactly when such an alert is present
  (`App.BadgesDiffer`, `App.CriticalIsNotCounted`).
- A count is pluralised when it is above 1. A phrase with a count is only
  produced for counts of at least 1, so the only singular forms are
  "1 minute ago" and "1 hour ago"; no count of 0 or below is ever printed.
- The widget's open panel lists its own `mockAlerts`, not the `alerts` it
  receives (AlertSystem.jsx:80-82). Only its badge follows the prop. So
  `AlertSystem.Panel` has no alert-list parameter, and its "No active
  alerts" branch can never be taken.
- `App` passes `onDismiss` and `onClose` to the widget, and `onAlertClick`,
  `darkMode` and `onToggleDarkMode` to the header. Neither component reads
  these props (AlertSystem.jsx:4, Header.jsx:5). So nothing in these three files
  calls `handleAlertDismiss`, `handleAlertClick` or `toggleDarkMode`.
  They are modelled as the handlers they are.
  `showAlerts` starts false (src/App.jsx:24). Only `handleAlertClick` and
  the `onClose` arrow (src/App.jsx:133) set it, and neither is ever
  invoked. So the gate at src/App.jsx:129-135 never mounts the widget from
  this root, and `AlertSystem.AlertSystemState` describes the widget only
  where it is mounted some other way.

## Model

| member | source | states |
|---|---|---|
| `Alerts.Filter` | src/App.jsx:83 | the filtered list is no longer than the input and holds only input elements that the test accepts |
| `Alerts.Any` | AlertSystem.jsx:12 | `some` is true exactly when some position holds an element the test accepts |
| `Decimal.NatToString` | AlertSystem.jsx:58 | `${n}` is non-empty, all digits, has no leading zero unless n is 0, and is one digit exactly when n < 10 |
| `Decimal.DigitsValueOfNatToString` | AlertSystem.jsx:58-59 | reading the digits back gives n, so the printed count is the computed count |
| `Decimal.NatToStringInjective` | AlertSystem.jsx:58-59 | different counts are printed differently |
| `AlertSystem.FormatRelativeTime` | AlertSystem.jsx:49-61 | a calendar-date result is always the date of the alert's own timestamp |
| `AlertSystem.NestedFloors` | AlertSystem.jsx:53-55 | flooring to seconds, then minutes, then hours equals one floor by 60 000 ms or 3 600 000 ms, for negative differences too |
| `AlertSystem.FormatMatchesElapsed` | AlertSystem.jsx:52-60 | the label equals a reference definition that uses single floors and thresholds of 1 minute, 1 hour and 1 day in ms, all strict |
| `AlertSystem.JustNowIff` | AlertSystem.jsx:57 | "Just now" exactly when less than 60 000 ms have elapsed, any negative difference included |
| `AlertSystem.MinuteBucket` | AlertSystem.jsx:58 | from 1 minute to under 1 hour: "n minute ago" if n = 1, else "n minutes ago", where n = floor(ms/60 000) and 1 ≤ n ≤ 59 |
| `AlertSystem.HourBucket` | AlertSystem.jsx:59 | from 1 hour to under 1 day: "n hour ago" if n = 1, else "n hours ago", where n = floor(ms/3 600 000) and 1 ≤ n ≤ 23 |
| `AlertSystem.DateBucket` | AlertSystem.jsx:60 | the result is the date label exactly when at least 86 400 000 ms have elapsed, and is then never a phrase |
| `AlertSystem.PhrasesAreDistinct` | AlertSystem.jsx:58-59 | two minute phrases (or two hour phrases) are equal only for equal counts, and no minute phrase equals an hour phrase |
| `AlertSystem.BoundaryLabels` | AlertSystem.jsx:57-60 | 0 and 59.999 s and −30 s give "Just now"; 60 s and 119 s give "1 minute ago"; 120 s gives "2 minutes ago"; 3 599 s gives "59 minutes ago"; 3 600 s gives "1 hour ago"; 86 399 s gives "23 hours ago"; 86 400 s gives the date |
| `AlertSystem.MinutesAgoAt` | AlertSystem.jsx:53-58 | an age of between n and n+1 whole minutes, for 1 ≤ n ≤ 59, is labelled with the minute phrase for n |
| `AlertSystem.HasHighPriority` | AlertSystem.jsx:12 | true exactly when some alert's severity is "high" |
| `AlertSystem.MockAlerts` | AlertSystem.jsx:21-46 | the widget's own list has three alerts with distinct ids, severities high, medium and low in that order (so its badge is highlighted), created 2, 15 and 28 minutes before the render instant |
| `AlertSystem.Entries` | AlertSystem.jsx:82-91 | one panel row per alert, in order, carrying its id, severity, title, message and relative-time label |
| `AlertSystem.Panel` | AlertSystem.jsx:80-97 | the open panel always lists the three mock alerts, each row with its alert's key and severity and labelled with its age, and never shows "No active alerts" |
| `AlertSystem.PanelLabels` | AlertSystem.jsx:26-42 | filled within a minute of building the mock list, the rows read "2 minutes ago", "15 minutes ago", "28 minutes ago" |
| `AlertSystem.AlertSystemState.constructor` | AlertSystem.jsx:5-7 | the panel starts closed, with count 0 and no highlight |
| `AlertSystem.AlertSystemState.SyncAlerts` | AlertSystem.jsx:10-13 | after a new prop, the count is the number of alerts and the highlight is on exactly when some alert is "high"; the panel flag is untouched |
| `AlertSystem.AlertSystemState.ToggleAlerts` | AlertSystem.jsx:16-18 | negates the panel flag and nothing else, so two toggles restore it |
| `AlertSystem.AlertSystemState.OpenPanel` | AlertSystem.jsx:73-103 | a panel is rendered exactly while the flag is set, and it is then the mock-alert body `AlertSystem.Panel` gives |
| `Header.CountOfIsPositions` | Header.jsx:10-14 | each count is the number of positions whose alert has exactly that severity |
| `Header.CountOfZero` | Header.jsx:11-13 | a count is zero exactly when no alert has that severity |
| `Header.HasCriticalIff` | Header.jsx:60 | the bell gets `has-critical` exactly when some alert is "high" |
| `Header.CountsPartition` | Header.jsx:10-17 | the total plus the number of alerts with any other severity is the number of alerts |
| `Header.TotalAlertsBound` | Header.jsx:17 | total ≤ number of alerts, with equality exactly when every severity is high, medium or low |
| `Header.CountsPermutation` | Header.jsx:10-17 | reordering the alerts changes neither the three counts nor the total |
| `Header.PanelEmptyIff` | Header.jsx:115-120 | "No active alerts" exactly when no alert has severity high, medium or low |
| `Header.PanelRows` | Header.jsx:77-114 | otherwise 1 to 3 rows in urgency order, and the row of a severity appears exactly when some alert has that severity |
| `Header.HeaderState.constructor` | Header.jsx:7 | the header's panel starts closed |
| `Header.HeaderState.ToggleAlerts` | Header.jsx:25-27 | negates the panel flag, so two toggles restore it |
| `Header.HeaderState.View` | Header.jsx:59-68 | the badge is the number of alerts minus those of unknown severity (so high + medium + low, never above the number of alerts), the highlight is on exactly when some alert is "high", and while the flag is set the panel is rendered with the body `Header.Panel` gives for the alerts |
| `App.Dismiss` | src/App.jsx:82-84 | after dismissal no alert has the id; every survivor comes from the old list, which was no shorter |
| `App.DismissKeepsOthers` | src/App.jsx:83 | every alert with another id keeps all its copies, and none with the id is left |
| `App.DismissPreservesOrder` | src/App.jsx:83 | dismissal acts on each part of a concatenation separately and keeps or drops a single alert by its id, so survivors stay in their order |
| `App.DismissAbsent` | src/App.jsx:83 | the list is unchanged exactly when no alert has the id |
| `App.DismissIdempotentAndCommutes` | src/App.jsx:83 | dismissing twice equals dismissing once, and two dismissals commute |
| `App.DismissDistinct` | src/App.jsx:83 | with distinct ids, dismissing a present id removes exactly one alert, and the ids stay distinct |
| `App.DismissLowersCounts` | src/App.jsx:82-84 | dismissal never raises the header's count of any severity |
| `App.InitialAlertsShape` | src/App.jsx:27-53 | three alerts with distinct ids and severities high, medium and low in that order; counts (1, 1, 1), a total equal to the length, and both highlights on |
| `App.InitialTimesMatchLabels` | src/App.jsx:34-51 | each stored `time` text is the relative-time label of its timestamp at any instant in the minute after mounting |
| `App.HighlightsAgree` | AlertSystem.jsx:12 | the widget's `some(high)` highlight equals the header's `count(high) > 0` highlight |
| `App.BadgesDiffer` | Header.jsx:17 | the header's total is at most the widget's `alerts.length`, and differs from it exactly when some alert has an unknown severity |
| `App.CriticalIsNotCounted` | Header.jsx:10-17 | one "critical" alert gives the widget badge 1 but the header badge 0, no highlight, and "No active alerts" |
| `App.AppState.constructor` | src/App.jsx:14-24 | initial state: dark mode on, time frame "live", no AUV, speed 1, no alerts, overlay hidden |
| `App.AppState.LoadInitialAlerts` | src/App.jsx:27-54 | the mount effect stores the initial list and changes nothing else |
| `App.AppState.HandleTimeFrameChange` | src/App.jsx:57-59 | sets the time frame only |
| `App.AppState.HandleAUVSelect` | src/App.jsx:62-64 | sets the selected AUV only |
| `App.AppState.HandlePlaybackSpeedChange` | src/App.jsx:67-69 | sets the playback speed only |
| `App.AppState.ToggleDarkMode` | src/App.jsx:72-74 | negates `darkMode` and nothing else |
| `App.AppState.HandleAlertClick` | src/App.jsx:77-79 | negates `showAlerts` and nothing else |
| `App.AppState.HandleAlertDismiss` | src/App.jsx:82-84 | replaces `alerts` by its dismissal; no remaining alert has the id, the list is no longer, and `showAlerts`, `darkMode`, `timeFrame`, `selectedAUV` and `playbackSpeed` are untouched |

## Left out

- Rendering: JSX, CSS class strings and markup are left out. The derived
  values (badge numbers, highlight flags, panel bodies) are modelled
  directly.
- React mechanics are left out: when `useEffect` runs, batching of state
  updates, and stale closures. Each handler is one atomic state update.
- `toLocaleDateString` depends on locale and time zone. The date branch of
  the label is the opaque value `LocaleDate(instant)`.
- The model reads the clock once per list and once per render. One
  `renderNow` stands for the three separate `Date.now()` reads that build
  the widget's mock list (AlertSystem.jsx:26,34,42). One `now` stands for
  the three `Date.now()` reads that build the root's initial list
  (src/App.jsx:35,43,51), in `App.InitialAlerts`. One `now` stands for the
  `new Date()` that each row's label reads (AlertSystem.jsx:51).
  `AlertSystem.PanelLabels` and `App.InitialTimesMatchLabels` are stated
  for a single build instant. They still hold when the reads are
  milliseconds apart, as long as every label is computed inside the
  stated minute after every read.
- Parsing a timestamp into a `Date` is left out. Timestamps are integers,
  so invalid dates (which would yield "Invalid Date") are not modelled.
- `diffMs / 1000` is floating-point division in the source. The model
  treats it as exact. That holds while the difference is below about
  9·10^15 ms.
- Numbers of 10^21 and above print in exponent form in JavaScript. The
  model prints plain digits. This never matters here, because printed
  counts are below 60.
- `AlertSystem.MockAlerts`: its contract states the length, that the ids
  are distinct, the severity order and the timestamps, and
  `AlertSystem.PanelLabels` states the ages those timestamps produce. The
  exact id, title, message and category texts are stated by no contract.
- The header's `handleTimeFrameSelect` (Header.jsx:20-22) only forwards the
  selected value to the root. That is modelled as
  `App.AppState.HandleTimeFrameChange`.
- Left out as host, timer, float or map behaviour with no alert logic:
  TimeControls.jsx (playback timer, date arithmetic, fractional speeds),
  MapView.jsx (Leaflet map, markers, float scaling), DataPanel.jsx
  (simulated fetch, tab switching), the root App.jsx (dropdown and theme
  setters over static arrays) and vite.config.js.

/**
  The dashboard's root component (src/App.jsx): the state it holds, the
  handlers that overwrite it, the alert list it loads on mount, and what the
  header and the alert widget, both fed the same `alerts`, make of it.
 */
module App {
  import opened Alerts
  import AlertSystem
  import Header

  // ---------------------------------------------------------------------
  // Dismissal

  /** `alerts.filter(alert => alert.id !== alertId)`: the list after
      dismissing `alertId`. */
  function Dismiss(alerts: seq<Alert>, alertId: string): (r: seq<Alert>)
    ensures |r| <= |alerts|
    ensures forall a :: a in r ==> a in alerts
    ensures forall i :: 0 <= i < |r| ==> r[i].id != alertId
  {
    var r := Filter(alerts, HasOtherId(alertId));
    assert forall i :: 0 <= i < |r| ==> r[i] in r;
    r
  }

  /** Every alert with another id survives with all its copies; none with
      the dismissed id does. */
  lemma DismissKeepsOthers(alerts: seq<Alert>, alertId: string, a: Alert)
    ensures multiset(Dismiss(alerts, alertId))[a] == if a.id != alertId then multiset(alerts)[a] else 0
  {
    FilterMultiset(alerts, HasOtherId(alertId), a);
  }

  /** Dismissal keeps the survivors' order: it acts on each part of a list
      separately, and on a single alert it either keeps or drops it. */
  lemma DismissPreservesOrder(before: seq<Alert>, after: seq<Alert>, alertId: string, a: Alert)
    ensures Dismiss(before + after, alertId) == Dismiss(before, alertId) + Dismiss(after, alertId)
    ensures Dismiss([a], alertId) == if a.id == alertId then [] else [a]
  {
    FilterConcat(before, after, HasOtherId(alertId));
    FilterSingleton(a, HasOtherId(alertId));
  }

  /** The list is left as it is exactly when no alert has the id. */
  lemma DismissAbsent(alerts: seq<Alert>, alertId: string)
    ensures Dismiss(alerts, alertId) == alerts <==> forall i :: 0 <= i < |alerts| ==> alerts[i].id != alertId
  {
    FilterKeepsAll(alerts, HasOtherId(alertId));
  }

  /** Dismissing twice is dismissing once, and two dismissals commute. */
  lemma DismissIdempotentAndCommutes(alerts: seq<Alert>, first: string, second: string)
    ensures Dismiss(Dismiss(alerts, first), first) == Dismiss(alerts, first)
    ensures Dismiss(Dismiss(alerts, first), second) == Dismiss(Dismiss(alerts, second), first)
  {
    FilterIdempotent(alerts, HasOtherId(first));
    FilterCommutes(alerts, HasOtherId(first), HasOtherId(second));
  }

  /** With distinct ids, dismissing removes exactly one alert when the id
      is present, and the ids stay distinct. */
  lemma {:induction false} DismissDistinct(alerts: seq<Alert>, alertId: string)
    requires DistinctIds(alerts)
    ensures DistinctIds(Dismiss(alerts, alertId))
    ensures (exists k :: 0 <= k < |alerts| && alerts[k].id == alertId) ==>
      |Dismiss(alerts, alertId)| == |alerts| - 1
  {
    if alerts != [] {
      var head, rest := alerts[0], alerts[1..];
      assert DistinctIds(rest) by {
        forall i, j | 0 <= i < j < |rest| ensures rest[i].id != rest[j].id {
          assert rest[i] == alerts[i + 1] && rest[j] == alerts[j + 1];
        }
      }
      DismissDistinct(rest, alertId);
      var tail := Dismiss(rest, alertId);
      assert Dismiss(alerts, alertId) == (if head.id != alertId then [head] else []) + tail;
      forall i | 0 <= i < |tail| ensures tail[i].id != head.id {
        assert tail[i] in rest;
      }
      if head.id == alertId {
        DismissAbsent(rest, alertId);
      } else if exists k :: 0 <= k < |alerts| && alerts[k].id == alertId {
        var k :| 0 <= k < |alerts| && alerts[k].id == alertId;
        assert rest[k - 1].id == alertId;
      }
    }
  }

  /** Dismissal never raises any severity count. */
  lemma DismissLowersCounts(alerts: seq<Alert>, alertId: string, severity: string)
    ensures Header.CountOf(Dismiss(alerts, alertId), severity) <= Header.CountOf(alerts, severity)
  {
    FilterCommutes(alerts, HasOtherId(alertId), HasSeverity(severity));
  }

  // ---------------------------------------------------------------------
  // The alert list loaded on mount

  /** The three alerts the mount effect stores, created at `now` minus 2,
      15 and 28 minutes. */
  function InitialAlerts(now: int): seq<Alert> {
    [ Alert("alert-1", "Proximity Warning", "Benthic Octopod detected within 120m of AUV-003",
            High, None, Some("2 minutes ago"), now - 2 * AlertSystem.MsPerMinute),
      Alert("alert-2", "Battery Warning", "AUV-003 battery level at 32%",
            Medium, None, Some("15 minutes ago"), now - 15 * AlertSystem.MsPerMinute),
      Alert("alert-3", "Dissolved Oxygen", "Levels below optimal range at collection site",
            Low, None, Some("28 minutes ago"), now - 28 * AlertSystem.MsPerMinute) ]
  }

  /** Three alerts with distinct ids and severities high, medium and low in
      that order, so each count is one, the header total is three and both
      bells are highlighted. */
  lemma InitialAlertsShape(now: int)
    ensures var l := InitialAlerts(now);
      && |l| == 3
      && DistinctIds(l)
      && l[0].severity == High && l[1].severity == Medium && l[2].severity == Low
      && Header.Counts(l) == Header.AlertCounts(1, 1, 1)
      && Header.TotalAlerts(l) == |l|
      && Header.HasCritical(l)
      && AlertSystem.HasHighPriority(l)
  {
    var l := InitialAlerts(now);
    Header.CountOfIsPositions(l, High);
    Header.CountOfIsPositions(l, Medium);
    Header.CountOfIsPositions(l, Low);
    assert Header.PositionsOf(l, High) == {0};
    assert Header.PositionsOf(l, Medium) == {1};
    assert Header.PositionsOf(l, Low) == {2};
  }

  /** Each stored `time` text is what the relative-time label gives for its
      timestamp at any instant in the minute after mounting. */
  lemma InitialTimesMatchLabels(now: int, later: int)
    requires now <= later < now + AlertSystem.MsPerMinute
    ensures var l := InitialAlerts(now);
      forall i :: 0 <= i < |l| ==>
        AlertSystem.FormatRelativeTime(l[i].timestamp, later) == AlertSystem.Phrase(l[i].time.value)
  {
    var l := InitialAlerts(now);
    AlertSystem.MinutesAgoAt(l[0].timestamp, later, 2);
    AlertSystem.MinutesAgoAt(l[1].timestamp, later, 15);
    AlertSystem.MinutesAgoAt(l[2].timestamp, later, 28);
    AlertSystem.TwoDigits(15);
    AlertSystem.TwoDigits(28);
    assert AlertSystem.MinutesAgo(2) == l[0].time.value;
    assert AlertSystem.MinutesAgo(15) == l[1].time.value;
    assert AlertSystem.MinutesAgo(28) == l[2].time.value;
  }

  // ---------------------------------------------------------------------
  // The two bells, fed the same alerts

  /** The widget's highlight (`some` severity is "high") and the header's
      (`high` count above zero) always agree. */
  lemma HighlightsAgree(alerts: seq<Alert>)
    ensures AlertSystem.HasHighPriority(alerts) == Header.HasCritical(alerts)
  {
    Header.HasCriticalIff(alerts);
  }

  /** The widget's badge shows `|alerts|`, the header's the sum of the three
      counts; they differ exactly when some alert has another severity. */
  lemma BadgesDiffer(alerts: seq<Alert>)
    ensures Header.TotalAlerts(alerts) <= |alerts|
    ensures Header.TotalAlerts(alerts) != |alerts| <==>
      exists i :: 0 <= i < |alerts| && !IsKnownSeverity(alerts[i].severity)
  {
    Header.TotalAlertsBound(alerts);
  }

  /** A single alert of severity "critical": the widget's badge shows 1,
      while the header's badge shows 0, its bell is not highlighted and its
      panel says "No active alerts". */
  lemma CriticalIsNotCounted(now: int)
    ensures var l := [Alert("x", "", "", "critical", None, None, now)];
      && |l| == 1
      && Header.TotalAlerts(l) == 0
      && !Header.HasCritical(l)
      && Header.Panel(l) == Header.NoActiveAlerts
  {
    var l := [Alert("x", "", "", "critical", None, None, now)];
    Header.CountOfZero(l, High);
    Header.CountOfZero(l, Medium);
    Header.CountOfZero(l, Low);
  }

  // ---------------------------------------------------------------------
  // Component state

  /** The root component's state. `selectedAUV` is `None` for `null`. */
  class AppState {
    var darkMode: bool
    var timeFrame: string
    var selectedAUV: Option<string>
    var playbackSpeed: real
    var alerts: seq<Alert>
    var showAlerts: bool

    /** The `useState` initial values. */
    constructor ()
      ensures darkMode && timeFrame == "live" && selectedAUV == None && playbackSpeed == 1.0
      ensures alerts == [] && !showAlerts
    {
      darkMode := true;
      timeFrame := "live";
      selectedAUV := None;
      playbackSpeed := 1.0;
      alerts := [];
      showAlerts := false;
    }

    /** The mount effect: stores the initial alert list built at `now`. */
    method LoadInitialAlerts(now: int)
      modifies this`alerts
      ensures alerts == InitialAlerts(now)
    {
      alerts := InitialAlerts(now);
    }

    method HandleTimeFrameChange(newTimeFrame: string)
      modifies this`timeFrame
      ensures timeFrame == newTimeFrame
    {
      timeFrame := newTimeFrame;
    }

    method HandleAUVSelect(auvId: string)
      modifies this`selectedAUV
      ensures selectedAUV == Some(auvId)
    {
      selectedAUV := Some(auvId);
    }

    method HandlePlaybackSpeedChange(speed: real)
      modifies this`playbackSpeed
      ensures playbackSpeed == speed
    {
      playbackSpeed := speed;
    }

    /** Negates `darkMode` and nothing else. */
    method ToggleDarkMode()
      modifies this`darkMode
      ensures darkMode == !old(darkMode)
    {
      darkMode := !darkMode;
    }

    /** Negates `showAlerts` (mounts or unmounts the alert widget) and
        nothing else. */
    method HandleAlertClick()
      modifies this`showAlerts
      ensures showAlerts == !old(showAlerts)
    {
      showAlerts := !showAlerts;
    }

    /** Replaces `alerts` by the list without `alertId`; every other field
        stays as it was. */
    method HandleAlertDismiss(alertId: string)
      modifies this`alerts
      ensures alerts == Dismiss(old(alerts), alertId)
      ensures forall i :: 0 <= i < |alerts| ==> alerts[i].id != alertId
      ensures |alerts| <= |old(alerts)|
    {
      alerts := Dismiss(alerts, alertId);
    }
  }
}

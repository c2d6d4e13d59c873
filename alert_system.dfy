/**
  The bell-and-panel alert widget (AlertSystem.jsx): the badge derived from
  the `alerts` it is given, the panel it opens, and the relative-time label
  it prints for each listed alert.
 */
module AlertSystem {
  import opened Alerts
  import Decimal

  const MsPerSecond: int := 1000
  const SecondsPerMinute: int := 60
  const MinutesPerHour: int := 60
  const HoursPerDay: int := 24

  const MsPerMinute: int := 60_000
  const MsPerHour: int := 3_600_000
  const MsPerDay: int := 86_400_000

  // ---------------------------------------------------------------------
  // Relative-time labels

  /** What `formatRelativeTime` returns: a fixed English phrase, or the
      host's locale-dependent calendar date of `instant` (not modelled as
      text; see README). */
  datatype TimeLabel = Phrase(text: string) | LocaleDate(instant: int)

  /** `${n} minute${n > 1 ? 's' : ''} ago` */
  function MinutesAgo(n: nat): string {
    Decimal.NatToString(n) + " minute" + (if n > 1 then "s" else "") + " ago"
  }

  /** `${n} hour${n > 1 ? 's' : ''} ago` */
  function HoursAgo(n: nat): string {
    Decimal.NatToString(n) + " hour" + (if n > 1 then "s" else "") + " ago"
  }

  const JustNow: string := "Just now"

  /** `formatRelativeTime(timestamp)` evaluated at the instant `now` (both
      in milliseconds). `Math.floor` of a quotient by a positive constant is
      Dafny's `/`, also for the negative differences that clock skew gives. */
  function FormatRelativeTime(timestamp: int, now: int): (r: TimeLabel)
    ensures r.LocaleDate? ==> r.instant == timestamp
  {
    var diffMs := now - timestamp;
    var diffSec := diffMs / MsPerSecond;
    var diffMin := diffSec / SecondsPerMinute;
    var diffHour := diffMin / MinutesPerHour;
    if diffMin < 1 then Phrase(JustNow)
    else if diffMin < 60 then Phrase(MinutesAgo(diffMin))
    else if diffHour < 24 then Phrase(HoursAgo(diffHour))
    else LocaleDate(timestamp)
  }

  /** Reference definition of the label by the elapsed milliseconds alone,
      with one floor per unit and the thresholds written in milliseconds. */
  function ElapsedLabel(elapsed: int, timestamp: int): TimeLabel {
    if elapsed < MsPerMinute then Phrase(JustNow)
    else if elapsed < MsPerHour then Phrase(MinutesAgo(elapsed / MsPerMinute))
    else if elapsed < MsPerDay then Phrase(HoursAgo(elapsed / MsPerHour))
    else LocaleDate(timestamp)
  }

  /** Flooring to seconds, then minutes, then hours is flooring once. */
  lemma NestedFloors(diffMs: int)
    ensures diffMs / MsPerSecond / SecondsPerMinute == diffMs / MsPerMinute
    ensures diffMs / MsPerSecond / SecondsPerMinute / MinutesPerHour == diffMs / MsPerHour
  {
    var sec := diffMs / 1000;
    var min := sec / 60;
    var hour := min / 60;
    assert diffMs == 60_000 * min + 1000 * (sec % 60) + diffMs % 1000;
    assert diffMs == 3_600_000 * hour + 60_000 * (min % 60) + 1000 * (sec % 60) + diffMs % 1000;
  }

  /** The label agrees with the single-floor reference definition. */
  lemma FormatMatchesElapsed(timestamp: int, now: int)
    ensures FormatRelativeTime(timestamp, now) == ElapsedLabel(now - timestamp, timestamp)
  {
    NestedFloors(now - timestamp);
  }

  /** "Just now" exactly when less than a minute has elapsed, including
      every negative difference (a timestamp in the future). */
  lemma JustNowIff(timestamp: int, now: int)
    ensures FormatRelativeTime(timestamp, now) == Phrase(JustNow) <==> now - timestamp < MsPerMinute
  {
    FormatMatchesElapsed(timestamp, now);
    forall n: nat ensures MinutesAgo(n) != JustNow && HoursAgo(n) != JustNow {
      assert MinutesAgo(n)[0] == Decimal.NatToString(n)[0];
      assert HoursAgo(n)[0] == Decimal.NatToString(n)[0];
    }
  }

  /** From one minute up to (not including) an hour: the minute phrase with
      the floored count, between 1 and 59; plural exactly above 1. */
  lemma MinuteBucket(timestamp: int, now: int)
    requires MsPerMinute <= now - timestamp < MsPerHour
    ensures var n := (now - timestamp) / MsPerMinute;
      && 1 <= n < 60
      && FormatRelativeTime(timestamp, now)
         == Phrase(Decimal.NatToString(n) + (if n == 1 then " minute ago" else " minutes ago"))
  {
    FormatMatchesElapsed(timestamp, now);
  }

  /** From one hour up to (not including) a day: the hour phrase with the
      floored count, between 1 and 23; plural exactly above 1. */
  lemma HourBucket(timestamp: int, now: int)
    requires MsPerHour <= now - timestamp < MsPerDay
    ensures var n := (now - timestamp) / MsPerHour;
      && 1 <= n < 24
      && FormatRelativeTime(timestamp, now)
         == Phrase(Decimal.NatToString(n) + (if n == 1 then " hour ago" else " hours ago"))
  {
    FormatMatchesElapsed(timestamp, now);
  }

  /** The calendar date exactly from one full day on; never a phrase then. */
  lemma DateBucket(timestamp: int, now: int)
    ensures FormatRelativeTime(timestamp, now).LocaleDate? <==> now - timestamp >= MsPerDay
    ensures now - timestamp >= MsPerDay ==> FormatRelativeTime(timestamp, now) == LocaleDate(timestamp)
  {
    FormatMatchesElapsed(timestamp, now);
  }

  /** A string of digits followed by text that starts with a non-digit
      splits in only one way. */
  lemma DigitPrefixUnique(d1: string, r1: string, d2: string, r2: string)
    requires Decimal.AllDigits(d1) && Decimal.AllDigits(d2)
    requires |r1| > 0 && !Decimal.IsDigit(r1[0])
    requires |r2| > 0 && !Decimal.IsDigit(r2[0])
    requires d1 + r1 == d2 + r2
    ensures d1 == d2 && r1 == r2
  {
    var k := if |d1| < |d2| then |d1| else |d2|;
    assert Decimal.IsDigit((d1 + r1)[k]) <==> k < |d1|;
    assert Decimal.IsDigit((d2 + r2)[k]) <==> k < |d2|;
    assert |d1| == |d2|;
    assert d1 == (d1 + r1)[..|d1|];
    assert d2 == (d2 + r2)[..|d2|];
  }

  /** Different counts and different units never share a phrase, so the
      phrase tells the floored count and its unit. */
  lemma PhrasesAreDistinct(m: nat, n: nat)
    ensures MinutesAgo(m) == MinutesAgo(n) ==> m == n
    ensures HoursAgo(m) == HoursAgo(n) ==> m == n
    ensures MinutesAgo(m) != HoursAgo(n)
  {
    var dm, dn := Decimal.NatToString(m), Decimal.NatToString(n);
    var minM := " minute" + (if m > 1 then "s" else "") + " ago";
    var minN := " minute" + (if n > 1 then "s" else "") + " ago";
    var hourM := " hour" + (if m > 1 then "s" else "") + " ago";
    var hourN := " hour" + (if n > 1 then "s" else "") + " ago";
    assert MinutesAgo(m) == dm + minM;
    assert MinutesAgo(n) == dn + minN;
    assert HoursAgo(m) == dm + hourM;
    assert HoursAgo(n) == dn + hourN;
    if MinutesAgo(m) == MinutesAgo(n) {
      DigitPrefixUnique(dm, minM, dn, minN);
      Decimal.NatToStringInjective(m, n);
    }
    if HoursAgo(m) == HoursAgo(n) {
      DigitPrefixUnique(dm, hourM, dn, hourN);
      Decimal.NatToStringInjective(m, n);
    }
    if MinutesAgo(m) == HoursAgo(n) {
      DigitPrefixUnique(dm, minM, dn, hourN);
    }
  }

  /** The bucket boundaries and a few points inside the buckets. */
  lemma BoundaryLabels(t: int)
    ensures FormatRelativeTime(t, t) == Phrase("Just now")
    ensures FormatRelativeTime(t, t + 59_999) == Phrase("Just now")
    ensures FormatRelativeTime(t, t - 30_000) == Phrase("Just now")
    ensures FormatRelativeTime(t, t + 60_000) == Phrase("1 minute ago")
    ensures FormatRelativeTime(t, t + 119_000) == Phrase("1 minute ago")
    ensures FormatRelativeTime(t, t + 120_000) == Phrase("2 minutes ago")
    ensures FormatRelativeTime(t, t + 3_599_000) == Phrase("59 minutes ago")
    ensures FormatRelativeTime(t, t + 3_600_000) == Phrase("1 hour ago")
    ensures FormatRelativeTime(t, t + 86_399_000) == Phrase("23 hours ago")
    ensures FormatRelativeTime(t, t + 86_400_000) == LocaleDate(t)
  {
    FormatMatchesElapsed(t, t);
    FormatMatchesElapsed(t, t + 59_999);
    FormatMatchesElapsed(t, t - 30_000);
    FormatMatchesElapsed(t, t + 60_000);
    FormatMatchesElapsed(t, t + 119_000);
    FormatMatchesElapsed(t, t + 120_000);
    FormatMatchesElapsed(t, t + 3_599_000);
    FormatMatchesElapsed(t, t + 3_600_000);
    FormatMatchesElapsed(t, t + 86_399_000);
    FormatMatchesElapsed(t, t + 86_400_000);
    assert Decimal.NatToString(59) == "59";
    assert Decimal.NatToString(23) == "23";
  }

  // ---------------------------------------------------------------------
  // Badge

  /** `alerts.some(alert => alert.severity === 'high')` */
  function HasHighPriority(alerts: seq<Alert>): (b: bool)
    ensures b <==> exists i :: 0 <= i < |alerts| && alerts[i].severity == High
  {
    Any(alerts, HasSeverity(High))
  }

  // ---------------------------------------------------------------------
  // Panel

  /** The widget's own development list, rebuilt on every render at the
      render instant `renderNow`: alerts created 2, 15 and 28 minutes
      earlier. Their ids are distinct and their severities run high,
      medium, low, so every known severity occurs once and the badge is
      highlighted. */
  function MockAlerts(renderNow: int): (m: seq<Alert>)
    ensures |m| == 3
    ensures DistinctIds(m)
    ensures m[0].severity == High && m[1].severity == Medium && m[2].severity == Low
    ensures HasHighPriority(m)
    ensures renderNow - m[0].timestamp == 2 * MsPerMinute
    ensures renderNow - m[1].timestamp == 15 * MsPerMinute
    ensures renderNow - m[2].timestamp == 28 * MsPerMinute
  {
    [ Alert("alert-001", "Proximity Warning", "Benthic Octopod detected within 120m of AUV-003",
            High, Some("environmental"), None, renderNow - 2 * MsPerMinute),
      Alert("alert-002", "Battery Warning", "AUV-003 battery level at 32%",
            Medium, Some("operational"), None, renderNow - 15 * MsPerMinute),
      Alert("alert-003", "Dissolved Oxygen", "Levels below optimal range at collection site",
            Low, Some("environmental"), None, renderNow - 28 * MsPerMinute) ]
  }

  /** One row of the open panel. */
  datatype PanelEntry = PanelEntry(key: string, severity: string, title: string, message: string, time: TimeLabel)

  datatype PanelBody = AlertList(entries: seq<PanelEntry>) | NoActiveAlerts

  /** `alerts.map(alert => <div key={alert.id} ...>)`: one row per alert, in
      order, each with the alert's age at `now`. */
  function Entries(alerts: seq<Alert>, now: int): (r: seq<PanelEntry>)
    ensures |r| == |alerts|
    ensures forall i :: 0 <= i < |alerts| ==>
      r[i] == PanelEntry(alerts[i].id, alerts[i].severity, alerts[i].title, alerts[i].message,
                         FormatRelativeTime(alerts[i].timestamp, now))
  {
    if alerts == [] then []
    else
      var a := alerts[0];
      [PanelEntry(a.id, a.severity, a.title, a.message, FormatRelativeTime(a.timestamp, now))]
        + Entries(alerts[1..], now)
  }

  /** The list inside the open panel. It is built from `MockAlerts`, never
      from the `alerts` the widget receives: only the badge reflects those. */
  function Panel(renderNow: int, now: int): (p: PanelBody)
    ensures p.AlertList?
    ensures |p.entries| == 3
    ensures forall i :: 0 <= i < 3 ==>
      p.entries[i].key == MockAlerts(renderNow)[i].id &&
      p.entries[i].severity == MockAlerts(renderNow)[i].severity &&
      p.entries[i].time == FormatRelativeTime(MockAlerts(renderNow)[i].timestamp, now)
  {
    var mock := MockAlerts(renderNow);
    if |mock| > 0 then AlertList(Entries(mock, now)) else NoActiveAlerts
  }

  /** The spelling of a two-digit number. */
  lemma TwoDigits(n: nat)
    requires 10 <= n < 100
    ensures Decimal.NatToString(n) == [Decimal.DigitChar(n / 10), Decimal.DigitChar(n % 10)]
  {
  }

  /** An age of `n` whole minutes, for `n` from 1 to 59, reads "n minute(s) ago". */
  lemma MinutesAgoAt(timestamp: int, now: int, n: nat)
    requires 1 <= n < 60
    requires n * MsPerMinute <= now - timestamp < (n + 1) * MsPerMinute
    ensures FormatRelativeTime(timestamp, now) == Phrase(MinutesAgo(n))
  {
    FormatMatchesElapsed(timestamp, now);
    assert (now - timestamp) / MsPerMinute == n;
  }

  /** Labels printed when the panel is filled less than a minute after the
      mock list was built. */
  lemma PanelLabels(renderNow: int, now: int)
    requires renderNow <= now < renderNow + MsPerMinute
    ensures var p := Panel(renderNow, now);
      && p.entries[0].time == Phrase("2 minutes ago")
      && p.entries[1].time == Phrase("15 minutes ago")
      && p.entries[2].time == Phrase("28 minutes ago")
  {
    var mock := MockAlerts(renderNow);
    var p := Panel(renderNow, now);
    MinutesAgoAt(mock[0].timestamp, now, 2);
    MinutesAgoAt(mock[1].timestamp, now, 15);
    MinutesAgoAt(mock[2].timestamp, now, 28);
    TwoDigits(15);
    TwoDigits(28);
    assert p.entries[0].time == Phrase(MinutesAgo(2));
    assert p.entries[1].time == Phrase(MinutesAgo(15));
    assert p.entries[2].time == Phrase(MinutesAgo(28));
  }

  // ---------------------------------------------------------------------
  // Component state

  /** The widget's local state. `alertCount` and `hasHighPriority` are
      refreshed by the effect that runs whenever the `alerts` prop changes. */
  class AlertSystemState {
    var showAlerts: bool
    var alertCount: nat
    var hasHighPriority: bool

    /** The `useState` initial values. */
    constructor ()
      ensures !showAlerts && alertCount == 0 && !hasHighPriority
    {
      showAlerts := false;
      alertCount := 0;
      hasHighPriority := false;
    }

    /** The effect on a new `alerts` prop: the badge shows how many alerts
        there are and is highlighted iff one of them has severity "high". */
    method SyncAlerts(alerts: seq<Alert>)
      modifies this`alertCount, this`hasHighPriority
      ensures alertCount == |alerts|
      ensures hasHighPriority <==> exists i :: 0 <= i < |alerts| && alerts[i].severity == High
    {
      alertCount := |alerts|;
      hasHighPriority := HasHighPriority(alerts);
    }

    /** `toggleAlerts`: opens a closed panel and closes an open one. */
    method ToggleAlerts()
      modifies this`showAlerts
      ensures showAlerts == !old(showAlerts)
    {
      showAlerts := !showAlerts;
    }

    /** The open panel's body, or `None` while it is closed. */
    function OpenPanel(renderNow: int, now: int): (p: Option<PanelBody>)
      reads this
      ensures p.Some? <==> showAlerts
      ensures showAlerts ==> p == Some(Panel(renderNow, now))
    {
      if showAlerts then Some(Panel(renderNow, now)) else None
    }
  }
}

/**
  The dashboard header's alert bell (Header.jsx): per-severity counts of the
  alerts it is given, their sum shown on the badge, the "critical" highlight,
  and which sample rows its panel shows.
 */
module Header {
  import opened Alerts

  /** `alertCounts`: one count per known severity. */
  datatype AlertCounts = AlertCounts(high: nat, medium: nat, low: nat)

  /** `alerts.filter(alert => alert.severity === severity).length` */
  function CountOf(alerts: seq<Alert>, severity: string): nat {
    |Filter(alerts, HasSeverity(severity))|
  }

  function Counts(alerts: seq<Alert>): AlertCounts {
    AlertCounts(CountOf(alerts, High), CountOf(alerts, Medium), CountOf(alerts, Low))
  }

  /** `totalAlerts`, the number on the badge. */
  function TotalAlerts(alerts: seq<Alert>): nat {
    var c := Counts(alerts);
    c.high + c.medium + c.low
  }

  /** The `has-critical` highlight of the bell. */
  predicate HasCritical(alerts: seq<Alert>) {
    Counts(alerts).high > 0
  }

  /** The positions holding an alert of the given severity. */
  ghost function PositionsOf(alerts: seq<Alert>, severity: string): set<int> {
    set i | 0 <= i < |alerts| && alerts[i].severity == severity
  }

  /** Each count is the number of alerts whose severity is exactly that
      string. */
  lemma CountOfIsPositions(alerts: seq<Alert>, severity: string)
    ensures CountOf(alerts, severity) == |PositionsOf(alerts, severity)|
  {
    FilterLength(alerts, HasSeverity(severity));
    assert KeptIndices(alerts, HasSeverity(severity)) == PositionsOf(alerts, severity);
  }

  /** A count is zero exactly when no alert has that severity. */
  lemma CountOfZero(alerts: seq<Alert>, severity: string)
    ensures CountOf(alerts, severity) == 0 <==> forall i :: 0 <= i < |alerts| ==> alerts[i].severity != severity
  {
    FilterEmpty(alerts, HasSeverity(severity));
  }

  /** The highlight is on exactly when some alert has severity "high". */
  lemma HasCriticalIff(alerts: seq<Alert>)
    ensures HasCritical(alerts) <==> exists i :: 0 <= i < |alerts| && alerts[i].severity == High
  {
    CountOfZero(alerts, High);
  }

  /** The three counts and the alerts of any other severity make up the
      whole list. */
  lemma {:induction false} CountsPartition(alerts: seq<Alert>)
    ensures TotalAlerts(alerts) + |Filter(alerts, HasUnknownSeverity())| == |alerts|
  {
    if alerts != [] {
      CountsPartition(alerts[1..]);
    }
  }

  /** The badge never exceeds the number of alerts, and equals it exactly
      when every alert has one of the three known severities: others are
      silently left out of every count. */
  lemma TotalAlertsBound(alerts: seq<Alert>)
    ensures TotalAlerts(alerts) <= |alerts|
    ensures TotalAlerts(alerts) == |alerts| <==>
      forall i :: 0 <= i < |alerts| ==> IsKnownSeverity(alerts[i].severity)
  {
    CountsPartition(alerts);
    FilterEmpty(alerts, HasUnknownSeverity());
  }

  /** Reordering the alerts changes neither the counts nor the total. */
  lemma CountsPermutation(a: seq<Alert>, b: seq<Alert>)
    requires multiset(a) == multiset(b)
    ensures Counts(a) == Counts(b)
    ensures TotalAlerts(a) == TotalAlerts(b)
  {
    FilterPermutation(a, b, HasSeverity(High));
    FilterPermutation(a, b, HasSeverity(Medium));
    FilterPermutation(a, b, HasSeverity(Low));
  }

  // ---------------------------------------------------------------------
  // Panel

  /** A fixed example row; the panel never prints the alerts' own texts. */
  datatype SampleRow = SampleRow(severity: string, title: string, message: string, time: string)

  const HighSample: SampleRow :=
    SampleRow(High, "Proximity Warning", "Benthic Octopod detected within 120m of AUV-003", "2 minutes ago")
  const MediumSample: SampleRow :=
    SampleRow(Medium, "Battery Warning", "AUV-003 battery level at 32%", "15 minutes ago")
  const LowSample: SampleRow :=
    SampleRow(Low, "Dissolved Oxygen", "Levels below optimal range at collection site", "28 minutes ago")

  datatype PanelBody = SeverityRows(rows: seq<SampleRow>) | NoActiveAlerts

  /** The body of the open panel: the message "No active alerts" when the
      total is zero, otherwise one sample row per severity whose count is
      positive, high first. */
  function Panel(alerts: seq<Alert>): PanelBody {
    var c := Counts(alerts);
    if TotalAlerts(alerts) > 0 then
      SeverityRows((if c.high > 0 then [HighSample] else [])
                   + (if c.medium > 0 then [MediumSample] else [])
                   + (if c.low > 0 then [LowSample] else []))
    else NoActiveAlerts
  }

  /** Urgency order of the known severities. */
  function Rank(severity: string): nat {
    if severity == High then 0 else if severity == Medium then 1 else 2
  }

  /** The panel says "No active alerts" exactly when no alert has a known
      severity. */
  lemma PanelEmptyIff(alerts: seq<Alert>)
    ensures Panel(alerts).NoActiveAlerts? <==>
      forall i :: 0 <= i < |alerts| ==> !IsKnownSeverity(alerts[i].severity)
  {
    CountOfZero(alerts, High);
    CountOfZero(alerts, Medium);
    CountOfZero(alerts, Low);
  }

  /** Otherwise it shows one to three rows, strictly in urgency order, and
      the row of a severity exactly when some alert has that severity. */
  lemma PanelRows(alerts: seq<Alert>)
    requires Panel(alerts).SeverityRows?
    ensures var rows := Panel(alerts).rows;
      && 1 <= |rows| <= 3
      && (forall i, j :: 0 <= i < j < |rows| ==> Rank(rows[i].severity) < Rank(rows[j].severity))
      && (HighSample in rows <==> exists i :: 0 <= i < |alerts| && alerts[i].severity == High)
      && (MediumSample in rows <==> exists i :: 0 <= i < |alerts| && alerts[i].severity == Medium)
      && (LowSample in rows <==> exists i :: 0 <= i < |alerts| && alerts[i].severity == Low)
  {
    CountOfZero(alerts, High);
    CountOfZero(alerts, Medium);
    CountOfZero(alerts, Low);
    var c := Counts(alerts);
    var h := if c.high > 0 then [HighSample] else [];
    var m := if c.medium > 0 then [MediumSample] else [];
    var l := if c.low > 0 then [LowSample] else [];
    var rows := Panel(alerts).rows;
    assert rows == h + m + l;
    assert HighSample in rows <==> c.high > 0;
    assert MediumSample in rows <==> c.medium > 0;
    assert LowSample in rows <==> c.low > 0;
  }

  // ---------------------------------------------------------------------
  // Component state

  /** What the header's bell renders. */
  datatype HeaderView = HeaderView(badge: nat, critical: bool, panel: Option<PanelBody>)

  /** The header's local state: whether its alert panel is open. */
  class HeaderState {
    var showAlerts: bool

    constructor ()
      ensures !showAlerts
    {
      showAlerts := false;
    }

    /** `toggleAlerts`, bound to both the bell and the panel's close button. */
    method ToggleAlerts()
      modifies this
      ensures showAlerts == !old(showAlerts)
    {
      showAlerts := !showAlerts;
    }

    /** The bell and, while open, the panel, for the given `alerts` prop. */
    function View(alerts: seq<Alert>): (v: HeaderView)
      reads this
      ensures v.badge <= |alerts|
      ensures v.badge + |Filter(alerts, HasUnknownSeverity())| == |alerts|
      ensures v.critical <==> exists i :: 0 <= i < |alerts| && alerts[i].severity == High
      ensures v.panel.Some? <==> showAlerts
      ensures showAlerts ==> v.panel == Some(Panel(alerts))
    {
      CountsPartition(alerts);
      TotalAlertsBound(alerts);
      HasCriticalIff(alerts);
      HeaderView(TotalAlerts(alerts), HasCritical(alerts),
                 if showAlerts then Some(Panel(alerts)) else None)
    }
  }
}

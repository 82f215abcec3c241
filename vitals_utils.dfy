/** The dashboard's vitals risk classifier: one threshold rule per metric,
    the overall risk as the most severe of the three, and the alert list the
    live monitor shows, most severe first. */
module VitalsUtils {
  import opened Query

  datatype Risk = Normal | Warning | Critical

  /** `RISK_RANK`. */
  function Rank(r: Risk): (n: nat)
    ensures n <= 2
    ensures r == Normal <==> n == 0
    ensures r == Critical <==> n == 2
  {
    match r
    case Normal => 0
    case Warning => 1
    case Critical => 2
  }

  /** `computeHRRisk`. */
  function HeartRateRisk(hr: int): (r: Risk)
    ensures r == Critical <==> hr > 130 || hr < 50
    ensures r == Warning <==> !(hr > 130 || hr < 50) && (hr > 100 || hr < 60)
    ensures r == Normal <==> 60 <= hr <= 100
  {
    if hr > 130 || hr < 50 then Critical
    else if hr > 100 || hr < 60 then Warning
    else Normal
  }

  /** `computeSpO2Risk`. */
  function SpO2Risk(spo2: int): (r: Risk)
    ensures r == Critical <==> spo2 <= 90
    ensures r == Warning <==> 91 <= spo2 <= 95
    ensures r == Normal <==> spo2 > 95
  {
    if spo2 <= 90 then Critical
    else if spo2 <= 95 then Warning
    else Normal
  }

  /** `computeGlucoseRisk`. */
  function GlucoseRisk(glucose: int): (r: Risk)
    ensures r == Critical <==> glucose > 200 || glucose < 55
    ensures r == Warning <==> !(glucose > 200 || glucose < 55) && (glucose > 140 || glucose < 70)
    ensures r == Normal <==> 70 <= glucose <= 140
  {
    if glucose > 200 || glucose < 55 then Critical
    else if glucose > 140 || glucose < 70 then Warning
    else Normal
  }

  /** The reducer of `computeRisk`: the left level unless the right one ranks higher. */
  function MoreSevere(a: Risk, b: Risk): (r: Risk)
    ensures r == a || r == b
    ensures Rank(r) >= Rank(a) && Rank(r) >= Rank(b)
    ensures Rank(a) == Rank(b) ==> r == a
  {
    if Rank(a) >= Rank(b) then a else b
  }

  /** `computeRisk`: `[hr, spo2, glucose].reduce(MoreSevere)`. */
  function OverallRisk(hr: int, spo2: int, glucose: int): Risk {
    MoreSevere(MoreSevere(HeartRateRisk(hr), SpO2Risk(spo2)), GlucoseRisk(glucose))
  }

  function Max3(a: int, b: int, c: int): int {
    if a >= b && a >= c then a else if b >= c then b else c
  }

  /** The overall rank is the largest of the three metric ranks. */
  lemma OverallRiskIsMax(hr: int, spo2: int, glucose: int)
    ensures Rank(OverallRisk(hr, spo2, glucose)) ==
      Max3(Rank(HeartRateRisk(hr)), Rank(SpO2Risk(spo2)), Rank(GlucoseRisk(glucose)))
  {
  }

  /** Overall normal exactly when every metric is normal; overall critical
      exactly when some metric is critical. */
  lemma OverallRiskLevels(hr: int, spo2: int, glucose: int)
    ensures OverallRisk(hr, spo2, glucose) == Normal <==>
      HeartRateRisk(hr) == Normal && SpO2Risk(spo2) == Normal && GlucoseRisk(glucose) == Normal
    ensures OverallRisk(hr, spo2, glucose) == Critical <==>
      HeartRateRisk(hr) == Critical || SpO2Risk(spo2) == Critical || GlucoseRisk(glucose) == Critical
  {
    OverallRiskIsMax(hr, spo2, glucose);
  }

  // ---------------------------------------------------------------------------
  // generateAlerts

  /** One reading of the live feed, as the dashboard receives it. */
  datatype Vitals = Vitals(patientId: int, patientName: string, riskLevel: string,
                           heartRate: int, spo2: int, glucose: int, timestamp: string)

  datatype Metric = HeartRate | SpO2 | Glucose

  /** An alert: whose, which metric at which value, and how severe. The
      message text is rendered from the metric, the value and the level. */
  datatype Alert = Alert(patientId: int, patientName: string, metric: Metric, value: int, level: Risk)

  function ValueOf(v: Vitals, m: Metric): int {
    match m
    case HeartRate => v.heartRate
    case SpO2 => v.spo2
    case Glucose => v.glucose
  }

  function MetricRisk(v: Vitals, m: Metric): Risk {
    match m
    case HeartRate => HeartRateRisk(v.heartRate)
    case SpO2 => SpO2Risk(v.spo2)
    case Glucose => GlucoseRisk(v.glucose)
  }

  /** The alert for metric m of reading v. */
  function AlertFor(v: Vitals, m: Metric): Alert {
    Alert(v.patientId, v.patientName, m, ValueOf(v, m), MetricRisk(v, m))
  }

  /** The alerts one reading pushes: heart rate, SpO2, glucose, each only
      when its level is not normal. */
  function AlertsOf(v: Vitals): seq<Alert> {
    (if MetricRisk(v, HeartRate) != Normal then [AlertFor(v, HeartRate)] else []) +
    (if MetricRisk(v, SpO2) != Normal then [AlertFor(v, SpO2)] else []) +
    (if MetricRisk(v, Glucose) != Normal then [AlertFor(v, Glucose)] else [])
  }

  /** A reading yields exactly one alert per metric that is not normal, and
      none for a normal metric; each alert carries the reading's patient and
      that metric's value and level. */
  lemma AlertsOfExactly(v: Vitals)
    ensures forall m :: AlertFor(v, m) in AlertsOf(v) <==> MetricRisk(v, m) != Normal
    ensures forall a :: a in AlertsOf(v) ==> a == AlertFor(v, a.metric) && a.level != Normal
    ensures forall i, j :: 0 <= i < j < |AlertsOf(v)| ==> AlertsOf(v)[i].metric != AlertsOf(v)[j].metric
  {
  }

  /** Every alert the loop pushes for the readings vs, in push order. */
  function Pushed(vs: seq<Vitals>): (r: seq<Alert>)
    decreases |vs|
  {
    if vs == [] then [] else Pushed(vs[..|vs| - 1]) + AlertsOf(vs[|vs| - 1])
  }

  /** An alert is pushed exactly when it is one of some reading's alerts. */
  lemma {:induction false} PushedMembers(vs: seq<Vitals>)
    ensures forall a :: a in Pushed(vs) <==> exists v :: v in vs && a in AlertsOf(v)
    decreases |vs|
  {
    if vs != [] {
      var init := vs[..|vs| - 1];
      PushedMembers(init);
      assert vs == init + [vs[|vs| - 1]];
      forall a ensures a in Pushed(vs) <==> exists v :: v in vs && a in AlertsOf(v) {
        if a in Pushed(vs) && a !in AlertsOf(vs[|vs| - 1]) {
          assert a in Pushed(init);
          var v :| v in init && a in AlertsOf(v);
          assert v in vs;
        }
      }
    }
  }

  /** The alerts of level l, in push order. */
  function AtLevel(s: seq<Alert>, l: Risk): seq<Alert>
    decreases |s|
  {
    if s == [] then [] else (if s[0].level == l then [s[0]] else []) + AtLevel(s[1..], l)
  }

  /** `alerts.sort((a, b) => RISK_RANK[b.level] - RISK_RANK[a.level])`: a
      stable sort on rank, so the critical alerts in push order, then the
      warnings in push order, then the rest. */
  function SortByRank(s: seq<Alert>): seq<Alert> {
    AtLevel(s, Critical) + AtLevel(s, Warning) + AtLevel(s, Normal)
  }

  /** The alerts of level l are exactly the pushed alerts of that level. */
  lemma {:induction false} AtLevelMembers(s: seq<Alert>, l: Risk)
    ensures forall a :: a in AtLevel(s, l) <==> a in s && a.level == l
    decreases |s|
  {
    if s != [] {
      AtLevelMembers(s[1..], l);
      assert s == [s[0]] + s[1..];
    }
  }

  /** The first alert joins the run of its own level and no other. */
  lemma AtLevelStep(s: seq<Alert>, l: Risk)
    requires s != []
    ensures s[0].level == l ==> multiset(AtLevel(s, l)) == multiset{s[0]} + multiset(AtLevel(s[1..], l))
    ensures s[0].level != l ==> AtLevel(s, l) == AtLevel(s[1..], l)
  {
    if s[0].level == l {
      assert AtLevel(s, l) == [s[0]] + AtLevel(s[1..], l);
    }
  }

  /** The first alert joins the run of its own level and leaves the other
      two as they are. */
  lemma LevelsStep(s: seq<Alert>)
    requires s != []
    ensures multiset(AtLevel(s, Critical)) + multiset(AtLevel(s, Warning)) + multiset(AtLevel(s, Normal))
         == multiset{s[0]} + (multiset(AtLevel(s[1..], Critical)) + multiset(AtLevel(s[1..], Warning))
                              + multiset(AtLevel(s[1..], Normal)))
  {
    AtLevelStep(s, Critical);
    AtLevelStep(s, Warning);
    AtLevelStep(s, Normal);
  }

  lemma MultisetCons(s: seq<Alert>)
    requires s != []
    ensures multiset(s) == multiset{s[0]} + multiset(s[1..])
  {
    assert s == [s[0]] + s[1..];
  }

  /** Every alert has exactly one of the three levels, so the three runs
      together hold each pushed alert exactly as often as it was pushed. */
  lemma {:induction false} LevelsPartition(s: seq<Alert>)
    ensures multiset(AtLevel(s, Critical)) + multiset(AtLevel(s, Warning)) + multiset(AtLevel(s, Normal)) == multiset(s)
    decreases |s|
  {
    if s != [] {
      LevelsPartition(s[1..]);
      LevelsStep(s);
      MultisetCons(s);
    }
  }

  /** The stable sort orders by non-increasing rank. */
  lemma SortByRankSorted(s: seq<Alert>)
    ensures var r := SortByRank(s);
      forall i, j :: 0 <= i < j < |r| ==> Rank(r[i].level) >= Rank(r[j].level)
  {
    var c := AtLevel(s, Critical);
    var w := AtLevel(s, Warning);
    var n := AtLevel(s, Normal);
    AtLevelMembers(s, Critical);
    AtLevelMembers(s, Warning);
    AtLevelMembers(s, Normal);
    var r := c + w + n;
    forall i, j | 0 <= i < j < |r| ensures Rank(r[i].level) >= Rank(r[j].level) {
      if i < |c| {
        assert r[i] in c;
      } else if i < |c| + |w| {
        assert r[i] in w;
        assert j >= |c|;
        if j < |c| + |w| { assert r[j] in w; } else { assert r[j] in n; }
      } else {
        assert r[i] in n && r[j] in n;
      }
    }
  }

  /** The stable sort keeps every alert exactly as often as it was pushed. */
  lemma SortByRankPermutes(s: seq<Alert>)
    ensures multiset(SortByRank(s)) == multiset(s)
  {
    LevelsPartition(s);
  }

  lemma PushedStep(vs: seq<Vitals>, i: int)
    requires 0 <= i < |vs|
    ensures Pushed(vs[..i + 1]) == Pushed(vs[..i]) + AlertsOf(vs[i])
  {
    assert vs[..i + 1][..i] == vs[..i];
  }

  /** The loop body of `generateAlerts`: one push per metric that is not normal. */
  method PushAlerts(alerts: seq<Alert>, v: Vitals) returns (r: seq<Alert>)
    ensures r == alerts + AlertsOf(v)
  {
    r := alerts;
    if HeartRateRisk(v.heartRate) != Normal {
      r := r + [AlertFor(v, HeartRate)];
    }
    if SpO2Risk(v.spo2) != Normal {
      r := r + [AlertFor(v, SpO2)];
    }
    if GlucoseRisk(v.glucose) != Normal {
      r := r + [AlertFor(v, Glucose)];
    }
  }

  /** `generateAlerts`: push the alerts of each reading in turn, then sort
      critical first. */
  method GenerateAlerts(vs: seq<Vitals>) returns (alerts: seq<Alert>)
    ensures alerts == SortByRank(Pushed(vs))
  {
    alerts := [];
    for i := 0 to |vs|
      invariant alerts == Pushed(vs[..i])
    {
      PushedStep(vs, i);
      alerts := PushAlerts(alerts, vs[i]);
    }
    assert vs[..|vs|] == vs;
    alerts := SortByRank(alerts);
  }
}

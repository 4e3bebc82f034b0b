/** exportshield_backend/src/routes/corridors.py: the corridor collection and its average metrics. */
module Corridors {
  import opened Wrappers
  import opened Decimal
  import opened Repository

  /** The stored fields of a corridor besides id and the timestamps. */
  datatype Corridor = Corridor(
    name: string, fromLocation: string, toLocation: string,
    score: int, riskLevel: string, pollution: int, greenCover: int, temperature: real,
    traffic: int, compliance: int,
    latitude: real, longitude: real, routeEndLat: real, routeEndLng: real)

  /** The POST/PUT body (CorridorCreate). None is an omitted field. */
  datatype CorridorInput = CorridorInput(
    name: string, fromLocation: string, toLocation: string,
    score: Option<int>, riskLevel: Option<string>, pollution: Option<int>, greenCover: Option<int>,
    temperature: Option<real>, traffic: Option<int>, compliance: Option<int>,
    latitude: real, longitude: real, routeEndLat: real, routeEndLng: real)

  /** `**corridor.dict()`: omitted fields take their schema defaults. */
  function FromInput(c: CorridorInput): Corridor {
    Corridor(c.name, c.fromLocation, c.toLocation,
             c.score.GetOr(50), c.riskLevel.GetOr("medium"), c.pollution.GetOr(50), c.greenCover.GetOr(10),
             c.temperature.GetOr(25.0), c.traffic.GetOr(50), c.compliance.GetOr(80),
             c.latitude, c.longitude, c.routeEndLat, c.routeEndLng)
  }

  /** Every field comes from the request; the omitted optionals get score 50, risk "medium",
      pollution 50, green cover 10, temperature 25.0, traffic 50 and compliance 80. */
  predicate CopiesInput(f: Corridor, c: CorridorInput) {
    && f.name == c.name && f.fromLocation == c.fromLocation && f.toLocation == c.toLocation
    && f.score == (if c.score.Some? then c.score.value else 50)
    && f.riskLevel == (if c.riskLevel.Some? then c.riskLevel.value else "medium")
    && f.pollution == (if c.pollution.Some? then c.pollution.value else 50)
    && f.greenCover == (if c.greenCover.Some? then c.greenCover.value else 10)
    && f.temperature == (if c.temperature.Some? then c.temperature.value else 25.0)
    && f.traffic == (if c.traffic.Some? then c.traffic.value else 50)
    && f.compliance == (if c.compliance.Some? then c.compliance.value else 80)
    && f.latitude == c.latitude && f.longitude == c.longitude
    && f.routeEndLat == c.routeEndLat && f.routeEndLng == c.routeEndLng
  }

  /** create_corridor */
  function CreateCorridor(s: Store<Corridor>, c: CorridorInput, createdAt: string, updatedAt: string)
    : (r: (Store<Corridor>, Entry<Corridor>))
    ensures |r.0| == |s| + 1 && r.0[|s|] == r.1
    ensures forall i :: 0 <= i < |s| ==> r.0[i] == s[i]
    ensures r.1.id == NatToDecimal(|s| + 1)
    ensures r.1.createdAt == createdAt && r.1.updatedAt == updatedAt
    ensures CopiesInput(r.1.fields, c)
  {
    Create(s, FromInput(c), createdAt, updatedAt)
  }

  /** update_corridor: a full replacement; nothing falls back to the stored record. */
  function UpdateCorridor(s: Store<Corridor>, id: string, c: CorridorInput, now: string)
    : (r: Result<(Store<Corridor>, Entry<Corridor>)>)
    ensures r.NotFound? <==> !HasId(s, id)
    ensures forall i :: FirstMatch(s, id, i) ==>
      && r.Ok?
      && r.value.0 == s[i := r.value.1]
      && r.value.1.id == s[i].id
      && r.value.1.createdAt == s[i].createdAt
      && r.value.1.updatedAt == now
      && CopiesInput(r.value.1.fields, c)
  {
    Update(s, id, _ => FromInput(c), now)
  }

  /** The body of get_average_metrics; greenCover is the green_cover field. */
  datatype Metrics = Metrics(pollution: real, greenCover: real, temperature: real, traffic: real, compliance: real)

  function PollutionOf(c: Corridor): real { c.pollution as real }
  function GreenCoverOf(c: Corridor): real { c.greenCover as real }
  function TemperatureOf(c: Corridor): real { c.temperature }
  function TrafficOf(c: Corridor): real { c.traffic as real }
  function ComplianceOf(c: Corridor): real { c.compliance as real }

  /** `sum(metric(c) for c in s)` */
  function Total(s: Store<Corridor>, metric: Corridor -> real): real
    decreases |s|
  {
    if |s| == 0 then 0.0 else Total(s[..|s| - 1], metric) + metric(s[|s| - 1].fields)
  }

  /** get_average_metrics: each metric's sum over the corridors divided by their number,
      or all zeros for an empty list. */
  function AverageMetrics(s: Store<Corridor>): (m: Metrics)
    ensures |s| == 0 ==> m == Metrics(0.0, 0.0, 0.0, 0.0, 0.0)
    ensures |s| > 0 ==>
      && m.pollution * (|s| as real) == Total(s, PollutionOf)
      && m.greenCover * (|s| as real) == Total(s, GreenCoverOf)
      && m.temperature * (|s| as real) == Total(s, TemperatureOf)
      && m.traffic * (|s| as real) == Total(s, TrafficOf)
      && m.compliance * (|s| as real) == Total(s, ComplianceOf)
  {
    if |s| == 0 then Metrics(0.0, 0.0, 0.0, 0.0, 0.0)
    else
      var n := |s| as real;
      Metrics(Total(s, PollutionOf) / n, Total(s, GreenCoverOf) / n, Total(s, TemperatureOf) / n,
              Total(s, TrafficOf) / n, Total(s, ComplianceOf) / n)
  }

  lemma {:induction false} TotalBounds(s: Store<Corridor>, metric: Corridor -> real, lo: real, hi: real)
    requires forall i :: 0 <= i < |s| ==> lo <= metric(s[i].fields) <= hi
    ensures lo * (|s| as real) <= Total(s, metric) <= hi * (|s| as real)
    decreases |s|
  {
    if |s| > 0 {
      var p := s[..|s| - 1];
      var n := |p| as real;
      TotalBounds(p, metric, lo, hi);
      assert lo <= metric(s[|s| - 1].fields) <= hi;
      assert |s| as real == n + 1.0;
      assert lo * (n + 1.0) == lo * n + lo;
      assert hi * (n + 1.0) == hi * n + hi;
    }
  }

  lemma NonNegativeFactor(x: real, n: real)
    requires n > 0.0 && x * n >= 0.0
    ensures x >= 0.0
  {
  }

  lemma CancelPositive(a: real, b: real, n: real)
    requires n > 0.0 && a * n <= b * n
    ensures a <= b
  {
    assert (b - a) * n == b * n - a * n;
    NonNegativeFactor(b - a, n);
  }

  lemma MeanBetween(lo: real, hi: real, mean: real, n: real, t: real)
    requires n > 0.0 && lo * n <= t <= hi * n && mean * n == t
    ensures lo <= mean <= hi
  {
    CancelPositive(lo, mean, n);
    CancelPositive(mean, hi, n);
  }

  lemma MeanBounds(s: Store<Corridor>, metric: Corridor -> real, lo: real, hi: real, mean: real)
    requires |s| > 0
    requires forall i :: 0 <= i < |s| ==> lo <= metric(s[i].fields) <= hi
    requires mean * (|s| as real) == Total(s, metric)
    ensures lo <= mean <= hi
  {
    TotalBounds(s, metric, lo, hi);
    MeanBetween(lo, hi, mean, |s| as real, Total(s, metric));
  }

  /** Metrics kept on a 0-100 scale average to a value on that scale. */
  lemma AverageMetricsInRange(s: Store<Corridor>)
    requires forall i :: 0 <= i < |s| ==>
      && 0 <= s[i].fields.pollution <= 100 && 0 <= s[i].fields.greenCover <= 100
      && 0.0 <= s[i].fields.temperature <= 100.0
      && 0 <= s[i].fields.traffic <= 100 && 0 <= s[i].fields.compliance <= 100
    ensures var m := AverageMetrics(s);
      && 0.0 <= m.pollution <= 100.0 && 0.0 <= m.greenCover <= 100.0 && 0.0 <= m.temperature <= 100.0
      && 0.0 <= m.traffic <= 100.0 && 0.0 <= m.compliance <= 100.0
  {
    if |s| > 0 {
      var m := AverageMetrics(s);
      MeanBounds(s, PollutionOf, 0.0, 100.0, m.pollution);
      MeanBounds(s, GreenCoverOf, 0.0, 100.0, m.greenCover);
      MeanBounds(s, TemperatureOf, 0.0, 100.0, m.temperature);
      MeanBounds(s, TrafficOf, 0.0, 100.0, m.traffic);
      MeanBounds(s, ComplianceOf, 0.0, 100.0, m.compliance);
    }
  }

  /** MOCK_CORRIDORS, stamped with one boot time. */
  function Seed(bootTime: string): (s: Store<Corridor>)
    ensures |s| == 4 && SequentialIds(s)
  {
    [ Entry("1", bootTime, bootTime, Corridor("Main Tunnel", "Entrance A", "Zone B", 75, "medium", 45, 20, 28.0, 60, 85,
                                              23.5820, 87.2718, 23.5830, 87.2730)),
      Entry("2", bootTime, bootTime, Corridor("North Passage", "Zone B", "Zone C", 85, "low", 30, 35, 25.0, 40, 92,
                                              23.5830, 87.2730, 23.5840, 87.2745)),
      Entry("3", bootTime, bootTime, Corridor("South Access Route", "Entrance B", "Zone A", 55, "high", 70, 8, 32.0, 85, 65,
                                              23.5810, 87.2710, 23.5820, 87.2718)),
      Entry("4", bootTime, bootTime, Corridor("Emergency Exit Tunnel", "Zone C", "Exit Point", 90, "low", 20, 45, 23.0, 15, 98,
                                              23.5840, 87.2745, 23.5850, 87.2755)) ]
  }
}

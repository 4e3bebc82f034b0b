/** exportshield_backend/src/routes/incidents.py: the incident collection, its
    active and critical views and the per-zone heatmap. */
module Incidents {
  import opened Wrappers
  import opened Decimal
  import opened Repository

  /** The stored fields of an incident besides id and the timestamps (`kind` is the source's `type`). */
  datatype Incident = Incident(
    kind: string, severity: string, zone: string, latitude: real, longitude: real,
    title: string, description: string, status: string, affectedWorkers: int)

  /** The POST/PUT body (IncidentCreate). None is an omitted field. */
  datatype IncidentInput = IncidentInput(
    kind: string, severity: string, zone: string, latitude: real, longitude: real,
    title: string, description: string, status: Option<string>, affectedWorkers: Option<int>)

  /** `**incident.dict()`: omitted fields take their schema defaults. */
  function FromInput(x: IncidentInput): Incident {
    Incident(x.kind, x.severity, x.zone, x.latitude, x.longitude, x.title, x.description,
             x.status.GetOr("active"), x.affectedWorkers.GetOr(0))
  }

  /** Every field comes from the request, status defaulting to "active" and affected_workers to 0. */
  predicate CopiesInput(f: Incident, x: IncidentInput) {
    && f.kind == x.kind && f.severity == x.severity && f.zone == x.zone
    && f.latitude == x.latitude && f.longitude == x.longitude
    && f.title == x.title && f.description == x.description
    && f.status == (if x.status.Some? then x.status.value else "active")
    && f.affectedWorkers == (if x.affectedWorkers.Some? then x.affectedWorkers.value else 0)
  }

  /** create_incident */
  function CreateIncident(s: Store<Incident>, x: IncidentInput, createdAt: string, updatedAt: string)
    : (r: (Store<Incident>, Entry<Incident>))
    ensures |r.0| == |s| + 1 && r.0[|s|] == r.1
    ensures forall i :: 0 <= i < |s| ==> r.0[i] == s[i]
    ensures r.1.id == NatToDecimal(|s| + 1)
    ensures r.1.createdAt == createdAt && r.1.updatedAt == updatedAt
    ensures CopiesInput(r.1.fields, x)
  {
    Create(s, FromInput(x), createdAt, updatedAt)
  }

  /** update_incident: a full replacement; nothing falls back to the stored record. */
  function UpdateIncident(s: Store<Incident>, id: string, x: IncidentInput, now: string)
    : (r: Result<(Store<Incident>, Entry<Incident>)>)
    ensures r.NotFound? <==> !HasId(s, id)
    ensures forall i :: FirstMatch(s, id, i) ==>
      && r.Ok?
      && r.value.0 == s[i := r.value.1]
      && r.value.1.id == s[i].id
      && r.value.1.createdAt == s[i].createdAt
      && r.value.1.updatedAt == now
      && CopiesInput(r.value.1.fields, x)
  {
    Update(s, id, _ => FromInput(x), now)
  }

  /** The stored record plays no part in an update: two stores holding the id get the same new fields. */
  lemma UpdateIgnoresStored(s: Store<Incident>, t: Store<Incident>, id: string, x: IncidentInput, now: string)
    requires HasId(s, id) && HasId(t, id)
    ensures UpdateIncident(s, id, x, now).value.1.fields == UpdateIncident(t, id, x, now).value.1.fields
  {
    var i := FindIndex(s, id).value;
    var k := FindIndex(t, id).value;
    assert FirstMatch(s, id, i) && FirstMatch(t, id, k);
  }

  predicate IsActive(e: Entry<Incident>) {
    e.fields.status == "active"
  }

  predicate IsCritical(e: Entry<Incident>) {
    e.fields.severity == "critical" || e.fields.severity == "high"
  }

  /** get_active_incidents */
  function ActiveIncidents(s: Store<Incident>): (r: Store<Incident>)
    ensures forall k :: 0 <= k < |r| ==> r[k].fields.status == "active"
    ensures forall e :: e in r <==> (e in s && e.fields.status == "active")
    ensures forall e :: multiset(r)[e] == if IsActive(e) then multiset(s)[e] else 0
  {
    var r := Filter(s, IsActive);
    assert forall e :: (multiset(r)[e] == if IsActive(e) then multiset(s)[e] else 0)
                      && (e in r <==> e in s && IsActive(e)) by {
      forall e { FilterCounts(s, IsActive, e); }
    }
    r
  }

  /** get_critical_incidents: severity "critical" or "high"; "medium" and "low" are left out. */
  function CriticalIncidents(s: Store<Incident>): (r: Store<Incident>)
    ensures forall k :: 0 <= k < |r| ==> r[k].fields.severity in {"critical", "high"}
    ensures forall e :: e in r <==> (e in s && e.fields.severity in {"critical", "high"})
    ensures forall e :: multiset(r)[e] == if IsCritical(e) then multiset(s)[e] else 0
  {
    var r := Filter(s, IsCritical);
    assert forall e :: (multiset(r)[e] == if IsCritical(e) then multiset(s)[e] else 0)
                      && (e in r <==> e in s && IsCritical(e)) by {
      forall e { FilterCounts(s, IsCritical, e); }
    }
    r
  }

  // ---------------------------------------------------------------------------
  // The heatmap: a Python dict, so an insertion-ordered list of zone/count pairs.

  datatype ZoneCount = ZoneCount(zone: string, count: nat)

  /** Position of the first occurrence of z in zs, or |zs| when there is none. */
  function FirstIndex(zs: seq<string>, z: string): (i: nat)
    ensures i <= |zs|
    ensures i < |zs| <==> z in zs
    ensures i < |zs| ==> zs[i] == z
    ensures forall j :: 0 <= j < i ==> zs[j] != z
    decreases |zs|
  {
    if |zs| == 0 then 0
    else if zs[0] == z then 0
    else
      assert zs == [zs[0]] + zs[1..];
      1 + FirstIndex(zs[1..], z)
  }

  predicate HasZone(h: seq<ZoneCount>, z: string) {
    exists k :: 0 <= k < |h| && h[k].zone == z
  }

  predicate DistinctZones(h: seq<ZoneCount>) {
    forall j, k :: 0 <= j < k < |h| ==> h[j].zone != h[k].zone
  }

  function CountSum(h: seq<ZoneCount>): nat
    decreases |h|
  {
    if |h| == 0 then 0 else h[0].count + CountSum(h[1..])
  }

  /** One loop step, `heatmap[zone] = heatmap.get(zone, 0) + 1`: bump the entry in place,
      or add it at the end with count 1. */
  function Bump(h: seq<ZoneCount>, z: string): seq<ZoneCount>
    decreases |h|
  {
    if |h| == 0 then [ZoneCount(z, 1)]
    else if h[0].zone == z then [ZoneCount(z, h[0].count + 1)] + h[1..]
    else [h[0]] + Bump(h[1..], z)
  }

  /** The loop over all zones, in list order. */
  function Tally(zs: seq<string>): seq<ZoneCount>
    decreases |zs|
  {
    if |zs| == 0 then [] else Bump(Tally(zs[..|zs| - 1]), zs[|zs| - 1])
  }

  lemma {:induction false} BumpExisting(h: seq<ZoneCount>, z: string, k: nat)
    requires k < |h| && h[k].zone == z
    requires forall j :: 0 <= j < k ==> h[j].zone != z
    ensures Bump(h, z) == h[k := ZoneCount(z, h[k].count + 1)]
    decreases |h|
  {
    if k > 0 {
      BumpExisting(h[1..], z, k - 1);
      assert [h[0]] + h[1..][k - 1 := ZoneCount(z, h[k].count + 1)] == h[k := ZoneCount(z, h[k].count + 1)];
    }
  }

  lemma {:induction false} BumpNew(h: seq<ZoneCount>, z: string)
    requires !HasZone(h, z)
    ensures Bump(h, z) == h + [ZoneCount(z, 1)]
    decreases |h|
  {
    if |h| > 0 {
      assert !HasZone(h[1..], z) by {
        forall k | 0 <= k < |h[1..]| ensures h[1..][k].zone != z {
          assert h[1..][k] == h[k + 1];
        }
      }
      BumpNew(h[1..], z);
      assert [h[0]] + (h[1..] + [ZoneCount(z, 1)]) == h + [ZoneCount(z, 1)];
    }
  }

  lemma {:induction false} CountSumSnoc(h: seq<ZoneCount>, x: ZoneCount)
    ensures CountSum(h + [x]) == CountSum(h) + x.count
    decreases |h|
  {
    if |h| > 0 {
      assert (h + [x])[1..] == h[1..] + [x];
      CountSumSnoc(h[1..], x);
    }
  }

  lemma {:induction false} CountSumBumpAt(h: seq<ZoneCount>, k: nat)
    requires k < |h|
    ensures CountSum(h[k := ZoneCount(h[k].zone, h[k].count + 1)]) == CountSum(h) + 1
    decreases |h|
  {
    if k > 0 {
      var b := ZoneCount(h[k].zone, h[k].count + 1);
      assert h[k := b][1..] == h[1..][k - 1 := b];
      CountSumBumpAt(h[1..], k - 1);
    }
  }

  /** Each entry names a zone that occurs, with the number of times it occurs. */
  predicate CountsMatch(h: seq<ZoneCount>, zs: seq<string>) {
    forall k :: 0 <= k < |h| ==> h[k].zone in zs && h[k].count == multiset(zs)[h[k].zone]
  }

  /** Every zone that occurs has an entry. */
  predicate CoversZones(h: seq<ZoneCount>, zs: seq<string>) {
    forall z :: z in zs ==> HasZone(h, z)
  }

  /** Entries come in the order their zones first occur. */
  predicate FirstOccurrenceOrder(h: seq<ZoneCount>, zs: seq<string>) {
    forall j, k :: 0 <= j < k < |h| ==> FirstIndex(zs, h[j].zone) < FirstIndex(zs, h[k].zone)
  }

  /** What the loop leaves in the dict after reading zs. */
  predicate TallyOf(h: seq<ZoneCount>, zs: seq<string>) {
    && DistinctZones(h)
    && CountsMatch(h, zs)
    && CoversZones(h, zs)
    && CountSum(h) == |zs|
    && FirstOccurrenceOrder(h, zs)
  }

  /** Appending a zone changes counts only for that zone, and first occurrences only for a new zone. */
  lemma SnocFacts(p: seq<string>, x: string)
    ensures forall z :: multiset(p + [x])[z] == multiset(p)[z] + (if x == z then 1 else 0)
    ensures forall z :: z in p ==> FirstIndex(p + [x], z) == FirstIndex(p, z)
    ensures x !in p ==> FirstIndex(p + [x], x) == |p|
  {
    var zs := p + [x];
    forall z | z in p ensures FirstIndex(zs, z) == FirstIndex(p, z) {
      assert zs[FirstIndex(p, z)] == z;
    }
  }

  lemma BumpedCounts(h: seq<ZoneCount>, p: seq<string>, x: string, k: nat)
    requires DistinctZones(h) && CountsMatch(h, p)
    requires k < |h| && h[k].zone == x
    ensures CountsMatch(h[k := ZoneCount(x, h[k].count + 1)], p + [x])
  {
    SnocFacts(p, x);
    var h' := h[k := ZoneCount(x, h[k].count + 1)];
    forall j | 0 <= j < |h'|
      ensures h'[j].zone in p + [x] && h'[j].count == multiset(p + [x])[h'[j].zone]
    {
      if j != k {
        assert h'[j] == h[j] && h[j].zone != x;
      }
    }
  }

  lemma BumpedOrder(h: seq<ZoneCount>, p: seq<string>, x: string, k: nat)
    requires FirstOccurrenceOrder(h, p) && CountsMatch(h, p)
    requires k < |h| && h[k].zone == x
    ensures FirstOccurrenceOrder(h[k := ZoneCount(x, h[k].count + 1)], p + [x])
  {
    SnocFacts(p, x);
    var h' := h[k := ZoneCount(x, h[k].count + 1)];
    forall i, j | 0 <= i < j < |h'|
      ensures FirstIndex(p + [x], h'[i].zone) < FirstIndex(p + [x], h'[j].zone)
    {
      assert h'[i].zone == h[i].zone && h'[j].zone == h[j].zone;
      assert h[i].zone in p && h[j].zone in p;
    }
  }

  lemma BumpedCovers(h: seq<ZoneCount>, p: seq<string>, x: string, k: nat)
    requires CoversZones(h, p)
    requires k < |h| && h[k].zone == x
    ensures CoversZones(h[k := ZoneCount(x, h[k].count + 1)], p + [x])
  {
    var h' := h[k := ZoneCount(x, h[k].count + 1)];
    forall z | z in p + [x] ensures HasZone(h', z) {
      if z != x {
        assert z in p;
        var j :| 0 <= j < |h| && h[j].zone == z;
        assert h'[j].zone == z;
      } else {
        assert h'[k].zone == z;
      }
    }
  }

  /** The loop step for a zone already in the dict. */
  lemma TallyStepExisting(h: seq<ZoneCount>, p: seq<string>, x: string, k: nat)
    requires TallyOf(h, p)
    requires k < |h| && h[k].zone == x
    ensures TallyOf(Bump(h, x), p + [x])
  {
    BumpExisting(h, x, k);
    CountSumBumpAt(h, k);
    var h' := h[k := ZoneCount(x, h[k].count + 1)];
    assert forall j :: 0 <= j < |h| ==> h'[j].zone == h[j].zone;
    assert DistinctZones(h');
    BumpedCounts(h, p, x, k);
    BumpedOrder(h, p, x, k);
    BumpedCovers(h, p, x, k);
  }

  lemma AppendedCounts(h: seq<ZoneCount>, p: seq<string>, x: string)
    requires CountsMatch(h, p) && x !in p
    ensures CountsMatch(h + [ZoneCount(x, 1)], p + [x])
  {
    SnocFacts(p, x);
    var h' := h + [ZoneCount(x, 1)];
    forall j | 0 <= j < |h'|
      ensures h'[j].zone in p + [x] && h'[j].count == multiset(p + [x])[h'[j].zone]
    {
      if j < |h| {
        assert h'[j] == h[j] && h[j].zone in p;
      }
    }
  }

  lemma AppendedCovers(h: seq<ZoneCount>, p: seq<string>, x: string)
    requires CoversZones(h, p)
    ensures CoversZones(h + [ZoneCount(x, 1)], p + [x])
  {
    var h' := h + [ZoneCount(x, 1)];
    forall z | z in p + [x] ensures HasZone(h', z) {
      if z != x {
        assert z in p;
        var j :| 0 <= j < |h| && h[j].zone == z;
        assert h'[j].zone == z;
      } else {
        assert h'[|h|].zone == z;
      }
    }
  }

  lemma AppendedOrder(h: seq<ZoneCount>, p: seq<string>, x: string)
    requires FirstOccurrenceOrder(h, p) && CountsMatch(h, p) && x !in p
    ensures FirstOccurrenceOrder(h + [ZoneCount(x, 1)], p + [x])
  {
    SnocFacts(p, x);
    var h' := h + [ZoneCount(x, 1)];
    forall j, k | 0 <= j < k < |h'|
      ensures FirstIndex(p + [x], h'[j].zone) < FirstIndex(p + [x], h'[k].zone)
    {
      assert h'[j] == h[j] && h[j].zone in p;
      if k < |h| {
        assert h'[k] == h[k] && h[k].zone in p;
      }
    }
  }

  /** The loop step for a zone seen for the first time. */
  lemma TallyStepNew(h: seq<ZoneCount>, p: seq<string>, x: string)
    requires TallyOf(h, p)
    requires !HasZone(h, x)
    ensures TallyOf(Bump(h, x), p + [x])
  {
    BumpNew(h, x);
    CountSumSnoc(h, ZoneCount(x, 1));
    assert x !in p;
    var h' := h + [ZoneCount(x, 1)];
    assert DistinctZones(h');
    AppendedCounts(h, p, x);
    AppendedCovers(h, p, x);
    AppendedOrder(h, p, x);
  }

  lemma {:induction false} TallyCorrect(zs: seq<string>)
    ensures TallyOf(Tally(zs), zs)
    decreases |zs|
  {
    if |zs| > 0 {
      var p := zs[..|zs| - 1];
      var x := zs[|zs| - 1];
      assert zs == p + [x];
      TallyCorrect(p);
      var h := Tally(p);
      if HasZone(h, x) {
        var k :| 0 <= k < |h| && h[k].zone == x;
        TallyStepExisting(h, p, x, k);
      } else {
        TallyStepNew(h, p, x);
      }
    }
  }

  /** The zone of each incident, in list order. */
  function Zones(s: Store<Incident>): (zs: seq<string>)
    ensures |zs| == |s| && forall i :: 0 <= i < |s| ==> zs[i] == s[i].fields.zone
  {
    seq(|s|, i requires 0 <= i < |s| => s[i].fields.zone)
  }

  /** get_incident_heatmap: every zone that occurs, once, in order of first occurrence,
      with the number of incidents in it; the counts add up to the number of incidents. */
  function Heatmap(s: Store<Incident>): (h: seq<ZoneCount>)
    ensures DistinctZones(h)
    ensures forall k :: 0 <= k < |h| ==> h[k].zone in Zones(s) && h[k].count == multiset(Zones(s))[h[k].zone]
    ensures forall i :: 0 <= i < |s| ==> HasZone(h, s[i].fields.zone)
    ensures CountSum(h) == |s|
    ensures forall j, k :: 0 <= j < k < |h| ==> FirstIndex(Zones(s), h[j].zone) < FirstIndex(Zones(s), h[k].zone)
    ensures |s| == 0 ==> h == []
  {
    TallyCorrect(Zones(s));
    Tally(Zones(s))
  }

  /** MOCK_INCIDENTS, stamped with one boot time. */
  function Seed(bootTime: string): (s: Store<Incident>)
    ensures |s| == 4 && SequentialIds(s)
  {
    [ Entry("1", bootTime, bootTime, Incident("Gas Leak", "high", "Zone B", 23.5825, 87.2720, "Gas Leak Detected",
                                              "Elevated methane levels detected in Zone B tunnel section", "active", 5)),
      Entry("2", bootTime, bootTime, Incident("Equipment Failure", "medium", "Zone A", 23.5820, 87.2718, "Drill Malfunction",
                                              "Primary drill experienced mechanical failure", "resolved", 2)),
      Entry("3", bootTime, bootTime, Incident("Structural Issue", "critical", "Zone C", 23.5830, 87.2730, "Tunnel Collapse Risk",
                                              "Cracks detected in support beams - immediate evacuation required", "active", 12)),
      Entry("4", bootTime, bootTime, Incident("Health Emergency", "high", "Zone A", 23.5815, 87.2715, "Worker Heat Exhaustion",
                                              "Multiple workers showing signs of heat stress", "active", 3)) ]
  }

  /** Over the seed the heatmap reads Zone B: 1, Zone A: 2, Zone C: 1, in that order. */
  lemma SeedHeatmap(bootTime: string)
    ensures Heatmap(Seed(bootTime)) ==
      [ZoneCount("Zone B", 1), ZoneCount("Zone A", 2), ZoneCount("Zone C", 1)]
  {
    var zs := Zones(Seed(bootTime));
    assert zs == ["Zone B", "Zone A", "Zone C", "Zone A"];
    assert zs[..3] == ["Zone B", "Zone A", "Zone C"];
    assert zs[..3][..2] == ["Zone B", "Zone A"];
    assert zs[..3][..2][..1] == ["Zone B"];
    var h1 := [ZoneCount("Zone B", 1)];
    var h2 := h1 + [ZoneCount("Zone A", 1)];
    var h3 := h2 + [ZoneCount("Zone C", 1)];
    assert Tally(["Zone B"]) == h1;
    BumpNew(h1, "Zone A");
    assert Tally(["Zone B", "Zone A"]) == h2;
    BumpNew(h2, "Zone C");
    assert Tally(["Zone B", "Zone A", "Zone C"]) == h3;
    BumpExisting(h3, "Zone A", 1);
  }

  /** Starting from the seed, as long as nothing is deleted, every id names exactly one incident. */
  lemma IdsUniqueWithoutDeletes(bootTime: string, ops: seq<Op<Incident>>)
    requires forall k :: 0 <= k < |ops| ==> !ops[k].DeleteOp?
    ensures UniqueIds(Run(Seed(bootTime), ops))
  {
    NoDeleteKeepsSequentialIds(Seed(bootTime), ops);
  }

  /** Deleting incident "2" from the seed and creating one mints id "4" a second time;
      get("4") then still returns the seeded heat-exhaustion incident. */
  lemma SeedDeleteThenCreateReusesId(bootTime: string, x: IncidentInput, createdAt: string, updatedAt: string)
    ensures Delete(Seed(bootTime), "2").Ok?
    ensures
      var rest := Delete(Seed(bootTime), "2").value.0;
      var r := CreateIncident(rest, x, createdAt, updatedAt);
      && r.1.id == "4"
      && Get(r.0, "4") == Ok(Seed(bootTime)[3])
  {
    var s := Seed(bootTime);
    DeleteThenCreateReusesId(s, 1, FromInput(x), createdAt, updatedAt);
  }
}

/** exportshield_backend/src/routes/machinery.py: the machinery collection. */
module Machinery {
  import opened Wrappers
  import opened Decimal
  import opened Truthiness
  import opened Repository

  /** The stored fields of a machine besides id and the timestamps (`kind` is the source's `type`). */
  datatype Machine = Machine(
    name: string, kind: string, location: string,
    health: int, status: string, operatingHours: int, efficiency: int,
    vibration: real, temperature: real, nextMaintenance: string, predictedFailureRisk: string)

  /** The POST/PUT body (MachineryCreate). None is an omitted field; for next_maintenance,
      whose schema default is None, it is also an explicit null. */
  datatype MachineInput = MachineInput(
    name: string, kind: string, location: string,
    health: Option<int>, status: Option<string>, operatingHours: Option<int>, efficiency: Option<int>,
    vibration: Option<real>, temperature: Option<real>, nextMaintenance: Option<string>,
    predictedFailureRisk: Option<string>)

  /** `**machinery.dict()` with next_maintenance overridden; every other optional field
      takes its schema default when omitted. */
  function FromInput(m: MachineInput, nextMaintenance: string): Machine {
    Machine(m.name, m.kind, m.location,
            m.health.GetOr(100), m.status.GetOr("operational"), m.operatingHours.GetOr(0),
            m.efficiency.GetOr(100), m.vibration.GetOr(0.0), m.temperature.GetOr(25.0),
            nextMaintenance, m.predictedFailureRisk.GetOr("low"))
  }

  /** Every field but next_maintenance comes from the request or its schema default. */
  predicate CopiesInput(f: Machine, m: MachineInput) {
    && f.name == m.name && f.kind == m.kind && f.location == m.location
    && f.health == (if m.health.Some? then m.health.value else 100)
    && f.status == (if m.status.Some? then m.status.value else "operational")
    && f.operatingHours == (if m.operatingHours.Some? then m.operatingHours.value else 0)
    && f.efficiency == (if m.efficiency.Some? then m.efficiency.value else 100)
    && f.vibration == (if m.vibration.Some? then m.vibration.value else 0.0)
    && f.temperature == (if m.temperature.Some? then m.temperature.value else 25.0)
    && f.predictedFailureRisk == (if m.predictedFailureRisk.Some? then m.predictedFailureRisk.value else "low")
  }

  /** next_maintenance comes from the request unless it is None or empty, then from the fallback. */
  predicate MaintenanceFrom(f: Machine, m: MachineInput, fallback: string) {
    f.nextMaintenance == (if m.nextMaintenance.None? || m.nextMaintenance.value == "" then fallback
                          else m.nextMaintenance.value)
  }

  /** create_machinery */
  function CreateMachinery(s: Store<Machine>, m: MachineInput, createdAt: string, updatedAt: string)
    : (r: (Store<Machine>, Entry<Machine>))
    ensures |r.0| == |s| + 1 && r.0[|s|] == r.1
    ensures forall i :: 0 <= i < |s| ==> r.0[i] == s[i]
    ensures r.1.id == NatToDecimal(|s| + 1)
    ensures r.1.createdAt == createdAt && r.1.updatedAt == updatedAt
    ensures CopiesInput(r.1.fields, m)
    ensures MaintenanceFrom(r.1.fields, m, "2025-12-31")
  {
    Create(s, FromInput(m, OrString(m.nextMaintenance, "2025-12-31")), createdAt, updatedAt)
  }

  /** update_machinery's field rule: only next_maintenance falls back to the stored value. */
  function Merge(stored: Machine, m: MachineInput): (f: Machine)
    ensures CopiesInput(f, m)
    ensures MaintenanceFrom(f, m, stored.nextMaintenance)
  {
    FromInput(m, OrString(m.nextMaintenance, stored.nextMaintenance))
  }

  /** update_machinery */
  function UpdateMachinery(s: Store<Machine>, id: string, m: MachineInput, now: string)
    : (r: Result<(Store<Machine>, Entry<Machine>)>)
    ensures r.NotFound? <==> !HasId(s, id)
    ensures forall i :: FirstMatch(s, id, i) ==>
      && r.Ok?
      && r.value.0 == s[i := r.value.1]
      && r.value.1.id == s[i].id
      && r.value.1.createdAt == s[i].createdAt
      && r.value.1.updatedAt == now
      && CopiesInput(r.value.1.fields, m)
      && MaintenanceFrom(r.value.1.fields, m, s[i].fields.nextMaintenance)
  {
    Update(s, id, stored => Merge(stored, m), now)
  }

  /** Sending the same PUT twice leaves the same machine: only updated_at moves. */
  lemma UpdateMachineryRetry(s: Store<Machine>, id: string, m: MachineInput, first: string, second: string)
    requires HasId(s, id)
    ensures UpdateMachinery(s, id, m, first).Ok?
    ensures var (once, e) := UpdateMachinery(s, id, m, first).value;
      var twice := UpdateMachinery(once, id, m, second);
      && twice.Ok?
      && twice.value.1 == e.(updatedAt := second)
      && forall j :: 0 <= j < |s| ==> twice.value.0[j].fields == once[j].fields
  {
    var merge := stored => Merge(stored, m);
    assert forall x :: merge(merge(x)) == merge(x);
    UpdateRetry(s, id, merge, first, second);
  }

  predicate IsCritical(e: Entry<Machine>) {
    e.fields.status == "maintenance_required" || e.fields.predictedFailureRisk == "high"
  }

  /** get_critical_machinery: maintenance required or high failure risk, in list order. */
  function CriticalMachinery(s: Store<Machine>): (r: Store<Machine>)
    ensures forall k :: 0 <= k < |r| ==>
      r[k].fields.status == "maintenance_required" || r[k].fields.predictedFailureRisk == "high"
    ensures forall e :: e in r <==>
      (e in s && (e.fields.status == "maintenance_required" || e.fields.predictedFailureRisk == "high"))
    ensures forall e :: multiset(r)[e] == if IsCritical(e) then multiset(s)[e] else 0
  {
    var r := Filter(s, IsCritical);
    assert forall e :: (multiset(r)[e] == if IsCritical(e) then multiset(s)[e] else 0)
                      && (e in r <==> e in s && IsCritical(e)) by {
      forall e { FilterCounts(s, IsCritical, e); }
    }
    r
  }

  /** MOCK_MACHINERY, stamped with one boot time. */
  function Seed(bootTime: string): (s: Store<Machine>)
    ensures |s| == 3 && SequentialIds(s)
  {
    [ Entry("1", bootTime, bootTime, Machine("Excavator 1", "Excavator", "Zone A", 85, "operational", 1200, 92, 3.2, 65.0, "2025-12-01", "low")),
      Entry("2", bootTime, bootTime, Machine("Drill Machine 2", "Drill", "Zone B", 60, "maintenance_required", 2500, 75, 8.5, 85.0, "2025-11-20", "high")),
      Entry("3", bootTime, bootTime, Machine("Loader 3", "Loader", "Zone C", 95, "operational", 500, 98, 2.1, 55.0, "2026-01-15", "low")) ]
  }
}

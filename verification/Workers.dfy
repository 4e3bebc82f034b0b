/** exportshield_backend/src/routes/workers.py: the worker collection. */
module Workers {
  import opened Wrappers
  import opened Decimal
  import opened Truthiness
  import opened Repository

  /** The stored fields of a worker besides id and the timestamps. */
  datatype Worker = Worker(
    name: string, role: string, zone: string, latitude: real, longitude: real,
    heartRate: int, temperature: real, oxygenLevel: int,
    fatigueLevel: string, status: string)

  /** The POST/PUT body (WorkerCreate). None is an omitted field (or an explicit null, for the vitals). */
  datatype WorkerInput = WorkerInput(
    name: string, role: string, zone: string, latitude: real, longitude: real,
    heartRate: Option<int>, temperature: Option<real>, oxygenLevel: Option<int>,
    fatigueLevel: Option<string>, status: Option<string>)

  /** `**worker.dict()` with the three vitals overridden: fatigue_level and status take
      their schema defaults when omitted, whatever was stored before. */
  function FromInput(w: WorkerInput, heartRate: int, temperature: real, oxygenLevel: int): Worker {
    Worker(w.name, w.role, w.zone, w.latitude, w.longitude, heartRate, temperature, oxygenLevel,
           w.fatigueLevel.GetOr("low"), w.status.GetOr("active"))
  }

  /** The request's own fields reach the stored worker unchanged; fatigue_level and
      status take their schema defaults when omitted. */
  predicate CopiesInput(f: Worker, w: WorkerInput) {
    && f.name == w.name && f.role == w.role && f.zone == w.zone
    && f.latitude == w.latitude && f.longitude == w.longitude
    && f.fatigueLevel == (if w.fatigueLevel.Some? then w.fatigueLevel.value else "low")
    && f.status == (if w.status.Some? then w.status.value else "active")
  }

  /** Each vital comes from the request unless it is missing or zero (Python `or`),
      in which case it is the given fallback. */
  predicate VitalsFrom(f: Worker, w: WorkerInput, heartRate: int, temperature: real, oxygenLevel: int) {
    && f.heartRate == (if w.heartRate.None? || w.heartRate.value == 0 then heartRate else w.heartRate.value)
    && f.temperature == (if w.temperature.None? || w.temperature.value == 0.0 then temperature else w.temperature.value)
    && f.oxygenLevel == (if w.oxygenLevel.None? || w.oxygenLevel.value == 0 then oxygenLevel else w.oxygenLevel.value)
  }

  /** create_worker: vitals default to 75 / 37.0 / 98. */
  function CreateWorker(s: Store<Worker>, w: WorkerInput, createdAt: string, updatedAt: string)
    : (r: (Store<Worker>, Entry<Worker>))
    ensures |r.0| == |s| + 1 && r.0[|s|] == r.1
    ensures forall i :: 0 <= i < |s| ==> r.0[i] == s[i]
    ensures r.1.id == NatToDecimal(|s| + 1)
    ensures r.1.createdAt == createdAt && r.1.updatedAt == updatedAt
    ensures CopiesInput(r.1.fields, w)
    ensures VitalsFrom(r.1.fields, w, 75, 37.0, 98)
  {
    var fields := FromInput(w, OrInt(w.heartRate, 75),
                            OrReal(w.temperature, 37.0),
                            OrInt(w.oxygenLevel, 98));
    Create(s, fields, createdAt, updatedAt)
  }

  /** update_worker's field rule: a vital missing or zero in the request keeps the stored value. */
  function Merge(stored: Worker, w: WorkerInput): (f: Worker)
    ensures CopiesInput(f, w)
    ensures VitalsFrom(f, w, stored.heartRate, stored.temperature, stored.oxygenLevel)
  {
    FromInput(w, OrInt(w.heartRate, stored.heartRate),
              OrReal(w.temperature, stored.temperature),
              OrInt(w.oxygenLevel, stored.oxygenLevel))
  }

  /** update_worker */
  function UpdateWorker(s: Store<Worker>, id: string, w: WorkerInput, now: string)
    : (r: Result<(Store<Worker>, Entry<Worker>)>)
    ensures r.NotFound? <==> !HasId(s, id)
    ensures forall i :: FirstMatch(s, id, i) ==>
      && r.Ok?
      && r.value.0 == s[i := r.value.1]
      && r.value.1.id == s[i].id
      && r.value.1.createdAt == s[i].createdAt
      && r.value.1.updatedAt == now
      && CopiesInput(r.value.1.fields, w)
      && VitalsFrom(r.value.1.fields, w, s[i].fields.heartRate, s[i].fields.temperature, s[i].fields.oxygenLevel)
  {
    Update(s, id, stored => Merge(stored, w), now)
  }

  /** Sending the same PUT twice leaves the same worker: only updated_at moves. */
  lemma UpdateWorkerRetry(s: Store<Worker>, id: string, w: WorkerInput, first: string, second: string)
    requires HasId(s, id)
    ensures UpdateWorker(s, id, w, first).Ok?
    ensures var (once, e) := UpdateWorker(s, id, w, first).value;
      var twice := UpdateWorker(once, id, w, second);
      && twice.Ok?
      && twice.value.1 == e.(updatedAt := second)
      && forall j :: 0 <= j < |s| ==> twice.value.0[j].fields == once[j].fields
  {
    var merge := stored => Merge(stored, w);
    assert forall x :: merge(merge(x)) == merge(x);
    UpdateRetry(s, id, merge, first, second);
  }

  predicate IsCritical(e: Entry<Worker>) {
    e.fields.status == "critical" || e.fields.fatigueLevel == "high"
  }

  /** get_critical_workers: critical status or high fatigue, each qualifying worker once, in list order. */
  function CriticalWorkers(s: Store<Worker>): (r: Store<Worker>)
    ensures forall k :: 0 <= k < |r| ==> r[k].fields.status == "critical" || r[k].fields.fatigueLevel == "high"
    ensures forall e :: e in r <==> e in s && (e.fields.status == "critical" || e.fields.fatigueLevel == "high")
    ensures forall e :: multiset(r)[e] == if IsCritical(e) then multiset(s)[e] else 0
  {
    var r := Filter(s, IsCritical);
    assert forall e :: (multiset(r)[e] == if IsCritical(e) then multiset(s)[e] else 0)
                      && (e in r <==> e in s && IsCritical(e)) by {
      forall e { FilterCounts(s, IsCritical, e); }
    }
    r
  }

  /** MOCK_WORKERS, stamped with one boot time. */
  function Seed(bootTime: string): (s: Store<Worker>)
    ensures |s| == 3 && SequentialIds(s)
  {
    [ Entry("1", bootTime, bootTime, Worker("John Doe", "Miner", "Zone A", 23.5820, 87.2718, 75, 37.2, 98, "low", "active")),
      Entry("2", bootTime, bootTime, Worker("Jane Smith", "Engineer", "Zone B", 23.5825, 87.2720, 82, 37.8, 95, "medium", "active")),
      Entry("3", bootTime, bootTime, Worker("Mike Johnson", "Supervisor", "Zone A", 23.5815, 87.2715, 120, 38.5, 88, "high", "critical")) ]
  }

  /** Over the seed only Mike Johnson is critical. */
  lemma SeedCriticalWorkers(bootTime: string)
    ensures CriticalWorkers(Seed(bootTime)) == [Seed(bootTime)[2]]
  {
    var s := Seed(bootTime);
    assert !IsCritical(s[0]) && !IsCritical(s[1]) && IsCritical(s[2]);
    assert s[1..][1..] == [s[2]];
    assert Filter([s[2]], IsCritical) == [s[2]] by {
      assert [s[2]][1..] == [];
    }
    assert Filter(s[1..], IsCritical) == Filter(s[1..][1..], IsCritical);
  }
}

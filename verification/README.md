# Mining-site resource collections, modelled in Dafny

The backend keeps four in-memory collections — workers, machinery, incidents and
corridors — each a Python list of records (dicts) with string ids, seeded at import
time and changed by REST handlers. Every route file repeats the same code:

- get-by-id returns the first record whose id matches, or 404;
- create mints the id `str(len(list) + 1)`, applies defaults, stamps `created_at` and `updated_at` and appends;
- update replaces the first match in place, keeping `id` and `created_at`, with a per-kind rule for
  which fields fall back to the stored record;
- delete pops the first match.

Each kind also has derived read views: the critical workers and machines, the active and
critical incidents, the per-zone incident heatmap and the corridor metric averages.

The model is functional. A collection is a `seq<Entry<F>>`, where `Entry<F>` holds the id,
the two timestamps and the kind's own fields `F`. Operations are pure functions, and get,
update and delete return `Result` values whose only failure is `NotFound`.

- `Wrappers.dfy`: `Option` and `Result`.
- `Decimal.dfy`: `str(n)` for naturals and its inverse. Ids are minted through it, so a lookup by any string behaves as in the source.
- `Truthiness.dfy`: Python's `x or fallback`, where `None`, `0`, `0.0` and `""` all fall through.
- `Repository.dfy`: the shared collection code, generic in `F`. This covers get, create, update, delete and filter, plus the lemmas about ids.
- `Workers.dfy`, `Machinery.dfy`, `Incidents.dfy`, `Corridors.dfy`: one module per route file. Each holds:
  - the record and request datatypes;
  - the create and update field rules;
  - the views;
  - the seed list.

Get and delete are identical in the four route files, so each is modelled once in `Repository`, instantiated at each kind's fields.

Three consequences of the code's update and id rules:

- **Update fallback.** Update keeps the stored value for an omitted or zero field only for the worker vitals (`heart_rate`, `temperature`, `oxygen_level`) and for an omitted or empty machinery `next_maintenance`. Every other omitted optional field reverts to its schema default, and incident and corridor updates are full replacements.
- **Get after create.** `get` of a freshly minted id reads the new record's position if and only if that id was free (`Repository.CreateThenGet`). After a delete of a non-last record from a list whose ids still follow positions (as the seed's do until the first delete), the next create mints an id that is still in use, and `get` of it keeps returning the record at the older position (`Repository.DeleteThenCreateReusesId`, `Incidents.SeedDeleteThenCreateReusesId`).
- **Get after delete.** `get` after delete gives NotFound exactly when the deleted record was the id's only holder, which is always the case while ids are unique (`Repository.DeleteThenGet`). Otherwise delete removes only the first holder, and `get` then finds the next one (`Repository.DeleteThenGetDuplicate`).

## Model

| member | source | states |
|---|---|---|
| `Decimal.NatToDecimal` | exportshield_backend/src/routes/workers.py:114 | `str(n)` of a natural is a non-empty digit string with no leading zero |
| `Decimal.DecimalRoundTrip` | exportshield_backend/src/routes/incidents.py:139 | reading a minted id back as a number gives the number it was minted from |
| `Decimal.NatToDecimalInjective` | exportshield_backend/src/routes/machinery.py:122 | different collection lengths mint different ids |
| `Decimal.CanonicalRoundTrip` | exportshield_backend/src/routes/workers.py:104 | every canonical digit string is minted by the number it denotes, so every id a client can name that looks like a minted id is one (that only one number mints it is `Decimal.NatToDecimalInjective`; that "01" or "" is never minted is `Decimal.NatToDecimal`'s canonical-form ensures) |
| `Repository.FindIndex` | exportshield_backend/src/routes/workers.py:129-131 | the `next(...)` index search yields None exactly when no record has the id, and otherwise the first position holding it |
| `Repository.Get` | exportshield_backend/src/routes/workers.py:104-107 | NotFound exactly when no record has the id; otherwise the record at the first matching position (the same code is at machinery.py:112-115, incidents.py:129-131, corridors.py:159-162) |
| `Repository.Create` | exportshield_backend/src/routes/incidents.py:138-145 | length grows by one, earlier records are unchanged, the new record is last, with id str(old length + 1), the given timestamps and fields |
| `Repository.Update` | exportshield_backend/src/routes/incidents.py:151-162 | NotFound exactly when the id is absent; otherwise only the first match is replaced, in place, keeping its id and created_at, with updated_at refreshed and fields given by the kind's rule; length and every position's id and created_at are unchanged |
| `Repository.Delete` | exportshield_backend/src/routes/workers.py:149-154 | NotFound exactly when the id is absent; otherwise the first match is removed, the length drops by one, the records before it stay put and the ones after shift down by one, and the confirmation carries the id (same code at machinery.py:153-158, incidents.py:168-173, corridors.py:198-203) |
| `Repository.Filter` | exportshield_backend/src/routes/incidents.py:107 | a view is no longer than the list and holds only records satisfying its condition |
| `Repository.FilterCounts` | exportshield_backend/src/routes/workers.py:98 | a view holds each qualifying record exactly as many times as the list does, and no other record |
| `Repository.FilterAppend` | exportshield_backend/src/routes/machinery.py:103-106 | views preserve list order: filtering distributes over concatenation |
| `Repository.SequentialIdsAreUnique` | exportshield_backend/src/routes/incidents.py:38-95 | a list whose record at position i has id str(i + 1) has unique ids |
| `Repository.CreateThenGet` | exportshield_backend/src/routes/workers.py:113-122 | get of the minted id reads the new record's position if and only if the id was free: when free, get returns the new record; when taken, get returns the record at an earlier position that held it |
| `Repository.CreateKeepsUniqueIds` | exportshield_backend/src/routes/machinery.py:121-128 | on a list with unique ids, create keeps ids unique if and only if str(length + 1) is not already an id |
| `Repository.UpdateThenGet` | exportshield_backend/src/routes/workers.py:129-142 | after a successful update the same id leads to the updated record |
| `Repository.UpdateRetry` | exportshield_backend/src/routes/corridors.py:181-191 | repeating an update whose field rule is idempotent changes nothing but updated_at |
| `Repository.DeleteThenGet` | exportshield_backend/src/routes/corridors.py:198-202 | after deleting a present id, get of it gives NotFound if and only if no later record held the same id (so always when ids are unique) |
| `Repository.DeleteThenGetDuplicate` | exportshield_backend/src/routes/machinery.py:153-157 | with a duplicated id, delete removes only the first holder and get then returns the next holder |
| `Repository.DeleteThenCreateReusesId` | exportshield_backend/src/routes/workers.py:114 | from a list with sequential ids, deleting any record but the last and then creating mints the last record's id again: the list no longer has unique ids, and get of that id returns the record at the older position, not the one at the new position |
| `Repository.Apply` | exportshield_backend/src/routes/incidents.py:135-173 | one request changes the length by +1 (create), 0 (update, or any NotFound) or -1 (delete of a present id) |
| `Repository.NoDeleteKeepsSequentialIds` | exportshield_backend/src/routes/incidents.py:139 | any run of creates and updates with no delete keeps the record at position i holding id str(i + 1), so ids stay unique |
| `Workers.CreateWorker` | exportshield_backend/src/routes/workers.py:110-123 | appends one worker with id str(len + 1) and the given timestamps; name, role, zone and coordinates come from the body; fatigue_level and status default to "low" and "active"; each vital missing or zero becomes 75 / 37.0 / 98 |
| `Workers.Merge` | exportshield_backend/src/routes/workers.py:133-138 | the update rule: each vital missing or zero keeps the stored value, all other fields come from the body or their schema defaults |
| `Workers.UpdateWorker` | exportshield_backend/src/routes/workers.py:126-143 | NotFound exactly when the id is absent; otherwise the first match is replaced in place with the same id and created_at, updated_at refreshed, vitals falling back to the stored ones, fatigue_level and status reverting to "low" / "active" when omitted |
| `Workers.UpdateWorkerRetry` | exportshield_backend/src/routes/workers.py:133-142 | sending the same worker PUT twice leaves the same record except updated_at |
| `Workers.CriticalWorkers` | exportshield_backend/src/routes/workers.py:95-98 | exactly the workers with status "critical" or fatigue "high", each as often as in the list, none other |
| `Workers.Seed` | exportshield_backend/src/routes/workers.py:40-86 | MOCK_WORKERS: three workers, the record at position i carrying id str(i + 1) |
| `Workers.SeedCriticalWorkers` | exportshield_backend/src/routes/workers.py:71-98 | over the seed, only Mike Johnson is critical |
| `Machinery.CreateMachinery` | exportshield_backend/src/routes/machinery.py:118-129 | appends one machine with id str(len + 1); omitted optionals get health 100, status "operational", hours 0, efficiency 100, vibration 0.0, temperature 25.0, risk "low"; next_maintenance becomes "2025-12-31" when None or empty |
| `Machinery.Merge` | exportshield_backend/src/routes/machinery.py:139-145 | the update rule: next_maintenance None or empty keeps the stored value; every other field comes from the body or its schema default |
| `Machinery.UpdateMachinery` | exportshield_backend/src/routes/machinery.py:132-147 | NotFound exactly when the id is absent; otherwise in-place replacement keeping id and created_at, next_maintenance falling back to the stored value, the rest from the body |
| `Machinery.UpdateMachineryRetry` | exportshield_backend/src/routes/machinery.py:139-146 | sending the same machinery PUT twice leaves the same record except updated_at |
| `Machinery.CriticalMachinery` | exportshield_backend/src/routes/machinery.py:100-106 | exactly the machines with status "maintenance_required" or risk "high", each as often as in the list, none other |
| `Machinery.Seed` | exportshield_backend/src/routes/machinery.py:42-91 | MOCK_MACHINERY: three machines, the record at position i carrying id str(i + 1) |
| `Incidents.CreateIncident` | exportshield_backend/src/routes/incidents.py:135-145 | appends one incident with id str(len + 1); every field from the body, status defaulting to "active" and affected_workers to 0 |
| `Incidents.UpdateIncident` | exportshield_backend/src/routes/incidents.py:148-162 | NotFound exactly when the id is absent; otherwise in-place full replacement from the body keeping id and created_at |
| `Incidents.UpdateIgnoresStored` | exportshield_backend/src/routes/incidents.py:155-160 | the stored incident plays no part in the new fields: no fallback |
| `Incidents.ActiveIncidents` | exportshield_backend/src/routes/incidents.py:104-107 | exactly the incidents with status "active", each as often as in the list, none other |
| `Incidents.CriticalIncidents` | exportshield_backend/src/routes/incidents.py:110-113 | exactly the incidents of severity "critical" or "high" (never "medium" or "low"), each as often as in the list |
| `Incidents.FirstIndex` | exportshield_backend/src/routes/incidents.py:120-122 | position of a zone's first occurrence, or the length when it does not occur |
| `Incidents.BumpExisting` | exportshield_backend/src/routes/incidents.py:122 | bumping a zone already in the dict adds one to its count in place |
| `Incidents.BumpNew` | exportshield_backend/src/routes/incidents.py:122 | bumping a new zone appends it with count 1 |
| `Incidents.TallyCorrect` | exportshield_backend/src/routes/incidents.py:119-123 | after the loop, the dict has distinct keys, each key a zone that occurs with its number of occurrences, every occurring zone as a key, counts summing to the number read, and keys in order of first occurrence |
| `Incidents.Heatmap` | exportshield_backend/src/routes/incidents.py:116-123 | the heatmap maps exactly the zones present to their incident counts, once each, in order of first occurrence; counts sum to the list length; empty list gives empty map |
| `Incidents.SeedHeatmap` | exportshield_backend/src/routes/incidents.py:38-123 | over the seed, the heatmap is Zone B: 1, Zone A: 2, Zone C: 1 |
| `Incidents.Seed` | exportshield_backend/src/routes/incidents.py:38-95 | MOCK_INCIDENTS: four incidents, the record at position i carrying id str(i + 1) |
| `Incidents.IdsUniqueWithoutDeletes` | exportshield_backend/src/routes/incidents.py:135-162 | from the seed, any run of creates and updates without a delete leaves unique ids |
| `Incidents.SeedDeleteThenCreateReusesId` | exportshield_backend/src/routes/incidents.py:165-173 | deleting "2" from the seed and creating mints "4" again, and get("4") still returns the seeded heat-exhaustion incident |
| `Corridors.CreateCorridor` | exportshield_backend/src/routes/corridors.py:165-175 | appends one corridor with id str(len + 1); omitted optionals get score 50, risk "medium", pollution 50, green cover 10, temperature 25.0, traffic 50, compliance 80 |
| `Corridors.UpdateCorridor` | exportshield_backend/src/routes/corridors.py:178-192 | NotFound exactly when the id is absent; otherwise in-place full replacement from the body keeping id and created_at |
| `Corridors.AverageMetrics` | exportshield_backend/src/routes/corridors.py:134-153 | all zeros on an empty list; otherwise each of pollution, greenCover (the green_cover field), temperature, traffic and compliance times the count equals that field's sum |
| `Corridors.TotalBounds` | exportshield_backend/src/routes/corridors.py:148-152 | a field sum over n corridors lies between n times the lowest and n times the highest value |
| `Corridors.MeanBounds` | exportshield_backend/src/routes/corridors.py:146-153 | an average lies between the smallest and largest bound of the values averaged |
| `Corridors.AverageMetricsInRange` | exportshield_backend/src/routes/corridors.py:137-153 | when every corridor's metrics are on the 0-100 scale, so are all five averages |
| `Corridors.Seed` | exportshield_backend/src/routes/corridors.py:48-125 | MOCK_CORRIDORS: four corridors, the record at position i carrying id str(i + 1) |

## Left out

- exportshield_backend/src/routes/dashboard.py: constant payloads. Only the timestamps vary, and they come from the clock.
- exportshield_backend/src/main.py: app construction, CORS and the root endpoint. This is framework wiring.
- exportshield_backend/src/routes/pollution.py, exportshield_backend/src/routes/safety.py and the two services: each is a single floating-point formula behind query parsing. A model over `real` would not reproduce IEEE rounding.
- `get_all_*` return the list itself, so they need no member.
- Request validation (pydantic), JSON serialisation, HTTP status codes and the 404 detail strings are not modelled. A failed lookup is the `NotFound` result. A validation failure never reaches these functions.
- Repository.Delete: returns the deleted id but not the per-kind message text ("Worker deleted", …).
- Clock reads (`datetime.utcnow()`) are parameters:
  - create takes the two readings it makes;
  - update takes one;
  - the seed takes one boot time for all its stamps, where the source reads the clock once per field.
- That updated_at never decreases is not stated, because it depends on the clock alone.
- An explicit JSON `null` for a field whose schema default is not None is not modelled. The source would store `None` and then fail its own response validation. `None` in the request datatypes means an omitted field. For the worker vitals and `next_maintenance`, whose default is None, it also means an explicit null.
- Float fields are carried as `real`. Float rounding is not modelled. Python's `or` on a float is modelled as "zero is falsy", so `-0.0` counts as zero, as in Python. NaN has no counterpart.
- Python ints are unbounded, like Dafny's `int`, so there is no width to model.
- The source tests `if not worker` on the found dict. A stored dict is never empty, so this is the same as testing for None.
- The heatmap's Python dict is modelled as an insertion-ordered list of zone/count pairs, which is what its JSON rendering shows.
- The empty-list averages are the int `0` in the source. They are modelled as `0.0`, the same JSON number.
- Concurrent requests are not modelled. The model applies one request at a time.

/** The in-memory collection each route file keeps (MOCK_WORKERS, MOCK_MACHINERY,
    MOCK_INCIDENTS, MOCK_CORRIDORS): an ordered list of records with string ids,
    always searched from the front. The four files repeat the same get, create,
    update and delete code; here it is written once, generic in the kind's fields. */
module Repository {
  import opened Wrappers
  import opened Decimal

  /** A stored record: the id and the two timestamps every kind carries, plus the kind's own fields. */
  datatype Entry<F> = Entry(id: string, createdAt: string, updatedAt: string, fields: F)

  type Store<F> = seq<Entry<F>>

  predicate HasId<F>(s: Store<F>, id: string) {
    exists i :: 0 <= i < |s| && s[i].id == id
  }

  /** i is the first position holding id, the one the source's `next(...)` search stops at. */
  predicate FirstMatch<F>(s: Store<F>, id: string, i: int) {
    0 <= i < |s| && s[i].id == id && forall j :: 0 <= j < i ==> s[j].id != id
  }

  predicate UniqueIds<F>(s: Store<F>) {
    forall i, j :: 0 <= i < j < |s| ==> s[i].id != s[j].id
  }

  /** The record at position i carries id str(i + 1), as in every seed list. */
  predicate SequentialIds<F>(s: Store<F>) {
    forall i :: 0 <= i < |s| ==> s[i].id == NatToDecimal(i + 1)
  }

  /** The index search `next((i for i, r in enumerate(s) if r["id"] == id), None)`. */
  function FindIndex<F>(s: Store<F>, id: string): (r: Option<nat>)
    ensures r.None? <==> !HasId(s, id)
    ensures r.Some? ==> FirstMatch(s, id, r.value)
    decreases |s|
  {
    if |s| == 0 then None
    else if s[0].id == id then Some(0)
    else
      match FindIndex(s[1..], id)
      case None =>
        assert forall j :: 1 <= j < |s| ==> s[j] == s[1..][j - 1];
        None
      case Some(k) =>
        assert forall j :: 1 <= j <= k ==> s[j] == s[1..][j - 1];
        Some(k + 1)
  }

  /** get_*: the first record with the id, or NotFound. */
  function Get<F>(s: Store<F>, id: string): (r: Result<Entry<F>>)
    ensures r.NotFound? <==> !HasId(s, id)
    ensures forall i :: FirstMatch(s, id, i) ==> r == Ok(s[i])
  {
    match FindIndex(s, id)
    case None => NotFound
    case Some(i) => Ok(s[i])
  }

  /** create_*: mint id str(len + 1), stamp both timestamps, append. Never fails. */
  function Create<F>(s: Store<F>, fields: F, createdAt: string, updatedAt: string): (r: (Store<F>, Entry<F>))
    ensures |r.0| == |s| + 1
    ensures forall i :: 0 <= i < |s| ==> r.0[i] == s[i]
    ensures r.0[|s|] == r.1
    ensures r.1.id == NatToDecimal(|s| + 1)
    ensures r.1.createdAt == createdAt && r.1.updatedAt == updatedAt
    ensures r.1.fields == fields
  {
    var e := Entry(NatToDecimal(|s| + 1), createdAt, updatedAt, fields);
    (s + [e], e)
  }

  /** update_*: replace the first match in place, keeping its id and created_at;
      `merge` computes the new fields from the stored ones (each kind has its own rule). */
  function Update<F>(s: Store<F>, id: string, merge: F -> F, now: string): (r: Result<(Store<F>, Entry<F>)>)
    ensures r.NotFound? <==> !HasId(s, id)
    ensures r.Ok? ==> |r.value.0| == |s|
    ensures r.Ok? ==> forall j :: 0 <= j < |s| ==>
      r.value.0[j].id == s[j].id && r.value.0[j].createdAt == s[j].createdAt
    ensures forall i :: FirstMatch(s, id, i) ==>
      && r.Ok?
      && r.value.0 == s[i := r.value.1]
      && r.value.0[i] == r.value.1
      && (forall j :: 0 <= j < |s| && j != i ==> r.value.0[j] == s[j])
      && r.value.1.id == s[i].id
      && r.value.1.createdAt == s[i].createdAt
      && r.value.1.updatedAt == now
      && r.value.1.fields == merge(s[i].fields)
  {
    match FindIndex(s, id)
    case None => NotFound
    case Some(i) =>
      var e := Entry(id, s[i].createdAt, now, merge(s[i].fields));
      Ok((s[i := e], e))
  }

  /** delete_*: pop the first match; the confirmation carries the id. */
  function Delete<F>(s: Store<F>, id: string): (r: Result<(Store<F>, string)>)
    ensures r.NotFound? <==> !HasId(s, id)
    ensures r.Ok? ==> |r.value.0| == |s| - 1 && r.value.1 == id
    ensures forall i :: FirstMatch(s, id, i) ==>
      && r.Ok?
      && (forall j :: 0 <= j < i ==> r.value.0[j] == s[j])
      && (forall j :: i <= j < |s| - 1 ==> r.value.0[j] == s[j + 1])
  {
    match FindIndex(s, id)
    case None => NotFound
    case Some(i) => Ok((s[..i] + s[i + 1..], id))
  }

  /** The list comprehension `[r for r in s if keep(r)]` behind every derived view. */
  function Filter<F>(s: Store<F>, keep: Entry<F> -> bool): (r: Store<F>)
    ensures |r| <= |s|
    ensures forall k :: 0 <= k < |r| ==> keep(r[k])
    decreases |s|
  {
    if |s| == 0 then []
    else (if keep(s[0]) then [s[0]] else []) + Filter(s[1..], keep)
  }

  /** A view holds each record of the store exactly as often as the store does when it
      qualifies, and never otherwise: nothing is invented, dropped or duplicated. */
  lemma {:induction false} FilterCounts<F>(s: Store<F>, keep: Entry<F> -> bool, e: Entry<F>)
    ensures multiset(Filter(s, keep))[e] == if keep(e) then multiset(s)[e] else 0
    ensures e in Filter(s, keep) <==> e in s && keep(e)
    decreases |s|
  {
    if |s| > 0 {
      assert s == [s[0]] + s[1..];
      FilterCounts(s[1..], keep, e);
    }
  }

  /** Filtering preserves order: it distributes over concatenation. */
  lemma {:induction false} FilterAppend<F>(a: Store<F>, b: Store<F>, keep: Entry<F> -> bool)
    ensures Filter(a + b, keep) == Filter(a, keep) + Filter(b, keep)
    decreases |a|
  {
    if |a| > 0 {
      var head := if keep(a[0]) then [a[0]] else [];
      assert (a + b)[0] == a[0];
      assert (a + b)[1..] == a[1..] + b;
      assert Filter(a + b, keep) == head + Filter(a[1..] + b, keep);
      FilterAppend(a[1..], b, keep);
      assert Filter(a, keep) == head + Filter(a[1..], keep);
    } else {
      assert a + b == b;
    }
  }

  /** When ids are unique, the first match is simply the match. */
  lemma UniqueFirstMatch<F>(s: Store<F>, i: int)
    requires UniqueIds(s) && 0 <= i < |s|
    ensures FirstMatch(s, s[i].id, i)
  {
  }

  lemma {:induction false} SequentialIdsAreUnique<F>(s: Store<F>)
    requires SequentialIds(s)
    ensures UniqueIds(s)
  {
    forall i, j | 0 <= i < j < |s|
      ensures s[i].id != s[j].id
    {
      NatToDecimalInjective(i + 1, j + 1);
    }
  }

  /** Get of the minted id reads the new record's position if and only if the id was free:
      when it was free, get returns the new record; when it was taken, get stops at the
      older holder's position, before the new record. */
  lemma CreateThenGet<F>(s: Store<F>, fields: F, createdAt: string, updatedAt: string)
    ensures var r := Create(s, fields, createdAt, updatedAt);
      !HasId(s, NatToDecimal(|s| + 1)) ==> FirstMatch(r.0, r.1.id, |s|) && Get(r.0, r.1.id) == Ok(r.1)
    ensures var r := Create(s, fields, createdAt, updatedAt);
      HasId(s, NatToDecimal(|s| + 1)) ==>
        exists i :: 0 <= i < |s| && FirstMatch(r.0, r.1.id, i) && Get(r.0, r.1.id) == Ok(s[i])
  {
    var r := Create(s, fields, createdAt, updatedAt);
    var minted := NatToDecimal(|s| + 1);
    assert forall j :: 0 <= j < |s| ==> r.0[j] == s[j];
    if HasId(s, minted) {
      var k := FindIndex(s, minted).value;
      assert FirstMatch(r.0, minted, k);
    } else {
      assert FirstMatch(r.0, minted, |s|);
    }
  }

  /** On a store with unique ids, create keeps them unique exactly when the minted id is new. */
  lemma CreateKeepsUniqueIds<F>(s: Store<F>, fields: F, createdAt: string, updatedAt: string)
    requires UniqueIds(s)
    ensures HasId(s, NatToDecimal(|s| + 1)) ==> !UniqueIds(Create(s, fields, createdAt, updatedAt).0)
    ensures !HasId(s, NatToDecimal(|s| + 1)) ==> UniqueIds(Create(s, fields, createdAt, updatedAt).0)
  {
    var minted := NatToDecimal(|s| + 1);
    var grown := Create(s, fields, createdAt, updatedAt).0;
    if HasId(s, minted) {
      var i :| 0 <= i < |s| && s[i].id == minted;
      assert grown[i].id == grown[|s|].id;
    } else {
      forall i, j | 0 <= i < j < |grown|
        ensures grown[i].id != grown[j].id
      {
        if j < |s| {
          assert grown[i].id == s[i].id && grown[j].id == s[j].id;
        } else {
          assert grown[i].id == s[i].id && grown[j].id == minted;
        }
      }
    }
  }

  /** After an update the id still leads to the updated record. */
  lemma UpdateThenGet<F>(s: Store<F>, id: string, merge: F -> F, now: string)
    requires HasId(s, id)
    ensures Update(s, id, merge, now).Ok?
    ensures var (s', e) := Update(s, id, merge, now).value; Get(s', id) == Ok(e)
  {
    var i := FindIndex(s, id).value;
    var (s', e) := Update(s, id, merge, now).value;
    assert FirstMatch(s', id, i);
  }

  /** Retrying an update whose field rule is idempotent changes nothing but updated_at. */
  lemma UpdateRetry<F>(s: Store<F>, id: string, merge: F -> F, first: string, second: string)
    requires HasId(s, id)
    requires forall x :: merge(merge(x)) == merge(x)
    ensures Update(s, id, merge, first).Ok?
    ensures var (once, e) := Update(s, id, merge, first).value;
      var twice := Update(once, id, merge, second);
      && twice.Ok?
      && twice.value.1 == e.(updatedAt := second)
      && forall j :: 0 <= j < |s| ==> twice.value.0[j].fields == once[j].fields
  {
    var i := FindIndex(s, id).value;
    var (once, e) := Update(s, id, merge, first).value;
    assert FirstMatch(once, id, i);
  }

  /** A deleted id is gone exactly when the first match was its only holder; with unique
      ids that is always so. */
  lemma DeleteThenGet<F>(s: Store<F>, id: string, i: nat)
    requires FirstMatch(s, id, i)
    ensures Delete(s, id).Ok?
    ensures Get(Delete(s, id).value.0, id) == NotFound <==> forall j :: i < j < |s| ==> s[j].id != id
  {
    var rest := Delete(s, id).value.0;
    if forall j :: i < j < |s| ==> s[j].id != id {
      forall j | 0 <= j < |rest|
        ensures rest[j].id != id
      {
        if j < i {
          assert rest[j] == s[j];
        } else {
          assert rest[j] == s[j + 1];
        }
      }
    } else {
      var k :| i < k < |s| && s[k].id == id;
      assert rest[k - 1] == s[k];
    }
  }

  /** With a duplicated id, delete only removes the first holder, and get then reaches the next one. */
  lemma DeleteThenGetDuplicate<F>(s: Store<F>, id: string, i: nat, k: nat)
    requires FirstMatch(s, id, i)
    requires i < k < |s| && s[k].id == id
    requires forall j :: i < j < k ==> s[j].id != id
    ensures Delete(s, id).Ok?
    ensures Get(Delete(s, id).value.0, id) == Ok(s[k])
  {
    var rest := Delete(s, id).value.0;
    assert rest[k - 1] == s[k];
    forall j | 0 <= j < k - 1
      ensures rest[j].id != id
    {
      if j < i {
        assert rest[j] == s[j];
      } else {
        assert rest[j] == s[j + 1];
      }
    }
    assert FirstMatch(rest, id, k - 1);
  }

  /** Deleting a record other than the last from a store with sequential ids makes the
      next create mint an id that is still in use; lookups then only reach the older record. */
  lemma DeleteThenCreateReusesId<F>(s: Store<F>, i: nat, fields: F, createdAt: string, updatedAt: string)
    requires SequentialIds(s)
    requires i < |s| - 1
    ensures Delete(s, s[i].id).Ok?
    ensures
      var rest := Delete(s, s[i].id).value.0;
      var (grown, made) := Create(rest, fields, createdAt, updatedAt);
      && made.id == s[|s| - 1].id
      && HasId(rest, made.id)
      && !UniqueIds(grown)
      && Get(grown, made.id) == Ok(s[|s| - 1])
  {
    SequentialIdsAreUnique(s);
    UniqueFirstMatch(s, i);
    var rest := Delete(s, s[i].id).value.0;
    var (grown, made) := Create(rest, fields, createdAt, updatedAt);
    var last := |s| - 2;
    assert rest[last] == s[|s| - 1];
    assert grown[last] == s[|s| - 1];
    assert grown[last].id == grown[|s| - 1].id;
    forall j | 0 <= j < last
      ensures grown[j].id != made.id
    {
      if j < i {
        assert grown[j] == s[j];
        NatToDecimalInjective(j + 1, |s|);
      } else {
        assert grown[j] == s[j + 1];
        NatToDecimalInjective(j + 2, |s|);
      }
    }
    assert FirstMatch(grown, made.id, last);
  }

  /** One request against the store, as the route layer issues them. */
  datatype Op<!F> =
    | CreateOp(fields: F, createdAt: string, updatedAt: string)
    | UpdateOp(id: string, merge: F -> F, updatedAt: string)
    | DeleteOp(id: string)

  /** The store after one request; a NotFound leaves it as it was. */
  function Apply<F>(s: Store<F>, op: Op<F>): (r: Store<F>)
    ensures op.CreateOp? ==> |r| == |s| + 1
    ensures op.UpdateOp? ==> |r| == |s|
    ensures op.DeleteOp? ==> |r| == if HasId(s, op.id) then |s| - 1 else |s|
  {
    match op
    case CreateOp(fields, createdAt, updatedAt) => Create(s, fields, createdAt, updatedAt).0
    case UpdateOp(id, merge, now) =>
      (match Update(s, id, merge, now)
       case Ok(p) => p.0
       case NotFound => s)
    case DeleteOp(id) =>
      (match Delete(s, id)
       case Ok(p) => p.0
       case NotFound => s)
  }

  function Run<F>(s: Store<F>, ops: seq<Op<F>>): Store<F>
    decreases |ops|
  {
    if |ops| == 0 then s else Run(Apply(s, ops[0]), ops[1..])
  }

  /** While no delete happens, ids follow positions, so they stay unique. */
  lemma {:induction false} NoDeleteKeepsSequentialIds<F>(s: Store<F>, ops: seq<Op<F>>)
    requires SequentialIds(s)
    requires forall k :: 0 <= k < |ops| ==> !ops[k].DeleteOp?
    ensures SequentialIds(Run(s, ops))
    ensures UniqueIds(Run(s, ops))
    decreases |ops|
  {
    if |ops| == 0 {
      SequentialIdsAreUnique(s);
    } else {
      var next := Apply(s, ops[0]);
      assert SequentialIds(next);
      assert forall k :: 0 <= k < |ops[1..]| ==> ops[1..][k] == ops[k + 1];
      NoDeleteKeepsSequentialIds(next, ops[1..]);
    }
  }
}

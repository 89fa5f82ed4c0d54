/** The initial synchronisation of one type: Delta.run merges the stream of the database with that of Redis, and
    ApplyDelta writes the difference. */
module Delta {
  import opened Wrappers

  type Id = nat

  /** body stands for all columns but the checksum. */
  datatype Entity = Entity(id: Id, checksum: nat, body: nat)

  type Entities = map<Id, Entity>

  /** What the entities of a type can be compared by, if at all. */
  datatype Subject = WithChecksum | WithEqual | Incomparable

  /** entitiesEqual. */
  predicate EntitiesEqual(subject: Subject, a: Entity, b: Entity)
    requires !subject.Incomparable?
  {
    if subject.WithChecksum? then a.checksum == b.checksum else a.body == b.body
  }

  ghost predicate NoDuplicates(s: seq<Entity>) {
    forall i, j :: 0 <= i < j < |s| ==> s[i].id != s[j].id
  }

  /** The content of a stream. */
  function ById(s: seq<Entity>): Entities {
    if s == [] then map[] else ById(s[..|s| - 1])[s[|s| - 1].id := s[|s| - 1]]
  }

  lemma {:induction false} ByIdKeys(s: seq<Entity>)
    ensures forall id :: id in ById(s) <==> exists i :: 0 <= i < |s| && s[i].id == id
  {
    if s != [] {
      ByIdKeys(s[..|s| - 1]);
    }
  }

  /** ById does not depend on the order of a stream without duplicates. */
  lemma {:induction false} ByIdAt(s: seq<Entity>, i: nat)
    requires NoDuplicates(s) && i < |s|
    ensures s[i].id in ById(s) && ById(s)[s[i].id] == s[i]
  {
    if i < |s| - 1 {
      ByIdAt(s[..|s| - 1], i);
    }
  }

  lemma ByIdSnoc(s: seq<Entity>, k: nat)
    requires NoDuplicates(s) && k < |s|
    ensures ById(s[..k + 1]) == ById(s[..k])[s[k].id := s[k]]
    ensures s[k].id !in ById(s[..k])
  {
    assert s[..k + 1][..k] == s[..k];
    ByIdKeys(s[..k]);
  }

  /* ---------- What a delta is ---------- */

  function Create(actual: Entities, desired: Entities): Entities {
    desired - actual.Keys
  }

  function Delete(actual: Entities, desired: Entities): Entities {
    actual - desired.Keys
  }

  predicate Differ(subject: Subject, actual: Entities, desired: Entities, id: Id) {
    && !subject.Incomparable? && id in actual && id in desired
    && !EntitiesEqual(subject, actual[id], desired[id])
  }

  function Update(subject: Subject, actual: Entities, desired: Entities): Entities {
    map id <- desired | Differ(subject, actual, desired, id) :: desired[id]
  }

  ghost predicate HasId(s: seq<Entity>, id: Id) {
    exists i :: 0 <= i < |s| && s[i].id == id
  }

  /** What is compared of an actual and a desired entity with the same ID is the same. */
  predicate IsKept(subject: Subject, a: Entity, d: Entity) {
    match subject
    case WithChecksum => a.checksum == d.checksum
    case WithEqual => a.body == d.body
    case Incomparable => true
  }

  /** What is in the delta of two streams comes from them. */
  lemma DeltaIsOfStreams(subject: Subject, actualCh: seq<Entity>, desiredCh: seq<Entity>, id: Id)
    ensures
      var actual, desired := ById(actualCh), ById(desiredCh);
      && (id in Create(actual, desired) <==> HasId(desiredCh, id) && !HasId(actualCh, id))
      && (id in Delete(actual, desired) <==> HasId(actualCh, id) && !HasId(desiredCh, id))
      && (id in Update(subject, actual, desired) ==> HasId(actualCh, id) && HasId(desiredCh, id))
      && (id in desired <==> HasId(desiredCh, id))
  {
    ByIdKeys(actualCh);
    ByIdKeys(desiredCh);
  }

  /** What is created and updated are the entities of Redis, and what is deleted are those of the database. */
  lemma DeltaHasEntities(subject: Subject, actualCh: seq<Entity>, desiredCh: seq<Entity>, k: nat)
    requires NoDuplicates(actualCh) && NoDuplicates(desiredCh)
    ensures
      var actual, desired := ById(actualCh), ById(desiredCh);
      && (k < |desiredCh| && desiredCh[k].id in Create(actual, desired) ==>
            Create(actual, desired)[desiredCh[k].id] == desiredCh[k])
      && (k < |desiredCh| && desiredCh[k].id in Update(subject, actual, desired) ==>
            Update(subject, actual, desired)[desiredCh[k].id] == desiredCh[k])
      && (k < |actualCh| && actualCh[k].id in Delete(actual, desired) ==>
            Delete(actual, desired)[actualCh[k].id] == actualCh[k])
  {
    if k < |desiredCh| {
      ByIdAt(desiredCh, k);
    }
    if k < |actualCh| {
      ByIdAt(actualCh, k);
    }
  }

  /** An entity of both streams is updated exactly if the checksums differ, or what Equal compares. */
  lemma UpdatedIffChanged(subject: Subject, actualCh: seq<Entity>, desiredCh: seq<Entity>, i: nat, j: nat)
    requires NoDuplicates(actualCh) && NoDuplicates(desiredCh)
    requires i < |actualCh| && j < |desiredCh| && actualCh[i].id == desiredCh[j].id
    ensures
      desiredCh[j].id in Update(subject, ById(actualCh), ById(desiredCh)) <==>
      match subject
      case WithChecksum => actualCh[i].checksum != desiredCh[j].checksum
      case WithEqual => actualCh[i].body != desiredCh[j].body
      case Incomparable => false
  {
    ByIdAt(actualCh, i);
    ByIdAt(desiredCh, j);
  }

  /** What run knows after it has read some of both streams. */
  ghost predicate Merged(
    subject: Subject, readActual: Entities, readDesired: Entities, actual: Entities, desired: Entities,
    update: Option<Entities>, snapshot: set<Id>)
  {
    && actual == Delete(readActual, readDesired)
    && desired == Create(readActual, readDesired)
    && update == (if subject.Incomparable? then None else Some(Update(subject, readActual, readDesired)))
    && snapshot == readDesired.Keys
  }

  function Unequal(
    subject: Subject, update: Option<Entities>, id: Id, actual: Entity, desired: Entity): Option<Entities>
    requires update.Some? ==> !subject.Incomparable?
  {
    if update.Some? && !EntitiesEqual(subject, actual, desired) then Some(update.value[id := desired])
    else update
  }

  lemma UpdateAt(
    subject: Subject, actual: Entities, desired: Entities, actual': Entities, desired': Entities, id: Id)
    requires actual' - {id} == actual - {id} && desired' - {id} == desired - {id}
    requires id !in actual || id !in desired
    ensures Update(subject, actual', desired')
      == if Differ(subject, actual', desired', id) then Update(subject, actual, desired)[id := desired'[id]]
         else Update(subject, actual, desired)
  {
    forall x | x != id
      ensures x in actual' <==> x in actual
      ensures x in actual ==> actual'[x] == actual[x]
      ensures x in desired' <==> x in desired
      ensures x in desired ==> desired'[x] == desired[x]
    {
      assert x in actual' <==> x in actual' - {id};
      assert x in actual <==> x in actual - {id};
      assert x in actual ==> actual[x] == (actual - {id})[x] && actual'[x] == (actual' - {id})[x];
      assert x in desired' <==> x in desired' - {id};
      assert x in desired <==> x in desired - {id};
      assert x in desired ==> desired[x] == (desired - {id})[x] && desired'[x] == (desired' - {id})[x];
    }
  }

  lemma MergeActual(
    subject: Subject, readActual: Entities, readDesired: Entities, actual: Entities, desired: Entities,
    update: Option<Entities>, snapshot: set<Id>, e: Entity)
    requires Merged(subject, readActual, readDesired, actual, desired, update, snapshot) && e.id !in readActual
    ensures
      if e.id in desired then
        Merged(subject, readActual[e.id := e], readDesired, actual, desired - {e.id},
               Unequal(subject, update, e.id, e, desired[e.id]), snapshot)
      else Merged(subject, readActual[e.id := e], readDesired, actual[e.id := e], desired, update, snapshot)
  {
    UpdateAt(subject, readActual, readDesired, readActual[e.id := e], readDesired, e.id);
  }

  lemma MergeDesired(
    subject: Subject, readActual: Entities, readDesired: Entities, actual: Entities, desired: Entities,
    update: Option<Entities>, snapshot: set<Id>, e: Entity)
    requires Merged(subject, readActual, readDesired, actual, desired, update, snapshot) && e.id !in readDesired
    ensures
      if e.id in actual then
        Merged(subject, readActual, readDesired[e.id := e], actual - {e.id}, desired,
               Unequal(subject, update, e.id, actual[e.id], e), snapshot + {e.id})
      else Merged(subject, readActual, readDesired[e.id := e], actual, desired[e.id := e], update, snapshot + {e.id})
  {
    UpdateAt(subject, readActual, readDesired, readActual, readDesired[e.id := e], e.id);
  }

  datatype Case = FromActual | FromDesired | ContextDone

  datatype Error = Cancelled

  class Delta {
    const subject: Subject
    var redisSnapshot: set<Id>
    var create: Entities
    var update: Option<Entities>
    var delete: Entities

    constructor (subject: Subject)
      ensures this.subject == subject && redisSnapshot == {} && create == map[] && update == None && delete == map[]
    {
      this.subject := subject;
      redisSnapshot, create, update, delete := {}, map[], None, map[];
    }

    /** Reads both streams until they end, in the order in which select takes from them. A closed stream is not taken
        from again. */
    method Run(actualCh: seq<Entity>, desiredCh: seq<Entity>, select: nat -> Case) returns (done: Result<(), Error>)
      requires NoDuplicates(actualCh) && NoDuplicates(desiredCh)
      requires redisSnapshot == {}
      modifies this
      ensures done.Success? ==>
        && create == Create(ById(actualCh), ById(desiredCh))
        && delete == Delete(ById(actualCh), ById(desiredCh))
        && update == (if subject.Incomparable? then None
                      else Some(Update(subject, ById(actualCh), ById(desiredCh))))
        && redisSnapshot == ById(desiredCh).Keys
      ensures done.Failure? ==> create == old(create) && update == old(update) && delete == old(delete)
      ensures (forall k :: !select(k).ContextDone?) ==> done.Success?
    {
      var actual: Entities, desired: Entities := map[], map[];
      var updates: Option<Entities> := if subject.Incomparable? then None else Some(map[]);
      var i: nat, j: nat, k: nat := 0, 0, 0;
      var actualOpen, desiredOpen := true, true;
      while actualOpen || desiredOpen
        modifies this`redisSnapshot
        invariant i <= |actualCh| && j <= |desiredCh|
        invariant !actualOpen ==> i == |actualCh|
        invariant !desiredOpen ==> j == |desiredCh|
        invariant Merged(subject, ById(actualCh[..i]), ById(desiredCh[..j]), actual, desired, updates, redisSnapshot)
        decreases |actualCh| - i + |desiredCh| - j, actualOpen, desiredOpen
      {
        var c := select(k);
        k := k + 1;
        if c.ContextDone? {
          return Failure(Cancelled);
        } else if actualOpen && (c.FromActual? || !desiredOpen) {
          if i == |actualCh| {
            actualOpen := false;
          } else {
            var value := actualCh[i];
            ByIdSnoc(actualCh, i);
            MergeActual(
              subject, ById(actualCh[..i]), ById(desiredCh[..j]), actual, desired, updates, redisSnapshot, value);
            if value.id in desired {
              updates := Unequal(subject, updates, value.id, value, desired[value.id]);
              desired := desired - {value.id};
            } else {
              actual := actual[value.id := value];
            }
            i := i + 1;
          }
        } else {
          if j == |desiredCh| {
            desiredOpen := false;
          } else {
            var value := desiredCh[j];
            ByIdSnoc(desiredCh, j);
            MergeDesired(
              subject, ById(actualCh[..i]), ById(desiredCh[..j]), actual, desired, updates, redisSnapshot, value);
            redisSnapshot := redisSnapshot + {value.id};
            if value.id in actual {
              updates := Unequal(subject, updates, value.id, actual[value.id], value);
              actual := actual - {value.id};
            } else {
              desired := desired[value.id := value];
            }
            j := j + 1;
          }
        }
      }
      assert actualCh[..i] == actualCh && desiredCh[..j] == desiredCh;
      create, update, delete := desired, updates, actual;
      return Success(());
    }
  }

  /* ---------- Applying a delta ---------- */

  /** What one of the three writers does to one row. */
  datatype Op = Insert(id: Id, e: Entity) | Upsert(id: Id, e: Entity) | Remove(id: Id)

  /** None if an INSERT meets an existing row. */
  function Apply(rows: Entities, op: Op): Option<Entities> {
    match op
    case Insert(id, e) => if id in rows then None else Some(rows[id := e])
    case Upsert(id, e) => Some(rows[id := e])
    case Remove(id) => Some(rows - {id})
  }

  function ApplyAll(rows: Entities, ops: seq<Op>): Option<Entities> {
    if ops == [] then Some(rows)
    else
      match ApplyAll(rows, ops[..|ops| - 1])
      case None => None
      case Some(before) => Apply(before, ops[|ops| - 1])
  }

  /** The writer that op belongs to. */
  predicate IsOp(subject: Subject, actual: Entities, desired: Entities, op: Op) {
    match op
    case Insert(id, e) => id in Create(actual, desired) && desired[id] == e
    case Upsert(id, e) => id in Update(subject, actual, desired) && desired[id] == e
    case Remove(id) => id in Delete(actual, desired)
  }

  ghost predicate Touched(ops: seq<Op>, id: Id) {
    exists k :: 0 <= k < |ops| && ops[k].id == id
  }

  /** Some operations of the three writers, in any order and with any repetition but of an INSERT. */
  ghost predicate ArePartOf(subject: Subject, actual: Entities, desired: Entities, ops: seq<Op>) {
    && (forall k :: 0 <= k < |ops| ==> IsOp(subject, actual, desired, ops[k]))
    && (forall i, k :: 0 <= i < k < |ops| && ops[i].Insert? ==> ops[i] != ops[k])
  }

  /** All of them. */
  ghost predicate AreAll(subject: Subject, actual: Entities, desired: Entities, ops: seq<Op>) {
    && ArePartOf(subject, actual, desired, ops)
    && (forall id <- Create(actual, desired) :: Touched(ops, id))
    && (forall id <- Update(subject, actual, desired) :: Touched(ops, id))
    && (forall id <- Delete(actual, desired) :: Touched(ops, id))
  }

  /** The row that should have id in the end, if any. */
  function Target(subject: Subject, actual: Entities, desired: Entities, id: Id): Option<Entity> {
    if id !in desired then None
    else if id !in actual || Differ(subject, actual, desired, id) then Some(desired[id])
    else Some(actual[id])
  }

  function Row(rows: Entities, id: Id): Option<Entity> {
    if id in rows then Some(rows[id]) else None
  }

  lemma InsertedOnce(subject: Subject, actual: Entities, desired: Entities, ops: seq<Op>)
    requires ArePartOf(subject, actual, desired, ops) && ops != [] && ops[|ops| - 1].Insert?
    ensures !Touched(ops[..|ops| - 1], ops[|ops| - 1].id)
  {
    var n := |ops| - 1;
    assert IsOp(subject, actual, desired, ops[n]);
    forall k | 0 <= k < n ensures ops[..n][k].id != ops[n].id {
      assert IsOp(subject, actual, desired, ops[k]);
    }
  }

  /** The three sets are disjoint: rows that were touched are as they should be, others are as they were. */
  lemma {:induction false} PartiallyApplied(subject: Subject, actual: Entities, desired: Entities, ops: seq<Op>)
    requires ArePartOf(subject, actual, desired, ops)
    ensures
      var rows := ApplyAll(actual, ops);
      && rows.Some?
      && forall id :: Row(rows.value, id)
           == if Touched(ops, id) then Target(subject, actual, desired, id) else Row(actual, id)
  {
    if ops != [] {
      var n := |ops| - 1;
      PartiallyApplied(subject, actual, desired, ops[..n]);
      var before := ApplyAll(actual, ops[..n]).value;
      var op := ops[n];
      assert IsOp(subject, actual, desired, op);
      forall id ensures Touched(ops, id) <==> Touched(ops[..n], id) || op.id == id {
        if op.id == id {
          assert ops[n].id == id;
        }
        if Touched(ops[..n], id) {
          var k :| 0 <= k < n && ops[..n][k].id == id;
          assert ops[k].id == id;
        }
        if k :| 0 <= k < |ops| && ops[k].id == id && k != n {
          assert ops[..n][k].id == id;
        }
      }
      if op.Insert? {
        InsertedOnce(subject, actual, desired, ops);
      }
      assert Row(before, op.id)
        == if Touched(ops[..n], op.id) then Target(subject, actual, desired, op.id) else Row(actual, op.id);
      var rows := ApplyAll(actual, ops);
      forall id ensures Row(rows.value, id)
        == if Touched(ops, id) then Target(subject, actual, desired, id) else Row(actual, id)
      {
        assert Row(before, id)
          == if Touched(ops[..n], id) then Target(subject, actual, desired, id) else Row(actual, id);
      }
    }
  }

  /** The rows after a complete ApplyDelta. */
  function Repaired(subject: Subject, actual: Entities, desired: Entities): (r: Entities)
    ensures r.Keys == desired.Keys
  {
    map id <- desired :: Target(subject, actual, desired, id).value
  }

  /** Whatever the order in which the three writers get their work done, no INSERT meets an existing row and the outcome
      is the same. */
  lemma AnyOrderRepairs(subject: Subject, actual: Entities, desired: Entities, ops: seq<Op>)
    requires AreAll(subject, actual, desired, ops)
    ensures ApplyAll(actual, ops) == Some(Repaired(subject, actual, desired))
  {
    PartiallyApplied(subject, actual, desired, ops);
    var rows, repaired := ApplyAll(actual, ops).value, Repaired(subject, actual, desired);
    forall id ensures Row(rows, id) == Row(repaired, id) {
      assert Row(rows, id) == if Touched(ops, id) then Target(subject, actual, desired, id) else Row(actual, id);
      if !Touched(ops, id) {
        assert id !in Create(actual, desired) && id !in Delete(actual, desired);
        assert id !in Update(subject, actual, desired);
      }
    }
    RowsEqual(rows, repaired);
  }

  lemma RowsEqual(a: Entities, b: Entities)
    requires forall id :: Row(a, id) == Row(b, id)
    ensures a == b
  {
    forall id ensures id in a <==> id in b {
      assert Row(a, id) == Row(b, id);
    }
    forall id | id in a ensures a[id] == b[id] {
      assert Row(a, id) == Row(b, id);
    }
  }

  /** The table then has the IDs of the snapshot. A row stays as it was exactly if what is compared of it is the same in
      the snapshot; all others are those of the snapshot. */
  lemma RepairedEqualsSnapshot(subject: Subject, actual: Entities, desired: Entities, id: Id)
    ensures
      var r := Repaired(subject, actual, desired);
      && (id in r <==> id in desired)
      && (id in desired && id !in actual ==> r[id] == desired[id])
      && (id in desired && id in actual ==>
            match subject
            case WithChecksum =>
              && r[id].checksum == desired[id].checksum
              && r[id] == if actual[id].checksum == desired[id].checksum then actual[id] else desired[id]
            case WithEqual =>
              && r[id].body == desired[id].body
              && r[id] == if actual[id].body == desired[id].body then actual[id] else desired[id]
            case Incomparable => r[id] == actual[id])
  {
  }

  /** If a row is not the desired one, what is compared tells. */
  predicate IsTold(subject: Subject, a: Entity, d: Entity) {
    match subject
    case WithChecksum => a.checksum == d.checksum ==> a == d
    case WithEqual => a.body == d.body ==> a == d
    case Incomparable => a == d
  }

  /** The table is the snapshot exactly if the rows that differ from it also differ in their checksums, or in what Equal
      compares. */
  lemma RepairedIsSnapshot(subject: Subject, actual: Entities, desired: Entities)
    ensures
      Repaired(subject, actual, desired) == desired
      <==> forall id <- actual.Keys * desired.Keys :: IsTold(subject, actual[id], desired[id])
  {
    var r := Repaired(subject, actual, desired);
    forall id <- actual.Keys * desired.Keys ensures r[id] == desired[id] <==> IsTold(subject, actual[id], desired[id]) {
      RepairedEqualsSnapshot(subject, actual, desired, id);
    }
    if forall id <- actual.Keys * desired.Keys :: IsTold(subject, actual[id], desired[id]) {
      forall id | id in desired ensures r[id] == desired[id] {
        RepairedEqualsSnapshot(subject, actual, desired, id);
      }
    }
  }

  /** A second delta is empty. */
  lemma SecondDeltaIsEmpty(subject: Subject, actual: Entities, desired: Entities)
    ensures
      var r := Repaired(subject, actual, desired);
      && Create(r, desired) == map[]
      && Delete(r, desired) == map[]
      && Update(subject, r, desired) == map[]
  {
    var r := Repaired(subject, actual, desired);
    forall id | id in desired ensures !Differ(subject, r, desired, id) {
      RepairedEqualsSnapshot(subject, actual, desired, id);
    }
  }

  /** What the three writers have not done yet. */
  datatype Work = Work(creates: Entities, updates: Entities, deletes: Entities) {
    function Size(): nat {
      |creates| + |updates| + |deletes|
    }

    predicate IsNext(op: Op) {
      match op
      case Insert(id, e) => id in creates && creates[id] == e
      case Upsert(id, e) => id in updates && updates[id] == e
      case Remove(id) => id in deletes
    }

    function Without(op: Op): Work {
      match op
      case Insert(id, _) => this.(creates := creates - {id})
      case Upsert(id, _) => this.(updates := updates - {id})
      case Remove(id) => this.(deletes := deletes - {id})
    }

    lemma Smaller(op: Op)
      requires IsNext(op)
      ensures Without(op).Size() < Size()
    {
      var m := match op
        case Insert(_, _) => creates
        case Upsert(_, _) => updates
        case Remove(_) => deletes;
      assert (m - {op.id}).Keys == m.Keys - {op.id};
      assert |(m - {op.id}).Keys| == |m - {op.id}| && |m.Keys| == |m|;
    }
  }

  /** ops are some of the operations, and work is what is left. */
  ghost predicate Remaining(subject: Subject, actual: Entities, desired: Entities, ops: seq<Op>, work: Work) {
    && ArePartOf(subject, actual, desired, ops)
    && (forall id :: Row(work.creates, id) == if Touched(ops, id) then None else Row(Create(actual, desired), id))
    && (forall id ::
          Row(work.updates, id) == if Touched(ops, id) then None else Row(Update(subject, actual, desired), id))
    && (forall id :: Row(work.deletes, id) == if Touched(ops, id) then None else Row(Delete(actual, desired), id))
  }

  lemma TouchedSnoc(ops: seq<Op>, op: Op, id: Id)
    ensures Touched(ops + [op], id) <==> Touched(ops, id) || op.id == id
  {
    if op.id == id {
      assert (ops + [op])[|ops|].id == id;
    }
    if Touched(ops, id) {
      var k :| 0 <= k < |ops| && ops[k].id == id;
      assert (ops + [op])[k].id == id;
    }
  }

  lemma NextIsNew(subject: Subject, actual: Entities, desired: Entities, ops: seq<Op>, work: Work, op: Op)
    requires Remaining(subject, actual, desired, ops, work) && work.IsNext(op)
    ensures IsOp(subject, actual, desired, op) && !Touched(ops, op.id)
    ensures ArePartOf(subject, actual, desired, ops + [op])
  {
    assert Row(work.creates, op.id) == if Touched(ops, op.id) then None else Row(Create(actual, desired), op.id);
    assert Row(work.updates, op.id)
      == if Touched(ops, op.id) then None else Row(Update(subject, actual, desired), op.id);
    assert Row(work.deletes, op.id) == if Touched(ops, op.id) then None else Row(Delete(actual, desired), op.id);
  }

  lemma OneLess(subject: Subject, actual: Entities, desired: Entities, ops: seq<Op>, work: Work, op: Op)
    requires Remaining(subject, actual, desired, ops, work) && work.IsNext(op)
    requires IsOp(subject, actual, desired, op) && ArePartOf(subject, actual, desired, ops + [op])
    ensures Remaining(subject, actual, desired, ops + [op], work.Without(op))
  {
    forall id ensures Touched(ops + [op], id) <==> Touched(ops, id) || op.id == id {
      TouchedSnoc(ops, op, id);
    }
  }

  lemma OneMore(subject: Subject, actual: Entities, desired: Entities, ops: seq<Op>, work: Work, op: Op)
    requires Remaining(subject, actual, desired, ops, work) && work.IsNext(op)
    ensures Remaining(subject, actual, desired, ops + [op], work.Without(op))
    ensures ApplyAll(actual, ops).Some? && ApplyAll(actual, ops + [op]) == Apply(ApplyAll(actual, ops).value, op)
    ensures ApplyAll(actual, ops + [op]).Some?
  {
    var longer := ops + [op];
    assert longer[..|ops|] == ops;
    NextIsNew(subject, actual, desired, ops, work, op);
    OneLess(subject, actual, desired, ops, work, op);
    PartiallyApplied(subject, actual, desired, longer);
  }

  lemma AllRemains(subject: Subject, actual: Entities, desired: Entities)
    ensures Remaining(
      subject, actual, desired, [],
      Work(Create(actual, desired), Update(subject, actual, desired), Delete(actual, desired)))
    ensures subject.Incomparable? ==> Update(subject, actual, desired) == map[]
  {
  }

  lemma NothingRemains(subject: Subject, actual: Entities, desired: Entities, ops: seq<Op>)
    requires Remaining(subject, actual, desired, ops, Work(map[], map[], map[]))
    ensures AreAll(subject, actual, desired, ops)
  {
    forall id | id in Create(actual, desired) ensures Touched(ops, id) {
      assert Row(map[], id) == if Touched(ops, id) then None else Row(Create(actual, desired), id);
    }
    forall id | id in Update(subject, actual, desired) ensures Touched(ops, id) {
      assert Row(map[], id) == if Touched(ops, id) then None else Row(Update(subject, actual, desired), id);
    }
    forall id | id in Delete(actual, desired) ensures Touched(ops, id) {
      assert Row(map[], id) == if Touched(ops, id) then None else Row(Delete(actual, desired), id);
    }
  }

  lemma AllDone(subject: Subject, actual: Entities, desired: Entities, ops: seq<Op>)
    requires Remaining(subject, actual, desired, ops, Work(map[], map[], map[]))
    ensures ApplyAll(actual, ops) == Some(Repaired(subject, actual, desired))
  {
    NothingRemains(subject, actual, desired, ops);
    AnyOrderRepairs(subject, actual, desired, ops);
  }

  /** Whose turn it is, and with which of its entities. */
  method NextOp(work: Work, turn: nat) returns (op: Op)
    requires work != Work(map[], map[], map[])
    ensures work.IsNext(op)
  {
    if work.creates != map[] && (turn % 3 == 0 || (work.updates == map[] && work.deletes == map[])) {
      var id :| id in work.creates;
      op := Insert(id, work.creates[id]);
    } else if work.updates != map[] && (turn % 3 == 1 || work.deletes == map[]) {
      var id :| id in work.updates;
      op := Upsert(id, work.updates[id]);
    } else {
      var id :| id in work.deletes;
      op := Remove(id);
    }
  }

  class Table {
    var rows: Entities

    /** The three writers, in an arbitrary interleaving: pick says whose turn it is. Each takes its entities in an
        arbitrary order. */
    method ApplyDelta(delta: Delta, desired: Entities, pick: nat -> nat)
      requires delta.create == Create(rows, desired) && delta.delete == Delete(rows, desired)
      requires delta.update
        == if delta.subject.Incomparable? then None else Some(Update(delta.subject, rows, desired))
      modifies this
      ensures rows == Repaired(delta.subject, old(rows), desired)
    {
      var work := Work(delta.create, if delta.update.Some? then delta.update.value else map[], delta.delete);
      ghost var actual, ops: seq<Op> := rows, [];
      var k: nat := 0;
      AllRemains(delta.subject, actual, desired);
      while work != Work(map[], map[], map[])
        invariant Remaining(delta.subject, actual, desired, ops, work)
        invariant ApplyAll(actual, ops) == Some(rows)
        decreases work.Size()
      {
        var op := NextOp(work, pick(k));
        k := k + 1;
        OneMore(delta.subject, actual, desired, ops, work, op);
        work.Smaller(op);
        ops := ops + [op];
        rows, work := Apply(rows, op).value, work.Without(op);
      }
      AllDone(delta.subject, actual, desired, ops);
    }
  }

  /** The table after a synchronisation, row by row. */
  ghost predicate IsSynced(subject: Subject, before: Entities, desiredCh: seq<Entity>, after: Entities) {
    && (forall id <- after :: HasId(desiredCh, id))
    && forall j :: 0 <= j < |desiredCh| ==>
      var d := desiredCh[j];
      && d.id in after
      && after[d.id] == if d.id in before && IsKept(subject, before[d.id], d) then before[d.id] else d
  }

  lemma SyncedOfStream(subject: Subject, before: Entities, desiredCh: seq<Entity>)
    requires NoDuplicates(desiredCh)
    ensures IsSynced(subject, before, desiredCh, Repaired(subject, before, ById(desiredCh)))
  {
    ByIdKeys(desiredCh);
    forall j | 0 <= j < |desiredCh|
      ensures desiredCh[j].id in ById(desiredCh) && ById(desiredCh)[desiredCh[j].id] == desiredCh[j]
    {
      ByIdAt(desiredCh, j);
    }
    forall id ensures id in before && id in ById(desiredCh) ==>
      Repaired(subject, before, ById(desiredCh))[id]
      == if IsKept(subject, before[id], ById(desiredCh)[id]) then before[id] else ById(desiredCh)[id]
    {
      RepairedEqualsSnapshot(subject, before, ById(desiredCh), id);
    }
  }

  /** The synchronisation of one type: the streams, whatever their interleaving, then the writers, whatever theirs. */
  method Sync(
    table: Table, subject: Subject, actualCh: seq<Entity>, desiredCh: seq<Entity>, select: nat -> Case,
    pick: nat -> nat)
    returns (done: Result<(), Error>)
    requires NoDuplicates(actualCh) && NoDuplicates(desiredCh) && ById(actualCh) == table.rows
    modifies table
    ensures done.Success? ==> table.rows == Repaired(subject, old(table.rows), ById(desiredCh))
    ensures done.Success? ==> IsSynced(subject, old(table.rows), desiredCh, table.rows)
    ensures done.Failure? ==> table.rows == old(table.rows)
    ensures (forall k :: !select(k).ContextDone?) ==> done.Success?
  {
    var delta := new Delta(subject);
    done := delta.Run(actualCh, desiredCh, select);
    if done.Success? {
      table.ApplyDelta(delta, ById(desiredCh), pick);
      SyncedOfStream(subject, old(table.rows), desiredCh);
    }
  }
}

/** migrateOneType: writing converted pages and a progress row so that a killed migration can be resumed. */
module Migration {
  import opened Wrappers
  import opened Paging

  /** A table's primary key. */
  type Key = nat

  /** A row: the columns that an upsert overwrites, and the others. */
  datatype Record = Record(fixed: int, upsertable: int)

  /** One statement's effect on one row: INSERT IGNORE, or INSERT ... ON DUPLICATE KEY UPDATE. */
  datatype Op = Op(isUpsert: bool, key: Key, record: Record)

  type Table = map<Key, Record>

  function Written(old': Option<Record>, op: Op): Record {
    match old'
    case None => op.record
    case Some(r) => if op.isUpsert then Record(r.fixed, op.record.upsertable) else r
  }

  function Get(t: Table, k: Key): Option<Record> {
    if k in t then Some(t[k]) else None
  }

  function Apply(t: Table, op: Op): Table {
    t[op.key := Written(Get(t, op.key), op)]
  }

  function ApplyAll(t: Table, ops: seq<Op>): Table {
    if ops == [] then t else Apply(ApplyAll(t, ops[..|ops| - 1]), ops[|ops| - 1])
  }

  /* ---------- What some statements do to a row ---------- */

  function First(ops: seq<Op>, k: Key): Option<Op> {
    if ops == [] then None else if ops[0].key == k then Some(ops[0]) else First(ops[1..], k)
  }

  function LastUpsert(ops: seq<Op>, k: Key): Option<Op> {
    if ops == [] then None
    else if ops[|ops| - 1].key == k && ops[|ops| - 1].isUpsert then Some(ops[|ops| - 1])
    else LastUpsert(ops[..|ops| - 1], k)
  }

  /** The row with key k after some statements: its fixed columns are those it was created with, the others those of
      the last upsert. */
  function Outcome(old': Option<Record>, ops: seq<Op>, k: Key): Option<Record> {
    match First(ops, k)
    case None => old'
    case Some(first) =>
      var created := if old'.Some? then old'.value else first.record;
      match LastUpsert(ops, k)
      case None => Some(created)
      case Some(last) => Some(Record(created.fixed, last.record.upsertable))
  }

  lemma {:induction false} FirstSnoc(ops: seq<Op>, op: Op, k: Key)
    ensures First(ops + [op], k) == if First(ops, k).Some? then First(ops, k) else First([op], k)
  {
    if ops == [] {
      assert ops + [op] == [op];
    } else {
      assert (ops + [op])[1..] == ops[1..] + [op];
      FirstSnoc(ops[1..], op, k);
    }
  }

  lemma {:induction false} NoFirstNoUpsert(ops: seq<Op>, k: Key)
    requires First(ops, k).None?
    ensures LastUpsert(ops, k).None?
  {
    if ops != [] {
      var n := |ops| - 1;
      assert ops == ops[..n] + [ops[n]];
      FirstSnoc(ops[..n], ops[n], k);
      NoFirstNoUpsert(ops[..n], k);
    }
  }

  lemma {:induction false} ApplyAllOutcome(t: Table, ops: seq<Op>, k: Key)
    ensures Get(ApplyAll(t, ops), k) == Outcome(Get(t, k), ops, k)
  {
    if ops != [] {
      var n := |ops| - 1;
      var init, op := ops[..n], ops[n];
      assert ops == init + [op];
      ApplyAllOutcome(t, init, k);
      FirstSnoc(init, op, k);
      if First(init, k).None? {
        NoFirstNoUpsert(init, k);
      }
    }
  }

  lemma {:induction false} FirstAppend(a: seq<Op>, b: seq<Op>, k: Key)
    ensures First(a + b, k) == if First(a, k).Some? then First(a, k) else First(b, k)
  {
    if a == [] {
      assert a + b == b;
    } else {
      assert (a + b)[1..] == a[1..] + b;
      FirstAppend(a[1..], b, k);
    }
  }

  lemma {:induction false} LastUpsertAppend(a: seq<Op>, b: seq<Op>, k: Key)
    ensures LastUpsert(a + b, k) == if LastUpsert(b, k).Some? then LastUpsert(b, k) else LastUpsert(a, k)
    decreases |b|
  {
    if b == [] {
      assert a + b == a;
    } else {
      assert (a + b)[..|a + b| - 1] == a + b[..|b| - 1];
      LastUpsertAppend(a, b[..|b| - 1], k);
    }
  }

  lemma {:induction false} FirstIsIn(ops: seq<Op>, k: Key)
    ensures First(ops, k).Some? ==> First(ops, k).value in ops && First(ops, k).value.key == k
    ensures First(ops, k).None? ==> forall op <- ops :: op.key != k
  {
    if ops != [] {
      FirstIsIn(ops[1..], k);
      assert forall op <- ops :: op == ops[0] || op in ops[1..];
    }
  }

  lemma {:induction false} LastUpsertIsIn(ops: seq<Op>, k: Key)
    ensures LastUpsert(ops, k).Some? ==>
      LastUpsert(ops, k).value in ops && LastUpsert(ops, k).value.key == k && LastUpsert(ops, k).value.isUpsert
    ensures LastUpsert(ops, k).None? ==> forall op <- ops :: op.key == k ==> !op.isUpsert
  {
    if ops != [] {
      LastUpsertIsIn(ops[..|ops| - 1], k);
      assert forall op <- ops :: op == ops[|ops| - 1] || op in ops[..|ops| - 1];
    }
  }

  lemma TablesEqual(a: Table, b: Table)
    requires forall k :: Get(a, k) == Get(b, k)
    ensures a == b
  {
    forall k ensures k in a <==> k in b {
      assert Get(a, k) == Get(b, k);
    }
    forall k | k in a ensures a[k] == b[k] {
      assert Get(a, k) == Get(b, k);
    }
  }

  /* ---------- Batches ---------- */

  /** Statements for the same row are the same. A batch is what one call of the streaming functions writes: in bulks
      that run next to each other, and again if they fail, so in any order and with any repetition. */
  ghost predicate Consistent(batch: seq<Op>) {
    forall i, j :: 0 <= i < j < |batch| && batch[i].key == batch[j].key ==> batch[i] == batch[j]
  }

  /** Some of the statements, in any order and with any repetition. */
  ghost predicate IsSelection(s: seq<Op>, batch: seq<Op>) {
    forall op <- s :: op in batch
  }

  /** All of them. */
  ghost predicate IsExecution(s: seq<Op>, batch: seq<Op>) {
    IsSelection(s, batch) && forall op <- batch :: op in s
  }

  lemma SameStatement(batch: seq<Op>, a: Op, b: Op)
    requires Consistent(batch) && a in batch && b in batch && a.key == b.key
    ensures a == b
  {
    var i :| 0 <= i < |batch| && batch[i] == a;
    var j :| 0 <= j < |batch| && batch[j] == b;
  }

  lemma SelectionFirst(s: seq<Op>, batch: seq<Op>, k: Key)
    requires Consistent(batch) && IsSelection(s, batch)
    ensures First(s, k).Some? ==> First(batch, k) == First(s, k)
  {
    FirstIsIn(s, k);
    FirstIsIn(batch, k);
    if First(s, k).Some? {
      SameStatement(batch, First(s, k).value, First(batch, k).value);
    }
  }

  lemma SelectionLastUpsert(s: seq<Op>, batch: seq<Op>, k: Key)
    requires Consistent(batch) && IsSelection(s, batch)
    ensures LastUpsert(s, k).Some? ==> LastUpsert(batch, k) == LastUpsert(s, k)
  {
    LastUpsertIsIn(s, k);
    LastUpsertIsIn(batch, k);
    if LastUpsert(s, k).Some? {
      SameStatement(batch, LastUpsert(s, k).value, LastUpsert(batch, k).value);
    }
  }

  /** The order in which the bulks of a batch get their work done does not matter. */
  lemma AnyExecution(t: Table, s: seq<Op>, batch: seq<Op>)
    requires Consistent(batch) && IsExecution(s, batch)
    ensures ApplyAll(t, s) == ApplyAll(t, batch)
  {
    forall k ensures Get(ApplyAll(t, s), k) == Get(ApplyAll(t, batch), k) {
      ApplyAllOutcome(t, s, k);
      ApplyAllOutcome(t, batch, k);
      SelectionFirst(s, batch, k);
      SelectionLastUpsert(s, batch, k);
      FirstIsIn(s, k);
      FirstIsIn(batch, k);
      LastUpsertIsIn(s, k);
      LastUpsertIsIn(batch, k);
    }
    TablesEqual(ApplyAll(t, s), ApplyAll(t, batch));
  }

  /** After complete batches and any part of the next one, repeating everything from the start has the effect of doing
      it once. */
  lemma ReplayIsInvisible(t: Table, before: seq<Op>, s: seq<Op>, batch: seq<Op>, rest: seq<Op>)
    requires Consistent(batch) && IsSelection(s, batch)
    ensures ApplyAll(ApplyAll(t, before + s), before + batch + rest) == ApplyAll(t, before + batch + rest)
  {
    var part, all := before + s, before + batch + rest;
    forall k ensures Get(ApplyAll(ApplyAll(t, part), all), k) == Get(ApplyAll(t, all), k) {
      ApplyAllOutcome(t, part, k);
      ApplyAllOutcome(ApplyAll(t, part), all, k);
      ApplyAllOutcome(t, all, k);
      PartOfAll(before, s, batch, rest, k);
    }
    TablesEqual(ApplyAll(ApplyAll(t, part), all), ApplyAll(t, all));
  }

  lemma PartOfAll(before: seq<Op>, s: seq<Op>, batch: seq<Op>, rest: seq<Op>, k: Key)
    requires Consistent(batch) && IsSelection(s, batch)
    ensures First(before + s, k).Some? ==> First(before + batch + rest, k) == First(before + s, k)
    ensures LastUpsert(before + s, k).Some? ==> LastUpsert(before + batch + rest, k).Some?
  {
    FirstAppend(before, s, k);
    FirstAppend(before, batch, k);
    FirstAppend(before + batch, rest, k);
    SelectionFirst(s, batch, k);
    LastUpsertAppend(before, s, k);
    LastUpsertAppend(before, batch, k);
    LastUpsertAppend(before + batch, rest, k);
    SelectionLastUpsert(s, batch, k);
  }

  /** Whatever part of a batch took effect before, and in whatever order it is then written, the outcome is the same. */
  ghost predicate IsSafe(batch: seq<Op>) {
    forall t, s, e :: IsSelection(s, batch) && IsExecution(e, batch) ==>
      ApplyAll(ApplyAll(t, s), e) == ApplyAll(t, batch)
  }

  lemma ConsistentIsSafe(batch: seq<Op>)
    requires Consistent(batch)
    ensures IsSafe(batch)
  {
    forall t, s, e | IsSelection(s, batch) && IsExecution(e, batch)
      ensures ApplyAll(ApplyAll(t, s), e) == ApplyAll(t, batch)
    {
      AnyExecution(ApplyAll(t, s), e, batch);
      ReplayIsInvisible(t, [], s, batch, []);
      assert [] + s == s && [] + batch + [] == batch;
    }
  }

  /** Two statements of a batch for the same row: if it is safe, they do the same. */
  lemma SafeIsConsistent(batch: seq<Op>, a: Op, b: Op)
    requires IsSafe(batch) && a in batch && b in batch && a.key == b.key
    requires forall op <- batch :: op.isUpsert == a.isUpsert
    ensures a == b
  {
    var t, k := map[], a.key;
    forall x | x in [a, b] ensures ApplyAll(t, [x] + batch) == ApplyAll(t, batch) == ApplyAll(t, batch + [x]) {
      assert IsExecution([x] + batch, batch) && IsExecution(batch + [x], batch) && IsSelection([], batch);
      assert ApplyAll(t, []) == t;
    }
    forall x | x in [a, b]
      ensures Outcome(None, [x] + batch, k) == Outcome(None, batch + [x], k) == Get(ApplyAll(t, batch), k)
    {
      ApplyAllOutcome(t, [x] + batch, k);
      ApplyAllOutcome(t, batch + [x], k);
      assert Get(t, k) == None;
      assert ApplyAll(t, [x] + batch) == ApplyAll(t, batch) == ApplyAll(t, batch + [x]);
    }
    FixedOfFirst(a, batch);
    FixedOfFirst(b, batch);
    LastUpsertIsIn(batch, k);
    assert a in [a, b] && b in [a, b];
  }

  /** The first statement for a new row makes its fixed columns, or all if there are no upserts, and the last upsert the
      others. */
  lemma FixedOfFirst(x: Op, batch: seq<Op>)
    ensures Outcome(None, [x] + batch, x.key).Some?
    ensures Outcome(None, [x] + batch, x.key).value.fixed == x.record.fixed
    ensures LastUpsert(batch, x.key).None? && !x.isUpsert ==> Outcome(None, [x] + batch, x.key).value == x.record
    ensures x.isUpsert ==>
      && Outcome(None, batch + [x], x.key).Some?
      && Outcome(None, batch + [x], x.key).value.upsertable == x.record.upsertable
  {
    FirstAppend([x], batch, x.key);
    LastUpsertAppend([x], batch, x.key);
    FirstAppend(batch, [x], x.key);
    LastUpsertAppend(batch, [x], x.key);
    assert First([x], x.key) == Some(x);
    assert LastUpsert([x], x.key) == if x.isUpsert then Some(x) else None;
  }

  /** A batch of one kind of statement may be interrupted, reordered and repeated if and only if statements for the same
      row are the same. */
  lemma BatchIsSafeIffConsistent(batch: seq<Op>, isUpsert: bool)
    requires forall op <- batch :: op.isUpsert == isUpsert
    ensures IsSafe(batch) <==> Consistent(batch)
  {
    if Consistent(batch) {
      ConsistentIsSafe(batch);
    }
    if IsSafe(batch) {
      forall i, j | 0 <= i < j < |batch| && batch[i].key == batch[j].key ensures batch[i] == batch[j] {
        SafeIsConsistent(batch, batch[i], batch[j]);
      }
    }
  }

  /** Two inserts for the same row: killed after the second one, the migration ends with another row. */
  lemma DuplicateKeysMatter()
    ensures
      var a, b := Op(false, 1, Record(1, 0)), Op(false, 1, Record(2, 0));
      ApplyAll(ApplyAll(map[], [b]), [a, b]) != ApplyAll(map[], [a, b])
  {
    var a, b := Op(false, 1, Record(1, 0)), Op(false, 1, Record(2, 0));
    ApplyAllOutcome(map[], [b], 1);
    ApplyAllOutcome(ApplyAll(map[], [b]), [a, b], 1);
    ApplyAllOutcome(map[], [a, b], 1);
  }

  /* ---------- The migration ---------- */

  /** A stage of convertRows: its inserts are written before its upserts. */
  datatype Stage = Stage(inserts: seq<(Key, Record)>, upserts: seq<(Key, Record)>)

  function OpsOf(records: seq<(Key, Record)>, isUpsert: bool): (ops: seq<Op>)
    ensures |ops| == |records|
    ensures forall i :: 0 <= i < |records| ==> ops[i] == Op(isUpsert, records[i].0, records[i].1)
  {
    if records == [] then [] else [Op(isUpsert, records[0].0, records[0].1)] + OpsOf(records[1..], isUpsert)
  }

  /** The batches of some stages, in the order in which they are written. */
  function Batches(stages: seq<Stage>): (b: seq<seq<Op>>)
    ensures |b| == 2 * |stages|
    ensures forall i :: 0 <= i < |stages| ==>
      b[2 * i] == OpsOf(stages[i].inserts, false) && b[2 * i + 1] == OpsOf(stages[i].upserts, true)
  {
    if stages == [] then []
    else [OpsOf(stages[0].inserts, false), OpsOf(stages[0].upserts, true)] + Batches(stages[1..])
  }

  function Flatten(batches: seq<seq<Op>>): seq<Op> {
    if batches == [] then [] else Flatten(batches[..|batches| - 1]) + batches[|batches| - 1]
  }

  function Statements(stages: seq<Stage>): seq<Op> {
    Flatten(Batches(stages))
  }

  lemma {:induction false} FlattenAppend(a: seq<seq<Op>>, b: seq<seq<Op>>)
    ensures Flatten(a + b) == Flatten(a) + Flatten(b)
    decreases |b|
  {
    if b == [] {
      assert a + b == a;
    } else {
      var n := |b| - 1;
      assert (a + b)[..|a + b| - 1] == a + b[..n];
      FlattenAppend(a, b[..n]);
      assert Flatten(a) + Flatten(b[..n]) + b[n] == Flatten(a) + (Flatten(b[..n]) + b[n]);
    }
  }

  lemma FlattenSnoc(batches: seq<seq<Op>>, n: nat)
    requires n < |batches|
    ensures Flatten(batches[..n + 1]) == Flatten(batches[..n]) + batches[n]
  {
    assert batches[..n + 1][..n] == batches[..n];
  }

  lemma SplitAfter(batches: seq<seq<Op>>, n: nat)
    requires n < |batches|
    ensures batches == batches[..n + 1] + batches[n + 1..]
  {
  }

  lemma FlattenParts(batches: seq<seq<Op>>, a: seq<seq<Op>>, b: seq<seq<Op>>)
    requires batches == a + b
    ensures Flatten(batches) == Flatten(a) + Flatten(b)
  {
    FlattenAppend(a, b);
  }

  lemma FlattenNext(batches: seq<seq<Op>>, n: nat)
    requires n < |batches|
    ensures Flatten(batches[..n + 1]) == Flatten(batches[..n]) + batches[n]
    ensures Flatten(batches) == Flatten(batches[..n]) + batches[n] + Flatten(batches[n + 1..])
  {
    SplitAfter(batches, n);
    FlattenSnoc(batches, n);
    FlattenParts(batches, batches[..n + 1], batches[n + 1..]);
  }

  ghost predicate AreConsistent(batches: seq<seq<Op>>) {
    forall i :: 0 <= i < |batches| ==> Consistent(batches[i])
  }

  /** The pages that the migration may see convert to consistent batches. */
  ghost predicate ConvertsWell<T>(
    rows: seq<Row<T>>, from: int, to: int, bulk: nat, convert: seq<Row<T>> -> seq<Stage>)
  {
    forall checkpoint ::
      AreConsistent(Batches(convert(Query(rows, from, to, checkpoint, bulk, false))))
  }

  /** The result of migrating some pages. */
  function Migrated<T>(t: Table, pages: seq<seq<Row<T>>>, convert: seq<Row<T>> -> seq<Stage>): Table
    decreases |pages|
  {
    if pages == [] then t else Migrated(ApplyAll(t, Statements(convert(pages[0]))), pages[1..], convert)
  }

  /** Some page converts to this record for an INSERT IGNORE, or for an upsert. */
  ghost predicate IsRecord<T>(pages: seq<seq<Row<T>>>, convert: seq<Row<T>> -> seq<Stage>, op: Op) {
    exists p :: 0 <= p < |pages| && IsStatement(convert(pages[p]), op)
  }

  ghost predicate IsStatement(stages: seq<Stage>, op: Op) {
    exists i :: 0 <= i < |stages|
      && (op.key, op.record) in if op.isUpsert then stages[i].upserts else stages[i].inserts
  }

  lemma OpsOfIn(records: seq<(Key, Record)>, isUpsert: bool, op: Op)
    ensures op in OpsOf(records, isUpsert) <==> op.isUpsert == isUpsert && (op.key, op.record) in records
  {
    if op.isUpsert == isUpsert && (op.key, op.record) in records {
      var i :| 0 <= i < |records| && records[i] == (op.key, op.record);
      assert OpsOf(records, isUpsert)[i] == op;
    }
  }

  lemma {:induction false} FlattenIn(batches: seq<seq<Op>>, op: Op)
    ensures op in Flatten(batches) <==> exists j :: 0 <= j < |batches| && op in batches[j]
  {
    if batches != [] {
      FlattenIn(batches[..|batches| - 1], op);
    }
  }

  lemma InsertIsStatement(stages: seq<Stage>, i: nat, op: Op)
    requires i < |stages| && op in OpsOf(stages[i].inserts, false)
    ensures IsStatement(stages, op)
  {
    OpsOfIn(stages[i].inserts, false, op);
    assert (op.key, op.record) in stages[i].inserts;
  }

  lemma UpsertIsStatement(stages: seq<Stage>, i: nat, op: Op)
    requires i < |stages| && op in OpsOf(stages[i].upserts, true)
    ensures IsStatement(stages, op)
  {
    OpsOfIn(stages[i].upserts, true, op);
    assert (op.key, op.record) in stages[i].upserts;
  }

  /** A batch is that of some stage. */
  lemma BatchOfStage(stages: seq<Stage>, batches: seq<seq<Op>>, j: nat) returns (i: nat)
    requires |batches| == 2 * |stages| && j < |batches|
    requires forall i :: 0 <= i < |stages| ==>
      batches[2 * i] == OpsOf(stages[i].inserts, false) && batches[2 * i + 1] == OpsOf(stages[i].upserts, true)
    ensures i < |stages|
    ensures batches[j] == OpsOf(stages[i].inserts, false) || batches[j] == OpsOf(stages[i].upserts, true)
  {
    i := j / 2;
    assert j == 2 * i || j == 2 * i + 1;
  }

  lemma BatchIsStatement(stages: seq<Stage>, j: nat, op: Op)
    requires j < 2 * |stages| && op in Batches(stages)[j]
    ensures IsStatement(stages, op)
  {
    var i := BatchOfStage(stages, Batches(stages), j);
    if op in OpsOf(stages[i].inserts, false) {
      InsertIsStatement(stages, i, op);
    } else {
      UpsertIsStatement(stages, i, op);
    }
  }

  lemma StatementsAre(stages: seq<Stage>, op: Op)
    ensures op in Statements(stages) <==> IsStatement(stages, op)
  {
    FlattenIn(Batches(stages), op);
    if j :| 0 <= j < |Batches(stages)| && op in Batches(stages)[j] {
      BatchIsStatement(stages, j, op);
    }
    if i :| 0 <= i < |stages| && (op.key, op.record) in if op.isUpsert then stages[i].upserts else stages[i].inserts {
      OpsOfIn(if op.isUpsert then stages[i].upserts else stages[i].inserts, op.isUpsert, op);
      assert op in Batches(stages)[if op.isUpsert then 2 * i + 1 else 2 * i];
    }
  }

  /** The row that a table has for a key, if the statements for it were these. */
  lemma RowOf(ops: seq<Op>, k: Key)
    ensures
      var row := Get(ApplyAll(map[], ops), k);
      && (row.Some? <==> exists op <- ops :: op.key == k)
      && (row.Some? ==>
            && (exists op <- ops :: op.key == k && op.record.fixed == row.value.fixed)
            && (exists op <- ops ::
                  op.key == k && op.record.upsertable == row.value.upsertable
                  && (op.isUpsert || forall other <- ops :: other.key == k ==> !other.isUpsert)))
  {
    ApplyAllOutcome(map[], ops, k);
    FirstIsIn(ops, k);
    LastUpsertIsIn(ops, k);
  }

  /** All statements of some pages. */
  function AllStatements<T>(pages: seq<seq<Row<T>>>, convert: seq<Row<T>> -> seq<Stage>): seq<Op> {
    if pages == [] then [] else Statements(convert(pages[0])) + AllStatements(pages[1..], convert)
  }

  lemma {:induction false} AllStatementsAre<T>(pages: seq<seq<Row<T>>>, convert: seq<Row<T>> -> seq<Stage>, op: Op)
    ensures op in AllStatements(pages, convert) <==> IsRecord(pages, convert, op)
  {
    if pages != [] {
      StatementsAre(convert(pages[0]), op);
      AllStatementsAre(pages[1..], convert, op);
      if p :| 0 <= p < |pages[1..]| && IsStatement(convert(pages[1..][p]), op) {
        assert IsStatement(convert(pages[p + 1]), op);
      }
      if p :| 0 <= p < |pages| && IsStatement(convert(pages[p]), op) {
        assert p > 0 ==> IsStatement(convert(pages[1..][p - 1]), op);
      }
    }
  }

  lemma {:induction false} MigratedIsAll<T>(t: Table, pages: seq<seq<Row<T>>>, convert: seq<Row<T>> -> seq<Stage>)
    ensures Migrated(t, pages, convert) == ApplyAll(t, AllStatements(pages, convert))
    decreases |pages|
  {
    if pages != [] {
      MigratedIsAll(ApplyAll(t, Statements(convert(pages[0]))), pages[1..], convert);
      ApplyAppend(t, Statements(convert(pages[0])), AllStatements(pages[1..], convert));
    }
  }

  /** A migration has a row for each record of each page and no others. Its columns are those of records for it, those
      that an upsert overwrites from one for an upsert if there is any. */
  lemma MigratedRow<T>(pages: seq<seq<Row<T>>>, convert: seq<Row<T>> -> seq<Stage>, k: Key)
    ensures
      var row := Get(Migrated(map[], pages, convert), k);
      && (row.Some? <==> exists op :: IsRecord(pages, convert, op) && op.key == k)
      && (row.Some? ==>
            && (exists op :: IsRecord(pages, convert, op) && op.key == k && op.record.fixed == row.value.fixed)
            && (exists op ::
                  && IsRecord(pages, convert, op)
                  && op.key == k && op.record.upsertable == row.value.upsertable
                  && (op.isUpsert || forall other :: IsRecord(pages, convert, other) && other.key == k ==>
                                                       !other.isUpsert)))
  {
    MigratedIsAll(map[], pages, convert);
    var ops := AllStatements(pages, convert);
    RowOf(ops, k);
    forall op ensures op in ops <==> IsRecord(pages, convert, op) {
      AllStatementsAre(pages, convert, op);
    }
  }

  /** The rest of the migration gives the final table: what remains is migrated as if the interrupted page had not been
      started. */
  ghost predicate Completable<T>(
    t: Table, progress: nat, rows: seq<Row<T>>, from: int, to: int, bulk: nat, convert: seq<Row<T>> -> seq<Stage>,
    final: Table)
    requires bulk > 0
  {
    Migrated(t, Split(Matching(rows, from, to, progress, false), bulk), convert) == final
  }

  class Target {
    var table: Table
    /** last_ido_id of the progress row, or 0 if there is none. */
    var progress: nat

    constructor ()
      ensures table == map[] && progress == 0
    {
      table, progress := map[], 0;
    }
  }

  /** How a batch is written: the statements that take effect first, by their number, in any order and with any
      repetition, and whether the process is killed then. If not, all others follow. */
  datatype Run = Run(order: seq<nat>, killed: bool)

  /** The table after some complete batches and a part of the next one. */
  ghost predicate PartlyWritten(table: Table, t: Table, batches: seq<seq<Op>>) {
    exists n: nat, s :: IsPart(table, t, batches, n, s)
  }

  ghost predicate IsPart(table: Table, t: Table, batches: seq<seq<Op>>, n: nat, s: seq<Op>) {
    n < |batches| && IsSelection(s, batches[n]) && table == ApplyAll(t, Flatten(batches[..n]) + s)
  }

  lemma ApplySnoc(t: Table, ops: seq<Op>, op: Op)
    ensures ApplyAll(t, ops + [op]) == Apply(ApplyAll(t, ops), op)
  {
    assert (ops + [op])[..|ops|] == ops;
  }

  lemma {:induction false} ApplyAppend(t: Table, a: seq<Op>, b: seq<Op>)
    ensures ApplyAll(t, a + b) == ApplyAll(ApplyAll(t, a), b)
    decreases |b|
  {
    if b == [] {
      assert a + b == a;
    } else {
      var n := |b| - 1;
      assert a + b == a + b[..n] + [b[n]];
      ApplySnoc(t, a + b[..n], b[n]);
      ApplyAppend(t, a, b[..n]);
    }
  }

  /** One call of CreateIgnoreStreamed or UpsertStreamed. */
  method WriteBatch(target: Target, records: seq<(Key, Record)>, isUpsert: bool, run: Run)
    returns (alive: bool, ghost s: seq<Op>)
    requires Consistent(OpsOf(records, isUpsert))
    modifies target`table
    ensures IsSelection(s, OpsOf(records, isUpsert)) && target.table == ApplyAll(old(target.table), s)
    ensures alive ==> target.table == ApplyAll(old(target.table), OpsOf(records, isUpsert))
    ensures alive <==> !run.killed
  {
    ghost var t, batch := target.table, OpsOf(records, isUpsert);
    s := [];
    for x := 0 to |run.order|
      invariant IsSelection(s, batch) && target.table == ApplyAll(t, s)
      invariant forall y :: 0 <= y < x && run.order[y] < |records| ==> batch[run.order[y]] in s
    {
      var i := run.order[x];
      if i < |records| {
        ApplySnoc(t, s, batch[i]);
        target.table, s := Apply(target.table, Op(isUpsert, records[i].0, records[i].1)), s + [batch[i]];
      }
    }
    if run.killed {
      return false, s;
    }
    for i := 0 to |records|
      invariant IsSelection(s, batch) && target.table == ApplyAll(t, s)
      invariant forall y :: 0 <= y < |run.order| && run.order[y] < |records| ==> batch[run.order[y]] in s
      invariant forall j :: 0 <= j < i ==> batch[j] in s
    {
      if i !in run.order {
        ApplySnoc(t, s, batch[i]);
        target.table, s := Apply(target.table, Op(isUpsert, records[i].0, records[i].1)), s + [batch[i]];
      }
    }
    AnyExecution(t, s, batch);
    alive := true;
  }

  /** Batch number n of the page, after the ones before it. */
  method WriteNext(
    target: Target, records: seq<(Key, Record)>, isUpsert: bool, run: Run, ghost t: Table, ghost batches: seq<seq<Op>>,
    ghost n: nat)
    returns (alive: bool)
    requires n < |batches| && batches[n] == OpsOf(records, isUpsert) && Consistent(batches[n])
    requires target.table == ApplyAll(t, Flatten(batches[..n]))
    modifies target`table
    ensures PartlyWritten(target.table, t, batches)
    ensures alive ==> target.table == ApplyAll(t, Flatten(batches[..n + 1]))
    ensures alive <==> !run.killed
  {
    ghost var s;
    alive, s := WriteBatch(target, records, isUpsert, run);
    ApplyAppend(t, Flatten(batches[..n]), s);
    ApplyAppend(t, Flatten(batches[..n]), batches[n]);
    FlattenNext(batches, n);
    assert IsPart(target.table, t, batches, n, s);
  }

  /** The stages of a page. runs: how batch number n is written. */
  method WriteStages(target: Target, stages: seq<Stage>, runs: nat -> Run) returns (alive: bool)
    requires AreConsistent(Batches(stages))
    modifies target`table
    ensures alive ==> target.table == ApplyAll(old(target.table), Statements(stages))
    ensures !alive ==> PartlyWritten(target.table, old(target.table), Batches(stages))
    ensures (forall n :: !runs(n).killed) ==> alive
  {
    ghost var t, batches := target.table, Batches(stages);
    assert batches[..0] == [];
    for i := 0 to |stages|
      invariant target.table == ApplyAll(t, Flatten(batches[..2 * i]))
    {
      alive := WriteNext(target, stages[i].inserts, false, runs(2 * i), t, batches, 2 * i);
      if !alive {
        return;
      }
      alive := WriteNext(target, stages[i].upserts, true, runs(2 * i + 1), t, batches, 2 * i + 1);
      if !alive {
        return;
      }
    }
    assert batches[..2 * |stages|] == batches;
    alive := true;
  }

  lemma PartReplayed(table: Table, t: Table, batches: seq<seq<Op>>)
    requires AreConsistent(batches) && PartlyWritten(table, t, batches)
    ensures ApplyAll(table, Flatten(batches)) == ApplyAll(t, Flatten(batches))
  {
    var n: nat, s :| IsPart(table, t, batches, n, s);
    FlattenNext(batches, n);
    ReplayIsInvisible(t, Flatten(batches[..n]), s, batches[n], Flatten(batches[n + 1..]));
  }

  lemma WholeReplayed(t: Table, ops: seq<Op>)
    ensures ApplyAll(ApplyAll(t, ops), ops) == ApplyAll(t, ops)
  {
    ReplayIsInvisible(t, ops, [], [], []);
    assert ops + [] == ops && ops + [] + [] == ops;
  }

  /** The pages that are left, before and after the next one. */
  lemma NextPage<T>(rows: seq<Row<T>>, from: int, to: int, progress: nat, bulk: nat)
    requires InOrder(rows, false) && bulk > 0 && Query(rows, from, to, progress, bulk, false) != []
    ensures
      var page := Query(rows, from, to, progress, bulk, false);
      var all, left :=
        Matching(rows, from, to, progress, false), Matching(rows, from, to, page[|page| - 1].id, false);
      Split(all, bulk) == [page] + Split(left, bulk) && |left| < |all|
  {
    var page := Query(rows, from, to, progress, bulk, false);
    var all := Matching(rows, from, to, progress, false);
    assert all[0..] == all;
    SplitNext(all, 0, page, bulk);
    CheckpointStep(rows, from, to, progress, progress, bulk, false, 0);
  }

  lemma MigratedNext<T>(t: Table, page: seq<Row<T>>, pages: seq<seq<Row<T>>>, convert: seq<Row<T>> -> seq<Stage>)
    ensures Migrated(t, [page] + pages, convert) == Migrated(ApplyAll(t, Statements(convert(page))), pages, convert)
  {
    assert ([page] + pages)[1..] == pages;
  }

  /** A page that was not finished leaves a table from which the migration still completes. */
  lemma PageInterrupted<T>(
    t: Table, table: Table, progress: nat, rows: seq<Row<T>>, from: int, to: int, bulk: nat,
    convert: seq<Row<T>> -> seq<Stage>, final: Table)
    requires InOrder(rows, false) && bulk > 0
    requires Completable(t, progress, rows, from, to, bulk, convert, final)
    requires Query(rows, from, to, progress, bulk, false) != []
    requires
      var all := Statements(convert(Query(rows, from, to, progress, bulk, false)));
      ApplyAll(table, all) == ApplyAll(t, all)
    ensures Completable(table, progress, rows, from, to, bulk, convert, final)
  {
    var page := Query(rows, from, to, progress, bulk, false);
    NextPage(rows, from, to, progress, bulk);
    var pages := Split(Matching(rows, from, to, page[|page| - 1].id, false), bulk);
    MigratedNext(t, page, pages, convert);
    MigratedNext(table, page, pages, convert);
  }

  /** A finished page with its progress row. */
  lemma PageFinished<T>(
    t: Table, progress: nat, rows: seq<Row<T>>, from: int, to: int, bulk: nat, convert: seq<Row<T>> -> seq<Stage>,
    final: Table)
    requires InOrder(rows, false) && bulk > 0
    requires Completable(t, progress, rows, from, to, bulk, convert, final)
    requires Query(rows, from, to, progress, bulk, false) != []
    ensures
      var page := Query(rows, from, to, progress, bulk, false);
      && Completable(ApplyAll(t, Statements(convert(page))), page[|page| - 1].id, rows, from, to, bulk, convert, final)
      && |Matching(rows, from, to, page[|page| - 1].id, false)| < |Matching(rows, from, to, progress, false)|
  {
    var page := Query(rows, from, to, progress, bulk, false);
    NextPage(rows, from, to, progress, bulk);
    MigratedNext(t, page, Split(Matching(rows, from, to, page[|page| - 1].id, false), bulk), convert);
  }

  lemma NothingLeft<T>(
    t: Table, progress: nat, rows: seq<Row<T>>, from: int, to: int, bulk: nat, convert: seq<Row<T>> -> seq<Stage>,
    final: Table)
    requires bulk > 0 && Completable(t, progress, rows, from, to, bulk, convert, final)
    requires Query(rows, from, to, progress, bulk, false) == []
    ensures t == final
  {
    assert Matching(rows, from, to, progress, false) == [];
  }

  /** How a run of the program goes: how each batch of each page is written, and whether the process is killed between a
      page and its progress row. */
  datatype Plan = Plan(batches: nat -> Run, killedAfter: bool)

  /** One run of the migration, from whatever it finds. */
  method MigrateOneType<T>(
    target: Target, rows: seq<Row<T>>, from: int, to: int, bulk: nat, convert: seq<Row<T>> -> seq<Stage>,
    plans: nat -> Plan, ghost final: Table)
    returns (finished: bool)
    requires InOrder(rows, false) && bulk > 0 && ConvertsWell(rows, from, to, bulk, convert)
    requires Completable(target.table, target.progress, rows, from, to, bulk, convert, final)
    modifies target
    ensures Completable(target.table, target.progress, rows, from, to, bulk, convert, final)
    ensures finished ==> target.table == final && Query(rows, from, to, target.progress, bulk, false) == []
    ensures (forall p :: !plans(p).killedAfter && forall n :: !plans(p).batches(n).killed) ==> finished
  {
    var checkpoint := target.progress;
    var p: nat := 0;
    while true
      invariant checkpoint == target.progress
      invariant Completable(target.table, checkpoint, rows, from, to, bulk, convert, final)
      decreases |Matching(rows, from, to, checkpoint, false)|
    {
      var page := Query(rows, from, to, checkpoint, bulk, false);
      if |page| < 1 {
        break;
      }
      ghost var t := target.table;
      var stages := convert(page);
      var alive := WriteStages(target, stages, plans(p).batches);
      if !alive {
        PartReplayed(target.table, t, Batches(stages));
        PageInterrupted(t, target.table, checkpoint, rows, from, to, bulk, convert, final);
        return false;
      }
      if plans(p).killedAfter {
        WholeReplayed(t, Statements(stages));
        PageInterrupted(t, target.table, checkpoint, rows, from, to, bulk, convert, final);
        return false;
      }
      PageFinished(t, checkpoint, rows, from, to, bulk, convert, final);
      target.progress := page[|page| - 1].id;
      checkpoint := target.progress;
      p := p + 1;
    }
    NothingLeft(target.table, checkpoint, rows, from, to, bulk, convert, final);
    return true;
  }

  /** A migration that was killed any number of times, anywhere, and then gets through, leaves the same rows as an
      uninterrupted one. */
  method MigrateWithKills<T>(
    target: Target, rows: seq<Row<T>>, from: int, to: int, bulk: nat, convert: seq<Row<T>> -> seq<Stage>,
    attempts: seq<nat -> Plan>, last: nat -> nat -> seq<nat>)
    requires InOrder(rows, false) && bulk > 0 && ConvertsWell(rows, from, to, bulk, convert)
    requires target.table == map[] && target.progress == 0
    modifies target
    ensures target.table == Migrated(map[], Split(Matching(rows, from, to, 0, false), bulk), convert)
  {
    ghost var final := Migrated(map[], Split(Matching(rows, from, to, 0, false), bulk), convert);
    for a := 0 to |attempts|
      invariant Completable(target.table, target.progress, rows, from, to, bulk, convert, final)
    {
      var _ := MigrateOneType(target, rows, from, to, bulk, convert, attempts[a], final);
    }
    var through := (p: nat) => Plan((n: nat) => Run(last(p)(n), false), false);
    var finished := MigrateOneType(target, rows, from, to, bulk, convert, through, final);
  }
}

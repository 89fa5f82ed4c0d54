/** buildPreviousHardStateCache: a single backward pass over a history table that computes each row's previous hard
    state with two helper tables, and can be killed and restarted at any point.
 */
module PreviousHardState {
  import opened Wrappers
  import opened ChunkCacheTx
  import opened Paging

  datatype History = History(objectId: nat, lastHardState: nat)

  type HistoryRow = Row<History>

  const PENDING: nat := 99

  /** math.MaxInt64, the checkpoint before the first row. */
  const MAX_ID: int := 0x7FFF_FFFF_FFFF_FFFF

  /** The cache database. next_ids is a map because the history IDs are a primary key of the source. */
  datatype Tables = Tables(previousHardState: map<nat, nat>, nextHardState: map<nat, nat>, nextIds: map<nat, nat>)

  const EMPTY := Tables(map[], map[], map[])

  /** The source table as the pass reads it: newest row first. */
  ghost predicate IsSource(rows: seq<HistoryRow>) {
    InOrder(rows, true) && forall r <- rows :: r.id < MAX_ID
  }

  ghost predicate UpTo(rows: seq<HistoryRow>, to: int) {
    forall r <- rows :: r.id <= to
  }

  /* ---------- Specification ---------- */

  /** Looking back from row k, starting at row j: the hard state of the nearest earlier row of the same object that
      has another one. */
  function LookBack(rows: seq<HistoryRow>, k: nat, j: nat): nat
    requires k < |rows| && j <= |rows|
    decreases |rows| - j
  {
    if j == |rows| then 99
    else if rows[j].value.objectId == rows[k].value.objectId
         && rows[j].value.lastHardState != rows[k].value.lastHardState then rows[j].value.lastHardState
    else LookBack(rows, k, j + 1)
  }

  /** Exactly one entry for each source row, its look-back. */
  ghost predicate IsCacheOf(rows: seq<HistoryRow>, cache: map<nat, nat>) {
    && (forall k :: 0 <= k < |rows| ==> rows[k].id in cache && cache[rows[k].id] == LookBack(rows, k, k + 1))
    && (forall id <- cache :: exists k :: 0 <= k < |rows| && rows[k].id == id)
  }

  /* ---------- The pass as a fold ---------- */

  function Awaiting(t: Tables, objectId: nat): set<nat> {
    set id | id in t.nextIds && t.nextIds[id] == objectId
  }

  function Process(t: Tables, row: HistoryRow): Tables {
    var o, s := row.value.objectId, row.value.lastHardState;
    if o in t.nextHardState && t.nextHardState[o] != s then
      Tables(t.previousHardState + map id | id in Awaiting(t, o) :: s,
             t.nextHardState[o := s],
             (t.nextIds - Awaiting(t, o))[row.id := o])
    else
      Tables(t.previousHardState, t.nextHardState[o := s], t.nextIds[row.id := o])
  }

  function Fold(rows: seq<HistoryRow>, k: nat): Tables
    requires k <= |rows|
  {
    if k == 0 then EMPTY else Process(Fold(rows, k - 1), rows[k - 1])
  }

  function Finish(t: Tables): Tables {
    Tables(t.previousHardState + map id | id in t.nextIds :: PENDING, map[], map[])
  }

  /** The cache after one uninterrupted pass. */
  function Final(rows: seq<HistoryRow>): Tables {
    Finish(Fold(rows, |rows|))
  }

  /* ---------- The fold is the look-back ---------- */

  /** Row i has found its previous state among the first k rows, or it still waits for it. */
  ghost predicate RowDone(rows: seq<HistoryRow>, k: nat, t: Tables, i: nat)
    requires i < k <= |rows|
  {
    var r := rows[i];
    if r.id in t.previousHardState then
      r.id !in t.nextIds && t.previousHardState[r.id] == LookBack(rows, i, i + 1)
    else
      && r.id in t.nextIds && t.nextIds[r.id] == r.value.objectId
      && r.value.objectId in t.nextHardState && t.nextHardState[r.value.objectId] == r.value.lastHardState
      && LookBack(rows, i, i + 1) == LookBack(rows, i, k)
  }

  ghost predicate KnownId(rows: seq<HistoryRow>, k: nat, id: nat)
    requires k <= |rows|
  {
    exists i :: 0 <= i < k && rows[i].id == id
  }

  ghost predicate FoldInv(rows: seq<HistoryRow>, k: nat, t: Tables)
    requires k <= |rows|
  {
    && (forall i :: 0 <= i < k ==> RowDone(rows, k, t, i))
    && (forall id <- t.previousHardState :: KnownId(rows, k, id))
    && (forall id <- t.nextIds :: KnownId(rows, k, id))
    && (k > 0 ==> rows[k - 1].id in t.nextIds)
  }

  lemma RowDoneStep(rows: seq<HistoryRow>, k: nat, t: Tables, i: nat)
    requires IsSource(rows) && i <= k < |rows| && FoldInv(rows, k, t)
    ensures RowDone(rows, k + 1, Process(t, rows[k]), i)
  {
    var r, row := rows[i], rows[k];
    assert row.id !in t.previousHardState && row.id !in t.nextIds by {
      forall j | 0 <= j < k ensures rows[j].id != row.id {
        assert Beyond(rows[k].id, rows[j].id, true);
      }
    }
    if i < k {
      assert Beyond(row.id, r.id, true);
      assert RowDone(rows, k, t, i);
      assert r.id != row.id;
      if r.id !in t.previousHardState && r.value.objectId == row.value.objectId
         && row.value.lastHardState != r.value.lastHardState {
        assert r.id in Awaiting(t, row.value.objectId);
      }
    }
  }

  lemma FoldInvStep(rows: seq<HistoryRow>, k: nat, t: Tables)
    requires IsSource(rows) && k < |rows| && FoldInv(rows, k, t)
    ensures FoldInv(rows, k + 1, Process(t, rows[k]))
  {
    var u, n := Process(t, rows[k]), k + 1;
    forall i | 0 <= i < n ensures RowDone(rows, n, u, i) {
      RowDoneStep(rows, k, t, i);
    }
    assert rows[k].id in u.nextIds;
    forall id | id in u.previousHardState || id in u.nextIds ensures KnownId(rows, k + 1, id) {
      assert id == rows[k].id || KnownId(rows, k, id);
    }
  }

  lemma {:induction false} FoldHasInv(rows: seq<HistoryRow>, k: nat)
    requires IsSource(rows) && k <= |rows|
    ensures FoldInv(rows, k, Fold(rows, k))
  {
    if k > 0 {
      FoldHasInv(rows, k - 1);
      FoldInvStep(rows, k - 1, Fold(rows, k - 1));
    }
  }

  /** The backward pass equals the quadratic look-back. */
  lemma CacheIsLookBack(rows: seq<HistoryRow>)
    requires IsSource(rows)
    ensures IsCacheOf(rows, Final(rows).previousHardState)
  {
    var t := Fold(rows, |rows|);
    FoldHasInv(rows, |rows|);
    forall k | 0 <= k < |rows|
      ensures rows[k].id in Final(rows).previousHardState
      ensures Final(rows).previousHardState[rows[k].id] == LookBack(rows, k, k + 1)
    {
      assert RowDone(rows, |rows|, t, k);
    }
    forall id | id in Final(rows).previousHardState
      ensures exists k :: 0 <= k < |rows| && rows[k].id == id
    {
      assert KnownId(rows, |rows|, id);
    }
  }

  /* ---------- Checkpoints ---------- */

  /** Where a run continues that finds this cache: MIN(history_id) of next_ids, or the start, or past the end. */
  ghost predicate IsCheckpointId(t: Tables, checkpoint: int) {
    if t.nextIds != map[] then
      checkpoint in t.nextIds && forall id <- t.nextIds :: checkpoint <= id
    else if t.previousHardState == map[] then checkpoint == MAX_ID
    else checkpoint == 0
  }

  /** The last processed ID is in next_ids and is its minimum. So the checkpoint of a partial cache is exactly where
      it ends. */
  lemma CheckpointIsLastProcessed(rows: seq<HistoryRow>, k: nat)
    requires IsSource(rows) && k <= |rows|
    ensures IsCheckpointId(Fold(rows, k), if k == 0 then MAX_ID else rows[k - 1].id)
    ensures forall c :: IsCheckpointId(Fold(rows, k), c) ==> c == if k == 0 then MAX_ID else rows[k - 1].id
  {
    FoldHasInv(rows, k);
    if k > 0 {
      var t := Fold(rows, k);
      forall id | id in t.nextIds ensures rows[k - 1].id <= id {
        assert KnownId(rows, k, id);
        var i :| 0 <= i < k && rows[i].id == id;
        assert i < k - 1 ==> Beyond(rows[k - 1].id, rows[i].id, true);
      }
    }
  }

  /** The rows that are read from such a checkpoint are the unprocessed ones. */
  lemma RestIsUnprocessed(rows: seq<HistoryRow>, k: nat, to: int)
    requires IsSource(rows) && k <= |rows| && UpTo(rows, to)
    ensures Matching(rows, 0, to, if k == 0 then MAX_ID else rows[k - 1].id, true) == rows[k..]
  {
    AllMatch(rows, to);
    if k > 0 {
      MatchingAfter(rows, 0, to, MAX_ID, true, k - 1);
    }
  }

  lemma {:induction false} AllMatch(rows: seq<HistoryRow>, to: int)
    requires UpTo(rows, to) && forall r <- rows :: r.id < MAX_ID
    ensures Matching(rows, 0, to, MAX_ID, true) == rows
  {
    if rows != [] {
      AllMatch(rows[1..], to);
    }
  }

  lemma {:induction false} NoneMatch(rows: seq<HistoryRow>, to: int)
    ensures Matching(rows, 0, to, 0, true) == []
  {
    if rows != [] {
      NoneMatch(rows[1..], to);
    }
  }

  /** A cache that a run on this source may leave behind. */
  ghost predicate IsPartial(rows: seq<HistoryRow>, t: Tables) {
    (exists k :: 0 <= k <= |rows| && t == Fold(rows, k)) || t == Final(rows)
  }

  lemma PartialFold(rows: seq<HistoryRow>, k: nat)
    requires k <= |rows|
    ensures IsPartial(rows, Fold(rows, k))
  {
  }

  lemma FinalIsEmptyOnlyIfSourceIs(rows: seq<HistoryRow>)
    requires IsSource(rows) && rows != []
    ensures Final(rows).previousHardState != map[]
  {
    CacheIsLookBack(rows);
    assert rows[0].id in Final(rows).previousHardState;
  }

  /* ---------- The pass with its transactions ---------- */

  class Cache {
    /** What survives a crash. */
    var committed: Tables

    constructor ()
      ensures committed == EMPTY
    {
      committed := EMPTY;
    }
  }

  method Checkpoint(t: Tables, ghost rows: seq<HistoryRow>) returns (checkpoint: int)
    requires IsSource(rows) && IsPartial(rows, t)
    ensures IsCheckpointId(t, checkpoint)
  {
    if t.nextIds != map[] {
      ghost var k :| 0 <= k <= |rows| && t == Fold(rows, k);
      CheckpointIsLastProcessed(rows, k);
      checkpoint :| checkpoint in t.nextIds && forall id <- t.nextIds :: checkpoint <= id;
    } else if t.previousHardState == map[] {
      checkpoint := MAX_ID;
    } else {
      checkpoint := 0;
    }
  }

  /** The statements for one row. The inserts never meet an existing primary key. */
  method ProcessRow(tx: Tables, row: HistoryRow) returns (t: Tables)
    requires row.id !in tx.previousHardState && row.id !in tx.nextIds
    requires tx.previousHardState.Keys !! tx.nextIds.Keys
    ensures t == Process(tx, row)
  {
    var o, s := row.value.objectId, row.value.lastHardState;
    t := tx;
    if o !in t.nextHardState {
      t := t.(nextHardState := t.nextHardState[o := s]);
      t := t.(nextIds := t.nextIds[row.id := o]);
    } else if s == t.nextHardState[o] {
      t := t.(nextIds := t.nextIds[row.id := o]);
      assert t.nextHardState == t.nextHardState[o := s];
    } else {
      var found := map id | id in Awaiting(t, o) :: s;
      assert found.Keys !! t.previousHardState.Keys;
      t := t.(previousHardState := t.previousHardState + found);
      t := t.(nextHardState := t.nextHardState - {o});
      t := t.(nextIds := t.nextIds - Awaiting(t, o));
      t := t.(nextHardState := t.nextHardState[o := s]);
      t := t.(nextIds := t.nextIds[row.id := o]);
      assert t.nextHardState == tx.nextHardState[o := s];
    }
  }

  /** states[j] are the tables after j of the rows that a run has to process. */
  ghost predicate IsTrace(rest: seq<HistoryRow>, states: seq<Tables>) {
    |states| == |rest| + 1 && forall j :: 0 <= j < |rest| ==> TraceStep(rest, states, j)
  }

  ghost predicate TraceStep(rest: seq<HistoryRow>, states: seq<Tables>, j: nat)
    requires |states| == |rest| + 1 && j < |rest|
  {
    && states[j + 1] == Process(states[j], rest[j])
    && rest[j].id !in states[j].previousHardState && rest[j].id !in states[j].nextIds
    && states[j].previousHardState.Keys !! states[j].nextIds.Keys
  }

  /** The rows of one page, which are rows k, k + 1, ... of those that the run has to process. */
  method ProcessPage(
    cache: Cache, ghost rest: seq<HistoryRow>, ghost states: seq<Tables>, k: nat, page: seq<HistoryRow>,
    before: Tables, commitDue: nat -> bool, crash: Option<nat>)
    returns (tx: Tables, alive: bool)
    requires IsTrace(rest, states) && k + |page| <= |rest| && page == rest[k..k + |page|]
    requires before == states[k] && cache.committed == states[LastDue(commitDue, k)]
    modifies cache
    ensures alive ==> tx == states[k + |page|] && cache.committed == states[LastDue(commitDue, k + |page|)]
    ensures alive <==> !(crash.Some? && k <= crash.value < k + |page|)
    ensures !alive ==> cache.committed == states[LastDue(commitDue, crash.value)]
  {
    tx := before;
    var n: nat := k;
    for i := 0 to |page|
      invariant n == k + i && tx == states[n]
      invariant cache.committed == states[LastDue(commitDue, n)]
      invariant crash.Some? ==> !(k <= crash.value < n)
    {
      if crash == Some(n) {
        return tx, false;
      }
      assert TraceStep(rest, states, n);
      tx := ProcessRow(tx, page[i]);
      if commitDue(n) {
        cache.committed := tx;
      }
      n := n + 1;
    }
    return tx, true;
  }

  /** The tables cover the first k rows that the run has to process, and the query continues after them. */
  ghost predicate Continues(
    rows: seq<HistoryRow>, to: int, rest: seq<HistoryRow>, states: seq<Tables>, k: nat, position: int, tx: Tables)
    requires |states| == |rest| + 1
  {
    k <= |rest| && Matching(rows, 0, to, position, true) == rest[k..] && tx == states[k]
  }

  /** The onRows function on the result of a query. */
  method OnRows(
    cache: Cache, ghost rows: seq<HistoryRow>, ghost to: int, ghost bulk: nat, ghost checkpoint: int,
    ghost position: int, ghost rest: seq<HistoryRow>, ghost states: seq<Tables>, k: nat, page: seq<HistoryRow>,
    before: Tables, commitDue: nat -> bool, crash: Option<nat>)
    returns (tx: Tables, alive: bool)
    requires IsSource(rows) && bulk > 0 && rest == Matching(rows, 0, to, checkpoint, true)
    requires IsTrace(rest, states)
    requires Continues(rows, to, rest, states, k, position, before)
    requires cache.committed == states[LastDue(commitDue, k)]
    requires page == Query(rows, 0, to, position, bulk, true) && page != []
    modifies cache
    ensures k + |page| <= |rest|
    ensures alive ==> Continues(rows, to, rest, states, k + |page|, page[|page| - 1].id, tx)
    ensures alive ==> cache.committed == states[LastDue(commitDue, k + |page|)]
    ensures alive <==> !(crash.Some? && k <= crash.value < k + |page|)
    ensures !alive ==> cache.committed == states[LastDue(commitDue, crash.value)]
  {
    CheckpointStep(rows, 0, to, checkpoint, position, bulk, true, k);
    assert page == rest[k..k + |page|];
    tx, alive := ProcessPage(cache, rest, states, k, page, before, commitDue, crash);
  }

  /** The query loop. */
  method ReadPages(
    cache: Cache, rows: seq<HistoryRow>, to: int, bulk: nat, checkpoint: int, ghost rest: seq<HistoryRow>,
    ghost states: seq<Tables>, commitDue: nat -> bool, crash: Option<nat>)
    returns (tx: Tables, alive: bool)
    requires IsSource(rows) && bulk > 0 && rest == Matching(rows, 0, to, checkpoint, true)
    requires IsTrace(rest, states) && cache.committed == states[0]
    modifies cache
    ensures alive ==> tx == states[|rest|]
    ensures !alive ==>
      crash.Some? && cache.committed == states[LastDue(commitDue, Processed(crash.value, |rest|))]
    ensures alive <==> crash.None?
  {
    tx := cache.committed;
    var position: int := checkpoint;
    var k: nat := 0;
    assert rest[0..] == rest;
    while true
      invariant Continues(rows, to, rest, states, k, position, tx)
      invariant cache.committed == states[LastDue(commitDue, k)]
      invariant crash.Some? ==> k <= crash.value
      decreases |rest| - k
    {
      var page := Query(rows, 0, to, position, bulk, true);
      if |page| < 1 {
        break;
      }
      tx, alive := OnRows(cache, rows, to, bulk, checkpoint, position, rest, states, k, page, tx, commitDue, crash);
      if !alive {
        return;
      }
      position := page[|page| - 1].id;
      k := k + |page|;
    }
    alive := crash.None?;
  }

  /** A killed run leaves what its last periodic commit has covered, or what it has found. */
  ghost predicate IsKilled(
    rows: seq<HistoryRow>, before: Tables, after: Tables, commitDue: nat -> bool, crash: nat)
  {
    || (before == after == Final(rows))
    || exists k :: IsKilledAt(rows, before, after, commitDue, crash, k)
  }

  ghost predicate IsKilledAt(
    rows: seq<HistoryRow>, before: Tables, after: Tables, commitDue: nat -> bool, crash: nat, k: nat)
  {
    && k <= |rows| && before == Fold(rows, k)
    && after == Fold(rows, k + LastDue(commitDue, Processed(crash, |rows| - k)))
  }

  lemma KilledIsPartial(
    rows: seq<HistoryRow>, before: Tables, after: Tables, commitDue: nat -> bool, crash: nat)
    requires IsKilled(rows, before, after, commitDue, crash)
    ensures IsPartial(rows, after)
  {
  }

  /** One run of the program, from whatever cache it finds. crash: the number of rows after which the process is killed,
      if it is. */
  method Build(
    cache: Cache, rows: seq<HistoryRow>, to: int, bulk: nat, commitDue: nat -> bool, crash: Option<nat>)
    returns (finished: bool)
    requires IsSource(rows) && bulk > 0 && UpTo(rows, to)
    requires IsPartial(rows, cache.committed)
    modifies cache
    ensures IsPartial(rows, cache.committed)
    ensures finished ==> cache.committed == Final(rows)
    ensures !finished ==> crash.Some? && IsKilled(rows, old(cache.committed), cache.committed, commitDue, crash.value)
    ensures crash.None? <==> finished
  {
    var checkpoint := Checkpoint(cache.committed, rows);
    ghost var before := cache.committed;
    ghost var k, states := StartOf(rows, before, checkpoint, to);
    var tx, alive := ReadPages(cache, rows, to, bulk, checkpoint, rows[k..], states, commitDue, crash);
    if !alive {
      KilledAt(rows, before, k, states, commitDue, crash.value);
      KilledIsPartial(rows, before, cache.committed, commitDue, crash.value);
      return false;
    }
    FinishPass(cache, tx);
    return true;
  }

  /** The statements after the last row, and the last commit. */
  method FinishPass(cache: Cache, tx: Tables)
    modifies cache
    ensures cache.committed == Finish(tx)
  {
    var t := tx;
    t := t.(previousHardState := t.previousHardState + map id | id in t.nextIds :: PENDING);
    t := t.(nextHardState := map[]);
    t := t.(nextIds := map[]);
    cache.committed := t;
  }

  lemma RowIsNew(rows: seq<HistoryRow>, k: nat)
    requires IsSource(rows) && k < |rows|
    ensures rows[k].id !in Fold(rows, k).previousHardState && rows[k].id !in Fold(rows, k).nextIds
    ensures Fold(rows, k).previousHardState.Keys !! Fold(rows, k).nextIds.Keys
  {
    var t := Fold(rows, k);
    FoldHasInv(rows, k);
    forall id | id in t.previousHardState || id in t.nextIds
      ensures id != rows[k].id && !(id in t.previousHardState && id in t.nextIds)
    {
      assert KnownId(rows, k, id);
      var i :| 0 <= i < k && rows[i].id == id;
      assert RowDone(rows, k, t, i);
      assert Beyond(rows[k].id, rows[i].id, true);
    }
  }

  /** The tables of the fold after the first k rows and more, or the final ones if the pass is over. */
  ghost predicate IsFoldTrace(rows: seq<HistoryRow>, t: Tables, k: nat, states: seq<Tables>) {
    && k <= |rows| && |states| == |rows| - k + 1 && states[0] == t
    && Finish(states[|rows| - k]) == Final(rows)
    && ((t == Final(rows) && k == |rows|)
        || forall j :: 0 <= j < |states| ==> states[j] == Fold(rows, k + j))
  }

  lemma FinishTwice(t: Tables)
    ensures Finish(Finish(t)) == Finish(t)
  {
  }

  lemma FoldNext(rows: seq<HistoryRow>, k: nat)
    requires IsSource(rows) && k < |rows|
    ensures Fold(rows, k + 1) == Process(Fold(rows, k), rows[k])
    ensures rows[k].id !in Fold(rows, k).previousHardState && rows[k].id !in Fold(rows, k).nextIds
    ensures Fold(rows, k).previousHardState.Keys !! Fold(rows, k).nextIds.Keys
  {
    RowIsNew(rows, k);
  }

  lemma {:induction false} FoldTrace(rows: seq<HistoryRow>, k: nat) returns (states: seq<Tables>)
    requires IsSource(rows) && k <= |rows|
    ensures |states| == |rows| - k + 1 && forall j :: 0 <= j < |states| ==> states[j] == Fold(rows, k + j)
    ensures IsTrace(rows[k..], states)
    decreases |rows| - k
  {
    if k == |rows| {
      states := [Fold(rows, k)];
    } else {
      var rest := FoldTrace(rows, k + 1);
      states := [Fold(rows, k)] + rest;
      FoldNext(rows, k);
      assert rest[0] == Fold(rows, k + 1);
      TraceCons(rows[k], Fold(rows, k), rows[k + 1..], rest);
      assert rows[k..] == [rows[k]] + rows[k + 1..];
    }
  }

  lemma TraceCons(row: HistoryRow, t: Tables, rest: seq<HistoryRow>, states: seq<Tables>)
    requires IsTrace(rest, states) && TraceStep([row], [t, states[0]], 0)
    ensures IsTrace([row] + rest, [t] + states)
  {
    forall j: nat | j < |rest| + 1 ensures TraceStep([row] + rest, [t] + states, j) {
      if j > 0 {
        assert TraceStep(rest, states, j - 1);
      }
    }
  }

  /** The number of rows that a cache left behind already covers, and the tables from there on. */
  lemma StartOf(rows: seq<HistoryRow>, t: Tables, checkpoint: int, to: int) returns (k: nat, states: seq<Tables>)
    requires IsSource(rows) && IsPartial(rows, t) && IsCheckpointId(t, checkpoint) && UpTo(rows, to)
    ensures k <= |rows| && rows[k..] == Matching(rows, 0, to, checkpoint, true)
    ensures IsTrace(rows[k..], states) && IsFoldTrace(rows, t, k, states)
  {
    if j :| 0 <= j <= |rows| && t == Fold(rows, j) {
      k := j;
      states := FoldTrace(rows, k);
      StartOfFold(rows, k, checkpoint, to);
    } else {
      k, states := |rows|, [t];
      StartOfFinal(rows, checkpoint, to);
    }
  }

  lemma StartOfFold(rows: seq<HistoryRow>, k: nat, checkpoint: int, to: int)
    requires IsSource(rows) && k <= |rows| && IsCheckpointId(Fold(rows, k), checkpoint) && UpTo(rows, to)
    ensures rows[k..] == Matching(rows, 0, to, checkpoint, true)
  {
    CheckpointIsLastProcessed(rows, k);
    RestIsUnprocessed(rows, k, to);
  }

  lemma StartOfFinal(rows: seq<HistoryRow>, checkpoint: int, to: int)
    requires IsSource(rows) && IsCheckpointId(Final(rows), checkpoint) && UpTo(rows, to)
    ensures Matching(rows, 0, to, checkpoint, true) == [] && Finish(Final(rows)) == Final(rows)
  {
    FinishTwice(Fold(rows, |rows|));
    if rows != [] {
      FinalIsEmptyOnlyIfSourceIs(rows);
    }
    NoneMatch(rows, to);
  }

  lemma KilledAt(
    rows: seq<HistoryRow>, before: Tables, k: nat, states: seq<Tables>, commitDue: nat -> bool, crash: nat)
    requires IsFoldTrace(rows, before, k, states)
    ensures IsKilled(rows, before, states[LastDue(commitDue, Processed(crash, |rows| - k))], commitDue, crash)
  {
    var after := states[LastDue(commitDue, Processed(crash, |rows| - k))];
    if forall j :: 0 <= j < |states| ==> states[j] == Fold(rows, k + j) {
      assert IsKilledAt(rows, before, after, commitDue, crash, k);
    }
  }

  /** Crashes are invisible: whatever runs were killed before, and wherever, a run that gets through leaves the cache
      of one uninterrupted pass, which is the look-back. */
  method BuildWithCrashes(
    cache: Cache, rows: seq<HistoryRow>, to: int, bulk: nat, commitDue: nat -> bool, crashes: seq<nat>)
    requires IsSource(rows) && bulk > 0 && UpTo(rows, to)
    requires cache.committed == EMPTY
    modifies cache
    ensures cache.committed == Final(rows)
    ensures IsCacheOf(rows, cache.committed.previousHardState)
  {
    assert cache.committed == Fold(rows, 0);
    for a := 0 to |crashes|
      invariant IsPartial(rows, cache.committed)
    {
      var _ := Build(cache, rows, to, bulk, commitDue, Some(crashes[a]));
    }
    var finished := Build(cache, rows, to, bulk, commitDue, None);
    CacheIsLookBack(rows);
  }
}

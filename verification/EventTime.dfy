/** buildEventTimeCache: a single forward pass that remembers for each end event when it started. */
module EventTime {
  import opened Wrappers
  import opened ChunkCacheTx
  import opened Paging

  /** Seconds and microseconds as the IDO has them. */
  datatype Time = Time(ts: int, usec: nat)

  datatype Event = Event(objectId: nat, time: Time, isStart: bool)

  type EventRow = Row<Event>

  datatype Tables = Tables(endStart: map<nat, Time>, lastStart: map<nat, Time>)

  const EMPTY := Tables(map[], map[])

  /** The source table, oldest row first. IDs are positive, as 0 is the checkpoint before the first row. */
  ghost predicate IsSource(rows: seq<EventRow>) {
    InOrder(rows, false) && forall r <- rows :: r.id > 0
  }

  /* ---------- Specification ---------- */

  /** Row j is the last row of object o among the first k. */
  ghost predicate IsLastOf(rows: seq<EventRow>, k: nat, o: nat, j: nat)
    requires k <= |rows|
  {
    && j < k && rows[j].value.objectId == o
    && forall i :: j < i < k ==> rows[i].value.objectId != o
  }

  /** Row k is an end, and the directly preceding row of the same object, row j, is a start. */
  ghost predicate Paired(rows: seq<EventRow>, j: nat, k: nat)
    requires k < |rows|
  {
    !rows[k].value.isStart && IsLastOf(rows, k, rows[k].value.objectId, j) && rows[j].value.isStart
  }

  /** Exactly the paired ends have an entry, which is the time of their start. */
  ghost predicate IsCacheOf(rows: seq<EventRow>, cache: map<nat, Time>) {
    && (forall j, k :: 0 <= j < k < |rows| && Paired(rows, j, k) ==>
          rows[k].id in cache && cache[rows[k].id] == rows[j].value.time)
    && (forall id <- cache :: exists j, k :: 0 <= j < k < |rows| && Paired(rows, j, k) && rows[k].id == id)
  }

  /* ---------- The pass as a fold ---------- */

  function Process(t: Tables, row: EventRow): Tables {
    var o := row.value.objectId;
    if row.value.isStart then t.(lastStart := t.lastStart[o := row.value.time])
    else if o in t.lastStart then Tables(t.endStart[row.id := t.lastStart[o]], t.lastStart - {o})
    else t
  }

  /** The tables after some rows, from tables that an earlier run left. */
  function FoldFrom(t: Tables, rows: seq<EventRow>): Tables {
    if rows == [] then t else Process(FoldFrom(t, rows[..|rows| - 1]), rows[|rows| - 1])
  }

  function Fold(rows: seq<EventRow>, k: nat): Tables
    requires k <= |rows|
  {
    FoldFrom(EMPTY, rows[..k])
  }

  function Finish(t: Tables): Tables {
    t.(lastStart := map[])
  }

  lemma FoldStep(t: Tables, rows: seq<EventRow>, k: nat)
    requires k < |rows|
    ensures FoldFrom(t, rows[..k + 1]) == Process(FoldFrom(t, rows[..k]), rows[k])
  {
    assert rows[..k + 1][..k] == rows[..k];
  }

  /* ---------- The fold is the pairing ---------- */

  ghost predicate StartPending(rows: seq<EventRow>, k: nat, o: nat, j: nat)
    requires k <= |rows|
  {
    IsLastOf(rows, k, o, j) && rows[j].value.isStart
  }

  ghost predicate FoldInv(rows: seq<EventRow>, k: nat, t: Tables)
    requires k <= |rows|
  {
    && (forall o <- t.lastStart :: exists j: nat :: StartPending(rows, k, o, j) && t.lastStart[o] == rows[j].value.time)
    && (forall o, j: nat :: StartPending(rows, k, o, j) ==> o in t.lastStart)
    && (forall j, i :: 0 <= j < i < k && Paired(rows, j, i) ==>
          rows[i].id in t.endStart && t.endStart[rows[i].id] == rows[j].value.time)
    && (forall id <- t.endStart :: exists j, i :: 0 <= j < i < k && Paired(rows, j, i) && rows[i].id == id)
  }

  lemma LastIsUnique(rows: seq<EventRow>, k: nat, o: nat, i: nat, j: nat)
    requires k <= |rows| && IsLastOf(rows, k, o, i) && IsLastOf(rows, k, o, j)
    ensures i == j
  {
  }

  lemma PendingStep(rows: seq<EventRow>, k: nat, t: Tables)
    requires IsSource(rows) && k < |rows| && FoldInv(rows, k, t)
    ensures
      var u, n := Process(t, rows[k]), k + 1;
      && (forall o <- u.lastStart ::
          exists j: nat :: StartPending(rows, n, o, j) && u.lastStart[o] == rows[j].value.time)
      && (forall o, j: nat :: StartPending(rows, n, o, j) ==> o in u.lastStart)
  {
    var u, n, row := Process(t, rows[k]), k + 1, rows[k];
    forall o | o in u.lastStart
      ensures exists j: nat :: StartPending(rows, n, o, j) && u.lastStart[o] == rows[j].value.time
    {
      if o == row.value.objectId {
        assert StartPending(rows, n, o, k);
      } else {
        var j: nat :| StartPending(rows, k, o, j) && t.lastStart[o] == rows[j].value.time;
        assert StartPending(rows, n, o, j);
      }
    }
    forall o, j: nat | StartPending(rows, n, o, j)
      ensures o in u.lastStart
    {
      if o != row.value.objectId {
        assert StartPending(rows, k, o, j);
      } else {
        assert j == k;
      }
    }
  }

  /** The entry of a new end is the time of its start. */
  lemma NewPair(rows: seq<EventRow>, k: nat, t: Tables, j: nat)
    requires k < |rows| && FoldInv(rows, k, t) && Paired(rows, j, k)
    ensures rows[k].value.objectId in t.lastStart && t.lastStart[rows[k].value.objectId] == rows[j].value.time
  {
    var o := rows[k].value.objectId;
    assert StartPending(rows, k, o, j);
    var s: nat :| StartPending(rows, k, o, s) && t.lastStart[o] == rows[s].value.time;
    LastIsUnique(rows, k, o, s, j);
  }

  lemma PairedStep(rows: seq<EventRow>, k: nat, t: Tables)
    requires IsSource(rows) && k < |rows| && FoldInv(rows, k, t)
    ensures
      var u, n := Process(t, rows[k]), k + 1;
      && (forall j, i :: 0 <= j < i < n && Paired(rows, j, i) ==>
            rows[i].id in u.endStart && u.endStart[rows[i].id] == rows[j].value.time)
      && (forall id <- u.endStart :: exists j, i :: 0 <= j < i < n && Paired(rows, j, i) && rows[i].id == id)
  {
    var u, n, row := Process(t, rows[k]), k + 1, rows[k];
    forall j, i | 0 <= j < i < n && Paired(rows, j, i)
      ensures rows[i].id in u.endStart && u.endStart[rows[i].id] == rows[j].value.time
    {
      if i == k {
        NewPair(rows, k, t, j);
      } else {
        IdsIncrease(rows, i, k);
      }
    }
    forall id | id in u.endStart
      ensures exists j, i :: 0 <= j < i < n && Paired(rows, j, i) && rows[i].id == id
    {
      PairOfEntry(rows, k, t, id);
    }
  }

  lemma PairOfEntry(rows: seq<EventRow>, k: nat, t: Tables, id: nat)
    requires k < |rows| && FoldInv(rows, k, t) && id in Process(t, rows[k]).endStart
    ensures exists j, i :: 0 <= j < i < k + 1 && Paired(rows, j, i) && rows[i].id == id
  {
    var o := rows[k].value.objectId;
    if id in t.endStart {
      var j, i :| 0 <= j < i < k && Paired(rows, j, i) && rows[i].id == id;
      assert i < k + 1;
    } else {
      var s: nat :| StartPending(rows, k, o, s) && t.lastStart[o] == rows[s].value.time;
      assert Paired(rows, s, k);
    }
  }

  lemma {:induction false} FoldHasInv(rows: seq<EventRow>, k: nat)
    requires IsSource(rows) && k <= |rows|
    ensures FoldInv(rows, k, Fold(rows, k))
  {
    if k > 0 {
      FoldHasInv(rows, k - 1);
      FoldStep(EMPTY, rows, k - 1);
      PendingStep(rows, k - 1, Fold(rows, k - 1));
      PairedStep(rows, k - 1, Fold(rows, k - 1));
    }
  }

  /** An uninterrupted pass caches exactly the paired ends. */
  lemma CacheIsPairing(rows: seq<EventRow>)
    requires IsSource(rows)
    ensures IsCacheOf(rows, Fold(rows, |rows|).endStart)
  {
    FoldHasInv(rows, |rows|);
  }

  /* ---------- Restart ---------- */

  /** The checkpoint of a run that finds a cache: MAX(history_id) of end_start_time, or 0. */
  ghost predicate IsCheckpointId(t: Tables, checkpoint: nat) {
    if t.endStart == map[] then checkpoint == 0
    else checkpoint in t.endStart && IsMax(t.endStart.Keys, checkpoint)
  }

  predicate IsMax(s: set<nat>, m: nat) {
    m in s && forall x <- s :: x <= m
  }

  /** m rows lie up to the checkpoint. */
  ghost predicate IsResumePoint(rows: seq<EventRow>, k: nat, m: nat)
    requires k <= |rows|
  {
    && m <= k
    && (m == 0 ==> Fold(rows, k).endStart == map[])
    && (m > 0 ==> IsCheckpointId(Fold(rows, k), rows[m - 1].id) && Fold(rows, k).endStart != map[])
  }

  /** A run killed with k rows committed, and then one that continues from its checkpoint, which is after m rows. */
  function Resumed(rows: seq<EventRow>, k: nat, m: nat): Tables
    requires m <= k <= |rows|
  {
    FoldFrom(Fold(rows, k), rows[m..])
  }

  /** Between checkpoint and crash, an end of some object comes before a start of the same object. */
  ghost predicate Rematch(rows: seq<EventRow>, k: nat, m: nat)
    requires k <= |rows|
  {
    exists e, s :: IsRematch(rows, k, m, e, s)
  }

  ghost predicate IsRematch(rows: seq<EventRow>, k: nat, m: nat, e: nat, s: nat)
    requires k <= |rows|
  {
    && m <= e < s < k
    && !rows[e].value.isStart && rows[s].value.isStart && rows[e].value.objectId == rows[s].value.objectId
  }

  lemma CachedIsPaired(rows: seq<EventRow>, k: nat, id: nat) returns (j: nat, i: nat)
    requires IsSource(rows) && k <= |rows| && id in Fold(rows, k).endStart
    ensures j < i < k && Paired(rows, j, i) && rows[i].id == id
  {
    FoldHasInv(rows, k);
    j, i :| 0 <= j < i < k && Paired(rows, j, i) && rows[i].id == id;
  }

  lemma PairedIsCached(rows: seq<EventRow>, k: nat, j: nat, i: nat)
    requires IsSource(rows) && j < i < k <= |rows| && Paired(rows, j, i)
    ensures rows[i].id in Fold(rows, k).endStart
  {
    FoldHasInv(rows, k);
  }

  lemma NotPaired(rows: seq<EventRow>, k: nat, m: nat, i: nat, j: nat)
    requires IsSource(rows) && k <= |rows| && IsResumePoint(rows, k, m)
    requires m <= i < k && j < i
    ensures !Paired(rows, j, i)
  {
    if Paired(rows, j, i) {
      PairedIsCached(rows, k, j, i);
      IdsIncrease(rows, m - 1, i);
    }
  }

  lemma IdsIncrease(rows: seq<EventRow>, i: nat, j: nat)
    requires IsSource(rows) && i < j < |rows|
    ensures rows[i].id < rows[j].id
  {
    assert Beyond(rows[j].id, rows[i].id, false);
  }

  /** After the checkpoint, the interrupted run has met no end with a start. */
  lemma NoPairAfterCheckpoint(rows: seq<EventRow>, k: nat, m: nat, i: nat)
    requires IsSource(rows) && k <= |rows| && IsResumePoint(rows, k, m)
    requires m <= i < k && !rows[i].value.isStart
    ensures rows[i].value.objectId !in Fold(rows, i).lastStart
  {
    FoldHasInv(rows, i);
    var o := rows[i].value.objectId;
    if o in Fold(rows, i).lastStart {
      var j: nat :| StartPending(rows, i, o, j) && Fold(rows, i).lastStart[o] == rows[j].value.time;
      NotPaired(rows, k, m, i, j);
      assert Paired(rows, j, i);
    }
  }

  lemma NeverCached(rows: seq<EventRow>, k: nat, m: nat, i: nat)
    requires IsSource(rows) && k <= |rows| && IsResumePoint(rows, k, m)
    requires m <= i < k
    ensures rows[i].id !in Fold(rows, |rows|).endStart
  {
    if rows[i].id in Fold(rows, |rows|).endStart {
      var j, l := CachedIsPaired(rows, |rows|, rows[i].id);
      if l < i {
        IdsIncrease(rows, l, i);
      } else if i < l {
        IdsIncrease(rows, i, l);
      }
      NotPaired(rows, k, m, i, j);
    }
  }

  /** A start after the checkpoint is still pending when the run is killed, so its object has an entry. */
  lemma {:induction false} StartStaysPending(rows: seq<EventRow>, k: nat, m: nat, s: nat, j: nat)
    requires IsSource(rows) && k <= |rows| && IsResumePoint(rows, k, m)
    requires m <= s < j <= k && rows[s].value.isStart
    ensures rows[s].value.objectId in Fold(rows, j).lastStart
  {
    FoldStep(EMPTY, rows, j - 1);
    if j - 1 > s {
      StartStaysPending(rows, k, m, s, j - 1);
      if !rows[j - 1].value.isStart {
        NoPairAfterCheckpoint(rows, k, m, j - 1);
      }
    }
  }

  /** Object o has a start among rows m..j-1. */
  ghost predicate StartedIn(rows: seq<EventRow>, m: nat, j: nat, o: nat)
    requires j <= |rows|
  {
    exists s :: m <= s < j && rows[s].value.isStart && rows[s].value.objectId == o
  }

  /** The resumed run after it has repeated rows m..j-1, if nothing is matched again. */
  ghost predicate Repeated(rows: seq<EventRow>, k: nat, m: nat, j: nat, t: Tables)
    requires m <= j <= k <= |rows|
  {
    && t.endStart == Fold(rows, k).endStart
    && forall o ::
         if StartedIn(rows, m, j, o) then
           o in t.lastStart && o in Fold(rows, j).lastStart && t.lastStart[o] == Fold(rows, j).lastStart[o]
         else
           && (o in t.lastStart <==> o in Fold(rows, k).lastStart)
           && (o in t.lastStart ==> t.lastStart[o] == Fold(rows, k).lastStart[o])
  }

  /** The object of an end that is repeated has had no start since the checkpoint. */
  lemma NoStartBeforeEnd(rows: seq<EventRow>, k: nat, m: nat, j: nat)
    requires IsSource(rows) && k <= |rows| && IsResumePoint(rows, k, m)
    requires m <= j < k && !rows[j].value.isStart
    ensures !StartedIn(rows, m, j, rows[j].value.objectId)
  {
    var o := rows[j].value.objectId;
    if StartedIn(rows, m, j, o) {
      var s :| m <= s < j && rows[s].value.isStart && rows[s].value.objectId == o;
      StartStaysPending(rows, k, m, s, j);
      NoPairAfterCheckpoint(rows, k, m, j);
    }
  }

  /** Without a later start, its object has none when the run is killed. */
  lemma {:induction false} NoneAtCrash(rows: seq<EventRow>, k: nat, m: nat, e: nat, j: nat)
    requires IsSource(rows) && k <= |rows| && IsResumePoint(rows, k, m)
    requires m <= e < j <= k && !rows[e].value.isStart
    requires forall s :: e < s < j && rows[s].value.isStart ==> rows[s].value.objectId != rows[e].value.objectId
    ensures rows[e].value.objectId !in Fold(rows, j).lastStart
  {
    FoldStep(EMPTY, rows, j - 1);
    if j - 1 > e {
      NoneAtCrash(rows, k, m, e, j - 1);
    } else {
      NoPairAfterCheckpoint(rows, k, m, e);
    }
  }

  /** Without a rematch, a repeated end finds no start again. */
  lemma RepeatedEnd(rows: seq<EventRow>, k: nat, m: nat, j: nat, t: Tables)
    requires IsSource(rows) && k <= |rows| && IsResumePoint(rows, k, m) && !Rematch(rows, k, m)
    requires m <= j < k && Repeated(rows, k, m, j, t) && !rows[j].value.isStart
    ensures Process(t, rows[j]) == t && Process(Fold(rows, j), rows[j]) == Fold(rows, j)
  {
    NoStartBeforeEnd(rows, k, m, j);
    forall s | j < s < k && rows[s].value.isStart ensures rows[s].value.objectId != rows[j].value.objectId {
      assert !IsRematch(rows, k, m, j, s);
    }
    NoneAtCrash(rows, k, m, j, k);
    NoPairAfterCheckpoint(rows, k, m, j);
  }

  lemma StartedInNext(rows: seq<EventRow>, m: nat, j: nat, o: nat)
    requires m <= j < |rows|
    ensures StartedIn(rows, m, j + 1, o)
       <==> StartedIn(rows, m, j, o) || (rows[j].value.isStart && rows[j].value.objectId == o)
  {
  }

  lemma RepeatStep(rows: seq<EventRow>, k: nat, m: nat, j: nat, t: Tables)
    requires IsSource(rows) && k <= |rows| && IsResumePoint(rows, k, m) && !Rematch(rows, k, m)
    requires m <= j < k && Repeated(rows, k, m, j, t)
    ensures Repeated(rows, k, m, j + 1, Process(t, rows[j]))
  {
    FoldStep(EMPTY, rows, j);
    if !rows[j].value.isStart {
      RepeatedEnd(rows, k, m, j, t);
    }
    RepeatSame(rows, k, m, j, t);
  }

  lemma RepeatSame(rows: seq<EventRow>, k: nat, m: nat, j: nat, t: Tables)
    requires m <= j < k <= |rows| && Repeated(rows, k, m, j, t)
    requires Fold(rows, j + 1) == Process(Fold(rows, j), rows[j])
    requires !rows[j].value.isStart ==> Process(t, rows[j]) == t && Process(Fold(rows, j), rows[j]) == Fold(rows, j)
    ensures Repeated(rows, k, m, j + 1, Process(t, rows[j]))
  {
    var u, n := Process(t, rows[j]), j + 1;
    forall o
      ensures if StartedIn(rows, m, n, o) then
           o in u.lastStart && o in Fold(rows, n).lastStart && u.lastStart[o] == Fold(rows, n).lastStart[o]
         else
           && (o in u.lastStart <==> o in Fold(rows, k).lastStart)
           && (o in u.lastStart ==> u.lastStart[o] == Fold(rows, k).lastStart[o])
    {
      StartedInNext(rows, m, j, o);
    }
  }

  lemma RepeatNone(rows: seq<EventRow>, k: nat, m: nat)
    requires m <= k <= |rows|
    ensures Repeated(rows, k, m, m, Fold(rows, k))
  {
  }

  ghost predicate RepeatedRows(rows: seq<EventRow>, k: nat, m: nat, j: nat)
    requires m <= j <= k <= |rows|
  {
    Repeated(rows, k, m, j, FoldFrom(Fold(rows, k), rows[m..j]))
  }

  lemma RepeatOne(rows: seq<EventRow>, k: nat, m: nat, j: nat)
    requires IsSource(rows) && k <= |rows| && IsResumePoint(rows, k, m) && !Rematch(rows, k, m)
    requires m <= j < k && RepeatedRows(rows, k, m, j)
    ensures RepeatedRows(rows, k, m, j + 1)
  {
    FoldSnoc(Fold(rows, k), rows, m, j + 1);
    RepeatStep(rows, k, m, j, FoldFrom(Fold(rows, k), rows[m..j]));
  }

  lemma {:induction false} RepeatAll(rows: seq<EventRow>, k: nat, m: nat, j: nat)
    requires IsSource(rows) && k <= |rows| && IsResumePoint(rows, k, m) && !Rematch(rows, k, m)
    requires m <= j <= k
    ensures RepeatedRows(rows, k, m, j)
    decreases j
  {
    if j == m {
      assert rows[m..j] == [];
      RepeatNone(rows, k, m);
    } else {
      RepeatAll(rows, k, m, j - 1);
      RepeatOne(rows, k, m, j - 1);
    }
  }

  lemma FoldSnoc(t: Tables, rows: seq<EventRow>, m: nat, j: nat)
    requires m < j <= |rows|
    ensures FoldFrom(t, rows[m..j]) == Process(FoldFrom(t, rows[m..j - 1]), rows[j - 1])
  {
    assert rows[m..j][..j - m - 1] == rows[m..j - 1];
  }

  lemma RepeatedIsSame(rows: seq<EventRow>, k: nat, m: nat, t: Tables)
    requires m <= k <= |rows| && Repeated(rows, k, m, k, t)
    ensures t == Fold(rows, k)
  {
    forall o
      ensures o in t.lastStart <==> o in Fold(rows, k).lastStart
      ensures o in t.lastStart ==> t.lastStart[o] == Fold(rows, k).lastStart[o]
    {
      assert StartedIn(rows, m, k, o) || !StartedIn(rows, m, k, o);
    }
    assert t.lastStart == Fold(rows, k).lastStart;
  }

  lemma {:induction false} FoldAppend(t: Tables, a: seq<EventRow>, b: seq<EventRow>)
    ensures FoldFrom(t, a + b) == FoldFrom(FoldFrom(t, a), b)
    decreases |b|
  {
    if b == [] {
      assert a + b == a;
    } else {
      assert (a + b)[..|a + b| - 1] == a + b[..|b| - 1];
      FoldAppend(t, a, b[..|b| - 1]);
    }
  }

  /** If nothing is matched again, the killed and resumed run ends like an uninterrupted one. */
  lemma ResumeIsInvisible(rows: seq<EventRow>, k: nat, m: nat)
    requires IsSource(rows) && k <= |rows| && IsResumePoint(rows, k, m) && !Rematch(rows, k, m)
    ensures Resumed(rows, k, m) == Fold(rows, |rows|)
  {
    RepeatAll(rows, k, m, k);
    RepeatedIsSame(rows, k, m, FoldFrom(Fold(rows, k), rows[m..k]));
    FoldInTwo(Fold(rows, k), rows, m, k);
    FoldInTwo(EMPTY, rows, 0, k);
    assert rows[0..k] == rows[..k] && rows[0..] == rows[..|rows|];
  }

  lemma FoldInTwo(t: Tables, rows: seq<EventRow>, m: nat, k: nat)
    requires m <= k <= |rows|
    ensures FoldFrom(t, rows[m..]) == FoldFrom(FoldFrom(t, rows[m..k]), rows[k..])
  {
    FoldAppend(t, rows[m..k], rows[k..]);
    assert rows[m..k] + rows[k..] == rows[m..];
  }

  /* ---------- Restart when an end is matched again ---------- */

  lemma {:induction false} EndStartGrows(t: Tables, rows: seq<EventRow>, j: nat, id: nat)
    requires j <= |rows| && id in FoldFrom(t, rows[..j]).endStart
    ensures id in FoldFrom(t, rows).endStart
    decreases |rows| - j
  {
    if j < |rows| {
      FoldStep(t, rows, j);
      EndStartGrows(t, rows, j + 1, id);
    } else {
      assert rows[..j] == rows;
    }
  }

  /** Rows of other objects leave an object's pending start alone. */
  lemma {:induction false} OthersDoNotTouch(t: Tables, rows: seq<EventRow>, o: nat)
    requires forall r <- rows :: r.value.objectId != o
    ensures o in FoldFrom(t, rows).lastStart <==> o in t.lastStart
  {
    if rows != [] {
      OthersDoNotTouch(t, rows[..|rows| - 1], o);
    }
  }

  lemma {:induction false} FirstRematch(rows: seq<EventRow>, k: nat, m: nat, e: nat, s: nat) returns (f: nat)
    requires k <= |rows| && IsRematch(rows, k, m, e, s)
    ensures f <= e && IsRematch(rows, k, m, f, s)
    ensures forall i :: m <= i < f && rows[i].value.objectId == rows[f].value.objectId ==> rows[i].value.isStart
    decreases e
  {
    if i :| m <= i < e && rows[i].value.objectId == rows[e].value.objectId && !rows[i].value.isStart {
      f := FirstRematch(rows, k, m, i, s);
    } else {
      f := e;
    }
  }

  /** A repeated end whose object has a start pending gets matched. */
  lemma MatchedAgain(t: Tables, rows: seq<EventRow>, m: nat, e: nat)
    requires m <= e < |rows| && !rows[e].value.isStart && rows[e].value.objectId in t.lastStart
    requires forall i :: m <= i < e ==> rows[i].value.objectId != rows[e].value.objectId
    ensures rows[e].id in FoldFrom(t, rows[m..]).endStart
  {
    var rest := rows[m..];
    OthersDoNotTouch(t, rest[..e - m], rows[e].value.objectId);
    FoldStep(t, rest, e - m);
    EndStartGrows(t, rest, e - m + 1, rows[e].id);
  }

  /** Otherwise the resumed run caches an end that the uninterrupted one does not. */
  lemma ResumeIsVisible(rows: seq<EventRow>, k: nat, m: nat)
    requires IsSource(rows) && k <= |rows| && IsResumePoint(rows, k, m) && Rematch(rows, k, m)
    ensures Resumed(rows, k, m).endStart != Fold(rows, |rows|).endStart
  {
    var e0, s :| IsRematch(rows, k, m, e0, s);
    var e := FirstRematch(rows, k, m, e0, s);
    NoStartBeforeEnd(rows, k, m, e);
    assert forall i :: m <= i < e && rows[i].value.isStart ==> rows[i].value.objectId != rows[e].value.objectId;
    StartStaysPending(rows, k, m, s, k);
    MatchedAgain(Fold(rows, k), rows, m, e);
    NeverCached(rows, k, m, e);
  }

  /** Restarting is invisible if and only if no end event between checkpoint and crash is followed there by a start
      event of the same object. */
  lemma RestartIsInvisibleIff(rows: seq<EventRow>, k: nat, m: nat)
    requires IsSource(rows) && k <= |rows| && IsResumePoint(rows, k, m)
    ensures Resumed(rows, k, m).endStart == Fold(rows, |rows|).endStart <==> !Rematch(rows, k, m)
  {
    if Rematch(rows, k, m) {
      ResumeIsVisible(rows, k, m);
    } else {
      ResumeIsInvisible(rows, k, m);
    }
  }

  /** Two ends around a start: if the run is killed with two rows committed, the next one gives the first end, which has
      no start, the time of the start after it. */
  lemma RestartExample()
    ensures
      var rows := [Row(1, Event(7, Time(10, 0), false)), Row(2, Event(7, Time(20, 0), true)),
                   Row(3, Event(7, Time(30, 0), false))];
      && IsSource(rows) && IsResumePoint(rows, 2, 0)
      && Resumed(rows, 2, 0).endStart != Fold(rows, 3).endStart
  {
    var rows := [Row(1, Event(7, Time(10, 0), false)), Row(2, Event(7, Time(20, 0), true)),
                 Row(3, Event(7, Time(30, 0), false))];
    FoldStep(EMPTY, rows, 0);
    FoldStep(EMPTY, rows, 1);
    assert Fold(rows, 0) == EMPTY;
    assert IsRematch(rows, 2, 0, 0, 1);
    ResumeIsVisible(rows, 2, 0);
    assert rows[..3] == rows;
  }

  /* ---------- The pass with its transactions ---------- */

  ghost predicate UpTo(rows: seq<EventRow>, to: int) {
    forall r <- rows :: r.id <= to
  }

  class Cache {
    /** What survives a crash. */
    var committed: Tables

    constructor ()
      ensures committed == EMPTY
    {
      committed := EMPTY;
    }
  }

  lemma {:induction false} MaxExists(s: set<nat>) returns (m: nat)
    requires s != {}
    ensures IsMax(s, m)
  {
    var x :| x in s;
    var rest := s - {x};
    assert forall y <- s :: y == x || y in rest;
    if rest == {} {
      m := x;
    } else {
      m := MaxExists(rest);
      m := if x > m then x else m;
    }
  }

  method Checkpoint(t: Tables) returns (checkpoint: nat)
    ensures IsCheckpointId(t, checkpoint)
  {
    if t.endStart == map[] {
      checkpoint := 0;
    } else {
      assert t.endStart.Keys != {};
      ghost var m := MaxExists(t.endStart.Keys);
      var ids := t.endStart.Keys;
      checkpoint :| checkpoint in ids && IsMax(ids, checkpoint);
    }
  }

  /** The statements for one row. */
  method ProcessRow(tx: Tables, row: EventRow) returns (t: Tables)
    ensures t == Process(tx, row)
  {
    var o := row.value.objectId;
    t := tx;
    if !row.value.isStart {
      if o in t.lastStart {
        t := t.(endStart := t.endStart[row.id := t.lastStart[o]]);
        t := t.(lastStart := t.lastStart - {o});
      }
    } else {
      t := t.(lastStart := t.lastStart - {o});
      t := t.(lastStart := t.lastStart[o := row.value.time]);
      assert t.lastStart == tx.lastStart[o := row.value.time];
    }
  }

  /** states[j] are the tables after j rows. */
  ghost predicate IsTrace(start: Tables, rest: seq<EventRow>, states: seq<Tables>) {
    |states| == |rest| + 1 && states[0] == start && forall j :: 0 <= j < |rest| ==> TraceStep(rest, states, j)
  }

  ghost predicate TraceStep(rest: seq<EventRow>, states: seq<Tables>, j: nat)
    requires |states| == |rest| + 1 && j < |rest|
  {
    states[j + 1] == Process(states[j], rest[j])
  }

  lemma {:induction false} TraceExists(start: Tables, rest: seq<EventRow>) returns (states: seq<Tables>)
    ensures IsTrace(start, rest, states)
  {
    if rest == [] {
      states := [start];
    } else {
      var n := |rest| - 1;
      var s := TraceExists(start, rest[..n]);
      states := s + [Process(s[n], rest[n])];
      forall j | 0 <= j < |rest| ensures TraceStep(rest, states, j) {
        assert j < n ==> TraceStep(rest[..n], s, j);
      }
    }
  }

  lemma {:induction false} TraceIsFold(start: Tables, rest: seq<EventRow>, states: seq<Tables>, k: nat)
    requires IsTrace(start, rest, states) && k <= |rest|
    ensures states[k] == FoldFrom(start, rest[..k])
  {
    if k > 0 {
      TraceIsFold(start, rest, states, k - 1);
      FoldStep(start, rest, k - 1);
      assert TraceStep(rest, states, k - 1);
    }
  }

  /** The rows of one page, which are rows k, k + 1, ... of those that the run has to process. */
  method ProcessPage(
    cache: Cache, ghost start: Tables, ghost rest: seq<EventRow>, ghost states: seq<Tables>, k: nat,
    page: seq<EventRow>, before: Tables, commitDue: nat -> bool, crash: Option<nat>)
    returns (tx: Tables, alive: bool)
    requires IsTrace(start, rest, states) && k + |page| <= |rest| && page == rest[k..k + |page|]
    requires before == states[k] && cache.committed == states[LastDue(commitDue, k)]
    modifies cache
    ensures alive ==> tx == states[k + |page|] && cache.committed == states[LastDue(commitDue, k + |page|)]
    ensures alive <==> !(crash.Some? && k <= crash.value < k + |page|)
    ensures !alive ==> cache.committed == states[LastDue(commitDue, crash.value)]
  {
    tx := before;
    var n: nat := k;
    for i := 0 to |page|
      invariant n == k + i && tx == states[n]
      invariant cache.committed == states[LastDue(commitDue, n)]
      invariant crash.Some? ==> !(k <= crash.value < n)
    {
      if crash == Some(n) {
        return tx, false;
      }
      assert TraceStep(rest, states, n);
      tx := ProcessRow(tx, page[i]);
      if commitDue(n) {
        cache.committed := tx;
      }
      n := n + 1;
    }
    return tx, true;
  }

  /** One run of the program, from whatever cache it finds. */
  method Build(
    cache: Cache, rows: seq<EventRow>, to: int, bulk: nat, commitDue: nat -> bool, crash: Option<nat>)
    returns (finished: bool, checkpoint: nat)
    requires IsSource(rows) && bulk > 0
    modifies cache
    ensures IsCheckpointId(old(cache.committed), checkpoint)
    ensures finished ==>
      cache.committed == Finish(FoldFrom(old(cache.committed), Matching(rows, 0, to, checkpoint, false)))
    ensures !finished ==>
      var rest := Matching(rows, 0, to, checkpoint, false);
      && crash.Some?
      && cache.committed == FoldFrom(old(cache.committed), rest[..LastDue(commitDue, Processed(crash.value, |rest|))])
    ensures crash.None? <==> finished
  {
    checkpoint := Checkpoint(cache.committed);
    ghost var rest := Matching(rows, 0, to, checkpoint, false);
    ghost var states := TraceExists(cache.committed, rest);
    TraceIsFold(cache.committed, rest, states, |rest|);
    assert rest[..|rest|] == rest;
    if crash.Some? {
      TraceIsFold(cache.committed, rest, states, LastDue(commitDue, Processed(crash.value, |rest|)));
    }
    finished := BuildFrom(cache, rows, to, bulk, checkpoint, rest, states, commitDue, crash);
  }

  /** The tables cover the first k rows that the run has to process, and the query continues after them. */
  ghost predicate Continues(
    rows: seq<EventRow>, to: int, rest: seq<EventRow>, states: seq<Tables>, k: nat, position: int, tx: Tables)
    requires |states| == |rest| + 1
  {
    k <= |rest| && Matching(rows, 0, to, position, false) == rest[k..] && tx == states[k]
  }

  /** The onRows function on the result of a query. */
  method OnRows(
    cache: Cache, ghost rows: seq<EventRow>, ghost to: int, ghost bulk: nat, ghost checkpoint: nat,
    ghost position: int, ghost start: Tables, ghost rest: seq<EventRow>, ghost states: seq<Tables>, k: nat,
    page: seq<EventRow>, before: Tables, commitDue: nat -> bool, crash: Option<nat>)
    returns (tx: Tables, alive: bool)
    requires IsSource(rows) && bulk > 0 && rest == Matching(rows, 0, to, checkpoint, false)
    requires IsTrace(start, rest, states)
    requires Continues(rows, to, rest, states, k, position, before)
    requires cache.committed == states[LastDue(commitDue, k)]
    requires page == Query(rows, 0, to, position, bulk, false) && page != []
    modifies cache
    ensures k + |page| <= |rest|
    ensures alive ==> Continues(rows, to, rest, states, k + |page|, page[|page| - 1].id, tx)
    ensures alive ==> cache.committed == states[LastDue(commitDue, k + |page|)]
    ensures alive <==> !(crash.Some? && k <= crash.value < k + |page|)
    ensures !alive ==> cache.committed == states[LastDue(commitDue, crash.value)]
  {
    CheckpointStep(rows, 0, to, checkpoint, position, bulk, false, k);
    assert page == rest[k..k + |page|];
    tx, alive := ProcessPage(cache, start, rest, states, k, page, before, commitDue, crash);
  }

  method BuildFrom(
    cache: Cache, rows: seq<EventRow>, to: int, bulk: nat, checkpoint: nat, ghost rest: seq<EventRow>,
    ghost states: seq<Tables>, commitDue: nat -> bool, crash: Option<nat>)
    returns (finished: bool)
    requires IsSource(rows) && bulk > 0 && rest == Matching(rows, 0, to, checkpoint, false)
    requires IsTrace(cache.committed, rest, states)
    modifies cache
    ensures finished ==> cache.committed == Finish(states[|rest|])
    ensures !finished ==>
      crash.Some? && cache.committed == states[LastDue(commitDue, Processed(crash.value, |rest|))]
    ensures crash.None? <==> finished
  {
    var tx := cache.committed;
    ghost var start := tx;
    var position: int := checkpoint;
    var k: nat := 0;
    assert rest[0..] == rest;
    while true
      invariant Continues(rows, to, rest, states, k, position, tx)
      invariant cache.committed == states[LastDue(commitDue, k)]
      invariant crash.Some? ==> k <= crash.value
      decreases |rest| - k
    {
      var page := Query(rows, 0, to, position, bulk, false);
      if |page| < 1 {
        break;
      }
      var alive;
      tx, alive := OnRows(
        cache, rows, to, bulk, checkpoint, position, start, rest, states, k, page, tx, commitDue, crash);
      if !alive {
        return false;
      }
      position := page[|page| - 1].id;
      k := k + |page|;
    }
    if crash.Some? {
      return false;
    }
    cache.committed := tx.(lastStart := map[]);
    return true;
  }

  lemma {:induction false} AllMatch(rows: seq<EventRow>, to: int)
    requires UpTo(rows, to) && forall r <- rows :: r.id > 0
    ensures Matching(rows, 0, to, 0, false) == rows
  {
    if rows != [] {
      AllMatch(rows[1..], to);
    }
  }

  /** An uninterrupted run from an empty cache caches exactly the paired ends. */
  lemma UninterruptedIsPairing(rows: seq<EventRow>, to: int, checkpoint: nat)
    requires IsSource(rows) && UpTo(rows, to) && IsCheckpointId(EMPTY, checkpoint)
    ensures IsCacheOf(rows, Finish(FoldFrom(EMPTY, Matching(rows, 0, to, checkpoint, false))).endStart)
  {
    AllMatch(rows, to);
    CacheIsPairing(rows);
    assert rows[..|rows|] == rows;
  }

  /** A run that finds the tables after k rows starts at a resume point. */
  lemma ResumePointOf(rows: seq<EventRow>, to: int, k: nat, checkpoint: nat) returns (m: nat)
    requires IsSource(rows) && UpTo(rows, to) && k <= |rows| && IsCheckpointId(Fold(rows, k), checkpoint)
    ensures m <= k && IsResumePoint(rows, k, m)
    ensures Matching(rows, 0, to, checkpoint, false) == rows[m..]
  {
    if Fold(rows, k).endStart == map[] {
      m := 0;
      AllMatch(rows, to);
      assert rows[0..] == rows;
    } else {
      var j, i := CachedIsPaired(rows, k, checkpoint);
      m := i + 1;
      MatchesAfterRow(rows, to, i);
    }
  }

  lemma MatchesAfterRow(rows: seq<EventRow>, to: int, i: nat)
    requires IsSource(rows) && UpTo(rows, to) && i < |rows|
    ensures Matching(rows, 0, to, rows[i].id, false) == rows[i + 1..]
  {
    AllMatch(rows, to);
    MatchingAfter(rows, 0, to, 0, false, i);
  }

  /** A killed run and one that resumes it leave the cache of one uninterrupted run if and only if nothing is matched
      again. k is the number of rows whose effects were committed. */
  lemma KilledAndResumed(rows: seq<EventRow>, to: int, k: nat, checkpoint: nat) returns (m: nat)
    requires IsSource(rows) && UpTo(rows, to) && k <= |rows| && IsCheckpointId(Fold(rows, k), checkpoint)
    ensures m <= k && IsResumePoint(rows, k, m)
    ensures IsCacheOf(rows, FoldFrom(Fold(rows, k), Matching(rows, 0, to, checkpoint, false)).endStart)
       <==> !Rematch(rows, k, m)
  {
    m := ResumePointOf(rows, to, k, checkpoint);
    RestartIsInvisibleIff(rows, k, m);
    CacheIsPairing(rows);
    if IsCacheOf(rows, Resumed(rows, k, m).endStart) {
      CacheIsUnique(rows, Resumed(rows, k, m).endStart, Fold(rows, |rows|).endStart);
    }
  }

  lemma EntryIsPaired(rows: seq<EventRow>, cache: map<nat, Time>, id: nat) returns (j: nat, k: nat)
    requires IsCacheOf(rows, cache) && id in cache
    ensures j < k < |rows| && Paired(rows, j, k) && rows[k].id == id
  {
    j, k :| 0 <= j < k < |rows| && Paired(rows, j, k) && rows[k].id == id;
  }

  lemma SameId(rows: seq<EventRow>, i: nat, j: nat)
    requires IsSource(rows) && i < |rows| && j < |rows| && rows[i].id == rows[j].id
    ensures i == j
  {
    if i < j {
      IdsIncrease(rows, i, j);
    } else if j < i {
      IdsIncrease(rows, j, i);
    }
  }

  lemma SameEntry(rows: seq<EventRow>, a: map<nat, Time>, b: map<nat, Time>, id: nat)
    requires IsCacheOf(rows, a) && IsCacheOf(rows, b) && id in a
    ensures id in b && a[id] == b[id]
  {
    var j, k := EntryIsPaired(rows, a, id);
  }

  lemma CacheIsUnique(rows: seq<EventRow>, a: map<nat, Time>, b: map<nat, Time>)
    requires IsCacheOf(rows, a) && IsCacheOf(rows, b)
    ensures a == b
  {
    forall id | id in a ensures id in b && a[id] == b[id] {
      SameEntry(rows, a, b, id);
    }
    forall id | id in b ensures id in a {
      SameEntry(rows, b, a, id);
    }
  }
}

/** The history pipeline of pkg/icingadb/history/sync.go: a reader, any number of stages, and a final deletion from
    Redis, connected by channels, as a state machine.

    Channels are queues here, so that all interleavings of the goroutines (and more) are runs. The stages may stop at
    any point, as a run may; Restart is a new process, which begins with what is in Redis and in the database. */
module HistoryPipeline {
  import opened Wrappers

  /** The ID of a Redis stream entry. */
  type Id = nat

  /** The index-th entity that a stage makes of an entry. */
  datatype Entity = Entity(entry: Id, index: nat)

  /** A stage, by the number of entities that it makes of an entry, or None if it cannot decode the entry. */
  type StageFunc = Id -> Option<nat>

  type Database = set<(nat, Entity)>

  /** What the first goroutine of a stage is sending to insert: the entities from next on. */
  datatype Taken = Taken(entry: Id, next: nat)

  /** The shared state of a stage: waiting are the keys of the map state, pending the counters of its values. insert
      was sent to the database; inserted was written, but not yet seen by the last goroutine. passing are the entries
      without entities on their way through; stages that only count or sort entries have no others, and may hold many.
      */
  datatype Stage = Stage(
    dead: bool, taken: Option<Taken>, passing: set<Id>, insert: set<Entity>, inserted: set<Entity>,
    waiting: set<Entity>, pending: map<Id, nat>)

  const NEW_STAGE := Stage(false, None, {}, {}, {}, {}, map[])

  /** appended is a history variable: all entries that were ever added to the stream. */
  datatype Pipeline = Pipeline(
    appended: set<Id>, redis: set<Id>, cursor: Id, channels: seq<seq<Id>>, stages: seq<Stage>, db: Database)

  datatype Step =
    | Append(entry: Id)
    | Read(entry: Id)
    | Take(i: nat)
    | Feed(i: nat)
    | Skip(i: nat, entry: Id)
    | Upsert(i: nat, batch: set<Entity>)
    | Report(i: nat, entity: Entity)
    | Delete(count: nat)
    | Restart

  predicate Shape(funcs: seq<StageFunc>, s: Pipeline) {
    |s.stages| == |funcs| && |s.channels| == |funcs| + 1
  }

  ghost predicate Enabled(funcs: seq<StageFunc>, s: Pipeline, a: Step)
    requires Shape(funcs, s)
  {
    match a
    case Append(e) => e > 0 && forall x <- s.appended :: x < e
    case Read(e) => e in s.redis && e > s.cursor && forall x <- s.redis :: x > s.cursor ==> e <= x
    case Take(i) => i < |s.stages| && !s.stages[i].dead && s.stages[i].taken.None? && s.channels[i] != []
    case Feed(i) => i < |s.stages| && s.stages[i].taken.Some?
    case Skip(i, e) => i < |s.stages| && e in s.stages[i].passing
    case Upsert(i, batch) => i < |s.stages| && batch <= s.stages[i].insert
    case Report(i, x) => i < |s.stages| && x in s.stages[i].inserted
    case Delete(count) => count <= |s.channels[|s.stages|]|
    case Restart => true
  }

  function EntitiesOf(e: Id, count: nat): (r: set<Entity>)
    ensures forall x :: x in r <==> x.entry == e && x.index < count
  {
    if count == 0 then {} else EntitiesOf(e, count - 1) + {Entity(e, count - 1)}
  }

  /** The first goroutine of a stage receives an entry. */
  function TakeIn(func: StageFunc, st: Stage, e: Id): Stage {
    match func(e)
    case None => st.(dead := true)
    case Some(count) =>
      if count == 0 then st.(passing := st.passing + {e})
      else
        st.(taken := Some(Taken(e, 0)), waiting := st.waiting + EntitiesOf(e, count), pending := st.pending[e := count])
  }

  /** It sends one entity to the database. */
  function FeedIn(func: StageFunc, st: Stage): Stage
    requires st.taken.Some?
  {
    var Taken(e, next) := st.taken.value;
    st.(insert := st.insert + {Entity(e, next)},
      taken := if func(e) == Some(next + 1) then None else Some(Taken(e, next + 1)))
  }

  /** The last goroutine receives an entity. The map lookup is that of state[e]. */
  function ReportIn(st: Stage, x: Entity): (Stage, Option<Id>)
    requires x in st.waiting && x.entry in st.pending && st.pending[x.entry] > 0
  {
    var left := st.pending[x.entry] - 1;
    var rest := st.(inserted := st.inserted - {x}, waiting := st.waiting - {x});
    if left == 0 then (rest.(pending := st.pending - {x.entry}), Some(x.entry))
    else (rest.(pending := st.pending[x.entry := left]), None)
  }

  function Send(s: Pipeline, i: nat, e: Id): seq<seq<Id>>
    requires i < |s.channels|
  {
    s.channels[i := s.channels[i] + [e]]
  }

  /** state[e] is not nil. */
  predicate Known(st: Stage, x: Entity) {
    x in st.waiting && x.entry in st.pending && st.pending[x.entry] > 0
  }

  function Next(funcs: seq<StageFunc>, s: Pipeline, a: Step): Pipeline
    requires Shape(funcs, s) && Enabled(funcs, s, a)
    requires a.Report? ==> Known(s.stages[a.i], a.entity)
  {
    match a
    case Append(e) => s.(appended := s.appended + {e}, redis := s.redis + {e})
    case Read(e) => s.(cursor := e, channels := Send(s, 0, e))
    case Take(i) =>
      s.(channels := s.channels[i := s.channels[i][1..]],
        stages := s.stages[i := TakeIn(funcs[i], s.stages[i], s.channels[i][0])])
    case Feed(i) =>
      s.(stages := s.stages[i := FeedIn(funcs[i], s.stages[i])])
    case Skip(i, e) =>
      s.(stages := s.stages[i := s.stages[i].(passing := s.stages[i].passing - {e})],
        channels := Send(s, i + 1, e))
    case Upsert(i, batch) =>
      var st := s.stages[i];
      s.(stages := s.stages[i := st.(insert := st.insert - batch, inserted := st.inserted + batch)],
        db := s.db + (set x <- batch :: (i, x)))
    case Report(i, x) =>
      var (st, forward) := ReportIn(s.stages[i], x);
      s.(stages := s.stages[i := st],
        channels := if forward.Some? then Send(s, i + 1, forward.value) else s.channels)
    case Delete(count) =>
      var last := s.channels[|s.stages|];
      s.(redis := s.redis - (set e <- last[..count]),
        channels := s.channels[|s.stages| := last[count..]])
    case Restart =>
      s.(cursor := 0, channels := seq(|s.channels|, _ => []), stages := seq(|s.stages|, _ => NEW_STAGE))
  }

  function Initial(funcs: seq<StageFunc>): Pipeline {
    Pipeline({}, {}, 0, seq(|funcs| + 1, _ => []), seq(|funcs|, _ => NEW_STAGE), {})
  }

  /* ---------- One stage ---------- */

  /** How many of the first n entities of an entry are still waiting. */
  function Waiting(waiting: set<Entity>, e: Id, n: nat): nat {
    if n == 0 then 0 else Waiting(waiting, e, n - 1) + if Entity(e, n - 1) in waiting then 1 else 0
  }

  lemma {:induction false} WaitingRemoved(waiting: set<Entity>, x: Entity, e: Id, n: nat)
    requires x in waiting
    ensures Waiting(waiting - {x}, e, n)
      == Waiting(waiting, e, n) - if x.entry == e && x.index < n then 1 else 0
  {
    if n > 0 {
      WaitingRemoved(waiting, x, e, n - 1);
    }
  }

  lemma {:induction false} AllWaiting(waiting: set<Entity>, e: Id, n: nat)
    requires forall k: nat :: k < n ==> Entity(e, k) in waiting
    ensures Waiting(waiting, e, n) == n
  {
    if n > 0 {
      AllWaiting(waiting, e, n - 1);
    }
  }

  lemma {:induction false} SameWaiting(w1: set<Entity>, w2: set<Entity>, e: Id, n: nat)
    requires forall k: nat :: k < n ==> (Entity(e, k) in w1 <==> Entity(e, k) in w2)
    ensures Waiting(w1, e, n) == Waiting(w2, e, n)
  {
    if n > 0 {
      SameWaiting(w1, w2, e, n - 1);
    }
  }

  lemma {:induction false} NoneWaiting(waiting: set<Entity>, e: Id, n: nat, k: nat)
    requires Waiting(waiting, e, n) == 0 && k < n
    ensures Entity(e, k) !in waiting
  {
    if k < n - 1 {
      NoneWaiting(waiting, e, n - 1, k);
    }
  }

  lemma {:induction false} SomeWaiting(waiting: set<Entity>, x: Entity, n: nat)
    requires x in waiting && x.index < n
    ensures Waiting(waiting, x.entry, n) > 0
  {
    if x.index < n - 1 {
      SomeWaiting(waiting, x, n - 1);
    }
  }

  /** The counter of an entry is the number of its entities that are waiting; the others are in the database. */
  ghost predicate CounterOk(func: StageFunc, st: Stage, db: set<Entity>, e: Id) {
    && func(e).Some? && e in st.pending && st.pending[e] > 0
    && st.pending[e] == Waiting(st.waiting, e, func(e).value)
    && forall k: nat :: k < func(e).value ==> Entity(e, k) in st.waiting || Entity(e, k) in db
  }

  /** The entity being sent and those after it have not been sent. */
  ghost predicate TakenOk(func: StageFunc, st: Stage) {
    st.taken.Some? ==>
      var Taken(e, next) := st.taken.value;
      && func(e).Some? && next < func(e).value && e in st.pending
      && forall k: nat :: next <= k < func(e).value ==> Entity(e, k) in st.waiting - st.insert - st.inserted
  }

  ghost predicate StageOk(func: StageFunc, st: Stage, db: set<Entity>) {
    && st.insert !! st.inserted && st.insert + st.inserted <= st.waiting
    && st.inserted <= db
    && (forall x <- st.waiting :: x.entry in st.pending && func(x.entry).Some? && x.index < func(x.entry).value)
    && (forall e <- st.pending :: CounterOk(func, st, db, e))
    && (forall e <- st.passing :: func(e) == Some(0) && e !in st.pending)
    && TakenOk(func, st)
  }

  predicate Holds(st: Stage, e: Id) {
    e in st.pending || e in st.passing
  }

  lemma TakeKeepsStage(func: StageFunc, st: Stage, db: set<Entity>, e: Id)
    requires StageOk(func, st, db) && !Holds(st, e) && st.taken.None?
    ensures StageOk(func, TakeIn(func, st, e), db)
    ensures forall x :: Holds(TakeIn(func, st, e), x) <==> Holds(st, x) || (x == e && func(e).Some?)
  {
    if func(e).Some? && func(e).value > 0 {
      var count := func(e).value;
      var t := TakeIn(func, st, e);
      forall x <- t.pending ensures CounterOk(func, t, db, x) {
        if x == e {
          AllWaiting(t.waiting, e, count);
        } else {
          assert CounterOk(func, st, db, x);
          SameWaiting(st.waiting, t.waiting, x, func(x).value);
        }
      }
    }
  }

  lemma FeedKeepsStage(func: StageFunc, st: Stage, db: set<Entity>)
    requires StageOk(func, st, db) && st.taken.Some?
    ensures StageOk(func, FeedIn(func, st), db)
    ensures forall x :: Holds(FeedIn(func, st), x) <==> Holds(st, x)
  {
    var t := FeedIn(func, st);
    forall x <- t.pending ensures CounterOk(func, t, db, x) {
      assert CounterOk(func, st, db, x);
    }
  }

  lemma UpsertKeepsStage(func: StageFunc, st: Stage, db: set<Entity>, batch: set<Entity>, t: Stage)
    requires StageOk(func, st, db) && batch <= st.insert
    requires t == st.(insert := st.insert - batch, inserted := st.inserted + batch)
    ensures StageOk(func, t, db + batch)
    ensures forall x :: Holds(t, x) <==> Holds(st, x)
  {
    forall x <- t.pending ensures CounterOk(func, t, db + batch, x) {
      assert CounterOk(func, st, db, x);
    }
  }

  lemma ReportIsKnown(func: StageFunc, st: Stage, db: set<Entity>, x: Entity)
    requires StageOk(func, st, db) && x in st.inserted
    ensures Known(st, x)
  {
    assert CounterOk(func, st, db, x.entry);
  }

  /** When the counter reaches 0, everything that the stage makes of the entry is in the database. */
  lemma ReportKeepsStage(func: StageFunc, st: Stage, db: set<Entity>, x: Entity)
    requires StageOk(func, st, db) && x in st.inserted && Known(st, x)
    ensures
      var (t, forward) := ReportIn(st, x);
      && StageOk(func, t, db)
      && (forall e: Id :: Holds(t, e) <==> Holds(st, e) && forward != Some(e))
      && (forward.Some? ==> forward.value == x.entry && func(x.entry).Some?
                            && forall k: nat :: k < func(x.entry).value ==> Entity(x.entry, k) in db)
  {
    var (t, forward) := ReportIn(st, x);
    assert CounterOk(func, st, db, x.entry);
    var n := func(x.entry).value;
    WaitingRemoved(st.waiting, x, x.entry, n);
    forall e <- t.pending ensures CounterOk(func, t, db, e) {
      assert CounterOk(func, st, db, e);
      WaitingRemoved(st.waiting, x, e, func(e).value);
    }
    if forward.Some? {
      forall k: nat | k < n ensures Entity(x.entry, k) in db && Entity(x.entry, k) !in t.waiting {
        NoneWaiting(t.waiting, x.entry, n, k);
      }
    }
  }

  /* ---------- The pipeline ---------- */

  /** Everything that the first m stages make of an entry is in the database. */
  ghost predicate AllWritten(funcs: seq<StageFunc>, db: Database, e: Id, m: int)
    requires m <= |funcs|
  {
    forall j: nat :: j < m ==> WrittenBy(funcs[j], db, e, j)
  }

  ghost predicate WrittenBy(func: StageFunc, db: Database, e: Id, j: nat) {
    func(e).Some? && forall k: nat :: k < func(e).value ==> (j, Entity(e, k)) in db
  }

  /** Position 2c is channel c, position 2i + 1 is stage i. */
  predicate HoldsAt(s: Pipeline, p: nat, e: Id)
    requires |s.channels| == |s.stages| + 1 && p <= 2 * |s.stages|
  {
    if p % 2 == 0 then e in s.channels[p / 2] else Holds(s.stages[p / 2], e)
  }

  function Part(db: Database, i: nat): (r: set<Entity>)
    ensures forall x :: x in r <==> (i, x) in db
  {
    set w <- db | w.0 == i :: w.1
  }

  ghost predicate NoDup(q: seq<Id>) {
    forall i, j :: 0 <= i < j < |q| ==> q[i] != q[j]
  }

  /** Each entry is at one place of the pipeline at most. */
  ghost predicate OnePlace(s: Pipeline)
    requires |s.channels| == |s.stages| + 1
  {
    && (forall c :: 0 <= c < |s.channels| ==> NoDup(s.channels[c]))
    && (forall p: nat, q: nat, e: Id :: p < q <= 2 * |s.stages| ==> !(HoldsAt(s, p, e) && HoldsAt(s, q, e)))
    && (forall p: nat, e: Id :: p <= 2 * |s.stages| && HoldsAt(s, p, e) ==> e <= s.cursor)
  }

  /** What the earlier stages make of an entry at some place is in the database. */
  ghost predicate WrittenBefore(funcs: seq<StageFunc>, s: Pipeline)
    requires Shape(funcs, s)
  {
    forall p: nat, e: Id :: p <= 2 * |s.stages| && HoldsAt(s, p, e) ==> AllWritten(funcs, s.db, e, p / 2)
  }

  ghost predicate StagesOk(funcs: seq<StageFunc>, s: Pipeline)
    requires Shape(funcs, s)
  {
    forall i: nat :: i < |funcs| ==> StageOk(funcs[i], s.stages[i], Part(s.db, i))
  }

  /** Nothing is lost: every entry is still in Redis or all its entities are in the database. */
  ghost predicate NothingLost(funcs: seq<StageFunc>, s: Pipeline) {
    forall e <- s.appended :: e in s.redis || AllWritten(funcs, s.db, e, |funcs|)
  }

  /** A stage does not write for an entry before the stages before it have written all of theirs. */
  ghost predicate WrittenInOrder(funcs: seq<StageFunc>, db: Database) {
    forall w <- db :: w.0 < |funcs| && AllWritten(funcs, db, w.1.entry, w.0)
  }

  ghost predicate Inv(funcs: seq<StageFunc>, s: Pipeline) {
    && Shape(funcs, s) && StagesOk(funcs, s) && OnePlace(s) && WrittenBefore(funcs, s)
    && NothingLost(funcs, s) && WrittenInOrder(funcs, s.db)
  }

  lemma WrittenStays(funcs: seq<StageFunc>, db: Database, more: Database, e: Id, m: int)
    requires m <= |funcs| && AllWritten(funcs, db, e, m) && db <= more
    ensures AllWritten(funcs, more, e, m)
  {
    forall j: nat | j < m ensures WrittenBy(funcs[j], more, e, j) {
      assert WrittenBy(funcs[j], db, e, j);
    }
  }

  /** Nothing is lost if nothing leaves Redis but what is written. */
  lemma StillNothingLost(funcs: seq<StageFunc>, s: Pipeline, t: Pipeline)
    requires NothingLost(funcs, s) && t.appended == s.appended && s.db <= t.db
    requires forall e <- s.redis :: e in t.redis || AllWritten(funcs, s.db, e, |funcs|)
    ensures NothingLost(funcs, t)
  {
    forall e <- t.appended ensures e in t.redis || AllWritten(funcs, t.db, e, |funcs|) {
      if e !in t.redis {
        WrittenStays(funcs, s.db, t.db, e, |funcs|);
      }
    }
  }

  /** One entry moves on, or nothing moves. */
  ghost predicate Moves(s: Pipeline, t: Pipeline, from: nat, e: Id)
    requires |s.channels| == |s.stages| + 1 && |t.stages| == |s.stages| && |t.channels| == |s.channels|
  {
    && from < 2 * |s.stages|
    && HoldsAt(s, from, e)
    && forall q: nat, x: Id :: q <= 2 * |s.stages| && HoldsAt(t, q, x) ==>
         if x == e then q == from + 1 else HoldsAt(s, q, x)
  }

  ghost predicate Stays(s: Pipeline, t: Pipeline)
    requires |s.channels| == |s.stages| + 1 && |t.stages| == |s.stages| && |t.channels| == |s.channels|
  {
    forall q: nat, x: Id :: q <= 2 * |s.stages| && HoldsAt(t, q, x) ==> HoldsAt(s, q, x)
  }

  lemma StaysKeepsPlaces(funcs: seq<StageFunc>, s: Pipeline, t: Pipeline)
    requires Shape(funcs, s) && Shape(funcs, t) && Stays(s, t) && OnePlace(s) && WrittenBefore(funcs, s)
    requires t.cursor == s.cursor && s.db <= t.db
    requires forall c :: 0 <= c < |t.channels| ==> NoDup(t.channels[c])
    ensures OnePlace(t) && WrittenBefore(funcs, t)
  {
    forall p: nat, e: Id | p <= 2 * |t.stages| && HoldsAt(t, p, e) ensures AllWritten(funcs, t.db, e, p / 2) {
      WrittenStays(funcs, s.db, t.db, e, p / 2);
    }
  }

  lemma MovesKeepsPlaces(funcs: seq<StageFunc>, s: Pipeline, t: Pipeline, from: nat, e: Id)
    requires Shape(funcs, s) && Shape(funcs, t) && Moves(s, t, from, e) && OnePlace(s) && WrittenBefore(funcs, s)
    requires t.cursor == s.cursor && s.db <= t.db
    requires forall c :: 0 <= c < |t.channels| ==> NoDup(t.channels[c])
    requires from % 2 == 1 ==> WrittenBy(funcs[from / 2], t.db, e, from / 2)
    ensures OnePlace(t) && WrittenBefore(funcs, t)
  {
    forall p: nat, x: Id | p <= 2 * |t.stages| && HoldsAt(t, p, x) ensures AllWritten(funcs, t.db, x, p / 2) {
      if x == e {
        WrittenStays(funcs, s.db, t.db, e, from / 2);
      } else {
        WrittenStays(funcs, s.db, t.db, x, p / 2);
      }
    }
  }

  lemma Queued(s: Pipeline, i: nat, e: Id)
    requires |s.channels| == |s.stages| + 1 && i <= |s.stages| && OnePlace(s) && !HoldsAt(s, 2 * i, e)
    ensures NoDup(s.channels[i] + [e])
  {
    assert e !in s.channels[i];
  }

  lemma ReadKeepsInv(funcs: seq<StageFunc>, s: Pipeline, e: Id)
    requires Inv(funcs, s) && Enabled(funcs, s, Read(e))
    ensures Inv(funcs, Next(funcs, s, Read(e)))
  {
    var t := Next(funcs, s, Read(e));
    assert !HoldsAt(s, 0, e);
    Queued(s, 0, e);
    forall q: nat, x: Id | q <= 2 * |s.stages| && HoldsAt(t, q, x)
      ensures if x == e then q == 0 else HoldsAt(s, q, x)
    {
      if q > 0 {
        assert HoldsAt(s, q, x);
      }
    }
    ReadKeepsPlaces(funcs, s, t, e);
    StillNothingLost(funcs, s, t);
  }

  lemma ReadKeepsPlaces(funcs: seq<StageFunc>, s: Pipeline, t: Pipeline, e: Id)
    requires Shape(funcs, s) && Shape(funcs, t) && OnePlace(s) && WrittenBefore(funcs, s)
    requires forall q: nat, x: Id :: q <= 2 * |s.stages| && HoldsAt(t, q, x) ==>
      if x == e then q == 0 else HoldsAt(s, q, x)
    requires e > s.cursor && t.cursor == e && t.db == s.db
    requires forall c :: 0 <= c < |t.channels| ==> NoDup(t.channels[c])
    ensures OnePlace(t) && WrittenBefore(funcs, t)
  {
    forall p: nat, x: Id | p <= 2 * |t.stages| && HoldsAt(t, p, x)
      ensures AllWritten(funcs, t.db, x, p / 2) && x <= t.cursor
    {
      if x != e {
        assert HoldsAt(s, p, x);
      }
    }
  }

  /** A step of one stage that leaves all entries where they are. */
  lemma StageStepKeepsInv(funcs: seq<StageFunc>, s: Pipeline, t: Pipeline, i: nat, st: Stage)
    requires Inv(funcs, s) && i < |funcs| && t == s.(stages := s.stages[i := st])
    requires StageOk(funcs[i], st, Part(s.db, i))
    requires forall x :: Holds(st, x) ==> Holds(s.stages[i], x)
    ensures Inv(funcs, t)
  {
    assert Stays(s, t);
    StaysKeepsPlaces(funcs, s, t);
    StillNothingLost(funcs, s, t);
  }

  lemma TakeMoves(funcs: seq<StageFunc>, s: Pipeline, i: nat, t: Pipeline)
    requires Shape(funcs, s) && i < |funcs| && StageOk(funcs[i], s.stages[i], Part(s.db, i)) && OnePlace(s)
    requires Enabled(funcs, s, Take(i)) && t == Next(funcs, s, Take(i))
    ensures
      var e := s.channels[i][0];
      if funcs[i](e).Some? then Moves(s, t, 2 * i, e) else Stays(s, t)
  {
    var e := s.channels[i][0];
    assert HoldsAt(s, 2 * i, e) && !HoldsAt(s, 2 * i + 1, e);
    TakeKeepsStage(funcs[i], s.stages[i], Part(s.db, i), e);
    assert NoDup(s.channels[i]);
    forall q: nat, x: Id | q <= 2 * |s.stages| && HoldsAt(t, q, x)
      ensures if x == e && funcs[i](e).Some? then q == 2 * i + 1 else HoldsAt(s, q, x)
    {
      if q != 2 * i && q != 2 * i + 1 {
        Elsewhere(s, t, i, q, x);
      }
    }
  }

  lemma TailHasNoDup(q: seq<Id>)
    requires NoDup(q) && q != []
    ensures NoDup(q[1..])
  {
    assert forall i, j :: 0 <= i < j < |q[1..]| ==> q[1..][i] == q[i + 1] && q[1..][j] == q[j + 1];
  }

  lemma TakeKeepsStages(funcs: seq<StageFunc>, s: Pipeline, i: nat, t: Pipeline)
    requires Shape(funcs, s) && StagesOk(funcs, s) && OnePlace(s)
    requires Enabled(funcs, s, Take(i)) && t == Next(funcs, s, Take(i))
    ensures StagesOk(funcs, t)
    ensures forall c :: 0 <= c < |t.channels| ==> NoDup(t.channels[c])
  {
    var e := s.channels[i][0];
    assert HoldsAt(s, 2 * i, e) && !HoldsAt(s, 2 * i + 1, e);
    TakeKeepsStage(funcs[i], s.stages[i], Part(s.db, i), e);
    StageReplaced(funcs, s, i, t);
    assert NoDup(s.channels[i]);
    TailHasNoDup(s.channels[i]);
  }

  lemma StageReplaced(funcs: seq<StageFunc>, s: Pipeline, i: nat, t: Pipeline)
    requires Shape(funcs, s) && StagesOk(funcs, s) && i < |funcs|
    requires Shape(funcs, t) && t.stages == s.stages[i := t.stages[i]] && t.db == s.db
    requires StageOk(funcs[i], t.stages[i], Part(s.db, i))
    ensures StagesOk(funcs, t)
  {
    forall j: nat | j < |funcs| ensures StageOk(funcs[j], t.stages[j], Part(t.db, j)) {
      if j != i {
        assert t.stages[j] == s.stages[j];
      }
    }
  }

  lemma Elsewhere(s: Pipeline, t: Pipeline, i: nat, q: nat, x: Id)
    requires |s.channels| == |s.stages| + 1 && i < |s.stages|
    requires |t.channels| == |s.channels| && |t.stages| == |s.stages|
    requires q <= 2 * |s.stages| && q != 2 * i && q != 2 * i + 1
    requires t.channels[i := s.channels[i]] == s.channels && t.stages[i := s.stages[i]] == s.stages
    ensures HoldsAt(t, q, x) <==> HoldsAt(s, q, x)
  {
    assert q / 2 != i;
    assert q / 2 < |s.stages| ==> t.stages[q / 2] == t.stages[i := s.stages[i]][q / 2];
    assert t.channels[q / 2] == t.channels[i := s.channels[i]][q / 2];
  }

  lemma TakeKeepsInv(funcs: seq<StageFunc>, s: Pipeline, i: nat)
    requires Inv(funcs, s) && Enabled(funcs, s, Take(i))
    ensures Inv(funcs, Next(funcs, s, Take(i)))
  {
    var e := s.channels[i][0];
    var t := Next(funcs, s, Take(i));
    TakeMoves(funcs, s, i, t);
    TakeKeepsStages(funcs, s, i, t);
    if funcs[i](e).Some? {
      MovesKeepsPlaces(funcs, s, t, 2 * i, e);
    } else {
      StaysKeepsPlaces(funcs, s, t);
    }
    StillNothingLost(funcs, s, t);
  }

  /** A stage forwards an entry to the next channel. */
  lemma ForwardKeepsInv(funcs: seq<StageFunc>, s: Pipeline, t: Pipeline, i: nat, e: Id, st: Stage)
    requires Inv(funcs, s) && i < |funcs| && Holds(s.stages[i], e)
    requires t == s.(stages := s.stages[i := st], channels := Send(s, i + 1, e))
    requires StageOk(funcs[i], st, Part(s.db, i))
    requires forall x: Id :: Holds(st, x) ==> Holds(s.stages[i], x) && x != e
    requires WrittenBy(funcs[i], s.db, e, i)
    ensures Inv(funcs, t)
  {
    assert HoldsAt(s, 2 * i + 1, e) && !HoldsAt(s, 2 * (i + 1), e);
    Queued(s, i + 1, e);
    forall q: nat, x: Id | q <= 2 * |s.stages| && HoldsAt(t, q, x)
      ensures if x == e then q == 2 * i + 2 else HoldsAt(s, q, x)
    {
      ForwardElsewhere(s, t, i, e, st, q, x);
    }
    MovesKeepsPlaces(funcs, s, t, 2 * i + 1, e);
    StillNothingLost(funcs, s, t);
  }

  lemma ForwardElsewhere(s: Pipeline, t: Pipeline, i: nat, e: Id, st: Stage, q: nat, x: Id)
    requires |s.channels| == |s.stages| + 1 && i < |s.stages| && OnePlace(s) && Holds(s.stages[i], e)
    requires t == s.(stages := s.stages[i := st], channels := Send(s, i + 1, e))
    requires forall x: Id :: Holds(st, x) ==> Holds(s.stages[i], x) && x != e
    requires q <= 2 * |s.stages| && HoldsAt(t, q, x)
    ensures if x == e then q == 2 * i + 2 else HoldsAt(s, q, x)
  {
    assert HoldsAt(s, 2 * i + 1, e);
    if q == 2 * i + 2 {
      assert t.channels[q / 2] == s.channels[q / 2] + [e];
    } else if q == 2 * i + 1 {
      assert t.stages[q / 2] == st;
    } else {
      assert q % 2 == 0 ==> q / 2 != i + 1;
      assert q % 2 == 1 ==> q / 2 != i;
      assert HoldsAt(s, q, x);
    }
  }

  lemma SkipKeepsInv(funcs: seq<StageFunc>, s: Pipeline, i: nat, e: Id)
    requires Inv(funcs, s) && Enabled(funcs, s, Skip(i, e))
    ensures Inv(funcs, Next(funcs, s, Skip(i, e)))
  {
    var st := s.stages[i].(passing := s.stages[i].passing - {e});
    assert StageOk(funcs[i], s.stages[i], Part(s.db, i));
    assert forall x <- st.pending :: CounterOk(funcs[i], s.stages[i], Part(s.db, i), x);
    ForwardKeepsInv(funcs, s, Next(funcs, s, Skip(i, e)), i, e, st);
  }

  lemma ReportKeepsInv(funcs: seq<StageFunc>, s: Pipeline, i: nat, x: Entity)
    requires Inv(funcs, s) && Enabled(funcs, s, Report(i, x)) && Known(s.stages[i], x)
    ensures Inv(funcs, Next(funcs, s, Report(i, x)))
  {
    var (st, forward) := ReportIn(s.stages[i], x);
    ReportKeepsStage(funcs[i], s.stages[i], Part(s.db, i), x);
    var t := Next(funcs, s, Report(i, x));
    if forward.Some? {
      ForwardKeepsInv(funcs, s, t, i, x.entry, st);
    } else {
      StageStepKeepsInv(funcs, s, t, i, st);
    }
  }

  /** The earlier stages have written all that they make of the entry of an entity that is waiting in a stage. */
  lemma StagedIsWritten(funcs: seq<StageFunc>, s: Pipeline, i: nat, x: Entity)
    requires Shape(funcs, s) && i < |funcs| && StageOk(funcs[i], s.stages[i], Part(s.db, i))
    requires WrittenBefore(funcs, s) && x in s.stages[i].waiting
    ensures AllWritten(funcs, s.db, x.entry, i)
  {
    assert HoldsAt(s, 2 * i + 1, x.entry);
  }

  lemma UpsertKeepsOrder(funcs: seq<StageFunc>, db: Database, i: nat, batch: set<Entity>, more: Database)
    requires WrittenInOrder(funcs, db) && i < |funcs| && more == db + set x <- batch :: (i, x)
    requires forall x <- batch :: AllWritten(funcs, db, x.entry, i)
    ensures WrittenInOrder(funcs, more)
  {
    forall w <- more ensures w.0 < |funcs| && AllWritten(funcs, more, w.1.entry, w.0) {
      WrittenStays(funcs, db, more, w.1.entry, w.0);
    }
  }

  lemma UpsertKeepsInv(funcs: seq<StageFunc>, s: Pipeline, i: nat, batch: set<Entity>)
    requires Inv(funcs, s) && Enabled(funcs, s, Upsert(i, batch))
    ensures Inv(funcs, Next(funcs, s, Upsert(i, batch)))
  {
    var t := Next(funcs, s, Upsert(i, batch));
    UpsertKeepsStage(funcs[i], s.stages[i], Part(s.db, i), batch, t.stages[i]);
    assert Part(t.db, i) == Part(s.db, i) + batch;
    assert forall j: nat :: j != i ==> Part(t.db, j) == Part(s.db, j);
    assert Stays(s, t);
    StaysKeepsPlaces(funcs, s, t);
    forall x <- batch ensures AllWritten(funcs, s.db, x.entry, i) {
      StagedIsWritten(funcs, s, i, x);
    }
    UpsertKeepsOrder(funcs, s.db, i, batch, t.db);
    StillNothingLost(funcs, s, t);
  }

  lemma DeleteKeepsInv(funcs: seq<StageFunc>, s: Pipeline, count: nat)
    requires Inv(funcs, s) && Enabled(funcs, s, Delete(count))
    ensures Inv(funcs, Next(funcs, s, Delete(count)))
  {
    var t := Next(funcs, s, Delete(count));
    var n := |funcs|;
    assert NoDup(s.channels[n]);
    assert Stays(s, t);
    StaysKeepsPlaces(funcs, s, t);
    forall e <- s.redis ensures e in t.redis || AllWritten(funcs, s.db, e, n) {
      if e in s.channels[n] {
        assert HoldsAt(s, 2 * n, e);
      }
    }
    StillNothingLost(funcs, s, t);
  }

  lemma RestartKeepsInv(funcs: seq<StageFunc>, s: Pipeline)
    requires Inv(funcs, s)
    ensures Inv(funcs, Next(funcs, s, Restart))
  {
    StillNothingLost(funcs, s, Next(funcs, s, Restart));
  }

  /** state[e] in the last goroutine of a stage is never nil. */
  lemma NeverNil(funcs: seq<StageFunc>, s: Pipeline, i: nat, x: Entity)
    requires Inv(funcs, s) && Enabled(funcs, s, Report(i, x))
    ensures Known(s.stages[i], x)
  {
    ReportIsKnown(funcs[i], s.stages[i], Part(s.db, i), x);
  }

  lemma NextKeepsInv(funcs: seq<StageFunc>, s: Pipeline, a: Step)
    requires Inv(funcs, s) && Enabled(funcs, s, a) && (a.Report? ==> Known(s.stages[a.i], a.entity))
    ensures Inv(funcs, Next(funcs, s, a))
  {
    match a
    case Append(e) => assert Stays(s, Next(funcs, s, a));
    case Read(e) => ReadKeepsInv(funcs, s, e);
    case Take(i) => TakeKeepsInv(funcs, s, i);
    case Feed(i) =>
      FeedKeepsStage(funcs[i], s.stages[i], Part(s.db, i));
      StageStepKeepsInv(funcs, s, Next(funcs, s, a), i, FeedIn(funcs[i], s.stages[i]));
    case Skip(i, e) => SkipKeepsInv(funcs, s, i, e);
    case Upsert(i, batch) => UpsertKeepsInv(funcs, s, i, batch);
    case Report(i, x) => ReportKeepsInv(funcs, s, i, x);
    case Delete(count) => DeleteKeepsInv(funcs, s, count);
    case Restart => RestartKeepsInv(funcs, s);
  }

  /* ---------- Runs ---------- */

  /** Every step is one that the goroutines allow. A run may end anywhere. */
  ghost predicate IsRun(funcs: seq<StageFunc>, s: Pipeline, steps: seq<Step>)
    decreases |steps|
  {
    steps == [] ||
    var a := steps[0];
    && Shape(funcs, s) && Enabled(funcs, s, a) && (a.Report? ==> Known(s.stages[a.i], a.entity))
    && IsRun(funcs, Next(funcs, s, a), steps[1..])
  }

  ghost function After(funcs: seq<StageFunc>, s: Pipeline, steps: seq<Step>): Pipeline
    requires IsRun(funcs, s, steps)
    decreases |steps|
  {
    if steps == [] then s else After(funcs, Next(funcs, s, steps[0]), steps[1..])
  }

  lemma {:induction false} RunKeepsInv(funcs: seq<StageFunc>, s: Pipeline, steps: seq<Step>)
    requires Inv(funcs, s) && IsRun(funcs, s, steps)
    ensures Inv(funcs, After(funcs, s, steps))
    decreases |steps|
  {
    if steps != [] {
      NextKeepsInv(funcs, s, steps[0]);
      RunKeepsInv(funcs, Next(funcs, s, steps[0]), steps[1..]);
    }
  }

  lemma InitialInv(funcs: seq<StageFunc>)
    ensures Inv(funcs, Initial(funcs))
  {
  }

  /** No history event is lost: at any point of any run, with any number of restarts, each entry of the stream is
      still in Redis, or all entities that the stages make of it are in the database. */
  lemma NoEventIsLost(funcs: seq<StageFunc>, steps: seq<Step>, e: Id)
    requires IsRun(funcs, Initial(funcs), steps)
    requires e in After(funcs, Initial(funcs), steps).appended
    ensures
      var s := After(funcs, Initial(funcs), steps);
      e in s.redis || AllWritten(funcs, s.db, e, |funcs|)
  {
    InitialInv(funcs);
    RunKeepsInv(funcs, Initial(funcs), steps);
  }

  /** A stage never writes for an entry before all earlier stages have written all of their entities for it. */
  lemma LaterStagesWriteLater(funcs: seq<StageFunc>, steps: seq<Step>, i: nat, j: nat, x: Entity, k: nat)
    requires IsRun(funcs, Initial(funcs), steps)
    requires (j, x) in After(funcs, Initial(funcs), steps).db && i < j
    ensures
      && j < |funcs| && funcs[i](x.entry).Some?
      && (k < funcs[i](x.entry).value ==> (i, Entity(x.entry, k)) in After(funcs, Initial(funcs), steps).db)
  {
    InitialInv(funcs);
    RunKeepsInv(funcs, Initial(funcs), steps);
    var s := After(funcs, Initial(funcs), steps);
    assert (j, x).0 < |funcs| && AllWritten(funcs, s.db, (j, x).1.entry, (j, x).0);
    assert WrittenBy(funcs[i], s.db, x.entry, i);
  }

  lemma OneStage(s: Pipeline, i: nat, j: nat, e: Id)
    requires |s.channels| == |s.stages| + 1 && OnePlace(s) && i < j < |s.stages|
    ensures !(Holds(s.stages[i], e) && Holds(s.stages[j], e))
  {
    assert !(HoldsAt(s, 2 * i + 1, e) && HoldsAt(s, 2 * j + 1, e));
  }

  /** Each entry is processed by one stage at most at each time. */
  lemma OneStageAtATime(funcs: seq<StageFunc>, steps: seq<Step>, i: nat, j: nat, e: Id)
    requires IsRun(funcs, Initial(funcs), steps)
    requires i < j < |After(funcs, Initial(funcs), steps).stages|
    ensures
      var s := After(funcs, Initial(funcs), steps);
      !(Holds(s.stages[i], e) && Holds(s.stages[j], e))
  {
    InitialInv(funcs);
    RunKeepsInv(funcs, Initial(funcs), steps);
    OneStage(After(funcs, Initial(funcs), steps), i, j, e);
  }
}

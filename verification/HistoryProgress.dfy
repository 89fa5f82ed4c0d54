/** The history pipeline gets its work done: without an entry that a stage cannot decode, every schedule of its
    goroutines empties the stream after a number of steps that is known in advance. */
module HistoryProgress {
  import opened Wrappers
  import opened HistoryPipeline

  /* ---------- Nothing gets stuck ---------- */

  ghost predicate OnItsWay(st: Stage, x: Entity) {
    || x in st.insert
    || x in st.inserted
    || (st.taken.Some? && st.taken.value.entry == x.entry && st.taken.value.next <= x.index)
  }

  /** Every entity that is waited for is to be sent, was sent, or has been written. */
  ghost predicate AllOnTheirWay(st: Stage) {
    forall x <- st.waiting :: OnItsWay(st, x)
  }

  ghost predicate Alive(s: Pipeline) {
    forall i :: 0 <= i < |s.stages| ==> !s.stages[i].dead
  }

  ghost predicate Held(s: Pipeline, e: Id)
    requires |s.channels| == |s.stages| + 1
  {
    exists p: nat :: p <= 2 * |s.stages| && HoldsAt(s, p, e)
  }

  /** What is in the pipeline is in Redis. */
  ghost predicate HeldIsInRedis(s: Pipeline)
    requires |s.channels| == |s.stages| + 1
  {
    forall p: nat, e: Id :: p <= 2 * |s.stages| && HoldsAt(s, p, e) ==> e in s.redis
  }

  /** What has been read is in the pipeline until it leaves Redis, unless a stage has failed. */
  ghost predicate ReadIsHeld(s: Pipeline)
    requires |s.channels| == |s.stages| + 1
  {
    Alive(s) ==> forall e <- s.redis :: e <= s.cursor ==> Held(s, e)
  }

  ghost predicate CursorOk(s: Pipeline) {
    && s.redis <= s.appended && (s.cursor == 0 || s.cursor in s.appended) && 0 !in s.appended
  }

  ghost predicate Flows(s: Pipeline) {
    && |s.channels| == |s.stages| + 1
    && (forall i :: 0 <= i < |s.stages| ==> AllOnTheirWay(s.stages[i]))
    && CursorOk(s) && HeldIsInRedis(s) && ReadIsHeld(s)
  }

  /** An entry comes to a place, or (at no place) nothing moves; the others stay. */
  ghost predicate GoesTo(s: Pipeline, t: Pipeline, e: Id, to: nat)
    requires |s.channels| == |s.stages| + 1 && |t.stages| == |s.stages| && |t.channels| == |s.channels|
  {
    forall q: nat, x: Id :: q <= 2 * |s.stages| ==> (HoldsAt(t, q, x) <==> if x == e then q == to else HoldsAt(s, q, x))
  }

  ghost predicate NothingMoves(s: Pipeline, t: Pipeline)
    requires |s.channels| == |s.stages| + 1 && |t.stages| == |s.stages| && |t.channels| == |s.channels|
  {
    forall q: nat, x: Id :: q <= 2 * |s.stages| ==> (HoldsAt(t, q, x) <==> HoldsAt(s, q, x))
  }

  lemma Split(a: seq<Id>, b: seq<Id>)
    requires NoDup(a + b)
    ensures forall x :: x in b <==> x in a + b && x !in a
  {
    forall i, j | 0 <= i < |a| && 0 <= j < |b| ensures a[i] != b[j] {
      var q := a + b;
      assert q[i] != q[|a| + j];
    }
  }

  lemma TakeGoesOn(st: Stage, func: StageFunc, db: set<Entity>, rest: seq<Id>, e: Id)
    requires StageOk(func, st, db) && st.taken.None? && func(e).Some? && !Holds(st, e) && NoDup([e] + rest)
    ensures forall x :: Holds(TakeIn(func, st, e), x) <==> Holds(st, x) || x == e
    ensures forall x :: x in rest <==> x in [e] + rest && x != e
  {
    TakeKeepsStage(func, st, db, e);
    Split([e], rest);
  }

  lemma TakeGoes(funcs: seq<StageFunc>, s: Pipeline, i: nat, t: Pipeline)
    requires Shape(funcs, s) && i < |funcs| && StageOk(funcs[i], s.stages[i], Part(s.db, i)) && OnePlace(s)
    requires Enabled(funcs, s, Take(i)) && t == Next(funcs, s, Take(i))
    requires funcs[i](s.channels[i][0]).Some?
    ensures GoesTo(s, t, s.channels[i][0], 2 * i + 1)
  {
    var e := s.channels[i][0];
    assert HoldsAt(s, 2 * i, e) && !HoldsAt(s, 2 * i + 1, e);
    assert s.channels[i] == [e] + t.channels[i];
    TakeGoesOn(s.stages[i], funcs[i], Part(s.db, i), t.channels[i], e);
    forall q: nat, x: Id | q <= 2 * |s.stages|
      ensures HoldsAt(t, q, x) <==> if x == e then q == 2 * i + 1 else HoldsAt(s, q, x)
    {
      if q != 2 * i && q != 2 * i + 1 {
        Elsewhere(s, t, i, q, x);
      }
    }
  }

  lemma ReadGoes(funcs: seq<StageFunc>, s: Pipeline, e: Id, t: Pipeline)
    requires Inv(funcs, s) && Enabled(funcs, s, Read(e)) && t == Next(funcs, s, Read(e))
    ensures GoesTo(s, t, e, 0)
  {
    forall q: nat, x: Id | q <= 2 * |s.stages|
      ensures HoldsAt(t, q, x) <==> if x == e then q == 0 else HoldsAt(s, q, x)
    {
      assert !HoldsAt(s, q, e);
      if q == 0 {
        assert t.channels[0] == s.channels[0] + [e];
      }
    }
  }

  /** A stage lets go of an entry and forwards it. */
  lemma ForwardGoes(funcs: seq<StageFunc>, s: Pipeline, t: Pipeline, i: nat, e: Id, st: Stage)
    requires Shape(funcs, s) && OnePlace(s) && i < |funcs| && Holds(s.stages[i], e)
    requires t == s.(stages := s.stages[i := st], channels := Send(s, i + 1, e))
    requires forall x: Id :: Holds(st, x) <==> Holds(s.stages[i], x) && x != e
    ensures GoesTo(s, t, e, 2 * i + 2)
  {
    assert HoldsAt(s, 2 * i + 1, e);
    forall q: nat, x: Id | q <= 2 * |s.stages|
      ensures HoldsAt(t, q, x) <==> if x == e then q == 2 * i + 2 else HoldsAt(s, q, x)
    {
      if q == 2 * i + 2 {
        assert t.channels[q / 2] == s.channels[q / 2] + [e];
      } else if q == 2 * i + 1 {
        assert t.stages[q / 2] == st;
      } else {
        assert q % 2 == 0 ==> q / 2 != i + 1;
        assert q % 2 == 1 ==> q / 2 != i;
        assert HoldsAt(t, q, x) <==> HoldsAt(s, q, x);
      }
    }
  }

  lemma StageStepMovesNothing(s: Pipeline, t: Pipeline, i: nat, st: Stage)
    requires |s.channels| == |s.stages| + 1 && i < |s.stages|
    requires t.stages == s.stages[i := st] && t.channels == s.channels
    requires forall x: Id :: Holds(st, x) <==> Holds(s.stages[i], x)
    ensures NothingMoves(s, t)
  {
  }

  /** Some entries leave the pipeline. */
  ghost predicate Leave(s: Pipeline, t: Pipeline, gone: set<Id>)
    requires |s.channels| == |s.stages| + 1 && |t.stages| == |s.stages| && |t.channels| == |s.channels|
  {
    forall q: nat, x: Id :: q <= 2 * |s.stages| ==> (HoldsAt(t, q, x) <==> HoldsAt(s, q, x) && x !in gone)
  }

  lemma DeleteLeaves(funcs: seq<StageFunc>, s: Pipeline, count: nat, t: Pipeline, gone: set<Id>)
    requires Inv(funcs, s) && Enabled(funcs, s, Delete(count)) && t == Next(funcs, s, Delete(count))
    requires gone == set e <- s.channels[|funcs|][..count]
    ensures Leave(s, t, gone)
  {
    var n := |funcs|;
    var last := s.channels[n];
    assert NoDup(last) && last == last[..count] + last[count..];
    Split(last[..count], last[count..]);
    forall q: nat, x: Id | q <= 2 * n ensures HoldsAt(t, q, x) <==> HoldsAt(s, q, x) && x !in gone {
      if q == 2 * n {
        assert HoldsAt(t, q, x) <==> x in last[count..];
        assert HoldsAt(s, q, x) <==> x in last;
      } else {
        assert HoldsAt(s, 2 * n, x) <==> x in last;
        assert q % 2 == 0 ==> t.channels[q / 2] == s.channels[q / 2];
        assert HoldsAt(t, q, x) <==> HoldsAt(s, q, x);
        assert HoldsAt(s, q, x) ==> x !in gone;
      }
    }
  }

  /* ---------- Every step keeps that ---------- */

  lemma StageKeepsWay(func: StageFunc, st: Stage, db: set<Entity>, t: Stage)
    requires StageOk(func, st, db) && AllOnTheirWay(st)
    requires
      || (st.taken.None? && exists e :: t == TakeIn(func, st, e))
      || (st.taken.Some? && t == FeedIn(func, st))
    ensures AllOnTheirWay(t)
  {
    forall x <- t.waiting ensures OnItsWay(t, x) {
      if x in st.waiting {
        assert OnItsWay(st, x);
      }
    }
  }

  lemma StepKeepsWay(funcs: seq<StageFunc>, s: Pipeline, a: Step, i: nat)
    requires Inv(funcs, s) && Enabled(funcs, s, a) && (a.Report? ==> Known(s.stages[a.i], a.entity))
    requires i < |s.stages| && AllOnTheirWay(s.stages[i])
    ensures AllOnTheirWay(Next(funcs, s, a).stages[i])
  {
    var st, t := s.stages[i], Next(funcs, s, a).stages[i];
    assert StageOk(funcs[i], st, Part(s.db, i));
    if (a.Take? || a.Feed?) && a.i == i {
      StageKeepsWay(funcs[i], st, Part(s.db, i), t);
    } else {
      assert t.waiting <= st.waiting;
      forall x <- t.waiting ensures OnItsWay(t, x) {
        assert OnItsWay(st, x);
      }
    }
  }

  lemma GoesKeepsFlow(s: Pipeline, t: Pipeline, e: Id, to: nat)
    requires Flows(s) && |t.channels| == |s.channels| && |t.stages| == |s.stages|
    requires GoesTo(s, t, e, to) && to <= 2 * |s.stages| && e in s.redis && t.redis == s.redis
    requires forall x <- t.redis :: x <= t.cursor ==> x == e || x <= s.cursor
    requires Alive(t) ==> Alive(s)
    ensures HeldIsInRedis(t) && ReadIsHeld(t)
  {
    if Alive(t) {
      forall x <- t.redis | x <= t.cursor ensures Held(t, x) {
        if x == e {
          assert HoldsAt(t, to, x);
        } else {
          var p: nat :| p <= 2 * |s.stages| && HoldsAt(s, p, x);
          assert HoldsAt(t, p, x);
        }
      }
    }
  }

  lemma StillFlows(s: Pipeline, t: Pipeline, gone: set<Id>)
    requires Flows(s) && |t.channels| == |s.channels| && |t.stages| == |s.stages|
    requires Leave(s, t, gone) && s.redis - gone <= t.redis
    requires forall x <- t.redis :: x <= t.cursor ==> x in s.redis && x <= s.cursor && x !in gone
    requires Alive(t) ==> Alive(s)
    ensures HeldIsInRedis(t) && ReadIsHeld(t)
  {
    if Alive(t) {
      forall x <- t.redis | x <= t.cursor ensures Held(t, x) {
        var p: nat :| p <= 2 * |s.stages| && HoldsAt(s, p, x);
        assert HoldsAt(t, p, x);
      }
    }
  }

  lemma StageKeepsLife(s: Pipeline, t: Pipeline, i: nat)
    requires i < |s.stages| == |t.stages| && t.stages[i := s.stages[i]] == s.stages
    requires !t.stages[i].dead ==> !s.stages[i].dead
    ensures Alive(t) ==> Alive(s)
  {
    forall j | 0 <= j < |s.stages| && j != i ensures t.stages[j] == s.stages[j] {
      assert t.stages[i := s.stages[i]][j] == t.stages[j];
    }
  }

  lemma TakeFlows(funcs: seq<StageFunc>, s: Pipeline, i: nat)
    requires Inv(funcs, s) && Flows(s) && Enabled(funcs, s, Take(i))
    ensures HeldIsInRedis(Next(funcs, s, Take(i))) && ReadIsHeld(Next(funcs, s, Take(i)))
  {
    var t := Next(funcs, s, Take(i));
    var e := s.channels[i][0];
    assert HoldsAt(s, 2 * i, e);
    StageKeepsLife(s, t, i);
    if funcs[i](e).Some? {
      TakeGoes(funcs, s, i, t);
      GoesKeepsFlow(s, t, e, 2 * i + 1);
    } else {
      TakeMoves(funcs, s, i, t);
      assert t.stages[i].dead;
    }
  }

  lemma ForwardFlows(funcs: seq<StageFunc>, s: Pipeline, t: Pipeline, i: nat, e: Id, st: Stage)
    requires Inv(funcs, s) && Flows(s) && i < |funcs| && Holds(s.stages[i], e)
    requires t == s.(stages := s.stages[i := st], channels := Send(s, i + 1, e)) && st.dead == s.stages[i].dead
    requires forall x: Id :: Holds(st, x) <==> Holds(s.stages[i], x) && x != e
    ensures HeldIsInRedis(t) && ReadIsHeld(t)
  {
    assert HoldsAt(s, 2 * i + 1, e);
    StageKeepsLife(s, t, i);
    ForwardGoes(funcs, s, t, i, e, st);
    GoesKeepsFlow(s, t, e, 2 * i + 2);
  }

  lemma StageFlows(s: Pipeline, t: Pipeline, i: nat, st: Stage)
    requires Flows(s) && i < |s.stages| && t.redis == s.redis && t.cursor == s.cursor
    requires t.stages == s.stages[i := st] && t.channels == s.channels && st.dead == s.stages[i].dead
    requires forall x :: Holds(st, x) <==> Holds(s.stages[i], x)
    ensures HeldIsInRedis(t) && ReadIsHeld(t)
  {
    StageKeepsLife(s, t, i);
    StageStepMovesNothing(s, t, i, st);
    StillFlows(s, t, {});
  }

  lemma ReportFlows(funcs: seq<StageFunc>, s: Pipeline, i: nat, x: Entity)
    requires Inv(funcs, s) && Flows(s) && Enabled(funcs, s, Report(i, x)) && Known(s.stages[i], x)
    ensures HeldIsInRedis(Next(funcs, s, Report(i, x))) && ReadIsHeld(Next(funcs, s, Report(i, x)))
  {
    var (st, forward) := ReportIn(s.stages[i], x);
    ReportKeepsStage(funcs[i], s.stages[i], Part(s.db, i), x);
    var t := Next(funcs, s, Report(i, x));
    if forward.Some? {
      ForwardFlows(funcs, s, t, i, x.entry, st);
    } else {
      StageFlows(s, t, i, st);
    }
  }

  lemma SkipFlows(funcs: seq<StageFunc>, s: Pipeline, i: nat, e: Id)
    requires Inv(funcs, s) && Flows(s) && Enabled(funcs, s, Skip(i, e))
    ensures HeldIsInRedis(Next(funcs, s, Skip(i, e))) && ReadIsHeld(Next(funcs, s, Skip(i, e)))
  {
    var st := s.stages[i].(passing := s.stages[i].passing - {e});
    assert StageOk(funcs[i], s.stages[i], Part(s.db, i));
    ForwardFlows(funcs, s, Next(funcs, s, Skip(i, e)), i, e, st);
  }

  lemma DeleteFlows(funcs: seq<StageFunc>, s: Pipeline, count: nat)
    requires Inv(funcs, s) && Flows(s) && Enabled(funcs, s, Delete(count))
    ensures HeldIsInRedis(Next(funcs, s, Delete(count))) && ReadIsHeld(Next(funcs, s, Delete(count)))
  {
    var gone := set e <- s.channels[|funcs|][..count];
    DeleteLeaves(funcs, s, count, Next(funcs, s, Delete(count)), gone);
    StillFlows(s, Next(funcs, s, Delete(count)), gone);
  }

  lemma PlacesFlow(funcs: seq<StageFunc>, s: Pipeline, a: Step)
    requires Inv(funcs, s) && Flows(s) && Enabled(funcs, s, a) && (a.Report? ==> Known(s.stages[a.i], a.entity))
    ensures HeldIsInRedis(Next(funcs, s, a)) && ReadIsHeld(Next(funcs, s, a))
  {
    var t := Next(funcs, s, a);
    match a
    case Append(e) =>
      assert Leave(s, t, {});
      StillFlows(s, t, {});
    case Read(e) =>
      ReadGoes(funcs, s, e, t);
      GoesKeepsFlow(s, t, e, 0);
    case Take(i) => TakeFlows(funcs, s, i);
    case Feed(i) =>
      FeedKeepsStage(funcs[i], s.stages[i], Part(s.db, i));
      StageFlows(s, t, i, t.stages[i]);
    case Skip(i, e) => SkipFlows(funcs, s, i, e);
    case Upsert(i, batch) =>
      StageFlows(s, t, i, t.stages[i]);
    case Report(i, x) => ReportFlows(funcs, s, i, x);
    case Delete(count) => DeleteFlows(funcs, s, count);
    case Restart =>
  }

  lemma NextKeepsFlow(funcs: seq<StageFunc>, s: Pipeline, a: Step)
    requires Inv(funcs, s) && Flows(s) && Enabled(funcs, s, a) && (a.Report? ==> Known(s.stages[a.i], a.entity))
    ensures Flows(Next(funcs, s, a))
  {
    PlacesFlow(funcs, s, a);
    forall i | 0 <= i < |s.stages| ensures AllOnTheirWay(Next(funcs, s, a).stages[i]) {
      StepKeepsWay(funcs, s, a, i);
    }
  }

  /* ---------- How much is left to do ---------- */

  /** The steps that a stage takes for an entry: to receive it, and to skip it, or to send, write and report each of its
      entities. */
  function Cost(func: StageFunc, e: Id): nat {
    match func(e)
    case None => 1
    case Some(n) => if n == 0 then 2 else 1 + 3 * n
  }

  /** The steps for an entry in a channel: those of the stages behind it, and the deletion. */
  function CostFrom(funcs: seq<StageFunc>, e: Id, i: nat): nat
    decreases |funcs| - i
  {
    if i >= |funcs| then 1 else Cost(funcs[i], e) + CostFrom(funcs, e, i + 1)
  }

  function Unsent(st: Stage, e: Id, n: nat): nat {
    if st.taken.Some? && st.taken.value.entry == e && st.taken.value.next <= n then n - st.taken.value.next else 0
  }

  /** The steps that are left for an entry in a stage. */
  function LeftInStage(func: StageFunc, st: Stage, e: Id): nat {
    match func(e)
    case None => 0
    case Some(n) =>
      if n == 0 then 1
      else 3 * Unsent(st, e, n) + 2 * Waiting(st.insert, e, n) + Waiting(st.inserted, e, n)
  }

  function LeftAt(funcs: seq<StageFunc>, s: Pipeline, p: nat, e: Id): nat
    requires Shape(funcs, s) && p <= 2 * |s.stages|
  {
    if p % 2 == 0 then CostFrom(funcs, e, p / 2)
    else LeftInStage(funcs[p / 2], s.stages[p / 2], e) + CostFrom(funcs, e, p / 2 + 1)
  }

  ghost function LeftFor(funcs: seq<StageFunc>, s: Pipeline, e: Id): nat
    requires Shape(funcs, s)
  {
    if e > s.cursor then 1 + CostFrom(funcs, e, 0)
    else if Held(s, e) then
      var p: nat :| p <= 2 * |s.stages| && HoldsAt(s, p, e);
      LeftAt(funcs, s, p, e)
    else 0
  }

  ghost function LeftForAll(funcs: seq<StageFunc>, s: Pipeline, entries: set<Id>): nat
    requires Shape(funcs, s)
  {
    if entries == {} then 0
    else
      var e :| e in entries;
      LeftFor(funcs, s, e) + LeftForAll(funcs, s, entries - {e})
  }

  /** The number of steps until Redis is empty. */
  ghost function Left(funcs: seq<StageFunc>, s: Pipeline): nat
    requires Shape(funcs, s)
  {
    LeftForAll(funcs, s, s.redis)
  }

  lemma {:induction false} LeftSplit(funcs: seq<StageFunc>, s: Pipeline, entries: set<Id>, e: Id)
    requires Shape(funcs, s) && e in entries
    ensures LeftForAll(funcs, s, entries) == LeftFor(funcs, s, e) + LeftForAll(funcs, s, entries - {e})
  {
    var x :|
      && x in entries
      && LeftForAll(funcs, s, entries) == LeftFor(funcs, s, x) + LeftForAll(funcs, s, entries - {x});
    if x != e {
      LeftSplit(funcs, s, entries - {x}, e);
      LeftSplit(funcs, s, entries - {e}, x);
      assert entries - {x} - {e} == entries - {e} - {x};
    }
  }

  lemma {:induction false} LeftAtMost(funcs: seq<StageFunc>, s: Pipeline, t: Pipeline, more: set<Id>, fewer: set<Id>)
    requires Shape(funcs, s) && Shape(funcs, t) && fewer <= more
    requires forall e <- fewer :: LeftFor(funcs, t, e) <= LeftFor(funcs, s, e)
    ensures LeftForAll(funcs, t, fewer) <= LeftForAll(funcs, s, more)
  {
    if more != {} {
      var e :| e in more;
      LeftSplit(funcs, s, more, e);
      LeftAtMost(funcs, s, t, more - {e}, fewer - {e});
      if e in fewer {
        LeftSplit(funcs, t, fewer, e);
      } else {
        assert fewer - {e} == fewer;
      }
    }
  }

  /** Less is left for an entry, and not more for the others. */
  ghost predicate Lowers(funcs: seq<StageFunc>, s: Pipeline, t: Pipeline, e: Id)
    requires Shape(funcs, s) && Shape(funcs, t)
  {
    && t.redis <= s.redis && e in s.redis
    && (forall x <- t.redis :: LeftFor(funcs, t, x) <= LeftFor(funcs, s, x))
    && LeftFor(funcs, s, e) > if e in t.redis then LeftFor(funcs, t, e) else 0
  }

  lemma LowersTotal(funcs: seq<StageFunc>, s: Pipeline, t: Pipeline, e: Id)
    requires Shape(funcs, s) && Shape(funcs, t) && Lowers(funcs, s, t, e)
    ensures Left(funcs, t) < Left(funcs, s)
  {
    LeftSplit(funcs, s, s.redis, e);
    LeftAtMost(funcs, s, t, s.redis - {e}, t.redis - {e});
    if e in t.redis {
      LeftSplit(funcs, t, t.redis, e);
    } else {
      assert t.redis - {e} == t.redis;
    }
  }

  lemma LeftOfHeld(funcs: seq<StageFunc>, s: Pipeline, e: Id, p: nat)
    requires Shape(funcs, s) && OnePlace(s) && p <= 2 * |s.stages| && HoldsAt(s, p, e)
    ensures LeftFor(funcs, s, e) == LeftAt(funcs, s, p, e)
  {
    assert Held(s, e);
    var q: nat :| q <= 2 * |s.stages| && HoldsAt(s, q, e) && LeftFor(funcs, s, e) == LeftAt(funcs, s, q, e);
    assert p == q;
  }

  lemma LeftOfQueued(funcs: seq<StageFunc>, s: Pipeline, e: Id, i: nat)
    requires Shape(funcs, s) && OnePlace(s) && i <= |funcs| && e in s.channels[i]
    ensures LeftFor(funcs, s, e) == CostFrom(funcs, e, i)
  {
    var p := 2 * i;
    assert p % 2 == 0 && p / 2 == i;
    assert HoldsAt(s, p, e);
    LeftOfHeld(funcs, s, e, p);
  }

  lemma LeftOfStaged(funcs: seq<StageFunc>, s: Pipeline, e: Id, i: nat)
    requires Shape(funcs, s) && OnePlace(s) && i < |funcs| && Holds(s.stages[i], e)
    ensures LeftFor(funcs, s, e) == LeftInStage(funcs[i], s.stages[i], e) + CostFrom(funcs, e, i + 1)
  {
    var p := 2 * i + 1;
    assert p % 2 == 1 && p / 2 == i;
    assert HoldsAt(s, p, e);
    LeftOfHeld(funcs, s, e, p);
  }

  /** No stage has more to do for an entry than before. */
  ghost predicate NoMoreWork(funcs: seq<StageFunc>, s: Pipeline, t: Pipeline, x: Id)
    requires Shape(funcs, s) && Shape(funcs, t)
  {
    forall i :: 0 <= i < |funcs| ==> LeftInStage(funcs[i], t.stages[i], x) <= LeftInStage(funcs[i], s.stages[i], x)
  }

  lemma OtherStages(funcs: seq<StageFunc>, s: Pipeline, t: Pipeline, i: nat, x: Id)
    requires Shape(funcs, s) && Shape(funcs, t) && i < |funcs| && t.stages == s.stages[i := t.stages[i]]
    requires LeftInStage(funcs[i], t.stages[i], x) <= LeftInStage(funcs[i], s.stages[i], x)
    ensures NoMoreWork(funcs, s, t, x)
  {
    forall j | 0 <= j < |funcs| ensures LeftInStage(funcs[j], t.stages[j], x) <= LeftInStage(funcs[j], s.stages[j], x) {
      assert t.stages[j] == if j == i then t.stages[i] else s.stages[j];
    }
  }

  /** An entry that stays where it is. */
  lemma LeftOfOther(funcs: seq<StageFunc>, s: Pipeline, t: Pipeline, x: Id)
    requires Shape(funcs, s) && Shape(funcs, t) && OnePlace(s) && OnePlace(t) && ReadIsHeld(s) && Alive(s)
    requires x in s.redis && s.cursor <= t.cursor && (x <= t.cursor ==> x <= s.cursor)
    requires forall p: nat :: p <= 2 * |s.stages| && HoldsAt(s, p, x) ==> HoldsAt(t, p, x)
    requires NoMoreWork(funcs, s, t, x)
    ensures LeftFor(funcs, t, x) <= LeftFor(funcs, s, x)
  {
    if x <= t.cursor {
      var p: nat :| p <= 2 * |s.stages| && HoldsAt(s, p, x);
      LeftOfHeld(funcs, s, x, p);
      LeftOfHeld(funcs, t, x, p);
    }
  }

  /* ---------- In one stage ---------- */

  lemma {:induction false} NothingWaits(waiting: set<Entity>, e: Id, n: nat)
    requires forall k: nat :: k < n ==> Entity(e, k) !in waiting
    ensures Waiting(waiting, e, n) == 0
  {
    if n > 0 {
      NothingWaits(waiting, e, n - 1);
    }
  }

  lemma {:induction false} WaitingSum(a: set<Entity>, b: set<Entity>, e: Id, n: nat)
    requires a !! b
    ensures Waiting(a + b, e, n) == Waiting(a, e, n) + Waiting(b, e, n)
  {
    if n > 0 {
      WaitingSum(a, b, e, n - 1);
    }
  }

  lemma TakeWork(func: StageFunc, st: Stage, db: set<Entity>, e: Id)
    requires StageOk(func, st, db) && !Holds(st, e) && st.taken.None? && func(e).Some?
    ensures LeftInStage(func, TakeIn(func, st, e), e) < Cost(func, e)
    ensures forall x :: x != e ==> LeftInStage(func, TakeIn(func, st, e), x) == LeftInStage(func, st, x)
  {
    NothingWaits(st.insert, e, func(e).value);
    NothingWaits(st.inserted, e, func(e).value);
  }

  lemma FeedWork(func: StageFunc, st: Stage, db: set<Entity>)
    requires StageOk(func, st, db) && st.taken.Some?
    ensures LeftInStage(func, FeedIn(func, st), st.taken.value.entry) < LeftInStage(func, st, st.taken.value.entry)
    ensures forall x :: x != st.taken.value.entry ==>
      LeftInStage(func, FeedIn(func, st), x) == LeftInStage(func, st, x)
  {
    var Taken(e, next) := st.taken.value;
    var x := Entity(e, next);
    forall y | func(y).Some?
      ensures Waiting(st.insert + {x}, y, func(y).value)
        == Waiting(st.insert, y, func(y).value) + if y == e then 1 else 0
    {
      WaitingRemoved(st.insert + {x}, x, y, func(y).value);
      assert st.insert + {x} - {x} == st.insert;
    }
  }

  lemma UpsertWork(func: StageFunc, st: Stage, db: set<Entity>, batch: set<Entity>, t: Stage)
    requires StageOk(func, st, db) && batch <= st.insert
    requires t == st.(insert := st.insert - batch, inserted := st.inserted + batch)
    ensures forall x :: LeftInStage(func, t, x) <= LeftInStage(func, st, x)
    ensures forall y <- batch :: LeftInStage(func, t, y.entry) < LeftInStage(func, st, y.entry)
  {
    forall x | func(x).Some?
      ensures
        var n := func(x).value;
        && Waiting(st.insert, x, n) == Waiting(t.insert, x, n) + Waiting(batch, x, n)
        && Waiting(t.inserted, x, n) == Waiting(st.inserted, x, n) + Waiting(batch, x, n)
    {
      var n := func(x).value;
      WaitingSum(t.insert, batch, x, n);
      assert t.insert + batch == st.insert;
      WaitingSum(st.inserted, batch, x, n);
    }
    forall y <- batch ensures LeftInStage(func, t, y.entry) < LeftInStage(func, st, y.entry) {
      assert y in st.waiting;
      SomeWaiting(batch, y, func(y.entry).value);
    }
  }

  lemma ReportWork(func: StageFunc, st: Stage, db: set<Entity>, x: Entity)
    requires StageOk(func, st, db) && x in st.inserted && Known(st, x)
    ensures LeftInStage(func, ReportIn(st, x).0, x.entry) < LeftInStage(func, st, x.entry)
    ensures forall e :: e != x.entry ==> LeftInStage(func, ReportIn(st, x).0, e) == LeftInStage(func, st, e)
  {
    forall e | func(e).Some?
      ensures Waiting(st.inserted - {x}, e, func(e).value)
        == Waiting(st.inserted, e, func(e).value) - if e == x.entry then 1 else 0
    {
      WaitingRemoved(st.inserted, x, e, func(e).value);
    }
  }

  /* ---------- Every step brings it closer ---------- */

  ghost predicate Decodable(funcs: seq<StageFunc>, s: Pipeline) {
    forall e <- s.redis, func <- funcs :: func(e).Some?
  }

  ghost predicate CanDo(funcs: seq<StageFunc>, s: Pipeline, a: Step)
    requires Shape(funcs, s)
  {
    Enabled(funcs, s, a) && (a.Report? ==> Known(s.stages[a.i], a.entity))
  }

  /** A step of one of the goroutines that does something. */
  predicate IsWork(a: Step) {
    match a
    case Append(_) => false
    case Restart => false
    case Upsert(_, batch) => batch != {}
    case Delete(count) => count > 0
    case _ => true
  }

  ghost predicate Working(funcs: seq<StageFunc>, s: Pipeline) {
    Inv(funcs, s) && Flows(s) && Alive(s) && Decodable(funcs, s)
  }

  /** What the following lemmas need of a state. */
  ghost predicate Placed(funcs: seq<StageFunc>, s: Pipeline) {
    Shape(funcs, s) && OnePlace(s) && HeldIsInRedis(s) && ReadIsHeld(s) && Alive(s)
  }

  lemma GoesLowers(funcs: seq<StageFunc>, s: Pipeline, t: Pipeline, e: Id, to: nat)
    requires Placed(funcs, s) && Shape(funcs, t) && OnePlace(t) && GoesTo(s, t, e, to)
    requires t.redis == s.redis && e in s.redis && s.cursor <= t.cursor
    requires forall x <- s.redis :: x != e && x <= t.cursor ==> x <= s.cursor
    requires forall x :: x != e ==> NoMoreWork(funcs, s, t, x)
    requires LeftFor(funcs, t, e) < LeftFor(funcs, s, e)
    ensures Lowers(funcs, s, t, e)
  {
    forall x <- t.redis ensures LeftFor(funcs, t, x) <= LeftFor(funcs, s, x) {
      if x != e {
        LeftOfOther(funcs, s, t, x);
      }
    }
  }

  lemma ReadLowers(funcs: seq<StageFunc>, s: Pipeline, e: Id, t: Pipeline)
    requires Working(funcs, s) && CanDo(funcs, s, Read(e)) && t == Next(funcs, s, Read(e)) && Inv(funcs, t)
    ensures Lowers(funcs, s, t, e)
  {
    ReadGoes(funcs, s, e, t);
    LeftOfQueued(funcs, t, e, 0);
    GoesLowers(funcs, s, t, e, 0);
  }

  lemma QueuedIsInRedis(funcs: seq<StageFunc>, s: Pipeline, i: nat, e: Id)
    requires Placed(funcs, s) && i <= |funcs| && e in s.channels[i]
    ensures e in s.redis && (i < |funcs| ==> !Holds(s.stages[i], e))
  {
    assert HoldsAt(s, 2 * i, e);
    assert i < |funcs| ==> !HoldsAt(s, 2 * i + 1, e);
  }

  lemma TakeLowers(funcs: seq<StageFunc>, s: Pipeline, i: nat, t: Pipeline)
    requires Placed(funcs, s) && Decodable(funcs, s) && i < |funcs| && StageOk(funcs[i], s.stages[i], Part(s.db, i))
    requires Enabled(funcs, s, Take(i)) && t == Next(funcs, s, Take(i)) && OnePlace(t)
    ensures Lowers(funcs, s, t, s.channels[i][0])
  {
    var e := s.channels[i][0];
    QueuedIsInRedis(funcs, s, i, e);
    TakeGoes(funcs, s, i, t);
    TakeWork(funcs[i], s.stages[i], Part(s.db, i), e);
    forall x | x != e ensures NoMoreWork(funcs, s, t, x) {
      OtherStages(funcs, s, t, i, x);
    }
    TakenLeft(funcs, s, i, t);
    GoesLowers(funcs, s, t, e, 2 * i + 1);
  }

  lemma TakenLeft(funcs: seq<StageFunc>, s: Pipeline, i: nat, t: Pipeline)
    requires Shape(funcs, s) && Shape(funcs, t) && OnePlace(s) && OnePlace(t) && i < |funcs| && s.channels[i] != []
    requires GoesTo(s, t, s.channels[i][0], 2 * i + 1)
    requires LeftInStage(funcs[i], t.stages[i], s.channels[i][0]) < Cost(funcs[i], s.channels[i][0])
    ensures LeftFor(funcs, t, s.channels[i][0]) < LeftFor(funcs, s, s.channels[i][0])
  {
    var e := s.channels[i][0];
    LeftOfQueued(funcs, s, e, i);
    assert HoldsAt(t, 2 * i + 1, e);
    LeftOfStaged(funcs, t, e, i);
  }

  lemma ForwardLowers(funcs: seq<StageFunc>, s: Pipeline, t: Pipeline, i: nat, e: Id, st: Stage)
    requires Placed(funcs, s) && Shape(funcs, t) && OnePlace(t) && i < |funcs| && Holds(s.stages[i], e)
    requires t == s.(stages := s.stages[i := st], channels := Send(s, i + 1, e))
    requires forall x: Id :: Holds(st, x) <==> Holds(s.stages[i], x) && x != e
    requires forall x :: x != e ==> LeftInStage(funcs[i], st, x) == LeftInStage(funcs[i], s.stages[i], x)
    requires LeftInStage(funcs[i], s.stages[i], e) > 0
    ensures Lowers(funcs, s, t, e)
  {
    assert HoldsAt(s, 2 * i + 1, e);
    ForwardGoes(funcs, s, t, i, e, st);
    LeftOfStaged(funcs, s, e, i);
    LeftOfQueued(funcs, t, e, i + 1);
    forall x | x != e ensures NoMoreWork(funcs, s, t, x) {
      OtherStages(funcs, s, t, i, x);
    }
    GoesLowers(funcs, s, t, e, 2 * i + 2);
  }

  /** A step of a stage that holds the same entries afterwards. */
  lemma StageLowers(funcs: seq<StageFunc>, s: Pipeline, t: Pipeline, i: nat, e: Id)
    requires Placed(funcs, s) && Shape(funcs, t) && OnePlace(t) && i < |funcs| && Holds(s.stages[i], e)
    requires t == s.(stages := s.stages[i := t.stages[i]], db := t.db) && NothingMoves(s, t)
    requires forall x :: NoMoreWork(funcs, s, t, x)
    requires LeftInStage(funcs[i], t.stages[i], e) < LeftInStage(funcs[i], s.stages[i], e)
    ensures Lowers(funcs, s, t, e)
  {
    assert HoldsAt(s, 2 * i + 1, e) && HoldsAt(t, 2 * i + 1, e);
    LeftOfStaged(funcs, s, e, i);
    LeftOfStaged(funcs, t, e, i);
    forall x <- t.redis ensures LeftFor(funcs, t, x) <= LeftFor(funcs, s, x) {
      LeftOfOther(funcs, s, t, x);
    }
  }

  lemma StageMovesNothing(funcs: seq<StageFunc>, s: Pipeline, t: Pipeline, i: nat)
    requires Shape(funcs, s) && Shape(funcs, t) && i < |funcs|
    requires t == s.(stages := s.stages[i := t.stages[i]], db := t.db)
    requires forall x :: Holds(t.stages[i], x) <==> Holds(s.stages[i], x)
    requires forall x :: LeftInStage(funcs[i], t.stages[i], x) <= LeftInStage(funcs[i], s.stages[i], x)
    ensures NothingMoves(s, t) && forall x :: NoMoreWork(funcs, s, t, x)
  {
    StageStepMovesNothing(s, t, i, t.stages[i]);
    forall x ensures NoMoreWork(funcs, s, t, x) {
      OtherStages(funcs, s, t, i, x);
    }
  }

  lemma FeedLowers(funcs: seq<StageFunc>, s: Pipeline, i: nat, t: Pipeline)
    requires Working(funcs, s) && CanDo(funcs, s, Feed(i)) && t == Next(funcs, s, Feed(i)) && Inv(funcs, t)
    ensures Lowers(funcs, s, t, s.stages[i].taken.value.entry)
  {
    assert StageOk(funcs[i], s.stages[i], Part(s.db, i));
    FeedKeepsStage(funcs[i], s.stages[i], Part(s.db, i));
    FeedWork(funcs[i], s.stages[i], Part(s.db, i));
    StageMovesNothing(funcs, s, t, i);
    StageLowers(funcs, s, t, i, s.stages[i].taken.value.entry);
  }

  lemma UpsertLowers(funcs: seq<StageFunc>, s: Pipeline, i: nat, batch: set<Entity>, y: Entity, t: Pipeline)
    requires Working(funcs, s) && CanDo(funcs, s, Upsert(i, batch)) && t == Next(funcs, s, Upsert(i, batch))
    requires Inv(funcs, t) && y in batch
    ensures Lowers(funcs, s, t, y.entry)
  {
    assert StageOk(funcs[i], s.stages[i], Part(s.db, i));
    assert y in s.stages[i].waiting;
    UpsertWork(funcs[i], s.stages[i], Part(s.db, i), batch, t.stages[i]);
    StageMovesNothing(funcs, s, t, i);
    StageLowers(funcs, s, t, i, y.entry);
  }

  lemma ReportLowers(funcs: seq<StageFunc>, s: Pipeline, i: nat, x: Entity, t: Pipeline)
    requires Working(funcs, s) && CanDo(funcs, s, Report(i, x)) && t == Next(funcs, s, Report(i, x)) && Inv(funcs, t)
    ensures Lowers(funcs, s, t, x.entry)
  {
    var (st, forward) := ReportIn(s.stages[i], x);
    assert StageOk(funcs[i], s.stages[i], Part(s.db, i));
    ReportKeepsStage(funcs[i], s.stages[i], Part(s.db, i), x);
    ReportWork(funcs[i], s.stages[i], Part(s.db, i), x);
    if forward.Some? {
      ForwardLowers(funcs, s, t, i, x.entry, st);
    } else {
      StageMovesNothing(funcs, s, t, i);
      StageLowers(funcs, s, t, i, x.entry);
    }
  }

  lemma SkipLowers(funcs: seq<StageFunc>, s: Pipeline, i: nat, e: Id, t: Pipeline)
    requires Working(funcs, s) && CanDo(funcs, s, Skip(i, e)) && t == Next(funcs, s, Skip(i, e)) && Inv(funcs, t)
    ensures Lowers(funcs, s, t, e)
  {
    var st := s.stages[i].(passing := s.stages[i].passing - {e});
    assert StageOk(funcs[i], s.stages[i], Part(s.db, i));
    ForwardLowers(funcs, s, t, i, e, st);
  }

  lemma DeleteLowers(funcs: seq<StageFunc>, s: Pipeline, count: nat, t: Pipeline)
    requires Working(funcs, s) && CanDo(funcs, s, Delete(count)) && t == Next(funcs, s, Delete(count)) && Inv(funcs, t)
    requires count > 0
    ensures Lowers(funcs, s, t, s.channels[|funcs|][0])
  {
    var last := s.channels[|funcs|];
    var gone := set e <- last[..count];
    DeleteLeaves(funcs, s, count, t, gone);
    assert last[..count][0] == last[0];
    assert HoldsAt(s, 2 * |funcs|, last[0]);
    LeftOfHeld(funcs, s, last[0], 2 * |funcs|);
    forall x <- t.redis ensures LeftFor(funcs, t, x) <= LeftFor(funcs, s, x) {
      LeftOfOther(funcs, s, t, x);
    }
  }

  lemma StepLowers(funcs: seq<StageFunc>, s: Pipeline, a: Step, t: Pipeline) returns (e: Id)
    requires Working(funcs, s) && CanDo(funcs, s, a) && IsWork(a) && t == Next(funcs, s, a) && Inv(funcs, t)
    ensures Lowers(funcs, s, t, e)
  {
    match a {
      case Read(x) =>
        e := x;
        ReadLowers(funcs, s, e, t);
      case Take(i) =>
        e := s.channels[i][0];
        TakeLowers(funcs, s, i, t);
      case Feed(i) =>
        e := s.stages[i].taken.value.entry;
        FeedLowers(funcs, s, i, t);
      case Skip(i, x) =>
        e := x;
        SkipLowers(funcs, s, i, e, t);
      case Upsert(i, batch) =>
        var y :| y in batch;
        e := y.entry;
        UpsertLowers(funcs, s, i, batch, y, t);
      case Report(i, x) =>
        e := x.entry;
        ReportLowers(funcs, s, i, x, t);
      case Delete(count) =>
        e := s.channels[|funcs|][0];
        DeleteLowers(funcs, s, count, t);
    }
  }

  lemma WorkKeepsLife(funcs: seq<StageFunc>, s: Pipeline, a: Step)
    requires Working(funcs, s) && CanDo(funcs, s, a) && IsWork(a)
    ensures Alive(Next(funcs, s, a))
  {
    if a.Take? {
      QueuedIsInRedis(funcs, s, a.i, s.channels[a.i][0]);
    }
  }

  /** Every step lowers the number of steps that are left, and no stage fails. */
  lemma WorkLowers(funcs: seq<StageFunc>, s: Pipeline, a: Step)
    requires Working(funcs, s) && CanDo(funcs, s, a) && IsWork(a)
    ensures Working(funcs, Next(funcs, s, a)) && Left(funcs, Next(funcs, s, a)) < Left(funcs, s)
  {
    NextKeepsInv(funcs, s, a);
    NextKeepsFlow(funcs, s, a);
    WorkKeepsLife(funcs, s, a);
    var e := StepLowers(funcs, s, a, Next(funcs, s, a));
    LowersTotal(funcs, s, Next(funcs, s, a), e);
  }

  /* ---------- There is always a step ---------- */

  lemma {:induction false} Smallest(entries: set<Id>) returns (e: Id)
    requires entries != {}
    ensures e in entries && forall x <- entries :: e <= x
  {
    e :| e in entries;
    var others := entries - {e};
    if others != {} {
      var x := Smallest(others);
      assert entries == others + {e};
      if x < e {
        e := x;
      }
    } else {
      assert entries == {e};
    }
  }

  lemma {:induction false} WaitingWitness(waiting: set<Entity>, e: Id, n: nat) returns (x: Entity)
    requires Waiting(waiting, e, n) > 0
    ensures x in waiting && x.entry == e
  {
    x := Entity(e, n - 1);
    if x !in waiting {
      x := WaitingWitness(waiting, e, n - 1);
    }
  }

  /** A stage that holds an entry can do something. */
  lemma StageCanWork(funcs: seq<StageFunc>, s: Pipeline, i: nat, e: Id) returns (a: Step)
    requires Working(funcs, s) && i < |funcs| && Holds(s.stages[i], e)
    ensures CanDo(funcs, s, a) && IsWork(a)
  {
    var st := s.stages[i];
    assert StageOk(funcs[i], st, Part(s.db, i)) && AllOnTheirWay(st);
    if e in st.passing {
      a := Skip(i, e);
    } else {
      assert CounterOk(funcs[i], st, Part(s.db, i), e);
      var x := WaitingWitness(st.waiting, e, funcs[i](e).value);
      assert OnItsWay(st, x);
      if x in st.insert {
        a := Upsert(i, {x});
      } else if x in st.inserted {
        a := Report(i, x);
        ReportIsKnown(funcs[i], st, Part(s.db, i), x);
      } else {
        a := Feed(i);
      }
    }
  }

  lemma ChannelCanWork(funcs: seq<StageFunc>, s: Pipeline, i: nat) returns (a: Step)
    requires Shape(funcs, s) && Alive(s) && i <= |funcs| && s.channels[i] != []
    ensures CanDo(funcs, s, a) && IsWork(a)
  {
    a := if i == |funcs| then Delete(1) else if s.stages[i].taken.Some? then Feed(i) else Take(i);
  }

  lemma SomethingCanWork(funcs: seq<StageFunc>, s: Pipeline) returns (a: Step)
    requires Working(funcs, s) && s.redis != {}
    ensures CanDo(funcs, s, a) && IsWork(a)
  {
    var e :| e in s.redis;
    if e > s.cursor {
      var unread := set x <- s.redis | x > s.cursor;
      assert e in unread;
      var next := Smallest(unread);
      assert forall x <- s.redis :: x > s.cursor ==> x in unread;
      a := Read(next);
    } else {
      var p: nat :| p <= 2 * |s.stages| && HoldsAt(s, p, e);
      if p % 2 == 1 {
        a := StageCanWork(funcs, s, p / 2, e);
      } else {
        a := ChannelCanWork(funcs, s, p / 2);
      }
    }
  }

  /* ---------- Runs ---------- */

  lemma {:induction false} RunKeepsFlow(funcs: seq<StageFunc>, s: Pipeline, steps: seq<Step>)
    requires Inv(funcs, s) && Flows(s) && IsRun(funcs, s, steps)
    ensures Flows(After(funcs, s, steps))
    decreases |steps|
  {
    if steps != [] {
      NextKeepsInv(funcs, s, steps[0]);
      NextKeepsFlow(funcs, s, steps[0]);
      RunKeepsFlow(funcs, Next(funcs, s, steps[0]), steps[1..]);
    }
  }

  lemma InitialFlows(funcs: seq<StageFunc>)
    ensures Flows(Initial(funcs))
  {
  }

  lemma FlowOfRun(funcs: seq<StageFunc>, steps: seq<Step>)
    requires IsRun(funcs, Initial(funcs), steps)
    ensures Inv(funcs, After(funcs, Initial(funcs), steps)) && Flows(After(funcs, Initial(funcs), steps))
  {
    InitialInv(funcs);
    InitialFlows(funcs);
    RunKeepsInv(funcs, Initial(funcs), steps);
    RunKeepsFlow(funcs, Initial(funcs), steps);
  }

  /** In every run, an entity that a stage waits for is in insert, in inserted, or still to be sent. */
  lemma NoEntityIsForgotten(funcs: seq<StageFunc>, steps: seq<Step>, i: nat, x: Entity)
    requires IsRun(funcs, Initial(funcs), steps)
    requires i < |After(funcs, Initial(funcs), steps).stages|
    requires x in After(funcs, Initial(funcs), steps).stages[i].waiting
    ensures
      var st := After(funcs, Initial(funcs), steps).stages[i];
      || x in st.insert || x in st.inserted
      || (st.taken.Some? && st.taken.value.entry == x.entry && st.taken.value.next <= x.index)
  {
    FlowOfRun(funcs, steps);
    var st := After(funcs, Initial(funcs), steps).stages[i];
    assert AllOnTheirWay(st) && OnItsWay(st, x);
  }

  /** Whatever the goroutines do, they do not do more steps than are left, and when there is none left to do, the stream
      is empty. */
  lemma {:induction false} WorkEnds(funcs: seq<StageFunc>, s: Pipeline, work: seq<Step>)
    requires Working(funcs, s) && IsRun(funcs, s, work) && forall a <- work :: IsWork(a)
    ensures Working(funcs, After(funcs, s, work))
    ensures |work| + Left(funcs, After(funcs, s, work)) <= Left(funcs, s)
    ensures After(funcs, s, work).appended == s.appended
    decreases |work|
  {
    if work != [] {
      WorkLowers(funcs, s, work[0]);
      WorkEnds(funcs, Next(funcs, s, work[0]), work[1..]);
    }
  }

  /** Every schedule completes: after any run in which no stage has failed, if the stages can decode what is in Redis,
      the goroutines can take no more than a fixed number of steps, in any order, and as long as something is in Redis
      one of them can take a step. When none can, Redis is empty and all entities of all entries are written. */
  lemma EveryScheduleCompletes(funcs: seq<StageFunc>, steps: seq<Step>, work: seq<Step>)
    requires IsRun(funcs, Initial(funcs), steps)
    requires Alive(After(funcs, Initial(funcs), steps)) && Decodable(funcs, After(funcs, Initial(funcs), steps))
    requires IsRun(funcs, After(funcs, Initial(funcs), steps), work) && forall a <- work :: IsWork(a)
    ensures
      var s := After(funcs, Initial(funcs), steps);
      Shape(funcs, s) && Shape(funcs, After(funcs, s, work))
    ensures
      var s := After(funcs, Initial(funcs), steps);
      var t := After(funcs, s, work);
      && |work| <= Left(funcs, s)
      && (|| (exists a :: IsWork(a) && CanDo(funcs, t, a))
          || (t.redis == {} && forall e <- s.appended :: AllWritten(funcs, t.db, e, |funcs|)))
  {
    FlowOfRun(funcs, steps);
    var s := After(funcs, Initial(funcs), steps);
    WorkEnds(funcs, s, work);
    var t := After(funcs, s, work);
    if t.redis != {} {
      var a := SomethingCanWork(funcs, t);
      assert IsWork(a) && CanDo(funcs, t, a);
    }
  }

  lemma {:induction false} WorkOff(funcs: seq<StageFunc>, s: Pipeline) returns (work: seq<Step>)
    requires Working(funcs, s)
    ensures IsRun(funcs, s, work) && forall a <- work :: IsWork(a)
    ensures After(funcs, s, work).redis == {}
    ensures forall e <- s.appended :: AllWritten(funcs, After(funcs, s, work).db, e, |funcs|)
    decreases Left(funcs, s)
  {
    if s.redis == {} {
      work := [];
    } else {
      var a := SomethingCanWork(funcs, s);
      WorkLowers(funcs, s, a);
      var rest := WorkOff(funcs, Next(funcs, s, a));
      work := [a] + rest;
      assert work[1..] == rest;
    }
  }

  /** So there is a continuation without a new entry or a restart after which all is done. */
  lemma CanComplete(funcs: seq<StageFunc>, steps: seq<Step>) returns (work: seq<Step>, t: Pipeline)
    requires IsRun(funcs, Initial(funcs), steps)
    requires Alive(After(funcs, Initial(funcs), steps)) && Decodable(funcs, After(funcs, Initial(funcs), steps))
    ensures IsRun(funcs, After(funcs, Initial(funcs), steps), work) && forall a <- work :: IsWork(a)
    ensures t == After(funcs, After(funcs, Initial(funcs), steps), work) && t.redis == {}
    ensures forall e <- After(funcs, Initial(funcs), steps).appended :: AllWritten(funcs, t.db, e, |funcs|)
  {
    FlowOfRun(funcs, steps);
    var s := After(funcs, Initial(funcs), steps);
    work := WorkOff(funcs, s);
    t := After(funcs, s, work);
  }

  /** The condition is exact: an entry that some stage cannot decode never leaves Redis. */
  lemma UndecodableStays(funcs: seq<StageFunc>, steps: seq<Step>, e: Id, i: nat)
    requires IsRun(funcs, Initial(funcs), steps) && i < |funcs| && funcs[i](e).None?
    requires e in After(funcs, Initial(funcs), steps).appended
    ensures e in After(funcs, Initial(funcs), steps).redis
  {
    NoEventIsLost(funcs, steps, e);
    var s := After(funcs, Initial(funcs), steps);
    assert e !in s.redis ==> WrittenBy(funcs[i], s.db, e, i);
  }
}

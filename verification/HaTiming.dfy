/** Clock time for the HA protocol: why the lease of HaProtocol is held, and when it is not.

    A responsible instance has to give up TIMEOUT after it received the heartbeat it is working with, be it because
    the heartbeats stop or because its transaction does not finish. Peers wait PEER_TIMEOUT after the heartbeat time
    stored in its row. Both times are measured from different events, so the lease needs fresh heartbeats. That the
    instance does give up by then is a consequence of its timers, see HaClock.
 */
module HaTiming {
  import opened Wrappers
  import opened HaProtocol

  /** deadline maps an instance to the latest time by which it gives up, as of the last heartbeat it started to
      realize. It is that heartbeat's expiry time plus a bound on the processing delay. */
  datatype Timed = Timed(s: Cluster, now: int, deadline: map<Id, int>)

  datatype TimedStep =
    | Tick(to: int)
    | Realize(i: Id, received: int, pick: Option<Id>, heartbeat: int)
    | Act(step: Step)

  ghost predicate CanStep(t: Timed, a: TimedStep) {
    match a
    case Tick(to) =>
      t.now <= to && forall i <- t.s.locals :: Holds(t.s, i) ==> i in t.deadline && to <= t.deadline[i]
    case Realize(i, received, pick, heartbeat) =>
      received <= t.now <= received + TIMEOUT && Enabled(t.s, Begin(i, t.now, pick, heartbeat))
    case Act(step) =>
      && Enabled(t.s, step)
      && !step.Begin?
      && (step.RemoveOld? ==> step.now == t.now)
      && (step.Commit? && !t.s.locals[step.i].phase.gaveUp ==>
            step.i in t.deadline && t.now <= t.deadline[step.i])
  }

  function Untimed(t: Timed, a: TimedStep): Step
    requires !a.Tick?
  {
    if a.Realize? then Begin(a.i, t.now, a.pick, a.heartbeat) else a.step
  }

  function TimedNext(t: Timed, a: TimedStep, delay: nat): Timed
    requires CanStep(t, a)
  {
    match a
    case Tick(to) => t.(now := to)
    case Realize(i, received, _, _) =>
      t.(s := Next(t.s, Untimed(t, a)), deadline := t.deadline[i := received + TIMEOUT + delay])
    case Act(step) => t.(s := Next(t.s, step))
  }

  ghost predicate IsTimedRun(t: Timed, steps: seq<TimedStep>, delay: nat)
    decreases |steps|
  {
    steps != [] ==> CanStep(t, steps[0]) && IsTimedRun(TimedNext(t, steps[0], delay), steps[1..], delay)
  }

  ghost function TimedAfter(t: Timed, steps: seq<TimedStep>, delay: nat): Timed
    requires IsTimedRun(t, steps, delay)
    decreases |steps|
  {
    if steps == [] then t else TimedAfter(TimedNext(t, steps[0], delay), steps[1..], delay)
  }

  /* ---------- Fresh heartbeats ---------- */

  /** Age of the message at receipt plus processing delay are within the grace period. */
  predicate FreshMessage(a: TimedStep, delay: nat) {
    a.Realize? ==> a.received + delay <= a.heartbeat + GRACE
  }

  /** The same for the heartbeat in the row that a holder would fall back on if the new one is not committed. */
  predicate FreshRow(t: Timed, a: TimedStep, delay: nat) {
    a.Realize? && Holds(t.s, a.i) && a.i in t.s.rows ==> a.received + delay <= t.s.rows[a.i].heartbeat + GRACE
  }

  /** The instance is responsible if its transaction is committed. */
  ghost predicate WillHold(t: Timed, a: TimedStep)
    requires a.Realize? && CanStep(t, a)
  {
    Holds(t.s, a.i) || Decide(t.s.rows, a.pick, t.s.locals[a.i].responsible, t.now).takeover
  }

  /** The heartbeats that an instance may have to rely on are fresh. */
  ghost predicate Fresh(t: Timed, a: TimedStep, delay: nat)
    requires CanStep(t, a)
  {
    FreshRow(t, a, delay) && (a.Realize? && WillHold(t, a) ==> FreshMessage(a, delay))
  }

  ghost predicate FreshRun(t: Timed, steps: seq<TimedStep>, delay: nat)
    requires IsTimedRun(t, steps, delay)
    decreases |steps|
  {
    steps != [] ==> Fresh(t, steps[0], delay) && FreshRun(TimedNext(t, steps[0], delay), steps[1..], delay)
  }

  /* ---------- Fresh heartbeats are safe ---------- */

  /** A transaction that makes or keeps its instance a holder. */
  predicate Leads(p: Phase) {
    p.InTx? && !p.gaveUp && (p.wasResponsible || p.decision.takeover)
  }

  ghost predicate DeadlinesHold(t: Timed) {
    && (forall i <- t.s.locals :: Holds(t.s, i) ==>
          i in t.deadline && i in t.s.rows && t.now <= t.deadline[i] <= t.s.rows[i].heartbeat + PEER_TIMEOUT)
    && (forall i <- t.s.locals :: Leads(t.s.locals[i].phase) ==>
          i in t.deadline && t.deadline[i] <= t.s.locals[i].phase.heartbeat + PEER_TIMEOUT)
  }

  ghost predicate TimedInv(t: Timed) {
    LeaseInv(t.s) && DeadlinesHold(t)
  }

  /** Fresh heartbeats keep the lease: no peer's expiry test succeeds while the holder holds. */
  lemma LeaseFromClock(t: Timed, a: TimedStep)
    requires DeadlinesHold(t) && CanStep(t, a) && !a.Tick?
    ensures LeaseHeld(t.s, Untimed(t, a))
  {
  }

  lemma RealizeKeepsDeadlines(t: Timed, a: TimedStep, delay: nat)
    requires DeadlinesHold(t) && CanStep(t, a) && a.Realize? && Fresh(t, a, delay)
    ensures DeadlinesHold(TimedNext(t, a, delay))
  {
  }

  lemma CommitKeepsDeadlines(t: Timed, a: TimedStep, delay: nat)
    requires TimedInv(t) && CanStep(t, a) && a.Act? && a.step.Commit?
    ensures DeadlinesHold(TimedNext(t, a, delay))
  {
    var i, u := a.step.i, TimedNext(t, a, delay);
    assert DecisionStands(t.s, i);
    assert Holds(u.s, i) ==> Leads(t.s.locals[i].phase);
    forall j | j in u.s.locals && j != i && Holds(u.s, j) ensures j in u.s.rows {
      assert Holds(t.s, j);
    }
  }

  /** A holder's row is not outdated for others. */
  lemma RemoveKeepsDeadlines(t: Timed, a: TimedStep, delay: nat)
    requires DeadlinesHold(t) && CanStep(t, a) && a.Act? && a.step.RemoveOld?
    ensures DeadlinesHold(TimedNext(t, a, delay))
  {
    LeaseFromClock(t, a);
  }

  /** The steps of one instance that leave the table alone. */
  lemma LocalKeepsDeadlines(t: Timed, a: TimedStep, delay: nat)
    requires DeadlinesHold(t) && CanStep(t, a) && a.Act?
    requires a.step.Join? || a.step.Fail? || a.step.GiveUp? || a.step.Signal? || a.step.LoseHeartbeat?
    ensures DeadlinesHold(TimedNext(t, a, delay))
  {
    var i, u := a.step.i, TimedNext(t, a, delay);
    assert u.s.rows == t.s.rows;
    assert Holds(u.s, i) ==> Holds(t.s, i);
    assert !Leads(u.s.locals[i].phase);
    forall j | j in u.s.locals && j != i ensures j in t.s.locals && u.s.locals[j] == t.s.locals[j] {
    }
  }

  lemma EndKeepsDeadlines(t: Timed, a: TimedStep, delay: nat)
    requires DeadlinesHold(t) && CanStep(t, a) && a.Act? && (a.step.ClearRow? || a.step.Stop?)
    ensures DeadlinesHold(TimedNext(t, a, delay))
  {
    var i, u := a.step.i, TimedNext(t, a, delay);
    forall j | j in u.s.locals && j != i ensures j in t.s.locals && u.s.locals[j] == t.s.locals[j] {
    }
  }

  lemma TimedStepKeepsInv(t: Timed, a: TimedStep, delay: nat)
    requires TimedInv(t) && CanStep(t, a) && Fresh(t, a, delay)
    ensures TimedInv(TimedNext(t, a, delay))
  {
    if a.Act? || a.Realize? {
      LeaseFromClock(t, a);
      LeaseStep(t.s, Untimed(t, a));
    }
    match a
    case Tick(_) =>
    case Realize(_, _, _, _) => RealizeKeepsDeadlines(t, a, delay);
    case Act(step) =>
      if step.Commit? {
        CommitKeepsDeadlines(t, a, delay);
      } else if step.RemoveOld? {
        RemoveKeepsDeadlines(t, a, delay);
      } else if step.ClearRow? || step.Stop? {
        EndKeepsDeadlines(t, a, delay);
      } else {
        LocalKeepsDeadlines(t, a, delay);
      }
  }

  lemma {:induction false} TimedInvOfRun(t: Timed, steps: seq<TimedStep>, delay: nat)
    requires TimedInv(t) && IsTimedRun(t, steps, delay) && FreshRun(t, steps, delay)
    ensures TimedInv(TimedAfter(t, steps, delay))
    decreases |steps|
  {
    if steps != [] {
      TimedStepKeepsInv(t, steps[0], delay);
      TimedInvOfRun(TimedNext(t, steps[0], delay), steps[1..], delay);
    }
  }

  /** Timed safety: with fresh heartbeats, at most one instance per environment is responsible at any time. */
  lemma FreshHeartbeatsAreSafe(t: Timed, steps: seq<TimedStep>, delay: nat)
    requires Initial(t.s) && IsTimedRun(t, steps, delay) && FreshRun(t, steps, delay)
    ensures AtMostOneHolder(TimedAfter(t, steps, delay).s)
  {
    TimedInvOfRun(t, steps, delay);
    OneHolder(TimedAfter(t, steps, delay).s);
  }

  /* ---------- A stale heartbeat is not ---------- */

  ghost predicate TwoResponsible(s: Cluster) {
    exists i, j | i in s.locals && j in s.locals && i != j ::
      s.locals[i].env == s.locals[j].env && s.locals[i].responsible && s.locals[j].responsible
  }

  /** A fresh run whose messages are all fresh, even those that no holder has to rely on. */
  ghost predicate IsFreshRun(t: Timed, steps: seq<TimedStep>, delay: nat) {
    && IsTimedRun(t, steps, delay) && FreshRun(t, steps, delay)
    && forall a <- steps :: FreshMessage(a, delay)
  }

  lemma Prepend(t: Timed, a: TimedStep, steps: seq<TimedStep>, delay: nat)
    requires CanStep(t, a) && Fresh(t, a, delay) && FreshMessage(a, delay)
    requires IsFreshRun(TimedNext(t, a, delay), steps, delay)
    ensures IsFreshRun(t, [a] + steps, delay)
    ensures TimedAfter(t, [a] + steps, delay) == TimedAfter(TimedNext(t, a, delay), steps, delay)
  {
    assert ([a] + steps)[1..] == steps;
  }

  /** An idle responsible instance may go on for longer than its row is unexpired. */
  ghost predicate Exposed(t: Timed, i: Id) {
    && i in t.s.locals && t.s.locals[i].phase.Idle? && t.s.locals[i].responsible
    && Free(t.s, t.s.locals[i].env)
    && i in t.s.rows && t.s.rows[i].env == t.s.locals[i].env && t.s.rows[i].responsible
    && i in t.deadline && t.now <= t.deadline[i] && t.s.rows[i].heartbeat + PEER_TIMEOUT < t.deadline[i]
  }

  /** There is an instance ID that nobody has used. */
  lemma {:induction false} UnusedId(s: set<Id>) returns (k: Id)
    ensures forall x <- s :: x < k
  {
    if s == {} {
      k := 0;
    } else {
      var x :| x in s;
      assert forall y <- s :: y == x || y in s - {x};
      k := UnusedId(s - {x});
      k := if x < k then k else x + 1;
    }
  }

  /** A new instance joins, and meets a row that expires before its owner gives up. */
  lemma NewcomerTakesOver(t: Timed, i: Id, delay: nat) returns (steps: seq<TimedStep>)
    requires Exposed(t, i) && t.s.locals.Keys == {i}
    ensures IsFreshRun(t, steps, delay)
    ensures TwoResponsible(TimedAfter(t, steps, delay).s)
  {
    var k := UnusedId(t.s.rows.Keys + {i});
    var env, late := t.s.locals[i].env, t.deadline[i];
    var join, tick := Act(Join(k, env, 0)), Tick(late);
    var begin := Realize(k, late, Some(i), late + delay - GRACE);
    var t1 := TimedNext(t, join, delay);
    var t2 := TimedNext(t1, tick, delay);
    assert IsResponsiblePeer(t2.s.rows, k, env, i) && Expired(t2.s.rows[i], late);
    steps := TakeoverOf(t2, k, begin, delay);
    Prepend(t1, tick, steps, delay);
    Prepend(t, join, [tick] + steps, delay);
    steps := [join] + ([tick] + steps);
  }

  /** A transaction that takes over, with its commit and signal. */
  lemma TakeoverOf(t: Timed, k: Id, begin: TimedStep, delay: nat) returns (steps: seq<TimedStep>)
    requires begin.Realize? && begin.i == k && CanStep(t, begin) && FreshMessage(begin, delay)
    requires !t.s.locals[k].responsible
    requires Decide(t.s.rows, begin.pick, t.s.locals[k].responsible, t.now).takeover
    requires exists i <- t.s.locals :: i != k && t.s.locals[i].env == t.s.locals[k].env && t.s.locals[i].responsible
    ensures IsFreshRun(t, steps, delay)
    ensures TwoResponsible(TimedAfter(t, steps, delay).s)
  {
    var i :| i in t.s.locals && i != k && t.s.locals[i].env == t.s.locals[k].env && t.s.locals[i].responsible;
    var commit, signal := Act(Commit(k)), Act(Signal(k));
    var t1 := TimedNext(t, begin, delay);
    var t2 := TimedNext(t1, commit, delay);
    var t3 := TimedNext(t2, signal, delay);
    assert t3.s.locals[k].responsible && t3.s.locals[i] == t.s.locals[i];
    Prepend(t2, signal, [], delay);
    assert [signal] + [] == [signal];
    Prepend(t1, commit, [signal], delay);
    Prepend(t, begin, [commit] + [signal], delay);
    steps := [begin] + ([commit] + [signal]);
  }

  /** Another process ends, after its transaction has failed if it has one. */
  lemma OtherEnds(t: Timed, i: Id, j: Id, delay: nat) returns (u: Timed)
    requires Exposed(t, i) && j in t.s.locals && j != i
    ensures Exposed(u, i) && u.s.locals == t.s.locals - {j}
    ensures forall steps :: IsFreshRun(u, steps, delay) ==>
      exists more :: IsFreshRun(t, more, delay) && TimedAfter(t, more, delay) == TimedAfter(u, steps, delay)
  {
    var fail, stop := Act(Fail(j)), Act(Stop(j, false));
    var t1 := if t.s.locals[j].phase.InTx? then TimedNext(t, fail, delay) else t;
    assert t1.s.locals - {j} == t.s.locals - {j};
    u := TimedNext(t1, stop, delay);
    forall steps | IsFreshRun(u, steps, delay)
      ensures exists more :: IsFreshRun(t, more, delay) && TimedAfter(t, more, delay) == TimedAfter(u, steps, delay)
    {
      Prepend(t1, stop, steps, delay);
      if t.s.locals[j].phase.InTx? {
        Prepend(t, fail, [stop] + steps, delay);
      }
    }
  }

  /** The row expires before the holder gives up, so there is a run in which it does not keep others away. */
  lemma {:induction false} ExposedBreaks(t: Timed, i: Id, delay: nat) returns (steps: seq<TimedStep>)
    requires Exposed(t, i)
    ensures IsFreshRun(t, steps, delay)
    ensures TwoResponsible(TimedAfter(t, steps, delay).s)
    decreases |t.s.locals.Keys|
  {
    if t.s.locals.Keys == {i} {
      steps := NewcomerTakesOver(t, i, delay);
    } else {
      var j :| j in t.s.locals && j != i;
      var u := OtherEnds(t, i, j, delay);
      assert u.s.locals.Keys == t.s.locals.Keys - {j};
      var rest := ExposedBreaks(u, i, delay);
      steps :| IsFreshRun(t, steps, delay) && TimedAfter(t, steps, delay) == TimedAfter(u, rest, delay);
    }
  }

  /** The holder's row is stale and the new heartbeat is not committed. */
  lemma StaleRowBreaks(t: Timed, a: TimedStep, delay: nat) returns (steps: seq<TimedStep>)
    requires TimedInv(t) && a.Realize? && CanStep(t, a) && !FreshRow(t, a, delay)
    ensures IsFreshRun(TimedNext(t, a, delay), steps, delay)
    ensures TwoResponsible(TimedAfter(TimedNext(t, a, delay), steps, delay).s)
  {
    var u, fail := TimedNext(t, a, delay), Act(Fail(a.i));
    assert OnlyRow(t.s, a.i);
    var v := TimedNext(u, fail, delay);
    assert Exposed(v, a.i);
    steps := ExposedBreaks(v, a.i, delay);
    Prepend(u, fail, steps, delay);
    steps := [fail] + steps;
  }

  /** The new heartbeat is stale and committed. */
  lemma StaleMessageBreaks(t: Timed, a: TimedStep, delay: nat) returns (steps: seq<TimedStep>)
    requires TimedInv(t) && a.Realize? && CanStep(t, a) && WillHold(t, a) && !FreshMessage(a, delay)
    ensures IsFreshRun(TimedNext(t, a, delay), steps, delay)
    ensures TwoResponsible(TimedAfter(TimedNext(t, a, delay), steps, delay).s)
  {
    var i, commit, signal := a.i, Act(Commit(a.i)), Act(Signal(a.i));
    var u := TimedNext(t, a, delay);
    var v := TimedNext(u, commit, delay);
    var w := TimedNext(v, signal, delay);
    assert Holds(t.s, i) ==> OnlyRow(t.s, i);
    assert Exposed(w, i);
    steps := ExposedBreaks(w, i, delay);
    Prepend(v, signal, steps, delay);
    Prepend(u, commit, [signal] + steps, delay);
    steps := [commit] + ([signal] + steps);
  }

  /** No fresh continuation leads to two holders. */
  ghost predicate SafeFrom(t: Timed, delay: nat) {
    forall steps :: IsTimedRun(t, steps, delay) && FreshRun(t, steps, delay) ==>
      AtMostOneHolder(TimedAfter(t, steps, delay).s)
  }

  lemma TwoAreNotOne(s: Cluster)
    requires TwoResponsible(s)
    ensures !AtMostOneHolder(s)
  {
    var i, j :| i in s.locals && j in s.locals && i != j
      && s.locals[i].env == s.locals[j].env && s.locals[i].responsible && s.locals[j].responsible;
    assert Holds(s, i) && Holds(s, j);
  }

  /** Freshness is exactly what safety needs: whatever the state, starting to realize a heartbeat keeps all fresh
      continuations safe if and only if the heartbeats that the instance may have to rely on are fresh, the new one if
      it is committed and makes or keeps the instance responsible, and the one in its row if it is not. */
  lemma RealizeIsSafeIffFresh(t: Timed, a: TimedStep, delay: nat)
    requires TimedInv(t) && a.Realize? && CanStep(t, a)
    ensures SafeFrom(TimedNext(t, a, delay), delay) <==> Fresh(t, a, delay)
  {
    var u := TimedNext(t, a, delay);
    if Fresh(t, a, delay) {
      TimedStepKeepsInv(t, a, delay);
      forall steps | IsTimedRun(u, steps, delay) && FreshRun(u, steps, delay)
        ensures AtMostOneHolder(TimedAfter(u, steps, delay).s)
      {
        TimedInvOfRun(u, steps, delay);
        OneHolder(TimedAfter(u, steps, delay).s);
      }
    } else {
      var steps;
      if FreshRow(t, a, delay) {
        steps := StaleMessageBreaks(t, a, delay);
      } else {
        steps := StaleRowBreaks(t, a, delay);
      }
      TwoAreNotOne(TimedAfter(u, steps, delay).s);
    }
  }

  /* ---------- An instance of it ---------- */

  const START := Timed(Cluster(map[], map[], {}), 0, map[])

  /** Instance 0 has taken over with a heartbeat of time 0, and 50 s have passed. */
  const HALFWAY := Timed(
    Cluster(map[0 := Row(7, 1, true, 0)], map[0 := Local(7, 1, true, Idle)], {}), 50000, map[0 := TIMEOUT])

  lemma {:induction false} RunAppend(t: Timed, a: seq<TimedStep>, b: seq<TimedStep>, delay: nat)
    requires IsTimedRun(t, a, delay) && IsTimedRun(TimedAfter(t, a, delay), b, delay)
    ensures IsTimedRun(t, a + b, delay)
    ensures TimedAfter(t, a + b, delay) == TimedAfter(TimedAfter(t, a, delay), b, delay)
    decreases |a|
  {
    if a == [] {
      assert a + b == b;
    } else {
      assert (a + b)[0] == a[0] && (a + b)[1..] == a[1..] + b;
      RunAppend(TimedNext(t, a[0], delay), a[1..], b, delay);
    }
  }

  const TAKING_OVER := Timed(
    Cluster(map[], map[0 := Local(7, 1, false, InTx(None, Decision(true, false), false, 0, false))], {}), 0,
    map[0 := TIMEOUT])

  lemma FirstTakeoverBegins()
    ensures IsTimedRun(START, [Act(Join(0, 7, 1)), Realize(0, 0, None, 0)], 0)
    ensures TimedAfter(START, [Act(Join(0, 7, 1)), Realize(0, 0, None, 0)], 0) == TAKING_OVER
  {
    var t1 := TimedNext(START, Act(Join(0, 7, 1)), 0);
    assert TimedNext(t1, Realize(0, 0, None, 0), 0) == TAKING_OVER;
    assert [Act(Join(0, 7, 1)), Realize(0, 0, None, 0)][1..] == [Realize(0, 0, None, 0)];
    assert [Realize(0, 0, None, 0)][1..] == [];
  }

  lemma FirstTakeoverEnds()
    ensures IsFreshRun(TAKING_OVER, [Act(Commit(0))] + ([Act(Signal(0))] + [Tick(50000)]), 0)
    ensures TimedAfter(TAKING_OVER, [Act(Commit(0))] + ([Act(Signal(0))] + [Tick(50000)]), 0) == HALFWAY
  {
    var t1 := TimedNext(TAKING_OVER, Act(Commit(0)), 0);
    var t2 := TimedNext(t1, Act(Signal(0)), 0);
    assert t1.s.rows == HALFWAY.s.rows && t1.s.displaced == {};
    assert TimedNext(t2, Tick(50000), 0) == HALFWAY;
    Prepend(t2, Tick(50000), [], 0);
    assert [Tick(50000)] + [] == [Tick(50000)];
    Prepend(t1, Act(Signal(0)), [Tick(50000)], 0);
    Prepend(TAKING_OVER, Act(Commit(0)), [Act(Signal(0))] + [Tick(50000)], 0);
  }

  lemma HalfwayIsReachable() returns (steps: seq<TimedStep>)
    ensures IsTimedRun(START, steps, 0) && TimedAfter(START, steps, 0) == HALFWAY
    ensures forall a <- steps :: FreshMessage(a, 0)
  {
    FirstTakeoverBegins();
    FirstTakeoverEnds();
    var first := [Act(Join(0, 7, 1)), Realize(0, 0, None, 0)];
    var second := [Act(Commit(0))] + ([Act(Signal(0))] + [Tick(50000)]);
    RunAppend(START, first, second, 0);
    steps := first + second;
  }

  /** A heartbeat that arrives late and then cannot be committed lets two instances be responsible, although every
      message was received without any delay: the holder may go on until the new message expires, but its peer sees
      only the old one. */
  lemma LateHeartbeatBreaksLease() returns (t: Timed, steps: seq<TimedStep>)
    ensures Initial(t.s) && IsTimedRun(t, steps, 0)
    ensures forall a <- steps :: FreshMessage(a, 0)
    ensures TwoResponsible(TimedAfter(t, steps, 0).s)
  {
    var first := HalfwayIsReachable();
    var late := Realize(0, 50000, None, 50000);
    var rest := StaleRowBreaks(HALFWAY, late, 0);
    assert ([late] + rest)[1..] == rest;
    RunAppend(START, first, [late] + rest, 0);
    t, steps := START, first + ([late] + rest);
  }
}

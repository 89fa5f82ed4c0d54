/** The timers of one instance: the heartbeat loop's, which starts again with every message, and the deadline of
    realize. They make the instance give up in time, which HaTiming takes for granted.

    delay bounds the time that each of three hops takes: a message to the heartbeat loop, an expired timer or context
    until it is acted on, and an event to the controller.
 */
module HaClock {
  import opened Wrappers
  import opened HaProtocol
  import opened HaTiming

  /** What is in the one-slot event buffer. A message is known by the time it was received. */
  datatype Event = Message(received: int) | Lost

  datatype Controller = Waiting(from: int) | Realizing(received: int, from: int)

  /** active and base belong to the heartbeat loop, which has waited since base. slot has not been empty since the time
      since. holding: responsible, or about to be. current: when the heartbeat was received that the controller has
      last started to realize. */
  datatype Clock = Clock(
    now: int, active: bool, base: int, slot: Option<Event>, since: int, controller: Controller, holding: bool,
    current: int)

  /** Take: the controller takes the event; if it is a message, it may hand over or realize it. Hold: the transaction,
      which did not start too late, has taken over. Return: realize ends, and afterwards the instance is responsible or
      not. */
  datatype ClockStep =
    | Pass(to: int)
    | Handle(received: int)
    | Timeout
    | Take(handOver: bool)
    | Hold
    | Return(responsible: bool)

  function Later(a: int, b: int): int {
    if a < b then b else a
  }

  /** Nothing that is due is delayed for longer than delay. */
  predicate MayPass(c: Clock, to: int, delay: nat) {
    && c.now <= to
    && (c.active ==> to <= c.base + TIMEOUT + delay)
    && (c.controller.Waiting? && c.slot.Some? ==> to <= Later(c.since, c.controller.from) + delay)
    && (c.controller.Realizing? ==> to <= Later(c.controller.received + TIMEOUT, c.controller.from) + delay)
  }

  predicate ClockEnabled(c: Clock, a: ClockStep, delay: nat) {
    match a
    case Pass(to) => MayPass(c, to, delay)
    case Handle(received) => received <= c.now <= received + delay
    case Timeout => c.now >= c.base + TIMEOUT
    case Take(_) => c.controller.Waiting? && c.slot.Some?
    case Hold => c.controller.Realizing? && c.controller.from < c.controller.received + TIMEOUT
    case Return(_) => c.controller.Realizing?
  }

  function Fill(c: Clock, e: Event): Clock {
    c.(slot := Some(e), since := if c.slot.Some? then c.since else c.now, base := c.now)
  }

  function ClockNext(c: Clock, a: ClockStep): Clock
    requires a.Take? ==> c.slot.Some?
    requires a.Return? ==> c.controller.Realizing?
  {
    match a
    case Pass(to) => c.(now := to)
    case Handle(received) => Fill(c, Message(received)).(active := true)
    case Timeout => if c.active then Fill(c, Lost).(active := false) else c.(base := c.now)
    case Take(handOver) =>
      var d := c.(slot := None, controller := Waiting(c.now));
      if c.slot.value.Lost? || handOver then d.(holding := false)
      else d.(controller := Realizing(c.slot.value.received, c.now), current := c.slot.value.received)
    case Hold => c.(holding := true)
    case Return(responsible) =>
      var inTime := c.now < c.controller.received + TIMEOUT;
      c.(controller := Waiting(c.now), holding := inTime && responsible)
  }

  function Started(now: int): Clock {
    Clock(now, false, now, None, now, Waiting(now), false, now)
  }

  ghost predicate IsClockRun(c: Clock, steps: seq<ClockStep>, delay: nat)
    decreases |steps|
  {
    steps != [] ==> ClockEnabled(c, steps[0], delay) && IsClockRun(ClockNext(c, steps[0]), steps[1..], delay)
  }

  ghost function ClockAfter(c: Clock, steps: seq<ClockStep>, delay: nat): Clock
    requires IsClockRun(c, steps, delay)
    decreases |steps|
  {
    if steps == [] then c else ClockAfter(ClockNext(c, steps[0]), steps[1..], delay)
  }

  /** All three hops. */
  function Total(delay: nat): nat {
    3 * delay
  }

  /** The next event reaches the buffer in time: it is there, or the loop's timer is running. */
  predicate EventComes(c: Clock, delay: nat) {
    if c.slot.Some? then c.since <= c.current + TIMEOUT + 2 * delay
    else c.active && c.base <= c.current + delay
  }

  predicate ClockInv(c: Clock, delay: nat) {
    && c.base <= c.now && (c.slot.Some? ==> c.since <= c.now) && c.controller.from <= c.now
    && (c.active ==> c.now <= c.base + TIMEOUT + delay)
    && (c.slot.Some? && c.slot.value.Message? ==> c.active && c.base <= c.slot.value.received + delay)
    && (c.controller.Waiting? && c.slot.Some? ==> c.now <= Later(c.since, c.controller.from) + delay)
    && (c.controller.Realizing? ==>
          && c.current == c.controller.received && c.controller.from <= c.current + TIMEOUT + 2 * delay
          && c.now <= Later(c.current + TIMEOUT, c.controller.from) + delay)
    && (c.controller.Waiting? && c.holding ==> c.controller.from <= c.current + TIMEOUT)
    && (c.controller.Realizing? || c.holding ==> EventComes(c, delay))
  }

  lemma FillKeepsInv(c: Clock, a: ClockStep, delay: nat)
    requires ClockInv(c, delay) && ClockEnabled(c, a, delay) && (a.Handle? || a.Timeout?)
    ensures ClockInv(ClockNext(c, a), delay)
  {
  }

  lemma TakeKeepsInv(c: Clock, handOver: bool, delay: nat)
    requires ClockInv(c, delay) && ClockEnabled(c, Take(handOver), delay)
    ensures ClockInv(ClockNext(c, Take(handOver)), delay)
  {
  }

  lemma ClockStepKeepsInv(c: Clock, a: ClockStep, delay: nat)
    requires ClockInv(c, delay) && ClockEnabled(c, a, delay)
    ensures ClockInv(ClockNext(c, a), delay)
  {
    if a.Handle? || a.Timeout? {
      FillKeepsInv(c, a, delay);
    } else if a.Take? {
      TakeKeepsInv(c, a.handOver, delay);
    }
  }

  lemma {:induction false} ClockInvOfRun(c: Clock, steps: seq<ClockStep>, delay: nat)
    requires ClockInv(c, delay) && IsClockRun(c, steps, delay)
    ensures ClockInv(ClockAfter(c, steps, delay), delay)
    decreases |steps|
  {
    if steps != [] {
      ClockStepKeepsInv(c, steps[0], delay);
      ClockInvOfRun(ClockNext(c, steps[0]), steps[1..], delay);
    }
  }

  /** The timers alone: an instance is never responsible for longer than the timeout and the three hops after it
      received the heartbeat it is working with. */
  lemma GivesUpInTime(c: Clock, delay: nat)
    requires ClockInv(c, delay) && c.holding
    ensures c.now <= c.current + TIMEOUT + Total(delay)
  {
  }

  /** So time may pass in HaTiming as far as the timers let it pass. */
  lemma TimersAllowTick(t: Timed, clocks: map<Id, Clock>, to: int, delay: nat)
    requires t.now <= to
    requires forall i <- t.s.locals :: Holds(t.s, i) ==>
      && i in clocks && ClockInv(clocks[i], delay) && MayPass(clocks[i], to, delay)
      && clocks[i].holding && i in t.deadline && t.deadline[i] == clocks[i].current + TIMEOUT + Total(delay)
    ensures CanStep(t, Tick(to))
  {
    forall i | i in t.s.locals && Holds(t.s, i) ensures to <= t.deadline[i] {
      ClockStepKeepsInv(clocks[i], Pass(to), delay);
      GivesUpInTime(ClockNext(clocks[i], Pass(to)), delay);
    }
  }

  ghost predicate Reachable(c: Clock, delay: nat) {
    exists start, steps :: IsClockRun(Started(start), steps, delay) && ClockAfter(Started(start), steps, delay) == c
  }

  /** In all runs of the timers. */
  lemma GivesUpInEveryRun(c: Clock, delay: nat)
    requires Reachable(c, delay) && c.holding
    ensures c.now <= c.current + TIMEOUT + Total(delay)
  {
    var start, steps :| IsClockRun(Started(start), steps, delay) && ClockAfter(Started(start), steps, delay) == c;
    ClockInvOfRun(Started(start), steps, delay);
    GivesUpInTime(c, delay);
  }

  lemma ReachableStep(c: Clock, a: ClockStep, delay: nat)
    requires Reachable(c, delay) && ClockEnabled(c, a, delay)
    ensures Reachable(ClockNext(c, a), delay)
  {
    var start, steps :| IsClockRun(Started(start), steps, delay) && ClockAfter(Started(start), steps, delay) == c;
    ClockRunSnoc(Started(start), steps, a, delay);
  }

  lemma {:induction false} ClockRunSnoc(c: Clock, steps: seq<ClockStep>, a: ClockStep, delay: nat)
    requires IsClockRun(c, steps, delay) && ClockEnabled(ClockAfter(c, steps, delay), a, delay)
    ensures IsClockRun(c, steps + [a], delay)
    ensures ClockAfter(c, steps + [a], delay) == ClockNext(ClockAfter(c, steps, delay), a)
    decreases |steps|
  {
    if steps == [] {
      assert [] + [a] == [a];
    } else {
      assert (steps + [a])[1..] == steps[1..] + [a];
      ClockRunSnoc(ClockNext(c, steps[0]), steps[1..], a, delay);
    }
  }

  /** The message takes one hop, then no other comes, and loss and reaction take the other two. */
  lemma HoldsToTheEnd(received: int, delay: nat) returns (c: Clock)
    requires delay < TIMEOUT
    ensures Reachable(c, delay) && c.holding && c.current == received && c.now == received + TIMEOUT + Total(delay)
  {
    c := Started(received);
    assert IsClockRun(Started(received), [], delay) && ClockAfter(Started(received), [], delay) == c;
    c := Reach(c, Pass(received + delay), delay);
    c := Reach(c, Handle(received), delay);
    c := Reach(c, Take(false), delay);
    c := Reach(c, Hold, delay);
    c := Reach(c, Return(true), delay);
    c := Reach(c, Pass(received + TIMEOUT + 2 * delay), delay);
    c := Reach(c, Timeout, delay);
    c := Reach(c, Pass(received + TIMEOUT + 3 * delay), delay);
  }

  lemma Reach(c: Clock, a: ClockStep, delay: nat) returns (d: Clock)
    requires Reachable(c, delay) && ClockEnabled(c, a, delay)
    ensures Reachable(d, delay) && d == ClockNext(c, a)
  {
    ReachableStep(c, a, delay);
    d := ClockNext(c, a);
  }

  /** The grace period is exactly what message age and delays may use up together: in all runs of the timers, the
      instance has given up before a peer can find the row with its last heartbeat expired, if and only if the age of
      the message at receipt and the three hops are within the grace period. */
  lemma GraceIsExact(received: int, heartbeat: int, delay: nat)
    requires delay < TIMEOUT
    ensures (forall c :: Reachable(c, delay) && c.holding && c.current == received ==>
               !Expired(Row(0, 0, true, heartbeat), c.now))
       <==> received + Total(delay) <= heartbeat + GRACE
  {
    if received + Total(delay) <= heartbeat + GRACE {
      forall c | Reachable(c, delay) && c.holding && c.current == received
        ensures !Expired(Row(0, 0, true, heartbeat), c.now)
      {
        GivesUpInEveryRun(c, delay);
      }
    } else {
      var c := HoldsToTheEnd(received, delay);
    }
  }
}

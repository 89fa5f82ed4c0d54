/** The HA controller of one instance, as the source has it: an object whose methods update its fields and the shared
    instance table. Its realize method is proved to be a run of the protocol's steps.
 */
module Ha {
  import opened Wrappers
  import opened HaProtocol

  /** What HA.State() reports. */
  datatype HaState = HaState(responsibleTsMilli: int, responsible: bool, otherResponsible: bool)

  datatype Signalled = TookOver | HandedOver

  /** Committed: the commit was confirmed. TimedOut: the context ended first, but the commit may still take effect. */
  datatype Outcome = Failed | Confirmed | TimedOut(takesEffect: bool) | Fatal

  /** One try of the retryable transaction function: the table as the other instances have left it by then, the row that
      the SELECT yields, and how the transaction ends. */
  datatype Attempt = Attempt(rows: Rows, now: int, pick: Option<Id>, heartbeat: int, outcome: Outcome)

  datatype Realized = Done(decision: Decision) | DeadlineExceeded | Aborted

  datatype Message = Message(time: int, env: Env, endpoint: Endpoint)

  datatype Reaction = TooOld | Unhealthy | NilEnvironment | EnvironmentChanged | Realizes

  /* ---------- Specification of the retry loop ---------- */

  function Upserted(a: Attempt, i: Id, env: Env, endpoint: Endpoint, responsible: bool): Rows
    requires a.pick.Some? ==> a.pick.value in a.rows
  {
    var d := Decide(a.rows, a.pick, responsible, a.now);
    Written(a.rows, i, Row(env, endpoint, d.takeover || responsible, a.heartbeat), d.takeover)
  }

  ghost predicate MayPickAll(i: Id, env: Env, attempts: seq<Attempt>) {
    forall a <- attempts :: MayPick(a.rows, i, env, a.pick)
  }

  /** The table and the result after the first attempt that does not merely fail. */
  ghost function Retried(rows: Rows, i: Id, env: Env, endpoint: Endpoint, responsible: bool, attempts: seq<Attempt>)
    : (Rows, Realized)
    requires MayPickAll(i, env, attempts)
    decreases |attempts|
  {
    if attempts == [] then (rows, DeadlineExceeded)
    else
      var a := attempts[0];
      match a.outcome
      case Failed => Retried(a.rows, i, env, endpoint, responsible, attempts[1..])
      case Confirmed => (Upserted(a, i, env, endpoint, responsible), Done(Decide(a.rows, a.pick, responsible, a.now)))
      case TimedOut(takesEffect) =>
        (if takesEffect then Upserted(a, i, env, endpoint, responsible) else a.rows, DeadlineExceeded)
      case Fatal => (a.rows, Aborted)
  }

  /** The local flag after realize has signalled its decision. */
  function FlagSignalled(d: Decision, responsible: bool): bool {
    d.takeover || (responsible && !d.otherResponsible)
  }

  /** The local flag after the controller has acted on the result. late: the deadline had passed when realize returned,
      whatever it returned. */
  function FlagAfter(r: Realized, late: bool, responsible: bool): bool {
    if late || r.DeadlineExceeded? then false
    else if r.Done? then FlagSignalled(r.decision, responsible)
    else responsible
  }

  /* ---------- The controller ---------- */

  class InstanceTable {
    var rows: Rows

    constructor ()
      ensures rows == map[]
    {
      rows := map[];
    }
  }

  /** What the main loop is told when the local flag changes. */
  function Signals(before: bool, after: bool): seq<Signalled> {
    if before == after then [] else if after then [TookOver] else [HandedOver]
  }

  class HA {
    const instanceId: Id
    const table: InstanceTable
    var live: bool
    var environment: Option<Env>
    var responsible: bool
    var state: HaState
    var notificationsHealthy: Option<bool>
    var unhealthySince: int
    var signals: seq<Signalled>

    constructor (instanceId: Id, table: InstanceTable)
      ensures this.instanceId == instanceId && this.table == table
      ensures live && !responsible && environment.None? && notificationsHealthy.None? && signals == []
      ensures StateAgrees()
    {
      this.instanceId := instanceId;
      this.table := table;
      live := true;
      environment := None;
      responsible := false;
      state := HaState(0, false, false);
      notificationsHealthy := None;
      unhealthySince := 0;
      signals := [];
    }

    /** The local flag is what the main loop was last told. While the context is live, the reported state is the local
        flag, and never both this and another instance are reported to be responsible. */
    predicate StateAgrees()
      reads this
    {
      && (responsible <==> signals != [] && signals[|signals| - 1] == TookOver)
      && (live ==> state.responsible == responsible && !(state.responsible && state.otherResponsible))
    }

    /** received: the main loop takes the signal. Otherwise the context has ended while waiting for it. */
    method SignalHandover(now: int, received: bool)
      requires StateAgrees()
      modifies this`live, this`responsible, this`state, this`signals
      ensures StateAgrees()
      ensures live == (old(live) && (old(responsible) ==> received))
      ensures responsible == (old(responsible) && !received)
      ensures signals == old(signals) + if old(responsible) && received then [HandedOver] else []
      ensures state == if old(responsible) then HaState(now, false, false) else old(state)
    {
      if responsible {
        state := HaState(now, false, false);
        if received {
          signals := signals + [HandedOver];
          responsible := false;
        } else {
          live := false;
        }
      }
    }

    method SignalTakeover(now: int, received: bool)
      requires StateAgrees()
      modifies this`live, this`responsible, this`state, this`signals
      ensures StateAgrees()
      ensures live == (old(live) && (!old(responsible) ==> received))
      ensures responsible == (old(responsible) || received)
      ensures signals == old(signals) + if !old(responsible) && received then [TookOver] else []
      ensures state == if old(responsible) then old(state) else HaState(now, true, false)
    {
      if !responsible {
        state := HaState(now, true, false);
        if received {
          signals := signals + [TookOver];
          responsible := true;
        } else {
          live := false;
        }
      }
    }

    /** One HA cycle: the retried transaction, then the signal. */
    method Realize(env: Env, endpoint: Endpoint, attempts: seq<Attempt>, now: int, received: bool)
      returns (r: Realized)
      requires StateAgrees() && MayPickAll(instanceId, env, attempts)
      modifies this`live, this`responsible, this`state, this`signals, table
      ensures StateAgrees()
      ensures (table.rows, r) == old(Retried(table.rows, instanceId, env, endpoint, responsible, attempts))
      ensures !r.Done? ==>
        live == old(live) && responsible == old(responsible) && state == old(state) && signals == old(signals)
      ensures r.Done? && live ==> responsible == FlagSignalled(r.decision, old(responsible))
      ensures r.Done? && old(live) && received ==> live && responsible == FlagSignalled(r.decision, old(responsible))
      ensures r.Done? && live && r.decision.otherResponsible ==> state.otherResponsible
      ensures r.Done? && old(live) && received ==> signals == old(signals) + Signals(old(responsible), responsible)
    {
      var takeover, otherResponsible := false, false;
      var k, committed := 0, false;
      ghost var spec := Retried(table.rows, instanceId, env, endpoint, responsible, attempts);
      assert attempts[0..] == attempts;
      while k < |attempts| && !committed
        invariant k <= |attempts|
        invariant !(takeover && otherResponsible)
        invariant !committed ==> spec == Retried(table.rows, instanceId, env, endpoint, responsible, attempts[k..])
        invariant committed ==> spec == (table.rows, Done(Decision(takeover, otherResponsible)))
        decreases |attempts| - k, !committed
        modifies table
      {
        var a := attempts[k];
        assert attempts[k..][0] == a && attempts[k..][1..] == attempts[k + 1..];
        table.rows := a.rows;
        takeover, otherResponsible := false, false;
        match a.pick {
          case Some(j) =>
            if Expired(table.rows[j], a.now) {
              takeover := true;
            } else {
              otherResponsible := true;
            }
          case None =>
            if !responsible {
              takeover := true;
            }
        }
        var row := Row(env, endpoint, takeover || responsible, a.heartbeat);
        match a.outcome {
          case Failed =>
            k := k + 1;
          case Confirmed =>
            table.rows := Written(table.rows, instanceId, row, takeover);
            committed := true;
          case TimedOut(takesEffect) =>
            if takesEffect {
              table.rows := Written(table.rows, instanceId, row, takeover);
            }
            return DeadlineExceeded;
          case Fatal =>
            return Aborted;
        }
      }
      if !committed {
        return DeadlineExceeded;
      }
      r := Done(Decision(takeover, otherResponsible));
      if takeover {
        SignalTakeover(now, received);
      } else if otherResponsible {
        if state.responsible {
          SignalHandover(now, received);
        }
        if !state.otherResponsible {
          state := state.(otherResponsible := true);
        }
      }
    }

    /** ok: the UPDATE succeeds. A failure is only logged. */
    method RealizeLostHeartbeat(ok: bool)
      modifies table
      ensures OwnRowCleared(old(table.rows), table.rows, instanceId, ok)
    {
      if ok && instanceId in table.rows {
        table.rows := table.rows[instanceId := table.rows[instanceId].(responsible := false)];
      }
    }

    /** On closing: the own row is deleted, if the DELETE succeeds. */
    method RemoveInstance(ok: bool)
      modifies table
      ensures table.rows.Keys == if ok then old(table.rows).Keys - {instanceId} else old(table.rows).Keys
      ensures forall j <- table.rows :: table.rows[j] == old(table.rows)[j]
    {
      if ok {
        table.rows := table.rows - {instanceId};
      }
    }

    /** Exactly the rows of other instances of the same environment and endpoint whose heartbeat is older than the peer
        timeout are deleted. */
    method RemoveOldInstances(env: Env, endpoint: Endpoint, now: int, ok: bool)
      modifies table
      ensures forall j :: j in table.rows <==>
        && j in old(table.rows)
        && !(ok && j != instanceId && old(table.rows)[j].env == env && old(table.rows)[j].endpoint == endpoint
             && old(table.rows)[j].heartbeat < now - PEER_TIMEOUT)
      ensures forall j <- table.rows :: table.rows[j] == old(table.rows)[j]
    {
      if ok {
        table.rows := map j | j in table.rows && !(j != instanceId && IsOutdated(table.rows[j], env, endpoint, now)) ::
          table.rows[j];
      }
    }

    /** The controller's reaction to a lost heartbeat, also used for one from the past. */
    method OnLoss(now: int, received: bool, ok: bool)
      requires StateAgrees()
      modifies this`live, this`responsible, this`state, this`signals, table
      ensures StateAgrees()
      ensures live == (old(live) && (old(responsible) ==> received))
      ensures responsible == (old(responsible) && !received)
      ensures signals == old(signals) + if old(responsible) && received then [HandedOver] else []
      ensures OwnRowCleared(old(table.rows), table.rows, instanceId, ok)
    {
      SignalHandover(now, received);
      RealizeLostHeartbeat(ok);
    }

    method OnNotificationsHealth(healthy: bool, now: int)
      requires StateAgrees()
      modifies this`notificationsHealthy, this`unhealthySince
      ensures StateAgrees()
      ensures notificationsHealthy == Some(healthy)
      ensures !healthy && old(unhealthySince) != 0 ==> unhealthySince == old(unhealthySince)
      ensures !healthy && old(unhealthySince) == 0 ==> unhealthySince == now
      ensures healthy ==> unhealthySince == 0
    {
      notificationsHealthy := Some(healthy);
      if healthy {
        unhealthySince := 0;
      } else if unhealthySince == 0 {
        unhealthySince := now;
      }
    }

    /** How the controller has to react to a heartbeat message. One older than the peer timeout is dropped. So is any
        while the notifications component has been unhealthy for longer than its timeout and there is another instance;
        counting the instances of an unknown environment dereferences nil. A change of the environment ends the process.
        All others are realized. counted: the SELECT COUNT succeeds; otherwise there are taken to be no instances. */
    ghost predicate MustReact(reaction: Reaction, m: Message, now: int, timeout: int, counted: bool)
      reads this, table
    {
      var past := m.time < now - 65000;
      var unhealthy := notificationsHealthy == Some(false) && now > unhealthySince + timeout;
      var several := counted && environment.Some? && SeveralRows(table.rows, environment.value);
      match reaction
      case TooOld => past
      case NilEnvironment => !past && unhealthy && environment.None?
      case Unhealthy => !past && unhealthy && several
      case EnvironmentChanged =>
        !past && environment.Some? && !(unhealthy && several) && environment.value != m.env
      case Realizes =>
        && !past && !(unhealthy && (environment.None? || several))
        && (environment.None? || environment.value == m.env)
    }

    method React(m: Message, now: int, timeout: int, counted: bool) returns (reaction: Reaction)
      ensures MustReact(reaction, m, now, timeout, counted)
      ensures reaction.TooOld? <==> Expired(Row(m.env, m.endpoint, true, m.time), now)
    {
      if m.time < now - PEER_TIMEOUT {
        return TooOld;
      }
      if notificationsHealthy == Some(false) && now > unhealthySince + timeout {
        if environment.None? {
          return NilEnvironment;
        }
        CountsSeveral(table.rows, environment.value);
        if counted && InstanceCount(table.rows, environment.value) > 1 {
          return Unhealthy;
        }
      }
      if environment.Some? && environment.value != m.env {
        return EnvironmentChanged;
      }
      return Realizes;
    }

    /** One heartbeat message in the controller loop. late: realize returns after its deadline, whatever it returns.
        received, handedOver: the main loop takes the signal of realize, and that of the handover after it. */
    method OnHeartbeat(
      m: Message, now: int, timeout: int, counted: bool, attempts: seq<Attempt>, late: bool, received: bool,
      handedOver: bool, ok: bool)
      returns (reaction: Reaction)
      requires StateAgrees() && live && MayPickAll(instanceId, m.env, attempts)
      modifies this, table
      ensures StateAgrees()
      ensures old(MustReact(reaction, m, now, timeout, counted))
      ensures reaction.TooOld? <==> Expired(Row(m.env, m.endpoint, true, m.time), now)
      ensures reaction.TooOld? || reaction.Unhealthy? ==>
        && live == (old(responsible) ==> received)
        && responsible == (old(responsible) && !received)
        && OwnRowCleared(old(table.rows), table.rows, instanceId, ok)
      ensures reaction.NilEnvironment? || reaction.EnvironmentChanged? ==>
        table.rows == old(table.rows) && responsible == old(responsible) && environment == old(environment)
      ensures reaction.Unhealthy? ==> notificationsHealthy == None && unhealthySince == 0
      ensures !reaction.Unhealthy? ==>
        notificationsHealthy == old(notificationsHealthy) && unhealthySince == old(unhealthySince)
      ensures reaction.Realizes? ==>
        var (rows, r) := old(Retried(table.rows, instanceId, m.env, m.endpoint, responsible, attempts));
        && environment == Some(m.env)
        && table.rows == rows
        && (live ==> responsible == FlagAfter(r, late, old(responsible)))
        && (live && r.Done? && r.decision.otherResponsible && !late ==> state.otherResponsible)
        && (received && handedOver ==> live == (r.Aborted? ==> late))
    {
      reaction := React(m, now, timeout, counted);
      match reaction {
        case TooOld =>
          OnLoss(now, received, ok);
        case Unhealthy =>
          OnLoss(now, received, ok);
          notificationsHealthy, unhealthySince := None, 0;
        case NilEnvironment =>
        case EnvironmentChanged =>
        case Realizes =>
          environment := Some(m.env);
          OnRealize(m, now, attempts, late, received, handedOver);
      }
    }

    method OnRealize(
      m: Message, now: int, attempts: seq<Attempt>, late: bool, received: bool, handedOver: bool)
      requires StateAgrees() && live && MayPickAll(instanceId, m.env, attempts)
      modifies this`live, this`responsible, this`state, this`signals, table
      ensures StateAgrees()
      ensures
        var (rows, r) := old(Retried(table.rows, instanceId, m.env, m.endpoint, responsible, attempts));
        && table.rows == rows
        && (live ==> responsible == FlagAfter(r, late, old(responsible)))
        && (live && r.Done? && r.decision.otherResponsible && !late ==> state.otherResponsible)
        && (received && handedOver ==> live == (r.Aborted? ==> late))
    {
      var r := Realize(m.env, m.endpoint, attempts, now, received);
      if late || r.DeadlineExceeded? {
        SignalHandover(now, handedOver);
      } else if r.Aborted? {
        live := false;
      }
    }
  }

  /** The own row is 'n' if the UPDATE succeeds, and nothing else changes. */
  predicate OwnRowCleared(before: Rows, after: Rows, i: Id, ok: bool) {
    && after.Keys == before.Keys
    && (forall j <- before :: j != i ==> after[j] == before[j])
    && (i in before ==>
          && after[i].env == before[i].env && after[i].endpoint == before[i].endpoint
          && after[i].heartbeat == before[i].heartbeat
          && after[i].responsible == (before[i].responsible && !ok))
  }

  predicate IsOutdated(row: Row, env: Env, endpoint: Endpoint, now: int) {
    row.env == env && row.endpoint == endpoint && Expired(row, now)
  }

  function InstanceCount(rows: Rows, env: Env): nat {
    |set j | j in rows && rows[j].env == env|
  }

  /** There are two rows of the environment. */
  predicate SeveralRows(rows: Rows, env: Env) {
    exists j <- rows, k <- rows :: j != k && rows[j].env == env && rows[k].env == env
  }

  lemma CountsSeveral(rows: Rows, env: Env)
    ensures InstanceCount(rows, env) > 1 <==> SeveralRows(rows, env)
  {
    var s := set j | j in rows && rows[j].env == env;
    if |s| > 1 {
      var j :| j in s;
      assert |s - {j}| > 0;
      var k :| k in s - {j};
    }
    if j, k :| j in rows && k in rows && j != k && rows[j].env == env && rows[k].env == env {
      assert |s| > 1 by {
        assert |s - {j} - {k}| == |s| - 2;
      }
    }
  }

  /* ---------- The controller refines the protocol ---------- */

  /** The protocol steps of an attempt's transaction and of the controller's reaction to it. */
  ghost function AttemptSteps(i: Id, a: Attempt, late: bool): seq<Step> {
    var begin := Begin(i, a.now, a.pick, a.heartbeat);
    var giveUp := if late then [GiveUp(i)] else [];
    match a.outcome
    case Failed => [begin, Fail(i)]
    case Confirmed => [begin, Commit(i), Signal(i)] + giveUp
    case TimedOut(takesEffect) => [begin, GiveUp(i), if takesEffect then Commit(i) else Fail(i)]
    case Fatal => [begin, Fail(i)] + giveUp
  }

  /** All steps of one cycle. meanwhile: what other instances do before each attempt. */
  ghost function StepsOf(i: Id, attempts: seq<Attempt>, meanwhile: seq<seq<Step>>, late: bool): seq<Step>
    requires |meanwhile| == |attempts|
  {
    if attempts == [] then [GiveUp(i)]
    else
      meanwhile[0] + (AttemptSteps(i, attempts[0], late)
      + if attempts[0].outcome.Failed? then StepsOf(i, attempts[1..], meanwhile[1..], late) else [])
  }

  /** The other instances take these steps, and then i may start a transaction. */
  ghost predicate Precedes(s: Cluster, i: Id, steps: seq<Step>) {
    && i in s.locals && IsRun(s, steps) && (forall a <- steps :: a.i != i)
    && Free(After(s, steps), s.locals[i].env)
  }

  /** The attempts find the table as the other instances have left it. */
  ghost predicate Interleaved(s: Cluster, i: Id, attempts: seq<Attempt>, meanwhile: seq<seq<Step>>)
    requires |meanwhile| == |attempts|
    decreases |attempts|
  {
    attempts != [] ==>
      && Precedes(s, i, meanwhile[0])
      && After(s, meanwhile[0]).rows == attempts[0].rows
      && (attempts[0].outcome.Failed? ==> Interleaved(After(s, meanwhile[0]), i, attempts[1..], meanwhile[1..]))
  }

  lemma {:induction false} RunAppend(s: Cluster, a: seq<Step>, b: seq<Step>)
    requires IsRun(s, a) && IsRun(After(s, a), b)
    ensures IsRun(s, a + b) && After(s, a + b) == After(After(s, a), b)
    decreases |a|
  {
    if a == [] {
      assert a + b == b;
    } else {
      assert (a + b)[0] == a[0] && (a + b)[1..] == a[1..] + b;
      RunAppend(Next(s, a[0]), a[1..], b);
    }
  }

  lemma OneStep(s: Cluster, a: Step)
    requires Enabled(s, a)
    ensures IsRun(s, [a]) && After(s, [a]) == Next(s, a)
  {
    assert [a][1..] == [];
  }

  lemma TwoSteps(s: Cluster, a: Step, b: Step)
    requires Enabled(s, a) && Enabled(Next(s, a), b)
    ensures IsRun(s, [a, b]) && After(s, [a, b]) == Next(Next(s, a), b)
  {
    OneStep(Next(s, a), b);
    assert [a, b][1..] == [b];
  }

  lemma ThreeSteps(s: Cluster, a: Step, b: Step, c: Step)
    requires Enabled(s, a) && Enabled(Next(s, a), b) && Enabled(Next(Next(s, a), b), c)
    ensures IsRun(s, [a, b, c]) && After(s, [a, b, c]) == Next(Next(Next(s, a), b), c)
  {
    TwoSteps(Next(s, a), b, c);
    assert [a, b, c][1..] == [b, c];
  }

  /** The steps of others do not touch the instance. */
  lemma {:induction false} OthersLeave(s: Cluster, i: Id, steps: seq<Step>)
    requires i in s.locals && IsRun(s, steps) && forall a <- steps :: a.i != i
    ensures i in After(s, steps).locals && After(s, steps).locals[i] == s.locals[i]
    decreases |steps|
  {
    if steps != [] {
      OthersLeave(Next(s, steps[0]), i, steps[1..]);
    }
  }

  /** Instance i may start a, and its transaction finds a.rows. */
  ghost predicate Starts(s: Cluster, i: Id, a: Attempt) {
    && i in s.locals && s.locals[i].phase.Idle? && Free(s, s.locals[i].env)
    && s.rows == a.rows && MayPick(a.rows, i, s.locals[i].env, a.pick)
  }

  lemma FailedIsRun(s: Cluster, i: Id, a: Attempt, late: bool)
    requires Starts(s, i, a) && a.outcome.Failed?
    ensures IsRun(s, AttemptSteps(i, a, late)) && After(s, AttemptSteps(i, a, late)) == s
  {
    var begin := Begin(i, a.now, a.pick, a.heartbeat);
    TwoSteps(s, begin, Fail(i));
    assert Next(Next(s, begin), Fail(i)).locals == s.locals;
  }

  /** The own part of the cluster after an attempt. */
  ghost predicate Ends(s: Cluster, i: Id, local: Local, rows: Rows) {
    i in s.locals && s.locals[i] == local && s.rows == rows
  }

  lemma GivenUp(s: Cluster, i: Id, steps: seq<Step>, late: bool)
    requires IsRun(s, steps)
    requires i in After(s, steps).locals && After(s, steps).locals[i].phase.Idle?
    ensures
      var t, giveUp := After(s, steps), if late then [GiveUp(i)] else [];
      && IsRun(s, steps + giveUp)
      && Ends(After(s, steps + giveUp), i,
              if late then t.locals[i].(responsible := false) else t.locals[i], t.rows)
  {
    if late {
      OneStep(After(s, steps), GiveUp(i));
      RunAppend(s, steps, [GiveUp(i)]);
    } else {
      assert steps + [] == steps;
    }
  }

  lemma ConfirmedIsRun(s: Cluster, i: Id, a: Attempt, late: bool)
    requires Starts(s, i, a) && a.outcome.Confirmed?
    ensures
      var l := s.locals[i];
      var d := Decide(a.rows, a.pick, l.responsible, a.now);
      && IsRun(s, AttemptSteps(i, a, late))
      && Ends(After(s, AttemptSteps(i, a, late)), i, l.(responsible := FlagAfter(Done(d), late, l.responsible)),
              Upserted(a, i, l.env, l.endpoint, l.responsible))
  {
    var begin := Begin(i, a.now, a.pick, a.heartbeat);
    ThreeSteps(s, begin, Commit(i), Signal(i));
    GivenUp(s, i, [begin, Commit(i), Signal(i)], late);
  }

  lemma TimedOutIsRun(s: Cluster, i: Id, a: Attempt, late: bool)
    requires Starts(s, i, a) && a.outcome.TimedOut?
    ensures
      var l := s.locals[i];
      && IsRun(s, AttemptSteps(i, a, late))
      && Ends(After(s, AttemptSteps(i, a, late)), i, l.(responsible := false),
              if a.outcome.takesEffect then Upserted(a, i, l.env, l.endpoint, l.responsible) else a.rows)
  {
    ThreeSteps(s, Begin(i, a.now, a.pick, a.heartbeat), GiveUp(i),
               if a.outcome.takesEffect then Commit(i) else Fail(i));
  }

  lemma FatalIsRun(s: Cluster, i: Id, a: Attempt, late: bool)
    requires Starts(s, i, a) && a.outcome.Fatal?
    ensures
      var l := s.locals[i];
      && IsRun(s, AttemptSteps(i, a, late))
      && Ends(After(s, AttemptSteps(i, a, late)), i, l.(responsible := FlagAfter(Aborted, late, l.responsible)), a.rows)
  {
    var begin := Begin(i, a.now, a.pick, a.heartbeat);
    TwoSteps(s, begin, Fail(i));
    GivenUp(s, i, [begin, Fail(i)], late);
  }

  /** What an attempt that does not merely fail does. */
  lemma LastAttemptIsRun(s: Cluster, i: Id, a: Attempt, late: bool)
    requires Starts(s, i, a) && !a.outcome.Failed? && MayPickAll(i, s.locals[i].env, [a])
    ensures
      var l := s.locals[i];
      var (rows, r) := Retried(s.rows, i, l.env, l.endpoint, l.responsible, [a]);
      && IsRun(s, AttemptSteps(i, a, late))
      && Ends(After(s, AttemptSteps(i, a, late)), i, l.(responsible := FlagAfter(r, late, l.responsible)), rows)
  {
    match a.outcome
    case Confirmed => ConfirmedIsRun(s, i, a, late);
    case TimedOut(_) => TimedOutIsRun(s, i, a, late);
    case Fatal => FatalIsRun(s, i, a, late);
  }

  lemma RetriedOne(
    rows: Rows, i: Id, env: Env, endpoint: Endpoint, responsible: bool, attempts: seq<Attempt>)
    requires MayPickAll(i, env, attempts) && attempts != [] && !attempts[0].outcome.Failed?
    ensures Retried(rows, i, env, endpoint, responsible, attempts)
      == Retried(rows, i, env, endpoint, responsible, [attempts[0]])
  {
  }

  /** Starting from any cluster, whatever the other instances do before each attempt, and whether or not realize returns
      after its deadline: the effect of a heartbeat on the table and on the local flag is that of a run of the protocol
      in which the others' steps are interleaved. So all that is proved about runs holds for the controller. */
  lemma {:induction false} RealizeIsRun(
    s: Cluster, i: Id, attempts: seq<Attempt>, meanwhile: seq<seq<Step>>, late: bool)
    requires |meanwhile| == |attempts| && Interleaved(s, i, attempts, meanwhile)
    requires i in s.locals && s.locals[i].phase.Idle? && MayPickAll(i, s.locals[i].env, attempts)
    ensures
      var l := s.locals[i];
      var (rows, r) := Retried(s.rows, i, l.env, l.endpoint, l.responsible, attempts);
      && IsRun(s, StepsOf(i, attempts, meanwhile, late))
      && Ends(After(s, StepsOf(i, attempts, meanwhile, late)), i,
              l.(responsible := FlagAfter(r, late, l.responsible)), rows)
    decreases |attempts|
  {
    var l := s.locals[i];
    if attempts == [] {
      OneStep(s, GiveUp(i));
    } else {
      var u, a := After(s, meanwhile[0]), attempts[0];
      OthersLeave(s, i, meanwhile[0]);
      assert Starts(u, i, a);
      if a.outcome.Failed? {
        FailedIsRun(u, i, a, late);
        RealizeIsRun(u, i, attempts[1..], meanwhile[1..], late);
        RunAppend(u, AttemptSteps(i, a, late), StepsOf(i, attempts[1..], meanwhile[1..], late));
        RunAppend(s, meanwhile[0], AttemptSteps(i, a, late) + StepsOf(i, attempts[1..], meanwhile[1..], late));
      } else {
        LastAttemptIsRun(u, i, a, late);
        RetriedOne(s.rows, i, l.env, l.endpoint, l.responsible, attempts);
        RunAppend(s, meanwhile[0], AttemptSteps(i, a, late));
        assert AttemptSteps(i, a, late) + [] == AttemptSteps(i, a, late);
      }
    }
  }

  /** The steps of the controller when it has lost the heartbeat, or drops it. others: what other instances do between
      the handover and the UPDATE of the own row. */
  ghost function LossSteps(i: Id, others: seq<Step>, ok: bool): seq<Step> {
    [LoseHeartbeat(i)] + (others + [ClearRow(i, ok)])
  }

  /** Losing or dropping a heartbeat is a run of the protocol, whatever other instances do in between. */
  lemma LossIsRun(s: Cluster, i: Id, others: seq<Step>, ok: bool)
    requires i in s.locals && s.locals[i].phase.Idle?
    requires Precedes(Next(s, LoseHeartbeat(i)), i, others)
    ensures IsRun(s, LossSteps(i, others, ok))
    ensures
      var u, t := After(Next(s, LoseHeartbeat(i)), others), After(s, LossSteps(i, others, ok));
      && i in t.locals && t.locals[i] == s.locals[i].(responsible := false)
      && OwnRowCleared(u.rows, t.rows, i, ok)
  {
    var lost := Next(s, LoseHeartbeat(i));
    var u := After(lost, others);
    OthersLeave(lost, i, others);
    OneStep(u, ClearRow(i, ok));
    RunAppend(lost, others, [ClearRow(i, ok)]);
    OneStep(s, LoseHeartbeat(i));
    RunAppend(s, [LoseHeartbeat(i)], others + [ClearRow(i, ok)]);
  }

  /** A process that ends without a trace (an environment change, or a nil dereference), or removes its row. */
  lemma EndIsRun(s: Cluster, i: Id, removed: bool)
    requires i in s.locals && !s.locals[i].phase.InTx? && (removed ==> Free(s, s.locals[i].env))
    ensures IsRun(s, [Stop(i, removed)])
    ensures
      var t := After(s, [Stop(i, removed)]);
      && t.locals == s.locals - {i} && t.rows.Keys == (if removed then s.rows.Keys - {i} else s.rows.Keys)
      && forall j <- t.rows :: t.rows[j] == s.rows[j]
  {
    OneStep(s, Stop(i, removed));
  }

  /** Removing old instances is the step of the protocol. */
  lemma RemovalIsStep(s: Cluster, i: Id, now: int, rows: Rows)
    requires Enabled(s, RemoveOld(i, now))
    requires forall j :: j in rows <==>
      && j in s.rows
      && !(j != i && s.rows[j].env == s.locals[i].env && s.rows[j].endpoint == s.locals[i].endpoint
           && s.rows[j].heartbeat < now - PEER_TIMEOUT)
    requires forall j <- rows :: rows[j] == s.rows[j]
    ensures rows == Next(s, RemoveOld(i, now)).rows && Next(s, RemoveOld(i, now)).locals == s.locals
  {
  }
}

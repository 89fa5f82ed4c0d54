/** The high-availability protocol of pkg/icingadb/ha.go as a state machine over any number of instances.

    All instances share one SQL table. A realize transaction is split into its start (where the row of a responsible
    peer is read and the decision is made) and its end. Between the two it keeps other transactions on the same
    environment away, as the row locks and the serialization of the database do.
 */
module HaProtocol {
  import opened Wrappers

  type Id = nat
  type Env = nat
  type Endpoint = nat

  /** icingaredis.Timeout and peerTimeout in milliseconds. */
  const TIMEOUT: int := 60000
  const GRACE: int := 5000
  const PEER_TIMEOUT: int := TIMEOUT + GRACE

  /** A row of icingadb_instance. */
  datatype Row = Row(env: Env, endpoint: Endpoint, responsible: bool, heartbeat: int)

  type Rows = map<Id, Row>

  /* ---------- One realize transaction ---------- */

  predicate IsResponsiblePeer(rows: Rows, i: Id, env: Env, j: Id) {
    j in rows && j != i && rows[j].env == env && rows[j].responsible
  }

  /** What the SELECT may yield: any one matching row, or nothing if there is none. */
  ghost predicate MayPick(rows: Rows, i: Id, env: Env, pick: Option<Id>) {
    match pick
    case Some(j) => IsResponsiblePeer(rows, i, env, j)
    case None => forall j :: !IsResponsiblePeer(rows, i, env, j)
  }

  predicate Expired(row: Row, now: int) {
    row.heartbeat < now - PEER_TIMEOUT
  }

  datatype Decision = Decision(takeover: bool, otherResponsible: bool)

  function Decide(rows: Rows, pick: Option<Id>, responsible: bool, now: int): Decision
    requires pick.Some? ==> pick.value in rows
  {
    match pick
    case Some(j) => if Expired(rows[j], now) then Decision(true, false) else Decision(false, true)
    case None => Decision(!responsible, false)
  }

  /** The UPSERT of the own row, and on takeover the UPDATE of all other rows of the environment. */
  function Written(rows: Rows, i: Id, row: Row, takeover: bool): (r: Rows)
    ensures r.Keys == rows.Keys + {i}
  {
    var upserted := rows[i := row];
    if takeover then
      map j | j in upserted ::
        if j != i && upserted[j].env == row.env then upserted[j].(responsible := false) else upserted[j]
    else upserted
  }

  /** Of other rows, the statements only ever clear the flag: on takeover, those of the same environment. */
  lemma WrittenColumns(rows: Rows, i: Id, row: Row, takeover: bool, j: Id)
    ensures
      var after := Written(rows, i, row, takeover);
      if j == i then j in after && after[j] == row
      else
        && (j in after <==> j in rows)
        && (j in rows ==>
              && after[j].env == rows[j].env && after[j].endpoint == rows[j].endpoint
              && after[j].heartbeat == rows[j].heartbeat
              && (after[j].responsible <==> rows[j].responsible && !(takeover && rows[j].env == row.env)))
  {
  }

  /* ---------- The cluster ---------- */

  datatype Phase =
    | Idle
    | InTx(pick: Option<Id>, decision: Decision, wasResponsible: bool, heartbeat: int, gaveUp: bool)
    | Committed(decision: Decision)
    | LostHeartbeat

  datatype Local = Local(env: Env, endpoint: Endpoint, responsible: bool, phase: Phase)

  /** displaced is a history variable: the instances whose row another instance has overwritten with 'n' on takeover
      or removed as expired since their own last commit. */
  datatype Cluster = Cluster(rows: Rows, locals: map<Id, Local>, displaced: set<Id>)

  datatype Step =
    | Join(i: Id, env: Env, endpoint: Endpoint)
    | Begin(i: Id, now: int, pick: Option<Id>, heartbeat: int)
    | Commit(i: Id)
    | Fail(i: Id)
    | GiveUp(i: Id)
    | Signal(i: Id)
    | LoseHeartbeat(i: Id)
    | ClearRow(i: Id, written: bool)
    | RemoveOld(i: Id, now: int)
    | Stop(i: Id, rowRemoved: bool)

  /** No transaction on the environment is under way. */
  predicate Free(s: Cluster, env: Env) {
    forall j <- s.locals :: s.locals[j].env == env ==> !s.locals[j].phase.InTx?
  }

  ghost predicate Enabled(s: Cluster, a: Step) {
    match a
    case Join(i, _, _) => i !in s.locals && i !in s.rows
    case Begin(i, now, pick, _) =>
      && i in s.locals && s.locals[i].phase.Idle? && Free(s, s.locals[i].env)
      && MayPick(s.rows, i, s.locals[i].env, pick)
    case Commit(i) => i in s.locals && s.locals[i].phase.InTx?
    case Fail(i) => i in s.locals && s.locals[i].phase.InTx?
    case GiveUp(i) =>
      i in s.locals && (s.locals[i].phase.Idle? || (s.locals[i].phase.InTx? && !s.locals[i].phase.gaveUp))
    case Signal(i) => i in s.locals && s.locals[i].phase.Committed?
    case LoseHeartbeat(i) => i in s.locals && s.locals[i].phase.Idle?
    case ClearRow(i, _) => i in s.locals && s.locals[i].phase.LostHeartbeat? && Free(s, s.locals[i].env)
    case RemoveOld(i, _) => i in s.locals && Free(s, s.locals[i].env)
    case Stop(i, rowRemoved) =>
      i in s.locals && !s.locals[i].phase.InTx? && (rowRemoved ==> Free(s, s.locals[i].env))
  }

  function SetLocal(s: Cluster, i: Id, responsible: bool, phase: Phase): Cluster
    requires i in s.locals
  {
    s.(locals := s.locals[i := s.locals[i].(responsible := responsible, phase := phase)])
  }

  function OwnRow(l: Local): Row
    requires l.phase.InTx?
  {
    Row(l.env, l.endpoint, l.phase.decision.takeover || l.phase.wasResponsible, l.phase.heartbeat)
  }

  function Peers(s: Cluster, i: Id): set<Id>
    requires i in s.locals
  {
    set j | j in s.rows && j != i && s.rows[j].env == s.locals[i].env
  }

  /** Rows that removeOldInstances deletes. */
  function Outdated(s: Cluster, i: Id, now: int): set<Id>
    requires i in s.locals
  {
    set j | j in Peers(s, i) && s.rows[j].endpoint == s.locals[i].endpoint && Expired(s.rows[j], now)
  }

  function Next(s: Cluster, a: Step): Cluster
    requires Enabled(s, a)
  {
    match a
    case Join(i, env, endpoint) =>
      s.(locals := s.locals[i := Local(env, endpoint, false, Idle)])
    case Begin(i, now, pick, heartbeat) =>
      var l := s.locals[i];
      SetLocal(s, i, l.responsible,
               InTx(pick, Decide(s.rows, pick, l.responsible, now), l.responsible, heartbeat, false))
    case Commit(i) =>
      var l := s.locals[i];
      SetLocal(s, i, l.responsible, if l.phase.gaveUp then Idle else Committed(l.phase.decision))
      .(rows := Written(s.rows, i, OwnRow(l), l.phase.decision.takeover),
        displaced := (if l.phase.decision.takeover then s.displaced + Peers(s, i) else s.displaced) - {i})
    case Fail(i) =>
      SetLocal(s, i, s.locals[i].responsible, Idle)
    case GiveUp(i) =>
      var phase := s.locals[i].phase;
      SetLocal(s, i, false, if phase.InTx? then phase.(gaveUp := true) else phase)
    case Signal(i) =>
      var d := s.locals[i].phase.decision;
      SetLocal(s, i, d.takeover || (s.locals[i].responsible && !d.otherResponsible), Idle)
    case LoseHeartbeat(i) =>
      SetLocal(s, i, false, LostHeartbeat)
    case ClearRow(i, written) =>
      SetLocal(s, i, s.locals[i].responsible, Idle)
      .(rows := if written && i in s.rows then s.rows[i := s.rows[i].(responsible := false)] else s.rows)
    case RemoveOld(i, now) =>
      s.(rows := s.rows - Outdated(s, i, now), displaced := s.displaced + Outdated(s, i, now))
    case Stop(i, rowRemoved) =>
      s.(locals := s.locals - {i}, rows := if rowRemoved then s.rows - {i} else s.rows)
  }

  /* ---------- Runs ---------- */

  ghost predicate IsRun(s: Cluster, steps: seq<Step>)
    decreases |steps|
  {
    steps != [] ==> Enabled(s, steps[0]) && IsRun(Next(s, steps[0]), steps[1..])
  }

  ghost function After(s: Cluster, steps: seq<Step>): Cluster
    requires IsRun(s, steps)
    decreases |steps|
  {
    if steps == [] then s else After(Next(s, steps[0]), steps[1..])
  }

  /** No process is running. The table may hold anything that earlier processes left behind. */
  predicate Initial(s: Cluster) {
    s.locals == map[] && s.displaced == {}
  }

  /** Responsible, or about to signal a committed takeover. */
  predicate Holds(s: Cluster, i: Id) {
    i in s.locals && (s.locals[i].responsible || (s.locals[i].phase.Committed? && s.locals[i].phase.decision.takeover))
  }

  /* ---------- The local flag follows the row ---------- */

  predicate RowsMatchLocals(s: Cluster) {
    forall i <- s.locals :: i in s.rows ==> s.rows[i].env == s.locals[i].env
  }

  /** Each holder has its row set, unless another instance has taken it away since. */
  predicate RowBeforeFlag(s: Cluster) {
    && RowsMatchLocals(s)
    && (forall i <- s.locals :: Holds(s, i) && i !in s.displaced ==> i in s.rows && s.rows[i].responsible)
    && (forall i <- s.locals :: s.locals[i].phase.InTx? && !s.locals[i].phase.gaveUp ==>
          s.locals[i].phase.wasResponsible == s.locals[i].responsible)
    && (forall i <- s.locals :: s.locals[i].phase.LostHeartbeat? ==> !Holds(s, i))
    && (forall i <- s.locals :: s.locals[i].phase.InTx? && s.locals[i].phase.gaveUp ==> !s.locals[i].responsible)
  }

  lemma RowBeforeFlagStep(s: Cluster, a: Step)
    requires RowBeforeFlag(s) && Enabled(s, a)
    ensures RowBeforeFlag(Next(s, a))
  {
  }

  /** In every reachable state, the row of a responsible instance is 'y' unless a peer has displaced it. */
  lemma {:induction false} FlagFollowsRow(s: Cluster, steps: seq<Step>)
    requires RowBeforeFlag(s) && IsRun(s, steps)
    ensures RowBeforeFlag(After(s, steps))
    decreases |steps|
  {
    if steps != [] {
      RowBeforeFlagStep(s, steps[0]);
      FlagFollowsRow(Next(s, steps[0]), steps[1..]);
    }
  }

  /** From a start without processes, whatever the table holds. */
  lemma ResponsibleMeansRow(s: Cluster, steps: seq<Step>, i: Id)
    requires Initial(s) && IsRun(s, steps)
    ensures
      var t := After(s, steps);
      i in t.locals && t.locals[i].responsible && i !in t.displaced ==> i in t.rows && t.rows[i].responsible
  {
    FlagFollowsRow(s, steps);
  }

  /* ---------- Lease safety ---------- */

  /** Whenever another instance's transaction tests or removes expired rows, every holder's row is unexpired. */
  ghost predicate LeaseHeld(s: Cluster, a: Step) {
    match a
    case Begin(i, now, _, _) => PeersUnexpired(s, i, now)
    case RemoveOld(i, now) => PeersUnexpired(s, i, now)
    case _ => true
  }

  ghost predicate PeersUnexpired(s: Cluster, i: Id, now: int)
  {
    forall j <- s.locals :: i in s.locals && j != i && s.locals[j].env == s.locals[i].env && Holds(s, j) && j in s.rows
      ==> !Expired(s.rows[j], now)
  }

  ghost predicate LeaseRun(s: Cluster, steps: seq<Step>)
    requires IsRun(s, steps)
    decreases |steps|
  {
    steps != [] ==> LeaseHeld(s, steps[0]) && LeaseRun(Next(s, steps[0]), steps[1..])
  }

  /** i is the only row of its environment that is 'y'. */
  ghost predicate OnlyRow(s: Cluster, i: Id)
    requires i in s.locals
  {
    && i in s.rows && s.rows[i].responsible
    && forall j :: !IsResponsiblePeer(s.rows, i, s.locals[i].env, j)
  }

  /** What a running transaction still knows to be true at its end. */
  ghost predicate DecisionStands(s: Cluster, i: Id)
    requires i in s.locals && s.locals[i].phase.InTx?
  {
    var l := s.locals[i];
    && MayPick(s.rows, i, l.env, l.phase.pick)
    && (l.phase.wasResponsible ==> l.phase.pick.None?)
    && (l.phase.pick.None? ==> l.phase.decision == Decision(!l.phase.wasResponsible, false))
    && (l.phase.pick.Some? ==> l.phase.decision.takeover != l.phase.decision.otherResponsible)
    && (l.phase.pick.Some? && l.phase.decision.takeover ==>
          forall j <- s.locals :: j != i && s.locals[j].env == l.env ==> !Holds(s, j))
    && (if l.phase.gaveUp then !l.responsible else l.responsible == l.phase.wasResponsible)
  }

  ghost predicate BothInTx(s: Cluster, i: Id, j: Id)
    requires i in s.locals && j in s.locals
  {
    s.locals[i].phase.InTx? && s.locals[j].phase.InTx? && s.locals[i].env == s.locals[j].env
  }

  ghost predicate LeaseInv(s: Cluster) {
    && RowsMatchLocals(s)
    && (forall i <- s.locals :: Holds(s, i) ==> OnlyRow(s, i))
    && (forall i <- s.locals :: s.locals[i].phase.InTx? ==> DecisionStands(s, i))
    && (forall i <- s.locals, j <- s.locals :: BothInTx(s, i, j) ==> i == j)
    && (forall i <- s.locals :: s.locals[i].phase.LostHeartbeat? ==> !s.locals[i].responsible)
  }

  ghost predicate AtMostOneHolder(s: Cluster) {
    forall i <- s.locals, j <- s.locals :: Holds(s, i) && Holds(s, j) && s.locals[i].env == s.locals[j].env ==> i == j
  }

  ghost predicate AtMostOneRow(s: Cluster) {
    forall i <- s.rows, j <- s.rows ::
      s.rows[i].responsible && s.rows[j].responsible && s.rows[i].env == s.rows[j].env ==> i == j
  }

  lemma DecisionIsSound(s: Cluster, a: Step)
    requires LeaseInv(s) && Enabled(s, a) && LeaseHeld(s, a) && a.Begin?
    ensures DecisionStands(Next(s, a), a.i)
  {
    var i, t := a.i, Next(s, a);
    forall j | j in t.locals && j != i && t.locals[j].env == t.locals[i].env && a.pick.Some? && Holds(t, j)
      ensures !t.locals[i].phase.decision.takeover
    {
      assert Holds(s, j) && OnlyRow(s, j);
      assert a.pick.value != j ==> !IsResponsiblePeer(s.rows, j, s.locals[j].env, a.pick.value);
    }
    assert s.locals[i].responsible ==> Holds(s, i);
  }

  lemma BeginKeepsLease(s: Cluster, a: Step)
    requires LeaseInv(s) && Enabled(s, a) && LeaseHeld(s, a) && a.Begin?
    ensures LeaseInv(Next(s, a))
  {
    var t := Next(s, a);
    DecisionIsSound(s, a);
    forall i | i in t.locals && t.locals[i].phase.InTx?
      ensures DecisionStands(t, i)
    {
      if i != a.i {
        assert DecisionStands(s, i);
      }
    }
    forall i | i in t.locals && Holds(t, i)
      ensures OnlyRow(t, i)
    {
      assert Holds(s, i);
    }
  }

  lemma CommitOwnRow(s: Cluster, a: Step)
    requires LeaseInv(s) && Enabled(s, a) && a.Commit?
    requires Holds(Next(s, a), a.i)
    ensures OnlyRow(Next(s, a), a.i)
  {
    var i, t, l := a.i, Next(s, a), s.locals[a.i];
    assert DecisionStands(s, i) && !l.phase.gaveUp;
    if !l.phase.decision.takeover {
      assert l.phase.wasResponsible && l.phase.pick.None?;
      forall j ensures !IsResponsiblePeer(t.rows, i, l.env, j) {
        assert !IsResponsiblePeer(s.rows, i, l.env, j);
      }
    }
  }

  lemma CommitOtherRow(s: Cluster, a: Step, k: Id)
    requires LeaseInv(s) && Enabled(s, a) && a.Commit?
    requires k != a.i && k in s.locals && Holds(s, k)
    ensures OnlyRow(Next(s, a), k)
  {
    var i, t, l := a.i, Next(s, a), s.locals[a.i];
    assert DecisionStands(s, i) && OnlyRow(s, k);
    if s.locals[k].env == l.env {
      assert IsResponsiblePeer(s.rows, i, l.env, k);
      assert l.phase.pick.Some?;
      assert l.phase.pick.value != k ==> !IsResponsiblePeer(s.rows, k, l.env, l.phase.pick.value);
      assert !l.phase.decision.takeover && !l.phase.wasResponsible;
    }
    forall j ensures !IsResponsiblePeer(t.rows, k, s.locals[k].env, j) {
      assert !IsResponsiblePeer(s.rows, k, s.locals[k].env, j);
    }
  }

  lemma CommitKeepsLease(s: Cluster, a: Step)
    requires LeaseInv(s) && Enabled(s, a) && a.Commit?
    ensures LeaseInv(Next(s, a))
  {
    var t := Next(s, a);
    assert DecisionStands(s, a.i);
    forall i | i in t.locals && Holds(t, i)
      ensures OnlyRow(t, i)
    {
      if i == a.i {
        CommitOwnRow(s, a);
      } else {
        CommitOtherRow(s, a, i);
      }
    }
    forall i | i in t.locals && t.locals[i].phase.InTx?
      ensures DecisionStands(t, i)
    {
      assert DecisionStands(s, i);
      assert !BothInTx(s, i, a.i);
      assert forall j :: IsResponsiblePeer(t.rows, i, t.locals[i].env, j) <==>
        IsResponsiblePeer(s.rows, i, s.locals[i].env, j);
    }
    assert forall i, j | i in t.locals && j in t.locals :: BothInTx(t, i, j) ==> BothInTx(s, i, j);
  }

  /** A step of one instance that leaves the table alone and does not make it a holder. */
  lemma LocalStepKeepsLease(s: Cluster, t: Cluster, i: Id)
    requires LeaseInv(s) && t.rows == s.rows
    requires i in t.locals && t.locals == s.locals[i := t.locals[i]]
    requires i in s.rows ==> s.rows[i].env == t.locals[i].env
    requires i in s.locals ==> s.locals[i].env == t.locals[i].env
    requires Holds(t, i) ==> Holds(s, i)
    requires t.locals[i].phase.InTx? ==> i in s.locals && s.locals[i].phase.InTx? && DecisionStands(t, i)
    requires t.locals[i].phase.LostHeartbeat? ==> !t.locals[i].responsible
    ensures LeaseInv(t)
  {
    forall k | k in t.locals && Holds(t, k)
      ensures OnlyRow(t, k)
    {
      assert Holds(s, k) && OnlyRow(s, k);
    }
    forall k | k in t.locals && t.locals[k].phase.InTx?
      ensures DecisionStands(t, k)
    {
      if k != i {
        assert DecisionStands(s, k);
        assert forall j | j in t.locals :: Holds(t, j) ==> Holds(s, j);
      }
    }
    assert forall k, j | k in t.locals && j in t.locals :: BothInTx(t, k, j) ==> BothInTx(s, k, j);
  }

  lemma GiveUpKeepsLease(s: Cluster, a: Step)
    requires LeaseInv(s) && Enabled(s, a) && a.GiveUp?
    ensures LeaseInv(Next(s, a))
  {
    if s.locals[a.i].phase.InTx? {
      assert DecisionStands(s, a.i);
      assert DecisionStands(Next(s, a), a.i) by {
        assert forall j | j in s.locals && j != a.i :: Holds(Next(s, a), j) <==> Holds(s, j);
      }
    }
    LocalStepKeepsLease(s, Next(s, a), a.i);
  }

  lemma TableKeepsLease(s: Cluster, a: Step)
    requires LeaseInv(s) && Enabled(s, a) && LeaseHeld(s, a) && (a.ClearRow? || a.RemoveOld? || a.Stop?)
    ensures LeaseInv(Next(s, a))
  {
    var t := Next(s, a);
    forall i | i in t.locals && Holds(t, i)
      ensures OnlyRow(t, i)
    {
      assert Holds(s, i) && OnlyRow(s, i);
      assert forall j :: IsResponsiblePeer(t.rows, i, t.locals[i].env, j) ==>
        IsResponsiblePeer(s.rows, i, s.locals[i].env, j);
    }
    forall i | i in t.locals && t.locals[i].phase.InTx?
      ensures DecisionStands(t, i)
    {
      assert DecisionStands(s, i);
      assert forall j :: IsResponsiblePeer(t.rows, i, t.locals[i].env, j) <==>
        IsResponsiblePeer(s.rows, i, s.locals[i].env, j);
    }
    assert forall i, j | i in t.locals && j in t.locals :: BothInTx(t, i, j) ==> BothInTx(s, i, j);
  }

  lemma LeaseStep(s: Cluster, a: Step)
    requires LeaseInv(s) && Enabled(s, a) && LeaseHeld(s, a)
    ensures LeaseInv(Next(s, a))
  {
    if a.Begin? {
      BeginKeepsLease(s, a);
    } else if a.Commit? {
      CommitKeepsLease(s, a);
    } else if a.ClearRow? || a.RemoveOld? || a.Stop? {
      TableKeepsLease(s, a);
    } else if a.GiveUp? {
      GiveUpKeepsLease(s, a);
    } else {
      LocalStepKeepsLease(s, Next(s, a), a.i);
    }
  }

  lemma {:induction false} LeaseInvOfRun(s: Cluster, steps: seq<Step>)
    requires LeaseInv(s) && IsRun(s, steps) && LeaseRun(s, steps)
    ensures LeaseInv(After(s, steps))
    decreases |steps|
  {
    if steps != [] {
      LeaseStep(s, steps[0]);
      LeaseInvOfRun(Next(s, steps[0]), steps[1..]);
    }
  }

  /** Lease safety: whatever the table held at first, and whatever commits fail, succeed late or get lost, at most one
      instance of each environment is responsible. */
  lemma AtMostOneResponsible(s: Cluster, steps: seq<Step>)
    requires Initial(s) && IsRun(s, steps) && LeaseRun(s, steps)
    ensures AtMostOneHolder(After(s, steps))
    ensures forall i <- After(s, steps).locals :: Holds(After(s, steps), i) ==> OnlyRow(After(s, steps), i)
  {
    LeaseInvOfRun(s, steps);
    OneHolder(After(s, steps));
  }

  lemma OneHolder(s: Cluster)
    requires LeaseInv(s)
    ensures AtMostOneHolder(s)
  {
    forall i, j | i in s.locals && j in s.locals && Holds(s, i) && Holds(s, j) && s.locals[i].env == s.locals[j].env
      ensures i == j
    {
      assert OnlyRow(s, j);
      assert i != j ==> !IsResponsiblePeer(s.rows, j, s.locals[j].env, i);
      assert OnlyRow(s, i);
    }
  }

  lemma RowStep(s: Cluster, a: Step)
    requires LeaseInv(s) && AtMostOneRow(s) && Enabled(s, a)
    ensures AtMostOneRow(Next(s, a))
  {
    if a.Commit? {
      var t, i := Next(s, a), a.i;
      assert DecisionStands(s, i);
      forall j, k | j in t.rows && k in t.rows && t.rows[j].responsible && t.rows[k].responsible
        && t.rows[j].env == t.rows[k].env
        ensures j == k
      {
        if j != k && (j == i || k == i) {
          var other := if j == i then k else j;
          assert IsResponsiblePeer(s.rows, i, s.locals[i].env, other);
        }
      }
    }
  }

  /** If the table starts with at most one 'y' row per environment, it always stays so. */
  lemma {:induction false} AtMostOneResponsibleRow(s: Cluster, steps: seq<Step>)
    requires LeaseInv(s) && AtMostOneRow(s) && IsRun(s, steps) && LeaseRun(s, steps)
    ensures AtMostOneRow(After(s, steps))
    decreases |steps|
  {
    if steps != [] {
      LeaseStep(s, steps[0]);
      RowStep(s, steps[0]);
      AtMostOneResponsibleRow(Next(s, steps[0]), steps[1..]);
    }
  }
}

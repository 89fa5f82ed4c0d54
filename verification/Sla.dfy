/** The SQL function get_sla_ok_percent.

    The database function sweeps once over a sorted cursor of events. Here it is proved to compute the
    pointwise definition: counts of single milliseconds, with no cursor and no counter. For downtimes that do not end
    before they start, a millisecond is a problem if the state in force is one and no downtime covers it.
 */
module Sla {
  import opened Wrappers

  /* ---------- Tables ---------- */

  const UNKNOWN_STATE: nat := 99

  datatype Downtime = Downtime(hostId: nat, serviceId: Option<nat>, start: nat, end: nat)

  datatype StateEvent = StateEvent(
    hostId: nat, serviceId: Option<nat>, time: nat, hardState: nat, previousHardState: nat)

  datatype Tables = Tables(
    downtimes: seq<Downtime>,
    states: seq<StateEvent>,
    hostState: map<nat, nat>,
    serviceState: map<(nat, nat), nat>)

  datatype Query = Query(hostId: nat, serviceId: Option<nat>, start: nat, end: nat)

  predicate MatchesDowntime(q: Query, d: Downtime) {
    d.hostId == q.hostId && d.serviceId == q.serviceId
  }

  predicate MatchesState(q: Query, e: StateEvent) {
    e.hostId == q.hostId && e.serviceId == q.serviceId
  }

  /** A downtime of the checkable that overlaps the SLA interval in any way. */
  predicate Selected(q: Query, d: Downtime) {
    MatchesDowntime(q, d) && d.start < q.end && d.end >= q.start
  }

  function Max(a: nat, b: nat): nat {
    if a < b then b else a
  }

  /* ---------- Cursor ---------- */

  datatype Change = Change(time: nat, hardState: nat, previousHardState: nat)

  datatype Row =
    | StateChange(change: Change)
    | DowntimeStart(at: nat)
    | DowntimeEnd(at: nat)
    | End(at: nat)
  {
    function Time(): nat {
      if StateChange? then change.time else at
    }

    function Prio(): nat {
      match this
      case StateChange(_) => 0
      case DowntimeStart(_) => 1
      case DowntimeEnd(_) => 2
      case End(_) => 3
    }
  }

  function StartRows(ds: seq<Downtime>, q: Query): seq<Row> {
    if ds == [] then []
    else (if Selected(q, ds[0]) then [DowntimeStart(Max(ds[0].start, q.start))] else []) + StartRows(ds[1..], q)
  }

  function EndRows(ds: seq<Downtime>, q: Query): seq<Row> {
    if ds == [] then []
    else (if Selected(q, ds[0]) && ds[0].end < q.end then [DowntimeEnd(ds[0].end)] else []) + EndRows(ds[1..], q)
  }

  function StateRows(es: seq<StateEvent>, q: Query): seq<Row> {
    if es == [] then []
    else
      (if MatchesState(q, es[0]) && q.start < es[0].time < q.end
       then [StateChange(Change(es[0].time, es[0].hardState, es[0].previousHardState))] else [])
      + StateRows(es[1..], q)
  }

  function UnionAll(db: Tables, q: Query): seq<Row> {
    StartRows(db.downtimes, q) + EndRows(db.downtimes, q) + StateRows(db.states, q) + [End(q.end)]
  }

  predicate NotAfter(a: Row, b: Row) {
    a.Time() < b.Time() || (a.Time() == b.Time() && a.Prio() <= b.Prio())
  }

  ghost predicate Ordered(rows: seq<Row>) {
    forall i, j {:trigger NotAfter(rows[i], rows[j])} :: 0 <= i < j < |rows| ==> NotAfter(rows[i], rows[j])
  }

  /** Any answer the database may give to the cursor's SELECT: the selected rows, ordered by time and priority.
      Rows equal in both may come in any order. */
  ghost predicate IsCursor(rows: seq<Row>, db: Tables, q: Query) {
    multiset(rows) == multiset(UnionAll(db, q)) && Ordered(rows)
  }

  /** The state changes inside the interval, in the order in which the cursor delivers them. */
  function ChangesOf(rows: seq<Row>): seq<Change> {
    if rows == [] then []
    else ChangeOf(rows[0]) + ChangesOf(rows[1..])
  }

  function ChangeOf(r: Row): seq<Change> {
    if r.StateChange? then [r.change] else []
  }

  /* ---------- Pointwise specification ---------- */

  ghost function CoveringDowntimes(ds: seq<Downtime>, q: Query, t: int): nat {
    if ds == [] then 0
    else (if MatchesDowntime(q, ds[0]) && ds[0].start <= t < ds[0].end then 1 else 0)
         + CoveringDowntimes(ds[1..], q, t)
  }

  /** Downtimes begun at t minus downtimes ended at t. It may be negative if some downtime ends before it starts. */
  ghost function NetDowntimes(ds: seq<Downtime>, q: Query, t: int): int {
    if ds == [] then 0
    else
      (if Selected(q, ds[0]) && Max(ds[0].start, q.start) <= t then 1 else 0)
      - (if Selected(q, ds[0]) && ds[0].end < q.end && ds[0].end <= t then 1 else 0)
      + NetDowntimes(ds[1..], q, t)
  }

  ghost predicate ValidDowntimes(db: Tables) {
    forall d <- db.downtimes :: d.start <= d.end
  }

  /** The hard state in force at t: set by the last state change not after t. */
  ghost function InForce(cs: seq<Change>, initial: nat, t: int): nat {
    if cs == [] then initial
    else if cs[|cs| - 1].time <= t then cs[|cs| - 1].hardState
    else InForce(cs[..|cs| - 1], initial, t)
  }

  predicate HasBoundaryAt(q: Query, d: Downtime, u: int) {
    Selected(q, d) && (u == Max(d.start, q.start) || (u == d.end && d.end < q.end))
  }

  /** A selected downtime begins or ends at u. */
  ghost predicate DowntimeBoundary(db: Tables, q: Query, u: int) {
    exists d <- db.downtimes :: HasBoundaryAt(q, d, u)
  }

  /** t lies in a slice that ends at a state change from an unknown state. Downtime boundaries cut slices short. */
  ghost predicate IsUnknown(db: Tables, q: Query, cs: seq<Change>, t: int) {
    exists i :: 0 <= i < |cs| && UnknownUntil(db, q, cs, i, t)
  }

  ghost predicate UnknownUntil(db: Tables, q: Query, cs: seq<Change>, i: nat, t: int)
    requires i < |cs|
  {
    && cs[i].previousHardState == UNKNOWN_STATE
    && t < cs[i].time
    && (forall j :: 0 <= j < i ==> cs[j].time <= t)
    && (forall u :: t < u < cs[i].time ==> !DowntimeBoundary(db, q, u))
  }

  predicate IsProblemState(q: Query, s: nat) {
    ((q.serviceId.None? && s > 0) || (q.serviceId.Some? && s > 1)) && s != UNKNOWN_STATE
  }

  ghost predicate IsProblem(db: Tables, q: Query, cs: seq<Change>, initial: nat, t: int) {
    && IsProblemState(q, InForce(cs, initial, t))
    && NetDowntimes(db.downtimes, q, t) == 0
    && !IsUnknown(db, q, cs, t)
  }

  /** The number of milliseconds in [lo, hi) with property p. */
  ghost function Millis(p: int -> bool, lo: int, hi: int): nat {
    |set t | lo <= t < hi && p(t)|
  }

  ghost function UnknownAt(db: Tables, q: Query, cs: seq<Change>): int -> bool {
    t => IsUnknown(db, q, cs, t)
  }

  ghost function ProblemAt(db: Tables, q: Query, cs: seq<Change>, initial: nat): int -> bool {
    t => IsProblem(db, q, cs, initial, t)
  }

  ghost function ProblemTime(db: Tables, q: Query, cs: seq<Change>, initial: nat): nat {
    Millis(ProblemAt(db, q, cs, initial), q.start, q.end)
  }

  ghost function TotalTime(db: Tables, q: Query, cs: seq<Change>): int {
    q.end - q.start - Millis(UnknownAt(db, q, cs), q.start, q.end)
  }

  predicate Before(q: Query, e: StateEvent) {
    MatchesState(q, e) && e.time <= q.start
  }

  predicate After(q: Query, e: StateEvent) {
    MatchesState(q, e) && e.time > q.start
  }

  ghost predicate Latest(db: Tables, q: Query, e: StateEvent) {
    e in db.states && Before(q, e) && forall f <- db.states :: Before(q, f) ==> f.time <= e.time
  }

  ghost predicate Earliest(db: Tables, q: Query, e: StateEvent) {
    e in db.states && After(q, e) && forall f <- db.states :: After(q, f) ==> e.time <= f.time
  }

  function CurrentState(db: Tables, q: Query): nat {
    match q.serviceId
    case None => if q.hostId in db.hostState then db.hostState[q.hostId] else 0
    case Some(s) => if (q.hostId, s) in db.serviceState then db.serviceState[(q.hostId, s)] else 0
  }

  /** The possible initial states: the latest event at or before the start, else the state before the first later
      event, else the current state. */
  ghost predicate IsInitialState(db: Tables, q: Query, v: nat) {
    if exists e <- db.states :: Before(q, e) then
      exists e :: Latest(db, q, e) && v == e.hardState
    else if exists e <- db.states :: After(q, e) then
      exists e :: Earliest(db, q, e) && v == e.previousHardState
    else
      v == CurrentState(db, q)
  }

  /** No millisecond of the interval has seen more downtime ends than downtime starts. */
  ghost predicate CounterStaysUnsigned(db: Tables, q: Query) {
    UnsignedBefore(db, q, q.end)
  }

  ghost predicate UnsignedBefore(db: Tables, q: Query, hi: int) {
    forall t :: q.start <= t < hi ==> NetDowntimes(db.downtimes, q, t) >= 0
  }

  /* ---------- Lemmas: the downtime counter ---------- */

  /** For downtimes that do not end before they start, the counter is the number of downtimes covering t. */
  lemma {:induction false} NetIsCovering(ds: seq<Downtime>, q: Query, t: int)
    requires forall d <- ds :: d.start <= d.end
    requires q.start <= t < q.end
    ensures NetDowntimes(ds, q, t) == CoveringDowntimes(ds, q, t)
  {
    if ds != [] {
      NetIsCovering(ds[1..], q, t);
    }
  }

  lemma {:induction false} CoveringIsZero(ds: seq<Downtime>, q: Query, t: int)
    ensures CoveringDowntimes(ds, q, t) == 0
       <==> forall d <- ds :: MatchesDowntime(q, d) ==> !(d.start <= t < d.end)
  {
    if ds != [] {
      CoveringIsZero(ds[1..], q, t);
      assert forall d <- ds :: d == ds[0] || d in ds[1..];
    }
  }

  /** With valid downtimes, the sweep's counter is zero exactly outside all downtimes, and it never underflows. */
  lemma CounterMeansDowntime(db: Tables, q: Query)
    requires ValidDowntimes(db)
    ensures CounterStaysUnsigned(db, q)
    ensures forall t :: q.start <= t < q.end ==>
      (NetDowntimes(db.downtimes, q, t) == 0
       <==> forall d <- db.downtimes :: MatchesDowntime(q, d) ==> !(d.start <= t < d.end))
  {
    forall t | q.start <= t < q.end
      ensures NetDowntimes(db.downtimes, q, t) == CoveringDowntimes(db.downtimes, q, t)
      ensures NetDowntimes(db.downtimes, q, t) == 0
        <==> forall d <- db.downtimes :: MatchesDowntime(q, d) ==> !(d.start <= t < d.end)
    {
      NetIsCovering(db.downtimes, q, t);
      CoveringIsZero(db.downtimes, q, t);
    }
  }

  /** Without that, the counter can underflow: a downtime that ends before it starts is enough. */
  lemma UnderflowExample()
    ensures
      var db, q := Tables([Downtime(1, None, 20, 10)], [], map[], map[]), Query(1, None, 0, 100);
      NetDowntimes(db.downtimes, q, 15) == -1 && !CounterStaysUnsigned(db, q)
  {
    var db, q := Tables([Downtime(1, None, 20, 10)], [], map[], map[]), Query(1, None, 0, 100);
    assert db.downtimes[1..] == [];
    assert NetDowntimes(db.downtimes, q, 15) == -1;
  }

  ghost predicate InDowntime(db: Tables, q: Query, t: int) {
    exists d <- db.downtimes :: MatchesDowntime(q, d) && d.start <= t < d.end
  }

  /** A problem, without the counter: the state in force is one, no downtime covers t, and t is not unknown. */
  ghost predicate IsUncoveredProblem(db: Tables, q: Query, cs: seq<Change>, initial: nat, t: int) {
    IsProblemState(q, InForce(cs, initial, t)) && !InDowntime(db, q, t) && !IsUnknown(db, q, cs, t)
  }

  ghost function UncoveredProblemTime(db: Tables, q: Query, cs: seq<Change>, initial: nat): nat {
    |set t | q.start <= t < q.end && IsUncoveredProblem(db, q, cs, initial, t)|
  }

  /** With valid downtimes, the milliseconds that count as problems are those of a problem state outside all
      downtimes. */
  lemma ProblemsAreUncovered(db: Tables, q: Query, cs: seq<Change>, initial: nat)
    requires ValidDowntimes(db)
    ensures ProblemTime(db, q, cs, initial) == UncoveredProblemTime(db, q, cs, initial)
  {
    CounterMeansDowntime(db, q);
    assert (set t | q.start <= t < q.end && ProblemAt(db, q, cs, initial)(t))
        == (set t | q.start <= t < q.end && IsUncoveredProblem(db, q, cs, initial, t));
  }

  /** Net number of downtimes begun in some rows, counting only rows not after t. */
  ghost function NetRows(rows: seq<Row>, t: int): int {
    if rows == [] then 0
    else NetRow(rows[0], t) + NetRows(rows[1..], t)
  }

  ghost function NetRow(r: Row, t: int): int {
    if r.Time() > t then 0 else Step(r)
  }

  /** What a row adds to the downtime counter. */
  function Step(r: Row): int {
    if r.DowntimeStart? then 1 else if r.DowntimeEnd? then -1 else 0
  }

  lemma {:induction false} NetRowsAppend(a: seq<Row>, b: seq<Row>, t: int)
    ensures NetRows(a + b, t) == NetRows(a, t) + NetRows(b, t)
  {
    if a == [] {
      assert a + b == b;
    } else {
      assert (a + b)[1..] == a[1..] + b;
      NetRowsAppend(a[1..], b, t);
    }
  }

  /** Where a permutation has its partner of the first row. */
  lemma Match(a: seq<Row>, b: seq<Row>) returns (i: nat)
    requires multiset(a) == multiset(b) && a != []
    ensures i < |b| && b[i] == a[0]
    ensures multiset(a[1..]) == multiset(b[..i] + b[i + 1..])
    ensures b == b[..i] + [b[i]] + b[i + 1..]
  {
    assert a[0] in multiset(b);
    i :| 0 <= i < |b| && b[i] == a[0];
    var rest := b[..i] + b[i + 1..];
    assert a == [a[0]] + a[1..];
    assert b == b[..i] + [b[i]] + b[i + 1..];
    assert multiset(b) == multiset(rest) + multiset{b[i]};
    assert multiset(a) == multiset(a[1..]) + multiset{a[0]};
    assert multiset(a[1..]) == multiset(a) - multiset{a[0]};
    assert multiset(rest) == multiset(b) - multiset{b[i]};
  }

  lemma {:induction false} NetRowsPermute(a: seq<Row>, b: seq<Row>, t: int)
    requires multiset(a) == multiset(b)
    ensures NetRows(a, t) == NetRows(b, t)
  {
    if a == [] {
      assert |multiset(b)| == 0;
    } else {
      var i := Match(a, b);
      NetRowsPermute(a[1..], b[..i] + b[i + 1..], t);
      NetRowsAppend(b[..i], b[i + 1..], t);
      NetRowsAppend(b[..i] + [b[i]], b[i + 1..], t);
      NetRowsAppend(b[..i], [b[i]], t);
    }
  }

  lemma {:induction false} NetRowsOfDowntimes(ds: seq<Downtime>, q: Query, t: int)
    ensures NetRows(StartRows(ds, q), t) + NetRows(EndRows(ds, q), t) == NetDowntimes(ds, q, t)
  {
    if ds != [] {
      NetRowsOfDowntimes(ds[1..], q, t);
      NetRowsAppend(if Selected(q, ds[0]) then [DowntimeStart(Max(ds[0].start, q.start))] else [],
                    StartRows(ds[1..], q), t);
      NetRowsAppend(if Selected(q, ds[0]) && ds[0].end < q.end then [DowntimeEnd(ds[0].end)] else [],
                    EndRows(ds[1..], q), t);
    }
  }

  /** The counter's value: net downtimes among the first rows, whatever their times. */
  ghost function Counter(rows: seq<Row>): int {
    if rows == [] then 0 else Counter(rows[..|rows| - 1]) + Step(rows[|rows| - 1])
  }

  lemma {:induction false} CounterIsNet(rows: seq<Row>, t: int)
    requires forall r <- rows :: r.Time() <= t
    ensures Counter(rows) == NetRows(rows, t)
  {
    if rows != [] {
      var n := |rows| - 1;
      CounterIsNet(rows[..n], t);
      assert rows == rows[..n] + [rows[n]];
      NetRowsAppend(rows[..n], [rows[n]], t);
      assert [rows[n]][1..] == [];
    }
  }

  lemma {:induction false} NetRowsLater(rows: seq<Row>, t: int)
    requires forall r <- rows :: r.Time() <= t ==> !r.DowntimeStart?
    ensures NetRows(rows, t) <= 0
    ensures (forall r <- rows :: r.Time() > t) ==> NetRows(rows, t) == 0
    ensures rows != [] && rows[0].DowntimeEnd? && rows[0].Time() <= t ==> NetRows(rows, t) < 0
  {
    if rows != [] {
      NetRowsLater(rows[1..], t);
    }
  }

  /* ---------- Lemmas: rows and tables ---------- */

  lemma {:induction false} StateRowsOrigin(es: seq<StateEvent>, q: Query)
    ensures forall r <- StateRows(es, q) :: r.StateChange? && q.start < r.Time() < q.end
  {
    if es != [] {
      StateRowsOrigin(es[1..], q);
    }
  }

  lemma {:induction false} StartRowsOrigin(ds: seq<Downtime>, q: Query, r: Row)
    ensures r in StartRows(ds, q) <==> exists d <- ds :: Selected(q, d) && r == DowntimeStart(Max(d.start, q.start))
  {
    if ds != [] {
      StartRowsOrigin(ds[1..], q, r);
      assert forall d <- ds :: d == ds[0] || d in ds[1..];
    }
  }

  lemma {:induction false} EndRowsOrigin(ds: seq<Downtime>, q: Query, r: Row)
    ensures r in EndRows(ds, q) <==> exists d <- ds :: Selected(q, d) && d.end < q.end && r == DowntimeEnd(d.end)
  {
    if ds != [] {
      EndRowsOrigin(ds[1..], q, r);
      assert forall d <- ds :: d == ds[0] || d in ds[1..];
    }
  }

  lemma RowOrigin(rows: seq<Row>, db: Tables, q: Query, r: Row)
    requires multiset(rows) == multiset(UnionAll(db, q))
    ensures r in rows <==>
      || r in StartRows(db.downtimes, q) || r in EndRows(db.downtimes, q) || r in StateRows(db.states, q)
      || r == End(q.end)
  {
    assert r in rows <==> r in multiset(rows);
    assert r in UnionAll(db, q) <==> r in multiset(UnionAll(db, q));
  }

  /** Where a cursor row can lie. Only the end row has the end time. */
  lemma RowRange(rows: seq<Row>, db: Tables, q: Query, r: Row)
    requires multiset(rows) == multiset(UnionAll(db, q)) && q.start < q.end
    requires r in rows
    ensures q.start <= r.Time() <= q.end && (r.Time() == q.end <==> r.End?)
  {
    RowOrigin(rows, db, q, r);
    StartRowsOrigin(db.downtimes, q, r);
    EndRowsOrigin(db.downtimes, q, r);
    StateRowsOrigin(db.states, q);
  }

  lemma RowIsBoundary(rows: seq<Row>, db: Tables, q: Query, r: Row)
    requires multiset(rows) == multiset(UnionAll(db, q))
    requires r in rows && (r.DowntimeStart? || r.DowntimeEnd?)
    ensures DowntimeBoundary(db, q, r.Time())
  {
    RowOrigin(rows, db, q, r);
    StartRowsOrigin(db.downtimes, q, r);
    EndRowsOrigin(db.downtimes, q, r);
    StateRowsOrigin(db.states, q);
    var d :| d in db.downtimes && HasBoundaryAt(q, d, r.Time());
  }

  lemma BoundaryHasRow(rows: seq<Row>, db: Tables, q: Query, u: int) returns (k: nat)
    requires multiset(rows) == multiset(UnionAll(db, q))
    requires DowntimeBoundary(db, q, u)
    ensures k < |rows| && rows[k].Time() == u
  {
    var d :| d in db.downtimes && HasBoundaryAt(q, d, u);
    var r := if u == Max(d.start, q.start) then DowntimeStart(Max(d.start, q.start)) else DowntimeEnd(d.end);
    RowOrigin(rows, db, q, r);
    StartRowsOrigin(db.downtimes, q, r);
    EndRowsOrigin(db.downtimes, q, r);
    k :| 0 <= k < |rows| && rows[k] == r;
  }

  /** The end row comes last and only once. */
  lemma EndRow(rows: seq<Row>, db: Tables, q: Query, k: nat)
    requires IsCursor(rows, db, q) && q.start < q.end
    requires k < |rows|
    ensures k == |rows| - 1 <==> rows[k].End?
  {
    var last := rows[|rows| - 1];
    RowOrigin(rows, db, q, End(q.end));
    var i :| 0 <= i < |rows| && rows[i] == End(q.end);
    RowRange(rows, db, q, last);
    if i < |rows| - 1 {
      assert NotAfter(rows[i], last);
    }
    assert last == End(q.end);
    if rows[k].End? && k < |rows| - 1 {
      RowRange(rows, db, q, rows[k]);
      AtMostOnce(rows, k, |rows| - 1);
      OneEndRow(db, q);
    }
  }

  lemma OneEndRow(db: Tables, q: Query)
    ensures multiset(UnionAll(db, q))[End(q.end)] == 1
  {
    var u := StartRows(db.downtimes, q) + EndRows(db.downtimes, q) + StateRows(db.states, q);
    StartRowsOrigin(db.downtimes, q, End(q.end));
    EndRowsOrigin(db.downtimes, q, End(q.end));
    StateRowsOrigin(db.states, q);
    assert End(q.end) !in u;
    assert multiset(UnionAll(db, q)) == multiset(u) + multiset{End(q.end)};
  }

  lemma AtMostOnce(rows: seq<Row>, i: nat, j: nat)
    requires i < j < |rows| && rows[i] == rows[j]
    ensures multiset(rows)[rows[i]] >= 2
  {
    assert rows == rows[..j] + [rows[j]] + rows[j + 1..];
    assert rows[i] in rows[..j];
    assert multiset(rows) == multiset(rows[..j]) + multiset{rows[j]} + multiset(rows[j + 1..]);
  }

  lemma {:induction false} NetRowsOfOthers(rows: seq<Row>, t: int)
    requires forall r <- rows :: !r.DowntimeStart? && !r.DowntimeEnd?
    ensures NetRows(rows, t) == 0
  {
    if rows != [] {
      NetRowsOfOthers(rows[1..], t);
    }
  }

  lemma NetRowsOfCursor(rows: seq<Row>, db: Tables, q: Query, t: int)
    requires multiset(rows) == multiset(UnionAll(db, q))
    ensures NetRows(rows, t) == NetDowntimes(db.downtimes, q, t)
  {
    NetRowsPermute(rows, UnionAll(db, q), t);
    var s, e := StartRows(db.downtimes, q), EndRows(db.downtimes, q);
    var o := StateRows(db.states, q);
    StateRowsOrigin(db.states, q);
    NetRowsAppend(s + e + o, [End(q.end)], t);
    NetRowsAppend(s + e, o, t);
    NetRowsAppend(s, e, t);
    NetRowsOfDowntimes(db.downtimes, q, t);
    NetRowsOfOthers(o, t);
    NetRowsOfOthers([End(q.end)], t);
  }

  /* ---------- Lemmas: one slice of the sweep ---------- */

  lemma {:induction false} ChangesOfAppend(a: seq<Row>, b: seq<Row>)
    ensures ChangesOf(a + b) == ChangesOf(a) + ChangesOf(b)
  {
    if a == [] {
      assert a + b == b;
    } else {
      assert (a + b)[0] == a[0] && (a + b)[1..] == a[1..] + b;
      ChangesOfAppend(a[1..], b);
      assert ChangeOf(a[0]) + (ChangesOf(a[1..]) + ChangesOf(b)) == (ChangeOf(a[0]) + ChangesOf(a[1..])) + ChangesOf(b);
    }
  }

  lemma {:induction false} ChangeHasRow(rows: seq<Row>, i: nat) returns (k: nat)
    requires i < |ChangesOf(rows)|
    ensures k < |rows| && rows[k] == StateChange(ChangesOf(rows)[i])
  {
    if rows[0].StateChange? && i == 0 {
      k := 0;
    } else {
      k := ChangeHasRow(rows[1..], if rows[0].StateChange? then i - 1 else i);
      k := k + 1;
    }
  }

  /** t is in the slice that ends with row k. */
  ghost predicate InSlice(rows: seq<Row>, k: nat, t: int) {
    && k < |rows|
    && (forall i :: 0 <= i < k ==> rows[i].Time() <= t)
    && (forall i :: k <= i < |rows| ==> rows[i].Time() > t)
  }

  /** The changes before and from row k, with t between them. */
  lemma SliceChanges(rows: seq<Row>, k: nat, t: int)
    requires InSlice(rows, k, t)
    ensures ChangesOf(rows) == ChangesOf(rows[..k]) + ChangesOf(rows[k..])
    ensures forall i :: 0 <= i < |ChangesOf(rows[..k])| ==> ChangesOf(rows[..k])[i].time <= t
    ensures forall i :: 0 <= i < |ChangesOf(rows[k..])| ==> ChangesOf(rows[k..])[i].time > t
    ensures rows[k].StateChange? ==> |ChangesOf(rows[k..])| > 0 && ChangesOf(rows[k..])[0] == rows[k].change
  {
    assert rows == rows[..k] + rows[k..];
    ChangesOfAppend(rows[..k], rows[k..]);
    forall i | 0 <= i < |ChangesOf(rows[..k])|
      ensures ChangesOf(rows[..k])[i].time <= t
    {
      var j := ChangeHasRow(rows[..k], i);
      assert rows[j].Time() <= t;
    }
    forall i | 0 <= i < |ChangesOf(rows[k..])|
      ensures ChangesOf(rows[k..])[i].time > t
    {
      var j := ChangeHasRow(rows[k..], i);
      assert rows[k + j].Time() > t;
    }
  }

  lemma {:induction false} InForceSkipsLater(a: seq<Change>, b: seq<Change>, initial: nat, t: int)
    requires forall i :: 0 <= i < |b| ==> b[i].time > t
    ensures InForce(a + b, initial, t) == InForce(a, initial, t)
  {
    if b == [] {
      assert a + b == a;
    } else {
      var n := |b| - 1;
      assert (a + b)[..|a + b| - 1] == a + b[..n];
      assert (a + b)[|a + b| - 1] == b[n];
      InForceSkipsLater(a, b[..n], initial, t);
    }
  }

  /** The state variable of the loop: the last state change among the first rows. */
  ghost function LastState(cs: seq<Change>, initial: nat): nat {
    if cs == [] then initial else cs[|cs| - 1].hardState
  }

  lemma SliceState(rows: seq<Row>, k: nat, initial: nat, t: int)
    requires InSlice(rows, k, t)
    ensures InForce(ChangesOf(rows), initial, t) == LastState(ChangesOf(rows[..k]), initial)
  {
    SliceChanges(rows, k, t);
    InForceSkipsLater(ChangesOf(rows[..k]), ChangesOf(rows[k..]), initial, t);
  }

  predicate LeavesUnknown(r: Row) {
    r.StateChange? && r.change.previousHardState == UNKNOWN_STATE
  }

  lemma BackInTime(rows: seq<Row>, k: nat, m: nat)
    requires Ordered(rows) && k <= m < |rows|
    ensures rows[k].Time() <= rows[m].Time()
  {
    if k < m {
      assert NotAfter(rows[k], rows[m]);
    }
  }

  lemma SliceIsUnknown(rows: seq<Row>, db: Tables, q: Query, k: nat, t: int)
    requires IsCursor(rows, db, q) && InSlice(rows, k, t)
    requires LeavesUnknown(rows[k])
    ensures IsUnknown(db, q, ChangesOf(rows), t)
  {
    SliceChanges(rows, k, t);
    var cs, i := ChangesOf(rows), |ChangesOf(rows[..k])|;
    forall u | t < u < cs[i].time
      ensures !DowntimeBoundary(db, q, u)
    {
      if DowntimeBoundary(db, q, u) {
        var m := BoundaryHasRow(rows, db, q, u);
        if m > k {
          BackInTime(rows, k, m);
        }
      }
    }
    assert UnknownUntil(db, q, cs, i, t);
  }

  lemma SliceIsKnown(rows: seq<Row>, db: Tables, q: Query, k: nat, t: int, i: nat)
    requires IsCursor(rows, db, q) && InSlice(rows, k, t)
    requires i < |ChangesOf(rows)| && UnknownUntil(db, q, ChangesOf(rows), i, t)
    ensures LeavesUnknown(rows[k])
  {
    var m := LaterChangeRow(rows, k, t, i);
    if rows[k].StateChange? {
      FirstLaterChange(rows, k, t, i);
    } else {
      assert m > k && NotAfter(rows[k], rows[m]);
      if rows[k].End? {
        EndIsLatest(rows, db, q, k, m);
      } else {
        RowIsBoundary(rows, db, q, rows[k]);
      }
    }
  }

  lemma LaterChangeRow(rows: seq<Row>, k: nat, t: int, i: nat) returns (m: nat)
    requires InSlice(rows, k, t)
    requires i < |ChangesOf(rows)| && ChangesOf(rows)[i].time > t
    ensures k <= m < |rows| && rows[m] == StateChange(ChangesOf(rows)[i])
  {
    m := ChangeHasRow(rows, i);
  }

  lemma FirstLaterChange(rows: seq<Row>, k: nat, t: int, i: nat)
    requires InSlice(rows, k, t) && rows[k].StateChange?
    requires i < |ChangesOf(rows)| && ChangesOf(rows)[i].time > t
    requires forall j :: 0 <= j < i ==> ChangesOf(rows)[j].time <= t
    ensures ChangesOf(rows)[i] == rows[k].change
  {
    SliceChanges(rows, k, t);
    var n := |ChangesOf(rows[..k])|;
    assert ChangesOf(rows)[n] == ChangesOf(rows[k..])[0];
  }

  lemma EndIsLatest(rows: seq<Row>, db: Tables, q: Query, k: nat, m: nat)
    requires IsCursor(rows, db, q)
    requires k < |rows| && m < |rows| && rows[k].End? && rows[m].StateChange?
    ensures m < k
  {
    RowOrigin(rows, db, q, rows[k]);
    RowOrigin(rows, db, q, rows[m]);
    StartRowsOrigin(db.downtimes, q, rows[m]);
    StartRowsOrigin(db.downtimes, q, rows[k]);
    EndRowsOrigin(db.downtimes, q, rows[m]);
    EndRowsOrigin(db.downtimes, q, rows[k]);
    StateRowsOrigin(db.states, q);
    if k <= m {
      BackInTime(rows, k, m);
    }
  }

  lemma SliceNet(rows: seq<Row>, db: Tables, q: Query, k: nat, t: int)
    requires IsCursor(rows, db, q) && InSlice(rows, k, t)
    ensures NetDowntimes(db.downtimes, q, t) == Counter(rows[..k])
  {
    NetRowsOfCursor(rows, db, q, t);
    assert rows == rows[..k] + rows[k..];
    NetRowsAppend(rows[..k], rows[k..], t);
    CounterIsNet(rows[..k], t);
    NetRowsLater(rows[k..], t);
  }

  ghost function Interval(lo: int, hi: int): (s: set<int>)
    ensures forall t :: t in s <==> lo <= t < hi
    ensures lo <= hi ==> |s| == hi - lo
    decreases hi - lo
  {
    if lo >= hi then {} else Interval(lo, hi - 1) + {hi - 1}
  }

  /** Counting on by a slice on which p is constant. */
  lemma MillisOfSlice(p: int -> bool, start: int, lo: int, hi: int, v: bool)
    requires start <= lo <= hi
    requires forall t :: lo <= t < hi ==> p(t) == v
    ensures Millis(p, start, hi) == Millis(p, start, lo) + if v then hi - lo else 0
  {
    var old', all := set t | start <= t < lo && p(t), set t | start <= t < hi && p(t);
    var slice := Interval(lo, hi);
    if v {
      assert all == old' + slice;
    } else {
      assert all == old';
    }
  }

  ghost predicate SliceHasProblem(rows: seq<Row>, q: Query, k: nat, initial: nat)
    requires k < |rows|
  {
    && !LeavesUnknown(rows[k])
    && IsProblemState(q, LastState(ChangesOf(rows[..k]), initial))
    && Counter(rows[..k]) == 0
  }

  lemma SliceMilli(rows: seq<Row>, db: Tables, q: Query, k: nat, initial: nat, t: int)
    requires IsCursor(rows, db, q) && q.start < q.end
    requires InSlice(rows, k, t)
    ensures UnknownAt(db, q, ChangesOf(rows))(t) == LeavesUnknown(rows[k])
    ensures ProblemAt(db, q, ChangesOf(rows), initial)(t) == SliceHasProblem(rows, q, k, initial)
    ensures NetDowntimes(db.downtimes, q, t) == Counter(rows[..k])
  {
    SliceState(rows, k, initial, t);
    SliceNet(rows, db, q, k, t);
    if LeavesUnknown(rows[k]) {
      SliceIsUnknown(rows, db, q, k, t);
    } else if IsUnknown(db, q, ChangesOf(rows), t) {
      var i :| 0 <= i < |ChangesOf(rows)| && UnknownUntil(db, q, ChangesOf(rows), i, t);
      SliceIsKnown(rows, db, q, k, t, i);
    }
  }

  ghost function TimeBefore(rows: seq<Row>, q: Query, k: nat): nat
    requires k <= |rows|
  {
    if k == 0 then q.start else rows[k - 1].Time()
  }

  /** What one row of the cursor adds to both counts. */
  lemma SliceCounts(rows: seq<Row>, db: Tables, q: Query, k: nat, initial: nat)
    requires IsCursor(rows, db, q) && q.start < q.end && k < |rows|
    ensures q.start <= TimeBefore(rows, q, k) <= rows[k].Time() <= q.end
    ensures k == |rows| - 1 ==> TimeBefore(rows, q, k) < q.end == rows[k].Time() && !LeavesUnknown(rows[k])
    ensures
      var p, u := ProblemAt(db, q, ChangesOf(rows), initial), UnknownAt(db, q, ChangesOf(rows));
      var lo, hi := TimeBefore(rows, q, k), rows[k].Time();
      && Millis(u, q.start, hi) == Millis(u, q.start, lo) + (if LeavesUnknown(rows[k]) then hi - lo else 0)
      && Millis(p, q.start, hi)
         == Millis(p, q.start, lo) + (if SliceHasProblem(rows, q, k, initial) then hi - lo else 0)
      && forall t :: lo <= t < hi ==> NetDowntimes(db.downtimes, q, t) == Counter(rows[..k])
  {
    var p, u := ProblemAt(db, q, ChangesOf(rows), initial), UnknownAt(db, q, ChangesOf(rows));
    var lo, hi := TimeBefore(rows, q, k), rows[k].Time();
    RowRange(rows, db, q, rows[k]);
    EndRow(rows, db, q, k);
    if k > 0 {
      assert NotAfter(rows[k - 1], rows[k]);
      RowRange(rows, db, q, rows[k - 1]);
      EndRow(rows, db, q, k - 1);
    }
    forall t | lo <= t < hi
      ensures p(t) == SliceHasProblem(rows, q, k, initial)
      ensures u(t) == LeavesUnknown(rows[k])
      ensures NetDowntimes(db.downtimes, q, t) == Counter(rows[..k])
    {
      SliceBounds(rows, q, k, t);
      SliceMilli(rows, db, q, k, initial, t);
    }
    MillisOfSlice(u, q.start, lo, hi, LeavesUnknown(rows[k]));
    MillisOfSlice(p, q.start, lo, hi, SliceHasProblem(rows, q, k, initial));
  }

  lemma SliceBounds(rows: seq<Row>, q: Query, k: nat, t: int)
    requires Ordered(rows) && k < |rows|
    requires TimeBefore(rows, q, k) <= t < rows[k].Time()
    ensures InSlice(rows, k, t)
  {
    forall i | 0 <= i < k ensures rows[i].Time() <= t {
      assert i < k - 1 ==> NotAfter(rows[i], rows[k - 1]);
    }
    forall i | k <= i < |rows| ensures rows[i].Time() > t {
      assert i > k ==> NotAfter(rows[k], rows[i]);
    }
  }

  /* ---------- The function ---------- */

  datatype SlaError = EndNotAfterStart | DowntimeCounterOutOfRange

  /** The three SELECTs for the initial state. LIMIT 1 yields an arbitrary row among equals. */
  method InitialState(db: Tables, q: Query) returns (v: nat)
    ensures IsInitialState(db, q, v)
  {
    if exists e <- db.states :: Before(q, e) {
      LatestExists(db.states, q);
      var e :| e in db.states && Before(q, e) && forall f <- db.states :: Before(q, f) ==> f.time <= e.time;
      assert Latest(db, q, e);
      v := e.hardState;
    } else if exists e <- db.states :: After(q, e) {
      EarliestExists(db.states, q);
      var e :| e in db.states && After(q, e) && forall f <- db.states :: After(q, f) ==> e.time <= f.time;
      assert Earliest(db, q, e);
      v := e.previousHardState;
    } else {
      v := CurrentState(db, q);
    }
  }

  lemma {:induction false} LatestExists(es: seq<StateEvent>, q: Query)
    requires exists e <- es :: Before(q, e)
    ensures exists e <- es :: Before(q, e) && (forall f <- es :: Before(q, f) ==> f.time <= e.time)
  {
    var r, last := es[..|es| - 1], es[|es| - 1];
    assert forall f <- es :: f in r || f == last;
    assert last in es;
    if exists e <- r :: Before(q, e) {
      LatestExists(r, q);
      var e :| e in r && Before(q, e) && (forall f <- r :: Before(q, f) ==> f.time <= e.time);
      var m := if Before(q, last) && last.time > e.time then last else e;
      assert m in es && Before(q, m) && (forall f <- es :: Before(q, f) ==> f.time <= m.time);
    } else {
      assert Before(q, last) && (forall f <- es :: Before(q, f) ==> f.time <= last.time);
    }
  }

  lemma {:induction false} EarliestExists(es: seq<StateEvent>, q: Query)
    requires exists e <- es :: After(q, e)
    ensures exists e <- es :: After(q, e) && (forall f <- es :: After(q, f) ==> e.time <= f.time)
  {
    var r, last := es[..|es| - 1], es[|es| - 1];
    assert forall f <- es :: f in r || f == last;
    assert last in es;
    if exists e <- r :: After(q, e) {
      EarliestExists(r, q);
      var e :| e in r && After(q, e) && (forall f <- r :: After(q, f) ==> e.time <= f.time);
      var m := if After(q, last) && last.time < e.time then last else e;
      assert m in es && After(q, m) && (forall f <- es :: After(q, f) ==> m.time <= f.time);
    } else {
      assert After(q, last) && (forall f <- es :: After(q, f) ==> last.time <= f.time);
    }
  }

  /** The cursor loop. All variables are unsigned, so each subtraction is also proved not to underflow, except that
      of the downtime counter: it underflows exactly if the tables make it. */
  method Sweep(db: Tables, q: Query, rows: seq<Row>, initial: nat)
    returns (ok: bool, problemTime: nat, totalTime: nat)
    requires q.start < q.end && IsCursor(rows, db, q)
    ensures ok <==> CounterStaysUnsigned(db, q)
    ensures ok ==> problemTime == ProblemTime(db, q, ChangesOf(rows), initial)
    ensures ok ==> totalTime == TotalTime(db, q, ChangesOf(rows))
    ensures ok ==> problemTime <= totalTime && 0 < totalTime <= q.end - q.start
  {
    var lastHardState := initial;
    problemTime := 0;
    totalTime := q.end - q.start;
    var lastEventTime := q.start;
    var activeDowntimes: nat := 0;
    ghost var p, u := ProblemAt(db, q, ChangesOf(rows), initial), UnknownAt(db, q, ChangesOf(rows));
    HasEndRow(rows, db, q);
    for k := 0 to |rows|
      invariant lastEventTime == TimeBefore(rows, q, k)
      invariant q.start <= lastEventTime
      invariant k == |rows| ==> lastEventTime == q.end
      invariant lastHardState == LastState(ChangesOf(rows[..k]), initial)
      invariant activeDowntimes == Counter(rows[..k])
      invariant problemTime == Millis(p, q.start, lastEventTime)
      invariant totalTime == q.end - q.start - Millis(u, q.start, lastEventTime)
      invariant problemTime + (q.end - q.start - totalTime) <= lastEventTime - q.start
      invariant UnsignedBefore(db, q, lastEventTime)
      invariant k == |rows| ==> totalTime > 0
    {
      var row := rows[k];
      SliceCounts(rows, db, q, k, initial);
      SweepVariables(rows, k, initial);

      if LeavesUnknown(row) {
        totalTime := totalTime - (row.Time() - lastEventTime);
      } else if IsProblemState(q, lastHardState) && activeDowntimes == 0 {
        problemTime := problemTime + row.Time() - lastEventTime;
      }

      lastEventTime := row.Time();
      match row {
        case StateChange(change) =>
          lastHardState := change.hardState;
        case DowntimeStart(_) =>
          activeDowntimes := activeDowntimes + 1;
        case DowntimeEnd(_) =>
          if activeDowntimes == 0 {
            UnderflowWitness(rows, db, q, k);
            return false, 0, 0;
          }
          activeDowntimes := activeDowntimes - 1;
        case End(_) =>
      }
    }
    return true, problemTime, totalTime;
  }

  lemma SweepVariables(rows: seq<Row>, k: nat, initial: nat)
    requires k < |rows|
    ensures Counter(rows[..k + 1]) == Counter(rows[..k]) + Step(rows[k])
    ensures LastState(ChangesOf(rows[..k + 1]), initial)
         == if rows[k].StateChange? then rows[k].change.hardState else LastState(ChangesOf(rows[..k]), initial)
  {
    assert rows[..k + 1] == rows[..k] + [rows[k]];
    ChangesOfAppend(rows[..k], [rows[k]]);
    assert ChangesOf([rows[k]]) == ChangeOf(rows[k]);
  }

  lemma HasEndRow(rows: seq<Row>, db: Tables, q: Query)
    requires IsCursor(rows, db, q)
    ensures |rows| > 0
  {
    RowOrigin(rows, db, q, End(q.end));
  }

  lemma UnderflowWitness(rows: seq<Row>, db: Tables, q: Query, k: nat)
    requires q.start < q.end && IsCursor(rows, db, q)
    requires k < |rows| && rows[k].DowntimeEnd? && Counter(rows[..k]) == 0
    ensures !CounterStaysUnsigned(db, q)
  {
    var t := rows[k].Time();
    RowRange(rows, db, q, rows[k]);
    NetRowsOfCursor(rows, db, q, t);
    assert rows == rows[..k] + rows[k..];
    NetRowsAppend(rows[..k], rows[k..], t);
    forall r | r in rows[..k] ensures r.Time() <= t {
      var i :| 0 <= i < k && rows[i] == r;
      assert NotAfter(rows[i], rows[k]);
    }
    CounterIsNet(rows[..k], t);
    forall r | r in rows[k..] && r.Time() <= t ensures !r.DowntimeStart? {
      var i :| k <= i < |rows| && rows[i] == r;
      assert i > k ==> NotAfter(rows[k], rows[i]);
    }
    NetRowsLater(rows[k..], t);
  }

  const PERCENT_100: nat := 1000000

  /** 100 * (total - problem) / total in ten-thousandths, rounded to the nearest, halves up. */
  function OkPercent(problemTime: nat, totalTime: nat): (p: nat)
    requires problemTime <= totalTime && 0 < totalTime
  {
    (2 * PERCENT_100 * (totalTime - problemTime) + totalTime) / (2 * totalTime)
  }

  lemma OkPercentIsSound(problemTime: nat, totalTime: nat)
    requires problemTime <= totalTime && 0 < totalTime
    ensures 0 <= OkPercent(problemTime, totalTime) <= PERCENT_100
    ensures -(totalTime as int)
      <= 2 * (OkPercent(problemTime, totalTime) * totalTime - PERCENT_100 * (totalTime - problemTime)) <= totalTime
  {
    var n, d := 2 * PERCENT_100 * (totalTime - problemTime) + totalTime, 2 * totalTime;
    var p := n / d;
    Division(n, d);
    assert p * d == 2 * (p * totalTime);
    if p > PERCENT_100 {
      TimesMonotone(PERCENT_100 + 1, p, d);
    }
  }

  lemma Division(n: nat, d: nat)
    requires d > 0
    ensures n / d * d <= n < n / d * d + d
  {
  }

  lemma TimesMonotone(a: nat, b: nat, d: nat)
    requires a <= b
    ensures a * d <= b * d
  {
  }

  /* ---------- The definition over the tables ---------- */

  predicate OfCheckable(q: Query, e: StateEvent) {
    e.hostId == q.hostId && e.serviceId == q.serviceId
  }

  /** A state event of the checkable strictly inside the interval. */
  predicate IsInside(q: Query, e: StateEvent) {
    OfCheckable(q, e) && q.start < e.time < q.end
  }

  /** The state events of the checkable inside the interval have different times. */
  ghost predicate DifferentTimes(db: Tables, q: Query) {
    forall i, j :: 0 <= i < j < |db.states| && IsInside(q, db.states[i]) && IsInside(q, db.states[j]) ==>
      db.states[i].time != db.states[j].time
  }

  /** v is the hard state of a latest event of the checkable up to the start, or if there is none, the previous state of
      an earliest one after it, or if there is none, the checkable's current state, or 0. */
  ghost predicate IsStateAtStart(db: Tables, q: Query, v: nat) {
    if exists e <- db.states :: OfCheckable(q, e) && e.time <= q.start then
      exists e <- db.states :: OfCheckable(q, e) && e.time <= q.start && v == e.hardState
        && forall f <- db.states :: OfCheckable(q, f) && f.time <= q.start ==> f.time <= e.time
    else if exists e <- db.states :: OfCheckable(q, e) && q.start < e.time then
      exists e <- db.states :: OfCheckable(q, e) && q.start < e.time && v == e.previousHardState
        && forall f <- db.states :: OfCheckable(q, f) && q.start < f.time ==> e.time <= f.time
    else if q.serviceId.None? then
      v == if q.hostId in db.hostState then db.hostState[q.hostId] else 0
    else
      var service := (q.hostId, q.serviceId.value);
      v == if service in db.serviceState then db.serviceState[service] else 0
  }

  lemma InitialIsStateAtStart(db: Tables, q: Query, v: nat)
    requires IsInitialState(db, q, v)
    ensures IsStateAtStart(db, q, v)
  {
    assert forall e <- db.states :: Before(q, e) <==> OfCheckable(q, e) && e.time <= q.start;
    assert forall e <- db.states :: After(q, e) <==> OfCheckable(q, e) && q.start < e.time;
  }

  ghost predicate IsLastUpTo(db: Tables, q: Query, t: int, e: StateEvent) {
    && e in db.states && IsInside(q, e) && e.time <= t
    && forall f <- db.states :: IsInside(q, f) && f.time <= t ==> f.time <= e.time
  }

  /** v is the state in force at t: that of the last event of the checkable in the interval up to t, else the initial
      state. */
  ghost predicate IsInForce(db: Tables, q: Query, initial: nat, t: int, v: nat) {
    if exists e <- db.states :: IsInside(q, e) && e.time <= t then
      exists e :: IsLastUpTo(db, q, t, e) && v == e.hardState
    else v == initial
  }

  /** A downtime of the checkable that overlaps the interval begins in it, at its start or later, or ends in it, at
      u. */
  ghost predicate DowntimeChange(db: Tables, q: Query, u: int) {
    exists d <- db.downtimes :: IsDowntimeChange(q, d, u)
  }

  predicate IsDowntimeChange(q: Query, d: Downtime, u: int) {
    && d.hostId == q.hostId && d.serviceId == q.serviceId
    && d.start < q.end && q.start <= d.end
    && (u == (if d.start < q.start then q.start else d.start) || (u == d.end && u < q.end))
  }

  /** e is the next event of the checkable after t, its previous state is unknown, and no downtime changes before it. */
  ghost predicate IsUnknownBefore(db: Tables, q: Query, t: int, e: StateEvent) {
    && e in db.states && IsInside(q, e) && t < e.time && e.previousHardState == 99
    && (forall f <- db.states :: IsInside(q, f) && f.time < e.time ==> f.time <= t)
    && (forall u :: t < u < e.time ==> !DowntimeChange(db, q, u))
  }

  ghost predicate IsUnknownTime(db: Tables, q: Query, t: int) {
    exists e :: IsUnknownBefore(db, q, t, e)
  }

  ghost predicate Covered(db: Tables, q: Query, t: int) {
    exists d <- db.downtimes :: d.hostId == q.hostId && d.serviceId == q.serviceId && d.start <= t < d.end
  }

  /** A host is in a problem state if it is not up, a service if it is worse than warning, and unknown states are
      none. */
  ghost predicate IsProblemTime(db: Tables, q: Query, initial: nat, t: int) {
    && (exists v :: IsInForce(db, q, initial, t, v) && v != 99 && v > (if q.serviceId.None? then 0 else 1))
    && !Covered(db, q, t) && !IsUnknownTime(db, q, t)
  }

  ghost function ProblemMillis(db: Tables, q: Query, initial: nat): nat {
    |set t | q.start <= t < q.end && IsProblemTime(db, q, initial, t)|
  }

  ghost function KnownMillis(db: Tables, q: Query): nat {
    |set t | q.start <= t < q.end && !IsUnknownTime(db, q, t)|
  }

  /* ---------- The cursor's state changes are those of the table ---------- */

  function ChangeOfEvent(e: StateEvent): Change {
    Change(e.time, e.hardState, e.previousHardState)
  }

  /** Every event of the checkable inside the interval counts, with its own states, and no other does. */
  lemma {:induction false} StateRowOf(es: seq<StateEvent>, q: Query, c: Change)
    ensures StateChange(c) in StateRows(es, q) <==> exists e <- es :: IsInside(q, e) && c == ChangeOfEvent(e)
  {
    if es != [] {
      StateRowOf(es[1..], q, c);
      assert forall e <- es :: e == es[0] || e in es[1..];
      var first := if IsInside(q, es[0]) then [StateChange(ChangeOfEvent(es[0]))] else [];
      assert StateRows(es, q) == first + StateRows(es[1..], q);
      assert es[0] in es && forall e <- es[1..] :: e in es;
      assert StateChange(c) in first <==> IsInside(q, es[0]) && c == ChangeOfEvent(es[0]);
    }
  }

  lemma {:induction false} InChangesOf(rows: seq<Row>, c: Change)
    ensures c in ChangesOf(rows) <==> StateChange(c) in rows
  {
    if rows != [] {
      InChangesOf(rows[1..], c);
      assert forall r <- rows :: r == rows[0] || r in rows[1..];
    }
  }

  lemma ChangesAreEvents(rows: seq<Row>, db: Tables, q: Query, c: Change)
    requires multiset(rows) == multiset(UnionAll(db, q))
    ensures c in ChangesOf(rows) <==> exists e <- db.states :: IsInside(q, e) && c == ChangeOfEvent(e)
  {
    InChangesOf(rows, c);
    RowOrigin(rows, db, q, StateChange(c));
    StartRowsOrigin(db.downtimes, q, StateChange(c));
    EndRowsOrigin(db.downtimes, q, StateChange(c));
    StateRowOf(db.states, q, c);
  }

  /** State changes have different times. */
  ghost predicate ChangesDiffer(rows: seq<Row>) {
    forall i, j :: 0 <= i < j < |rows| && rows[i].StateChange? && rows[j].StateChange? ==>
      rows[i].change.time != rows[j].change.time
  }

  lemma {:induction false} StateRowsDiffer(es: seq<StateEvent>, q: Query)
    requires forall i, j :: 0 <= i < j < |es| && IsInside(q, es[i]) && IsInside(q, es[j]) ==> es[i].time != es[j].time
    ensures ChangesDiffer(StateRows(es, q))
  {
    if es != [] {
      StateRowsDiffer(es[1..], q);
      var rest := StateRows(es[1..], q);
      forall j | 0 <= j < |rest| && rest[j].StateChange? && IsInside(q, es[0])
        ensures rest[j].change.time != es[0].time
      {
        StateRowOf(es[1..], q, rest[j].change);
      }
    }
  }

  lemma UnionDiffers(db: Tables, q: Query)
    requires DifferentTimes(db, q)
    ensures ChangesDiffer(UnionAll(db, q))
  {
    StateRowsDiffer(db.states, q);
    forall r | r in StartRows(db.downtimes, q) + EndRows(db.downtimes, q) ensures !r.StateChange? {
      StartRowsOrigin(db.downtimes, q, r);
      EndRowsOrigin(db.downtimes, q, r);
    }
    var others, states := StartRows(db.downtimes, q) + EndRows(db.downtimes, q), StateRows(db.states, q);
    var all, n := UnionAll(db, q), |others|;
    assert all == others + states + [End(q.end)];
    forall i | 0 <= i < n ensures !all[i].StateChange? {
      assert all[i] == others[i] && others[i] in others;
    }
    forall i | n <= i < n + |states| ensures all[i] == states[i - n] {
    }
  }

  lemma {:induction false} TwoPlaces(a: seq<Row>, r: Row) returns (i: nat, j: nat)
    requires multiset(a)[r] >= 2
    ensures i < j < |a| && a[i] == r && a[j] == r
  {
    assert a == [a[0]] + a[1..];
    if a[0] == r {
      assert multiset(a[1..])[r] >= 1;
      var k :| 0 <= k < |a[1..]| && a[1..][k] == r;
      i, j := 0, k + 1;
    } else {
      i, j := TwoPlaces(a[1..], r);
      i, j := i + 1, j + 1;
    }
  }

  lemma CountTwo(b: seq<Row>, i: nat, j: nat)
    requires i < j < |b| && b[i] == b[j]
    ensures multiset(b)[b[i]] >= 2
  {
    assert b == b[..j] + b[j..];
    assert b[..j][i] in b[..j] && b[j..][0] in b[j..];
  }

  lemma PermutationDiffers(a: seq<Row>, b: seq<Row>)
    requires multiset(a) == multiset(b) && ChangesDiffer(a)
    ensures ChangesDiffer(b)
  {
    forall i, j | 0 <= i < j < |b| && b[i].StateChange? && b[j].StateChange?
      ensures b[i].change.time != b[j].change.time
    {
      if b[i] == b[j] {
        CountTwo(b, i, j);
        var k, l := TwoPlaces(a, b[i]);
      } else {
        assert b[i] in multiset(a) && b[j] in multiset(a);
        var k :| 0 <= k < |a| && a[k] == b[i];
        var l :| 0 <= l < |a| && a[l] == b[j];
      }
    }
  }

  lemma {:induction false} ChangesIncrease(rows: seq<Row>)
    requires Ordered(rows) && ChangesDiffer(rows)
    ensures TimesIncrease(ChangesOf(rows))
  {
    if rows != [] {
      OrderedTail(rows);
      ChangesIncrease(rows[1..]);
      forall c | c in ChangesOf(rows[1..]) && rows[0].StateChange? ensures rows[0].change.time < c.time {
        InChangesOf(rows[1..], c);
        var k :| 0 <= k < |rows[1..]| && rows[1..][k] == StateChange(c);
        assert NotAfter(rows[0], rows[k + 1]);
      }
    }
  }

  lemma CursorIncreases(rows: seq<Row>, db: Tables, q: Query)
    requires IsCursor(rows, db, q) && DifferentTimes(db, q)
    ensures TimesIncrease(ChangesOf(rows))
  {
    UnionDiffers(db, q);
    PermutationDiffers(UnionAll(db, q), rows);
    ChangesIncrease(rows);
  }

  /** The change that InForce takes its state from, if there is one. */
  lemma {:induction false} InForceIsLast(cs: seq<Change>, initial: nat, t: int)
    requires TimesIncrease(cs)
    ensures
      || (InForce(cs, initial, t) == initial && forall c <- cs :: c.time > t)
      || exists c <- cs :: c.time <= t && InForce(cs, initial, t) == c.hardState
                           && forall d <- cs :: d.time <= t ==> d.time <= c.time
  {
    if cs != [] && cs[|cs| - 1].time > t {
      InForceIsLast(cs[..|cs| - 1], initial, t);
      assert forall c <- cs :: c == cs[|cs| - 1] || c in cs[..|cs| - 1];
    } else if cs != [] {
      assert cs[|cs| - 1] in cs;
    }
  }

  lemma SameTimeSameChange(cs: seq<Change>, c: Change, d: Change)
    requires TimesIncrease(cs) && c in cs && d in cs && c.time == d.time
    ensures c == d
  {
  }

  lemma StateInForce(rows: seq<Row>, db: Tables, q: Query, initial: nat, t: int, v: nat)
    requires IsCursor(rows, db, q) && DifferentTimes(db, q)
    ensures IsInForce(db, q, initial, t, v) <==> v == InForce(ChangesOf(rows), initial, t)
  {
    var cs := ChangesOf(rows);
    CursorIncreases(rows, db, q);
    InForceIsLast(cs, initial, t);
    forall c ensures c in cs <==> exists e <- db.states :: IsInside(q, e) && c == ChangeOfEvent(e) {
      ChangesAreEvents(rows, db, q, c);
    }
    if c :| c in cs && c.time <= t && InForce(cs, initial, t) == c.hardState
            && forall d <- cs :: d.time <= t ==> d.time <= c.time {
      var e :| e in db.states && IsInside(q, e) && c == ChangeOfEvent(e);
      forall f <- db.states | IsInside(q, f) && f.time <= t ensures f.time <= e.time {
        assert ChangeOfEvent(f) in cs;
      }
      assert IsLastUpTo(db, q, t, e);
      forall f | IsLastUpTo(db, q, t, f) ensures f.hardState == e.hardState {
        assert ChangeOfEvent(f) in cs;
        SameTimeSameChange(cs, ChangeOfEvent(f), c);
      }
    } else {
      forall f <- db.states ensures !(IsInside(q, f) && f.time <= t) {
        assert IsInside(q, f) ==> ChangeOfEvent(f) in cs;
      }
    }
  }

  lemma SameBoundaries(db: Tables, q: Query, u: int)
    ensures DowntimeBoundary(db, q, u) <==> DowntimeChange(db, q, u)
  {
    forall d <- db.downtimes ensures HasBoundaryAt(q, d, u) <==> IsDowntimeChange(q, d, u) {
    }
  }

  lemma EarlierChange(cs: seq<Change>, i: nat, c: Change, t: int)
    requires TimesIncrease(cs) && i < |cs| && c in cs && c.time < cs[i].time
    requires forall j :: 0 <= j < i ==> cs[j].time <= t
    ensures c.time <= t
  {
    var j :| 0 <= j < |cs| && cs[j] == c;
  }

  lemma UnknownIsUnknownTime(rows: seq<Row>, db: Tables, q: Query, t: int, i: nat)
    requires IsCursor(rows, db, q) && DifferentTimes(db, q)
    requires i < |ChangesOf(rows)| && UnknownUntil(db, q, ChangesOf(rows), i, t)
    ensures IsUnknownTime(db, q, t)
  {
    var cs := ChangesOf(rows);
    CursorIncreases(rows, db, q);
    ChangesAreEvents(rows, db, q, cs[i]);
    assert cs[i] in cs;
    var e :| e in db.states && IsInside(q, e) && cs[i] == ChangeOfEvent(e);
    forall f <- db.states | IsInside(q, f) && f.time < e.time ensures f.time <= t {
      ChangesAreEvents(rows, db, q, ChangeOfEvent(f));
      EarlierChange(cs, i, ChangeOfEvent(f), t);
    }
    forall u | t < u < e.time ensures !DowntimeChange(db, q, u) {
      SameBoundaries(db, q, u);
    }
    assert IsUnknownBefore(db, q, t, e);
  }

  lemma UnknownTimeIsUnknown(rows: seq<Row>, db: Tables, q: Query, t: int, e: StateEvent)
    requires IsCursor(rows, db, q) && DifferentTimes(db, q) && IsUnknownBefore(db, q, t, e)
    ensures IsUnknown(db, q, ChangesOf(rows), t)
  {
    var cs := ChangesOf(rows);
    CursorIncreases(rows, db, q);
    ChangesAreEvents(rows, db, q, ChangeOfEvent(e));
    var i :| 0 <= i < |cs| && cs[i] == ChangeOfEvent(e);
    forall j | 0 <= j < i ensures cs[j].time <= t {
      assert cs[j] in cs;
      ChangesAreEvents(rows, db, q, cs[j]);
    }
    forall u | t < u < cs[i].time ensures !DowntimeBoundary(db, q, u) {
      SameBoundaries(db, q, u);
    }
    assert UnknownUntil(db, q, cs, i, t);
  }

  lemma UnknownInTable(rows: seq<Row>, db: Tables, q: Query, t: int)
    requires IsCursor(rows, db, q) && DifferentTimes(db, q)
    ensures IsUnknown(db, q, ChangesOf(rows), t) <==> IsUnknownTime(db, q, t)
  {
    if i :| 0 <= i < |ChangesOf(rows)| && UnknownUntil(db, q, ChangesOf(rows), i, t) {
      UnknownIsUnknownTime(rows, db, q, t, i);
    }
    if e :| IsUnknownBefore(db, q, t, e) {
      UnknownTimeIsUnknown(rows, db, q, t, e);
    }
  }

  lemma ProblemInTable(rows: seq<Row>, db: Tables, q: Query, initial: nat, t: int)
    requires IsCursor(rows, db, q) && DifferentTimes(db, q)
    ensures IsUncoveredProblem(db, q, ChangesOf(rows), initial, t) <==> IsProblemTime(db, q, initial, t)
  {
    UnknownInTable(rows, db, q, t);
    var v := InForce(ChangesOf(rows), initial, t);
    forall w ensures IsInForce(db, q, initial, t, w) <==> w == v {
      StateInForce(rows, db, q, initial, t, w);
    }
    assert IsInForce(db, q, initial, t, v);
    assert IsProblemState(q, v) <==> v != 99 && v > (if q.serviceId.None? then 0 else 1);
    assert InDowntime(db, q, t) <==> Covered(db, q, t);
  }

  lemma OthersCount(a: set<int>, lo: int, hi: int)
    requires lo <= hi && forall t <- a :: lo <= t < hi
    ensures |set t | lo <= t < hi && t !in a| == hi - lo - |a|
  {
    assert (set t | lo <= t < hi && t !in a) == Interval(lo, hi) - a;
    assert a <= Interval(lo, hi);
  }

  lemma ProblemMillisInTable(rows: seq<Row>, db: Tables, q: Query, initial: nat)
    requires IsCursor(rows, db, q) && DifferentTimes(db, q)
    ensures UncoveredProblemTime(db, q, ChangesOf(rows), initial) == ProblemMillis(db, q, initial)
  {
    var cs := ChangesOf(rows);
    forall t ensures IsUncoveredProblem(db, q, cs, initial, t) <==> IsProblemTime(db, q, initial, t) {
      ProblemInTable(rows, db, q, initial, t);
    }
    assert (set t | q.start <= t < q.end && IsUncoveredProblem(db, q, cs, initial, t))
        == (set t | q.start <= t < q.end && IsProblemTime(db, q, initial, t));
  }

  lemma KnownMillisInTable(rows: seq<Row>, db: Tables, q: Query)
    requires IsCursor(rows, db, q) && DifferentTimes(db, q) && q.start < q.end
    ensures TotalTime(db, q, ChangesOf(rows)) == KnownMillis(db, q)
  {
    var cs := ChangesOf(rows);
    var unknown := set t | q.start <= t < q.end && UnknownAt(db, q, cs)(t);
    forall t ensures t in unknown <==> q.start <= t < q.end && IsUnknownTime(db, q, t) {
      UnknownInTable(rows, db, q, t);
    }
    OthersCount(unknown, q.start, q.end);
    assert (set t | q.start <= t < q.end && t !in unknown)
        == (set t | q.start <= t < q.end && !IsUnknownTime(db, q, t));
  }

  /** What the loop counts, over the tables alone. */
  lemma MillisInTable(rows: seq<Row>, db: Tables, q: Query, initial: nat)
    requires IsCursor(rows, db, q) && DifferentTimes(db, q) && ValidDowntimes(db) && q.start < q.end
    ensures ProblemTime(db, q, ChangesOf(rows), initial) == ProblemMillis(db, q, initial)
    ensures TotalTime(db, q, ChangesOf(rows)) == KnownMillis(db, q)
  {
    ProblemsAreUncovered(db, q, ChangesOf(rows), initial);
    ProblemMillisInTable(rows, db, q, initial);
    KnownMillisInTable(rows, db, q);
  }

  /** p is the share of non-problem milliseconds among the known ones, for some possible initial state. */
  ghost predicate IsShare(db: Tables, q: Query, cs: seq<Change>, p: nat) {
    exists initial ::
      && IsInitialState(db, q, initial)
      && ProblemTime(db, q, cs, initial) <= TotalTime(db, q, cs) && 0 < TotalTime(db, q, cs)
      && p == OkPercent(ProblemTime(db, q, cs, initial), TotalTime(db, q, cs))
  }

  /** The same, with problems outside all downtimes. */
  ghost predicate IsUncoveredShare(db: Tables, q: Query, cs: seq<Change>, p: nat) {
    exists initial ::
      && IsInitialState(db, q, initial)
      && UncoveredProblemTime(db, q, cs, initial) <= TotalTime(db, q, cs) && 0 < TotalTime(db, q, cs)
      && p == OkPercent(UncoveredProblemTime(db, q, cs, initial), TotalTime(db, q, cs))
  }

  /** The same, over the tables alone. */
  ghost predicate IsShareInTable(db: Tables, q: Query, p: nat) {
    exists initial ::
      && IsStateAtStart(db, q, initial)
      && ProblemMillis(db, q, initial) <= KnownMillis(db, q) && 0 < KnownMillis(db, q)
      && p == OkPercent(ProblemMillis(db, q, initial), KnownMillis(db, q))
  }

  lemma UncoveredShare(db: Tables, q: Query, cs: seq<Change>, p: nat)
    requires IsShare(db, q, cs, p) && ValidDowntimes(db)
    ensures IsUncoveredShare(db, q, cs, p)
  {
    var initial :|
      && IsInitialState(db, q, initial)
      && ProblemTime(db, q, cs, initial) <= TotalTime(db, q, cs) && 0 < TotalTime(db, q, cs)
      && p == OkPercent(ProblemTime(db, q, cs, initial), TotalTime(db, q, cs));
    ProblemsAreUncovered(db, q, cs, initial);
  }

  lemma ShareInTable(rows: seq<Row>, db: Tables, q: Query, p: nat)
    requires IsCursor(rows, db, q) && DifferentTimes(db, q) && ValidDowntimes(db) && q.start < q.end
    requires IsShare(db, q, ChangesOf(rows), p)
    ensures IsShareInTable(db, q, p)
  {
    var cs := ChangesOf(rows);
    var initial :|
      && IsInitialState(db, q, initial)
      && ProblemTime(db, q, cs, initial) <= TotalTime(db, q, cs) && 0 < TotalTime(db, q, cs)
      && p == OkPercent(ProblemTime(db, q, cs, initial), TotalTime(db, q, cs));
    MillisInTable(rows, db, q, initial);
    InitialIsStateAtStart(db, q, initial);
  }

  method GetSlaOkPercent(db: Tables, q: Query, rows: seq<Row>) returns (r: Result<nat, SlaError>)
    requires q.start < q.end ==> IsCursor(rows, db, q)
    ensures r == Failure(EndNotAfterStart) <==> q.end <= q.start
    ensures r == Failure(DowntimeCounterOutOfRange) <==> q.start < q.end && !CounterStaysUnsigned(db, q)
    ensures q.start < q.end && ValidDowntimes(db) ==> r.Success?
    ensures r.Success? ==> IsShare(db, q, ChangesOf(rows), r.value) && 0 <= r.value <= PERCENT_100
    ensures r.Success? && ValidDowntimes(db) ==> IsUncoveredShare(db, q, ChangesOf(rows), r.value)
    ensures r.Success? && ValidDowntimes(db) && DifferentTimes(db, q) ==> IsShareInTable(db, q, r.value)
  {
    if q.end <= q.start {
      return Failure(EndNotAfterStart);
    }
    var initial := InitialState(db, q);
    var ok, problemTime, totalTime := Sweep(db, q, rows, initial);
    if !ok {
      if ValidDowntimes(db) {
        CounterMeansDowntime(db, q);
      }
      return Failure(DowntimeCounterOutOfRange);
    }
    OkPercentIsSound(problemTime, totalTime);
    r := Success(OkPercent(problemTime, totalTime));
    if ValidDowntimes(db) {
      UncoveredShare(db, q, ChangesOf(rows), r.value);
      if DifferentTimes(db, q) {
        ShareInTable(rows, db, q, r.value);
      }
    }
  }

  /* ---------- Independence of the cursor ---------- */

  function Insert(r: Row, rows: seq<Row>): (s: seq<Row>)
    ensures multiset(s) == multiset(rows) + multiset{r}
  {
    if rows == [] then [r]
    else if NotAfter(r, rows[0]) then [r] + rows
    else
      assert rows == [rows[0]] + rows[1..];
      [rows[0]] + Insert(r, rows[1..])
  }

  lemma {:induction false} OrderedCons(r: Row, rows: seq<Row>)
    requires Ordered(rows) && (rows != [] ==> NotAfter(r, rows[0]))
    ensures Ordered([r] + rows)
  {
    var s := [r] + rows;
    forall i, j | 0 <= i < j < |s| ensures NotAfter(s[i], s[j]) {
      if i == 0 {
        assert j > 1 ==> NotAfter(rows[0], rows[j - 1]);
      } else {
        assert NotAfter(rows[i - 1], rows[j - 1]);
      }
    }
  }

  lemma OrderedTail(rows: seq<Row>)
    requires Ordered(rows) && rows != []
    ensures Ordered(rows[1..])
  {
    forall i, j | 0 <= i < j < |rows[1..]| ensures NotAfter(rows[1..][i], rows[1..][j]) {
      assert NotAfter(rows[i + 1], rows[j + 1]);
    }
  }

  lemma {:induction false} InsertOrdered(r: Row, rows: seq<Row>)
    requires Ordered(rows)
    ensures Ordered(Insert(r, rows))
  {
    if rows == [] {
    } else if NotAfter(r, rows[0]) {
      OrderedCons(r, rows);
    } else {
      OrderedTail(rows);
      InsertOrdered(r, rows[1..]);
      assert |rows| > 1 ==> NotAfter(rows[0], rows[1]);
      OrderedCons(rows[0], Insert(r, rows[1..]));
    }
  }

  function OrderBy(rows: seq<Row>): (s: seq<Row>)
    ensures multiset(s) == multiset(rows) && Ordered(s)
  {
    if rows == [] then []
    else
      assert rows == [rows[0]] + rows[1..];
      InsertOrdered(rows[0], OrderBy(rows[1..]));
      Insert(rows[0], OrderBy(rows[1..]))
  }

  /** Every database and interval has a cursor, so the sweep's assumption can be met. */
  lemma CursorExists(db: Tables, q: Query)
    ensures IsCursor(OrderBy(UnionAll(db, q)), db, q)
  {
  }

  lemma {:induction false} ChangesOfPermute(a: seq<Row>, b: seq<Row>)
    requires multiset(a) == multiset(b)
    ensures multiset(ChangesOf(a)) == multiset(ChangesOf(b))
  {
    if a == [] {
      assert |multiset(b)| == 0;
    } else {
      var i := Match(a, b);
      ChangesOfPermute(a[1..], b[..i] + b[i + 1..]);
      ChangesOfAppend(b[..i], b[i + 1..]);
      ChangesOfThree(b[..i], b[i], b[i + 1..]);
    }
  }

  lemma ChangesOfThree(a: seq<Row>, r: Row, b: seq<Row>)
    ensures ChangesOf(a + [r] + b) == ChangesOf(a) + ChangeOf(r) + ChangesOf(b)
  {
    ChangesOfAppend(a + [r], b);
    ChangesOfAppend(a, [r]);
    assert ChangesOf([r]) == ChangeOf(r);
  }

  ghost predicate TimesIncrease(cs: seq<Change>) {
    forall i, j :: 0 <= i < j < |cs| ==> cs[i].time < cs[j].time
  }

  lemma {:induction false} SameIncreasing(a: seq<Change>, b: seq<Change>)
    requires multiset(a) == multiset(b) && TimesIncrease(a) && TimesIncrease(b)
    ensures a == b
  {
    if a == [] {
      assert |multiset(b)| == 0;
    } else {
      assert a[0] in multiset(b) && |multiset(b)| > 0;
      assert b[0] in multiset(a);
      assert a == [a[0]] + a[1..] && b == [b[0]] + b[1..];
      assert multiset(a[1..]) == multiset(a) - multiset{a[0]};
      assert multiset(b[1..]) == multiset(b) - multiset{b[0]};
      SameIncreasing(a[1..], b[1..]);
    }
  }

  /** If the checkable's state changes have different times, the SLA times do not depend on the row order that the
      database happens to choose. */
  lemma CursorDoesNotMatter(db: Tables, q: Query, a: seq<Row>, b: seq<Row>, initial: nat)
    requires IsCursor(a, db, q) && IsCursor(b, db, q)
    requires TimesIncrease(ChangesOf(a)) && TimesIncrease(ChangesOf(b))
    ensures ProblemTime(db, q, ChangesOf(a), initial) == ProblemTime(db, q, ChangesOf(b), initial)
    ensures TotalTime(db, q, ChangesOf(a)) == TotalTime(db, q, ChangesOf(b))
  {
    ChangesOfPermute(a, b);
    SameIncreasing(ChangesOf(a), ChangesOf(b));
  }
}

/** Self-stabilisation of the HA protocol: from any mix of local flags and row flags, calm cycles (fresh heartbeats,
    no failures) lead to exactly one responsible instance whose row is the only one set.
 */
module HaStabilisation {
  import opened Wrappers
  import opened HaProtocol

  /* ---------- The protocol on two sets ---------- */

  /** local: the instances that are responsible. rows: those whose row is 'y'. */
  datatype Flags = Flags(local: set<Id>, rows: set<Id>)

  /** A calm realize cycle of instance i. */
  function Cycle(f: Flags, i: Id): Flags {
    if f.rows - {i} != {} then
      // Another instance is active: write the own flag as it was, then drop it.
      Flags(f.local - {i}, if i in f.local then f.rows + {i} else f.rows - {i})
    else
      // No other instance is active: take over or go on.
      Flags(f.local + {i}, {i})
  }

  predicate Stable(f: Flags) {
    |f.local| == 1 && f.rows == f.local
  }

  /** Second component of the measure. */
  function Disorder(f: Flags): nat {
    if |f.rows| == 1 && f.rows <= f.local then 0 else 1 + 2 * |f.local| + |f.rows|
  }

  /** Responsible instances whose row is 'n'. */
  function Ahead(f: Flags): set<Id> {
    f.local - f.rows
  }

  /** A singleton written as such. */
  lemma Singleton(s: set<Id>) returns (x: Id)
    requires |s| == 1
    ensures s == {x}
  {
    x :| x in s;
    assert |s - {x}| == 0;
  }

  lemma RemoveOne(s: set<Id>, x: Id)
    requires x in s
    ensures |s - {x}| == |s| - 1
  {
  }

  /** A responsible instance that meets another active one gives up its flag. */
  lemma HandoverDecreases(f: Flags, i: Id, j: Id)
    requires i in f.local && j in f.rows - {i}
    ensures |Ahead(Cycle(f, i))| <= |Ahead(f)|
    ensures |Ahead(Cycle(f, i))| == |Ahead(f)| ==> Disorder(Cycle(f, i)) < Disorder(f)
  {
    var g := Flags(f.local - {i}, f.rows + {i});
    assert Cycle(f, i) == g;
    assert Ahead(g) == Ahead(f) - {i};
    if i in f.rows {
      assert f.rows + {i} == f.rows;
      TwoElements(f.rows, i, j);
      RemoveOne(f.local, i);
    } else {
      RemoveOne(Ahead(f), i);
    }
  }

  /** An instance that is not responsible clears its row when it meets another active one. */
  lemma ClearDecreases(f: Flags, i: Id, j: Id)
    requires i !in f.local && i in f.rows && j in f.rows - {i}
    ensures |Ahead(Cycle(f, i))| == |Ahead(f)| && Disorder(Cycle(f, i)) < Disorder(f)
  {
    var g := Flags(f.local, f.rows - {i});
    assert f.local - {i} == f.local;
    assert Cycle(f, i) == g;
    assert Ahead(g) == Ahead(f);
    TwoElements(f.rows, i, j);
    RemoveOne(f.rows, i);
  }

  /** A responsible instance that finds no active one sets its row. */
  lemma GoOnDecreases(f: Flags, i: Id)
    requires Cycle(f, i) != f && f.rows <= {i} && i in f.local
    ensures |Ahead(Cycle(f, i))| < |Ahead(f)|
  {
    var g := Flags(f.local + {i}, {i});
    assert g == Cycle(f, i);
    assert g.local == f.local;
    assert i !in f.rows;
    assert Ahead(g) == Ahead(f) - {i};
    RemoveOne(Ahead(f), i);
  }

  lemma OnlyOne(s: set<Id>, i: Id)
    requires s <= {i} && |s| == 1
    ensures i in s
  {
    var x := Singleton(s);
  }

  lemma TakeoverCycle(f: Flags, i: Id)
    requires f.rows <= {i} && i !in f.local
    ensures Cycle(f, i) == Flags(f.local + {i}, {i})
    ensures Ahead(f) == f.local && Ahead(Cycle(f, i)) == f.local
  {
    assert f.rows - {i} == {};
  }

  lemma NotSettled(f: Flags, i: Id)
    requires f.rows <= {i} && i !in f.local
    ensures Disorder(f) > 0
  {
    if |f.rows| == 1 {
      OnlyOne(f.rows, i);
    }
  }

  /** Another one takes over. */
  lemma TakeoverDecreases(f: Flags, i: Id)
    requires f.rows <= {i} && i !in f.local
    ensures |Ahead(Cycle(f, i))| == |Ahead(f)| && Disorder(Cycle(f, i)) < Disorder(f)
  {
    TakeoverCycle(f, i);
    NotSettled(f, i);
    assert Cycle(f, i).rows <= Cycle(f, i).local;
  }

  lemma TwoElements(s: set<Id>, i: Id, j: Id)
    requires i in s && j in s && i != j
    ensures |s| >= 2
  {
    SubsetSize({i, j}, s);
  }

  /** Every cycle that changes anything decreases the pair (|Ahead|, Disorder) lexicographically. */
  lemma CycleDecreases(f: Flags, i: Id)
    requires Cycle(f, i) != f
    ensures |Ahead(Cycle(f, i))| <= |Ahead(f)|
    ensures |Ahead(Cycle(f, i))| == |Ahead(f)| ==> Disorder(Cycle(f, i)) < Disorder(f)
  {
    if j :| j in f.rows - {i} {
      if i in f.local {
        HandoverDecreases(f, i, j);
      } else {
        assert i in f.rows by {
          assert f.local - {i} == f.local;
          assert i !in f.rows ==> f.rows - {i} == f.rows;
        }
        ClearDecreases(f, i, j);
      }
    } else if i in f.local {
      GoOnDecreases(f, i);
    } else {
      TakeoverDecreases(f, i);
    }
  }

  lemma {:induction false} SubsetSize(a: set<Id>, b: set<Id>)
    requires a <= b
    ensures |a| <= |b|
  {
    if a != {} {
      var x :| x in a;
      SubsetSize(a - {x}, b - {x});
    }
  }

  lemma RestIsStable(f: Flags, all: set<Id>)
    requires all != {} && f.local <= all && f.rows <= all
    requires forall i <- all :: Cycle(f, i) == f
    ensures Stable(f)
  {
    var k :| k in all;
    assert Cycle(f, k) == f;
    var i :| i in f.rows;
    assert Cycle(f, i) == f;
    assert i in f.local && f.rows == {i};
    forall j | j in f.local ensures j == i {
      assert Cycle(f, j) == f;
    }
    assert f.local == {i};
  }

  lemma StableIsRest(f: Flags, i: Id)
    requires Stable(f)
    ensures Cycle(f, i) == f
  {
    var x := Singleton(f.local);
    if i != x {
      assert x in f.rows - {i};
      assert f.local - {i} == f.local && f.rows - {i} == f.rows;
    } else {
      assert f.rows - {i} == {};
      assert f.local + {i} == f.local;
    }
  }

  /** The states that no cycle changes are exactly the stable ones. */
  lemma FixedPointsAreStable(f: Flags, all: set<Id>)
    requires all != {} && f.local <= all && f.rows <= all
    ensures (forall i <- all :: Cycle(f, i) == f) <==> Stable(f)
  {
    if forall i <- all :: Cycle(f, i) == f {
      RestIsStable(f, all);
    }
    if Stable(f) {
      forall i | i in all ensures Cycle(f, i) == f {
        StableIsRest(f, i);
      }
    }
  }

  /* ---------- Convergence ---------- */

  /** The lexicographic pair as one number, for n instances. */
  function Rank(f: Flags, n: nat): nat {
    |Ahead(f)| * (3 * n + 2) + Disorder(f)
  }

  function Cycles(f: Flags, schedule: seq<Id>): Flags
    decreases |schedule|
  {
    if schedule == [] then f else Cycles(Cycle(f, schedule[0]), schedule[1..])
  }

  /** Each instance has at least one cycle. */
  predicate IsRound(round: seq<Id>, all: set<Id>) {
    (forall i <- round :: i in all) && (forall i <- all :: i in round)
  }

  function Rounds(f: Flags, rounds: seq<seq<Id>>): Flags
    decreases |rounds|
  {
    if rounds == [] then f else Rounds(Cycles(f, rounds[0]), rounds[1..])
  }

  lemma CycleStaysInside(f: Flags, i: Id, all: set<Id>)
    requires f.local <= all && f.rows <= all && i in all
    ensures Cycle(f, i).local <= all && Cycle(f, i).rows <= all
  {
  }

  lemma RankDecreases(f: Flags, i: Id, all: set<Id>)
    requires f.local <= all && f.rows <= all && i in all && Cycle(f, i) != f
    ensures Rank(Cycle(f, i), |all|) < Rank(f, |all|)
  {
    var g := Cycle(f, i);
    var n := |all|;
    CycleDecreases(f, i);
    CycleStaysInside(f, i, all);
    SubsetSize(g.local, all);
    SubsetSize(g.rows, all);
    assert Disorder(g) <= 3 * n + 1;
    if |Ahead(g)| < |Ahead(f)| {
      TimesStep(|Ahead(g)|, |Ahead(f)|, 3 * n + 2);
    }
  }

  lemma {:induction false} TimesStep(a: nat, b: nat, c: nat)
    requires a < b
    ensures a * c + c <= b * c
  {
    if a + 1 < b {
      TimesStep(a, b - 1, c);
      assert b * c == (b - 1) * c + c;
    }
  }

  /** A schedule never increases the rank, and it decreases it if some scheduled instance is not at rest at first. */
  lemma {:induction false} ScheduleDecreases(f: Flags, schedule: seq<Id>, all: set<Id>)
    requires f.local <= all && f.rows <= all && forall i <- schedule :: i in all
    ensures Cycles(f, schedule).local <= all && Cycles(f, schedule).rows <= all
    ensures Rank(Cycles(f, schedule), |all|) <= Rank(f, |all|)
    ensures (exists i <- schedule :: Cycle(f, i) != f) ==> Rank(Cycles(f, schedule), |all|) < Rank(f, |all|)
    decreases |schedule|
  {
    if schedule != [] {
      var i := schedule[0];
      CycleStaysInside(f, i, all);
      ScheduleDecreases(Cycle(f, i), schedule[1..], all);
      if Cycle(f, i) != f {
        RankDecreases(f, i, all);
      } else {
        assert forall j <- schedule :: j == i || j in schedule[1..];
      }
    }
  }

  lemma {:induction false} StableStays(f: Flags, schedule: seq<Id>, all: set<Id>)
    requires all != {} && f.local <= all && f.rows <= all && Stable(f) && forall i <- schedule :: i in all
    ensures Cycles(f, schedule) == f
    decreases |schedule|
  {
    if schedule != [] {
      FixedPointsAreStable(f, all);
      StableStays(f, schedule[1..], all);
    }
  }

  /** After more rounds than the rank of the start, the system is stable, and it stays so. */
  lemma {:induction false} Converges(f: Flags, rounds: seq<seq<Id>>, all: set<Id>)
    requires all != {} && f.local <= all && f.rows <= all
    requires forall r <- rounds :: IsRound(r, all)
    requires Stable(f) || |rounds| > Rank(f, |all|)
    ensures Stable(Rounds(f, rounds))
    decreases |rounds|
  {
    if rounds != [] {
      var g := Cycles(f, rounds[0]);
      assert IsRound(rounds[0], all);
      ScheduleDecreases(f, rounds[0], all);
      FixedPointsAreStable(f, all);
      if Stable(f) {
        StableStays(f, rounds[0], all);
      } else {
        var i :| i in all && Cycle(f, i) != f;
        assert i in rounds[0];
      }
      Converges(g, rounds[1..], all);
    }
  }

  /** The rank is quadratic in the number of instances, whatever the start. */
  lemma RankBound(f: Flags, all: set<Id>)
    requires f.local <= all && f.rows <= all
    ensures Rank(f, |all|) <= |all| * (3 * |all| + 2) + 3 * |all| + 1
  {
    SubsetSize(Ahead(f), all);
    SubsetSize(f.local, all);
    SubsetSize(f.rows, all);
    if |Ahead(f)| < |all| {
      TimesStep(|Ahead(f)|, |all|, 3 * |all| + 2);
    }
  }

  /* ---------- The cluster refines the sets ---------- */

  /** All instances of the environment are between two cycles, and no other process has left a row set. */
  ghost predicate Calm(s: Cluster, env: Env) {
    && RowsMatchLocals(s)
    && (forall i <- s.locals :: s.locals[i].env == env && s.locals[i].phase.Idle?)
    && (forall i <- s.rows :: s.rows[i].env == env && s.rows[i].responsible ==> i in s.locals)
  }

  function FlagsOf(s: Cluster, env: Env): Flags {
    Flags(set i | i in s.locals && s.locals[i].responsible,
          set i | i in s.rows && s.rows[i].env == env && s.rows[i].responsible)
  }

  /** A cycle without failure: the transaction starts, commits, and its outcome is signalled. */
  datatype Beat = Beat(i: Id, now: int, pick: Option<Id>, heartbeat: int)

  ghost predicate CalmBeat(s: Cluster, b: Beat) {
    && Enabled(s, Begin(b.i, b.now, b.pick, b.heartbeat))
    && (b.pick.Some? ==> !Expired(s.rows[b.pick.value], b.now))
  }

  ghost function Realized(s: Cluster, b: Beat): Cluster
    requires CalmBeat(s, b)
  {
    Next(Next(Next(s, Begin(b.i, b.now, b.pick, b.heartbeat)), Commit(b.i)), Signal(b.i))
  }

  /** One calm cycle of the protocol is one cycle on the sets. */
  lemma RealizedIsCycle(s: Cluster, env: Env, b: Beat)
    requires Calm(s, env) && CalmBeat(s, b)
    ensures Calm(Realized(s, b), env) && Realized(s, b).locals.Keys == s.locals.Keys
    ensures FlagsOf(Realized(s, b), env) == Cycle(FlagsOf(s, env), b.i)
  {
    var t, f := Realized(s, b), FlagsOf(s, env);
    var g := FlagsOf(t, env);
    assert b.pick.Some? <==> f.rows - {b.i} != {} by {
      if b.pick.Some? {
        assert b.pick.value in f.rows - {b.i};
      } else {
        assert forall j :: !IsResponsiblePeer(s.rows, b.i, env, j);
        assert forall j <- f.rows :: j != b.i ==> IsResponsiblePeer(s.rows, b.i, env, j);
      }
    }
    assert g.local == Cycle(f, b.i).local;
    assert g.rows == Cycle(f, b.i).rows;
  }

  ghost predicate CalmRun(s: Cluster, beats: seq<Beat>)
    decreases |beats|
  {
    beats != [] ==> CalmBeat(s, beats[0]) && CalmRun(Realized(s, beats[0]), beats[1..])
  }

  ghost function AfterBeats(s: Cluster, beats: seq<Beat>): Cluster
    requires CalmRun(s, beats)
    decreases |beats|
  {
    if beats == [] then s else AfterBeats(Realized(s, beats[0]), beats[1..])
  }

  function Schedule(beats: seq<Beat>): seq<Id> {
    if beats == [] then [] else [beats[0].i] + Schedule(beats[1..])
  }

  lemma {:induction false} CalmRunRefines(s: Cluster, env: Env, beats: seq<Beat>)
    requires Calm(s, env) && CalmRun(s, beats)
    ensures Calm(AfterBeats(s, beats), env) && AfterBeats(s, beats).locals.Keys == s.locals.Keys
    ensures FlagsOf(AfterBeats(s, beats), env) == Cycles(FlagsOf(s, env), Schedule(beats))
    decreases |beats|
  {
    if beats != [] {
      RealizedIsCycle(s, env, beats[0]);
      CalmRunRefines(Realized(s, beats[0]), env, beats[1..]);
    }
  }

  lemma {:induction false} CyclesAppend(f: Flags, a: seq<Id>, b: seq<Id>)
    ensures Cycles(f, a + b) == Cycles(Cycles(f, a), b)
    decreases |a|
  {
    if a == [] {
      assert a + b == b;
    } else {
      assert (a + b)[1..] == a[1..] + b;
      CyclesAppend(Cycle(f, a[0]), a[1..], b);
    }
  }

  function Flatten(rounds: seq<seq<Id>>): seq<Id> {
    if rounds == [] then [] else rounds[0] + Flatten(rounds[1..])
  }

  lemma {:induction false} RoundsAreCycles(f: Flags, rounds: seq<seq<Id>>)
    ensures Rounds(f, rounds) == Cycles(f, Flatten(rounds))
    decreases |rounds|
  {
    if rounds != [] {
      CyclesAppend(f, rounds[0], Flatten(rounds[1..]));
      RoundsAreCycles(Cycles(f, rounds[0]), rounds[1..]);
    }
  }

  /** Self-stabilisation: any calm run of enough rounds ends with exactly one responsible instance, and its row is the
      only one of the environment that is 'y'. */
  lemma SelfStabilises(s: Cluster, env: Env, beats: seq<Beat>, rounds: seq<seq<Id>>)
    requires Calm(s, env) && |s.locals| > 0 && CalmRun(s, beats)
    requires Schedule(beats) == Flatten(rounds) && forall r <- rounds :: IsRound(r, s.locals.Keys)
    requires |rounds| >= |s.locals| * (3 * |s.locals| + 2) + 3 * |s.locals| + 2
    ensures Stable(FlagsOf(AfterBeats(s, beats), env))
  {
    var f, all := FlagsOf(s, env), s.locals.Keys;
    assert |all| == |s.locals|;
    assert all != {} by { assert |all| != 0; }
    RankBound(f, all);
    Converges(f, rounds, all);
    RoundsAreCycles(f, rounds);
    CalmRunRefines(s, env, beats);
  }
}

/** sliceIdoHistory: a large SELECT, split into pages by a moving checkpoint and a LIMIT. */
module Paging {
  /** A row of an IDO history table. */
  datatype Row<+T> = Row(id: nat, value: T)

  /** "id > :checkpoint", or "id < :checkpoint" for tables read backwards. */
  predicate Beyond(id: nat, checkpoint: int, descending: bool) {
    if descending then id < checkpoint else id > checkpoint
  }

  /** The rows in the order of the query's ORDER BY. */
  ghost predicate InOrder<T>(rows: seq<Row<T>>, descending: bool) {
    forall i, j {:trigger Beyond(rows[j].id, rows[i].id, descending)} :: 0 <= i < j < |rows| ==>
      Beyond(rows[j].id, rows[i].id, descending)
  }

  /** All rows that match the WHERE condition. */
  function Matching<T>(rows: seq<Row<T>>, from: int, to: int, checkpoint: int, descending: bool): seq<Row<T>> {
    if rows == [] then []
    else
      (if from <= rows[0].id <= to && Beyond(rows[0].id, checkpoint, descending) then [rows[0]] else [])
      + Matching(rows[1..], from, to, checkpoint, descending)
  }

  /** A row is selected exactly if its ID is in the range and, in the order of the query, after the checkpoint. */
  lemma {:induction false} MatchingIff<T>(
    rows: seq<Row<T>>, from: int, to: int, checkpoint: int, descending: bool, r: Row<T>)
    ensures
      r in Matching(rows, from, to, checkpoint, descending)
      <==> r in rows && from <= r.id <= to && if descending then r.id < checkpoint else r.id > checkpoint
  {
    if rows != [] {
      MatchingIff(rows[1..], from, to, checkpoint, descending, r);
      assert r in rows <==> r == rows[0] || r in rows[1..];
    }
  }

  /** IDs ascend, or descend. */
  ghost predicate IsSorted<T>(rows: seq<Row<T>>, descending: bool) {
    forall i, j :: 0 <= i < j < |rows| ==> if descending then rows[j].id < rows[i].id else rows[i].id < rows[j].id
  }

  lemma {:induction false} MatchingIsSorted<T>(
    rows: seq<Row<T>>, from: int, to: int, checkpoint: int, descending: bool)
    requires IsSorted(rows, descending)
    ensures IsSorted(Matching(rows, from, to, checkpoint, descending), descending)
  {
    if rows != [] {
      MatchingIsSorted(rows[1..], from, to, checkpoint, descending);
      var tail := Matching(rows[1..], from, to, checkpoint, descending);
      forall k | 0 <= k < |tail| ensures if descending then tail[k].id < rows[0].id else rows[0].id < tail[k].id {
        MatchingIff(rows[1..], from, to, checkpoint, descending, tail[k]);
        var i :| 0 <= i < |rows[1..]| && rows[1..][i] == tail[k];
        assert rows[i + 1] == tail[k];
      }
    }
  }

  function Take<T>(s: seq<T>, n: nat): seq<T> {
    if n < |s| then s[..n] else s
  }

  /** The result of the query: at most bulk matching rows, in order. */
  function Query<T>(rows: seq<Row<T>>, from: int, to: int, checkpoint: int, bulk: nat, descending: bool): seq<Row<T>> {
    Take(Matching(rows, from, to, checkpoint, descending), bulk)
  }

  /** After the first row as the checkpoint come all later matches. */
  lemma MatchingAfterFirst<T>(rows: seq<Row<T>>, from: int, to: int, checkpoint: int, descending: bool)
    requires InOrder(rows, descending) && rows != [] && Beyond(rows[0].id, checkpoint, descending)
    ensures Matching(rows, from, to, rows[0].id, descending) == Matching(rows[1..], from, to, checkpoint, descending)
  {
    forall r | r in rows[1..] ensures Beyond(r.id, rows[0].id, descending) && Beyond(r.id, checkpoint, descending) {
      var i :| 1 <= i < |rows| && rows[i] == r;
      assert Beyond(rows[i].id, rows[0].id, descending);
    }
    NarrowerCheckpoint(rows[1..], from, to, checkpoint, rows[0].id, descending);
  }

  lemma TailInOrder<T>(rows: seq<Row<T>>, descending: bool)
    requires InOrder(rows, descending) && rows != []
    ensures InOrder(rows[1..], descending)
  {
    forall i, j | 0 <= i < j < |rows[1..]| ensures Beyond(rows[1..][j].id, rows[1..][i].id, descending) {
      assert Beyond(rows[j + 1].id, rows[i + 1].id, descending);
    }
  }

  lemma {:induction false} MatchHasRow<T>(
    rows: seq<Row<T>>, from: int, to: int, checkpoint: int, descending: bool, k: nat) returns (i: nat)
    requires k < |Matching(rows, from, to, checkpoint, descending)|
    ensures i < |rows| && rows[i] == Matching(rows, from, to, checkpoint, descending)[k]
    decreases |rows|
  {
    var first := from <= rows[0].id <= to && Beyond(rows[0].id, checkpoint, descending);
    if first && k == 0 {
      i := 0;
    } else {
      i := MatchHasRow(rows[1..], from, to, checkpoint, descending, if first then k - 1 else k);
      i := i + 1;
    }
  }

  /** Moving the checkpoint to the k-th match leaves exactly the matches after it. */
  lemma {:induction false} MatchingAfter<T>(
    rows: seq<Row<T>>, from: int, to: int, checkpoint: int, descending: bool, k: nat)
    requires InOrder(rows, descending) && k < |Matching(rows, from, to, checkpoint, descending)|
    ensures
      var m := Matching(rows, from, to, checkpoint, descending);
      Matching(rows, from, to, m[k].id, descending) == m[k + 1..]
    decreases |rows|, 0
  {
    var m := Matching(rows, from, to, checkpoint, descending);
    var tail := Matching(rows[1..], from, to, checkpoint, descending);
    if !(from <= rows[0].id <= to && Beyond(rows[0].id, checkpoint, descending)) {
      assert m == tail;
      MatchingAfterTail(rows, from, to, checkpoint, descending, k);
    } else if k == 0 {
      assert m == [rows[0]] + tail;
      MatchingAfterFirst(rows, from, to, checkpoint, descending);
    } else {
      assert m == [rows[0]] + tail;
      MatchingAfterTail(rows, from, to, checkpoint, descending, k - 1);
      assert m[k + 1..] == tail[k..];
    }
  }

  lemma {:induction false} MatchingAfterTail<T>(
    rows: seq<Row<T>>, from: int, to: int, checkpoint: int, descending: bool, k: nat)
    requires rows != [] && InOrder(rows, descending) && k < |Matching(rows[1..], from, to, checkpoint, descending)|
    ensures
      var tail := Matching(rows[1..], from, to, checkpoint, descending);
      Matching(rows, from, to, tail[k].id, descending) == tail[k + 1..]
    decreases |rows| - 1, 1
  {
    TailInOrder(rows, descending);
    var i := MatchHasRow(rows[1..], from, to, checkpoint, descending, k);
    assert Beyond(rows[i + 1].id, rows[0].id, descending);
    MatchingAfter(rows[1..], from, to, checkpoint, descending, k);
  }

  /** For rows that all lie beyond a checkpoint beyond another, the choice between the two does not matter. */
  lemma {:induction false} NarrowerCheckpoint<T>(
    rows: seq<Row<T>>, from: int, to: int, c: int, d: int, descending: bool)
    requires forall r <- rows :: Beyond(r.id, c, descending) && Beyond(r.id, d, descending)
    ensures Matching(rows, from, to, c, descending) == Matching(rows, from, to, d, descending)
  {
    if rows != [] {
      NarrowerCheckpoint(rows[1..], from, to, c, d, descending);
    }
  }

  function Concat<T>(pages: seq<seq<T>>): seq<T> {
    if pages == [] then [] else pages[0] + Concat(pages[1..])
  }

  /** The pages of a result: all full, except that the last may be shorter. None is empty. */
  function Split<T>(s: seq<T>, bulk: nat): seq<seq<T>>
    requires bulk > 0
  {
    if s == [] then []
    else if |s| <= bulk then [s]
    else [s[..bulk]] + Split(s[bulk..], bulk)
  }

  lemma ConcatCons<T>(page: seq<T>, pages: seq<seq<T>>)
    ensures Concat([page] + pages) == page + Concat(pages)
  {
    assert ([page] + pages)[1..] == pages;
  }

  /** The pages contain each row exactly once, and in order. */
  lemma {:induction false} SplitIsLossless<T>(s: seq<T>, bulk: nat)
    requires bulk > 0
    ensures Concat(Split(s, bulk)) == s
    decreases |s|
  {
    if s == [] {
    } else if |s| <= bulk {
      ConcatCons(s, []);
      assert [s] + [] == [s];
    } else {
      SplitIsLossless(s[bulk..], bulk);
      ConcatCons(s[..bulk], Split(s[bulk..], bulk));
      assert s[..bulk] + s[bulk..] == s;
    }
  }

  /** No page is empty or too long. */
  lemma {:induction false} PagesFit<T>(s: seq<T>, bulk: nat)
    requires bulk > 0
    ensures forall i :: 0 <= i < |Split(s, bulk)| ==> 0 < |Split(s, bulk)[i]| <= bulk
    decreases |s|
  {
    if |s| > bulk {
      PagesFit(s[bulk..], bulk);
    }
  }

  /** The rows in the range beyond the initial checkpoint, each of them once and in order. */
  ghost predicate AreSelected<T>(
    rows: seq<Row<T>>, from: int, to: int, initial: int, descending: bool, selected: seq<Row<T>>)
  {
    && (forall r <- selected ::
          r in rows && from <= r.id <= to && if descending then r.id < initial else r.id > initial)
    && (forall r <- rows ::
          (from <= r.id <= to && if descending then r.id < initial else r.id > initial) ==> r in selected)
    && IsSorted(selected, descending)
  }

  lemma MatchingAreSelected<T>(rows: seq<Row<T>>, from: int, to: int, initial: int, descending: bool)
    requires InOrder(rows, descending)
    ensures AreSelected(rows, from, to, initial, descending, Matching(rows, from, to, initial, descending))
  {
    forall i, j | 0 <= i < j < |rows|
      ensures if descending then rows[j].id < rows[i].id else rows[i].id < rows[j].id
    {
      assert Beyond(rows[j].id, rows[i].id, descending);
    }
    MatchingIsSorted(rows, from, to, initial, descending);
    forall r | r in Matching(rows, from, to, initial, descending)
      ensures r in rows && from <= r.id <= to && if descending then r.id < initial else r.id > initial
    {
      MatchingIff(rows, from, to, initial, descending, r);
    }
    forall r | r in rows && from <= r.id <= to && if descending then r.id < initial else r.id > initial
      ensures r in Matching(rows, from, to, initial, descending)
    {
      MatchingIff(rows, from, to, initial, descending, r);
    }
  }

  /** Together the pages are those rows, and no page is empty or too long. */
  ghost predicate ArePages<T>(
    rows: seq<Row<T>>, from: int, to: int, initial: int, bulk: nat, descending: bool, pages: seq<seq<Row<T>>>)
  {
    && AreSelected(rows, from, to, initial, descending, Concat(pages))
    && forall i :: 0 <= i < |pages| ==> 0 < |pages[i]| <= bulk
  }

  lemma SplitArePages<T>(
    rows: seq<Row<T>>, from: int, to: int, initial: int, bulk: nat, descending: bool, pages: seq<seq<Row<T>>>)
    requires InOrder(rows, descending) && bulk > 0
    requires pages == Split(Matching(rows, from, to, initial, descending), bulk)
    ensures ArePages(rows, from, to, initial, bulk, descending, pages)
  {
    SplitIsLossless(Matching(rows, from, to, initial, descending), bulk);
    PagesFit(Matching(rows, from, to, initial, descending), bulk);
    MatchingAreSelected(rows, from, to, initial, descending);
  }

  /** The pages so far hold the first k matches, and the query continues after them. */
  ghost predicate Progress<T>(all: seq<Row<T>>, bulk: nat, pages: seq<seq<Row<T>>>, k: nat, remaining: seq<Row<T>>)
    requires bulk > 0
  {
    && k <= |all| && remaining == all[k..]
    && pages + Split(remaining, bulk) == Split(all, bulk)
  }

  lemma ProgressStep<T>(
    rows: seq<Row<T>>, from: int, to: int, initial: int, checkpoint: int, bulk: nat, descending: bool,
    pages: seq<seq<Row<T>>>, k: nat)
    requires InOrder(rows, descending) && bulk > 0
    requires Progress(Matching(rows, from, to, initial, descending), bulk, pages, k,
                      Matching(rows, from, to, checkpoint, descending))
    requires Query(rows, from, to, checkpoint, bulk, descending) != []
    ensures
      var all := Matching(rows, from, to, initial, descending);
      var page := Query(rows, from, to, checkpoint, bulk, descending);
      && k + |page| <= |all|
      && Progress(all, bulk, pages + [page], k + |page|, Matching(rows, from, to, page[|page| - 1].id, descending))
  {
    var all, page := Matching(rows, from, to, initial, descending), Query(rows, from, to, checkpoint, bulk, descending);
    CheckpointStep(rows, from, to, initial, checkpoint, bulk, descending, k);
    SplitNext(all, k, page, bulk);
    var rest := Split(all[k + |page|..], bulk);
    assert pages + ([page] + rest) == (pages + [page]) + rest;
  }

  lemma NoProgressYet<T>(all: seq<Row<T>>, bulk: nat)
    requires bulk > 0
    ensures Progress(all, bulk, [], 0, all)
  {
    assert [] + Split(all, bulk) == Split(all, bulk);
  }

  lemma AllPages<T>(all: seq<Row<T>>, bulk: nat, pages: seq<seq<Row<T>>>, k: nat)
    requires bulk > 0 && Progress(all, bulk, pages, k, [])
    ensures pages == Split(all, bulk)
  {
    assert pages + [] == pages;
  }

  /** The loop of sliceIdoHistory with an onRows function that returns the last row's ID. It terminates for every page
      size and passes on the pages of the matching rows. */
  method SliceIdoHistory<T>(
    rows: seq<Row<T>>, from: int, to: int, initial: int, bulk: nat, descending: bool)
    returns (pages: seq<seq<Row<T>>>)
    requires InOrder(rows, descending) && bulk > 0
    ensures pages == Split(Matching(rows, from, to, initial, descending), bulk)
    ensures ArePages(rows, from, to, initial, bulk, descending, pages)
  {
    pages := [];
    var checkpoint := initial;
    ghost var all := Matching(rows, from, to, initial, descending);
    ghost var k: nat := 0;
    NoProgressYet(all, bulk);
    while true
      invariant Progress(all, bulk, pages, k, Matching(rows, from, to, checkpoint, descending))
      decreases |all| - k
    {
      var page := Query(rows, from, to, checkpoint, bulk, descending);
      if |page| < 1 {
        assert Matching(rows, from, to, checkpoint, descending) == [];
        AllPages(all, bulk, pages, k);
        SplitArePages(rows, from, to, initial, bulk, descending, pages);
        return;
      }
      ProgressStep(rows, from, to, initial, checkpoint, bulk, descending, pages, k);
      checkpoint := page[|page| - 1].id;
      pages := pages + [page];
      k := k + |page|;
    }
  }

  lemma CheckpointStep<T>(
    rows: seq<Row<T>>, from: int, to: int, initial: int, checkpoint: int, bulk: nat, descending: bool, k: nat)
    requires InOrder(rows, descending) && bulk > 0
    requires k <= |Matching(rows, from, to, initial, descending)|
    requires Matching(rows, from, to, checkpoint, descending) == Matching(rows, from, to, initial, descending)[k..]
    requires Query(rows, from, to, checkpoint, bulk, descending) != []
    ensures
      var all := Matching(rows, from, to, initial, descending);
      var page := Query(rows, from, to, checkpoint, bulk, descending);
      k + |page| <= |all| && Matching(rows, from, to, page[|page| - 1].id, descending) == all[k + |page|..]
  {
    var page := Query(rows, from, to, checkpoint, bulk, descending);
    MatchingAfter(rows, from, to, initial, descending, k + |page| - 1);
  }

  lemma SplitNext<T>(all: seq<T>, k: nat, page: seq<T>, bulk: nat)
    requires bulk > 0 && k + |page| <= |all| && page == Take(all[k..], bulk) && page != []
    ensures Split(all[k..], bulk) == [page] + Split(all[k + |page|..], bulk)
  {
    if |all[k..]| > bulk {
      assert all[k..][..bulk] == page && all[k..][bulk..] == all[k + bulk..];
    } else {
      assert all[k..] == page;
    }
  }
}

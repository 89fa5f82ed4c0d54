/** The priority queue of pkg/notifications/sorter.go: container/heap on top of the repository's order. */
module SubmissionHeap {
  import opened Wrappers

  type Message = nat
  type Stream = nat
  type Out = nat

  datatype Submission = Submission(
    msg: Message, key: Stream, out: Out, streamIdMs: int, streamIdSeq: int, submitTime: int)

  /** The order of the queue: by Redis Stream ID, and by submit time among equal IDs. */
  predicate Before(a: Submission, b: Submission) {
    if a.streamIdMs != b.streamIdMs then a.streamIdMs < b.streamIdMs
    else if a.streamIdSeq != b.streamIdSeq then a.streamIdSeq < b.streamIdSeq
    else a.submitTime < b.submitTime
  }

  function Parent(j: int): (i: nat)
    requires j > 0
    ensures i < j
  {
    (j - 1) / 2
  }

  /** No element comes before its parent. */
  ghost predicate IsHeap(s: seq<Submission>) {
    forall j :: 0 < j < |s| ==> !Before(s[j], s[Parent(j)])
  }

  /** The first element of a heap is a minimum. */
  lemma {:induction false} RootIsMinimum(s: seq<Submission>, k: nat)
    requires IsHeap(s) && k < |s|
    ensures !Before(s[k], s[0])
    decreases k
  {
    if k > 0 {
      RootIsMinimum(s, Parent(k));
    }
  }

  lemma HeadIsMinimum(s: seq<Submission>)
    ensures IsHeap(s) ==> forall k :: 0 <= k < |s| ==> !Before(s[k], s[0])
  {
    if IsHeap(s) {
      forall k | 0 <= k < |s| ensures !Before(s[k], s[0]) {
        RootIsMinimum(s, k);
      }
    }
  }

  function Swapped(s: seq<Submission>, i: nat, j: nat): seq<Submission>
    requires i < |s| && j < |s|
  {
    s[i := s[j]][j := s[i]]
  }

  lemma SwapKeepsElements(s: seq<Submission>, i: nat, j: nat)
    requires i < |s| && j < |s|
    ensures multiset(Swapped(s, i, j)) == multiset(s)
  {
  }

  /** Like IsHeap, but element j may still have to move up. */
  ghost predicate IsHeapButUp(s: seq<Submission>, j: int) {
    && (forall k :: 0 < k < |s| && k != j ==> !Before(s[k], s[Parent(k)]))
    && (forall k :: 0 < k < |s| && Parent(k) == j && 0 < j ==> !Before(s[k], s[Parent(j)]))
  }

  lemma UpStep(s: seq<Submission>, j: nat)
    requires 0 < j < |s| && IsHeapButUp(s, j) && Before(s[j], s[Parent(j)])
    ensures IsHeapButUp(Swapped(s, Parent(j), j), Parent(j))
  {
    var i := Parent(j);
    var t := Swapped(s, i, j);
    forall k | 0 < k < |t| && k != i ensures !Before(t[k], t[Parent(k)]) {
      if Parent(k) == i && k != j {
        assert !Before(s[k], s[i]);
      }
    }
    forall k | 0 < k < |t| && Parent(k) == i && 0 < i ensures !Before(t[k], t[Parent(i)]) {
      assert !Before(s[i], s[Parent(i)]);
      if k != j {
        assert !Before(s[k], s[i]);
      }
    }
  }

  /** Like IsHeap for the first n elements, but element i may still have to move down. */
  ghost predicate IsHeapButDown(s: seq<Submission>, n: nat, i: nat) {
    && n <= |s|
    && (forall k :: 0 < k < n && Parent(k) != i ==> !Before(s[k], s[Parent(k)]))
    && (forall k :: 0 < k < n && Parent(k) == i && 0 < i ==> !Before(s[k], s[Parent(i)]))
  }

  /** j is the child of i that comes first. */
  ghost predicate IsFirstChild(s: seq<Submission>, n: nat, i: nat, j: nat) {
    && n <= |s|
    && 0 < j < n && Parent(j) == i
    && forall k :: 0 < k < n && Parent(k) == i ==> !Before(s[k], s[j])
  }

  /** The child that Down compares with its parent. */
  lemma ChildIsFirst(s: seq<Submission>, n: nat, i: nat, j: nat)
    requires n <= |s| && 2 * i + 1 < n
    requires j == if 2 * i + 2 < n && Before(s[2 * i + 2], s[2 * i + 1]) then 2 * i + 2 else 2 * i + 1
    ensures IsFirstChild(s, n, i, j)
  {
    forall k | 0 < k < n && Parent(k) == i ensures !Before(s[k], s[j]) {
      assert k == 2 * i + 1 || k == 2 * i + 2;
    }
  }

  lemma NoChildBefore(s: seq<Submission>, n: nat, i: nat, j: nat)
    requires i < n && IsFirstChild(s, n, i, j) && !Before(s[j], s[i])
    ensures forall k :: 0 < k < n && Parent(k) == i ==> !Before(s[k], s[i])
  {
  }

  lemma DownStep(s: seq<Submission>, n: nat, i: nat, j: nat)
    requires i < n && IsHeapButDown(s, n, i) && IsFirstChild(s, n, i, j) && Before(s[j], s[i])
    ensures IsHeapButDown(Swapped(s, i, j), n, j)
  {
    var t := Swapped(s, i, j);
    forall k | 0 < k < n && Parent(k) != j ensures !Before(t[k], t[Parent(k)]) {
      if k == i {
        assert !Before(s[j], s[Parent(i)]);
      }
    }
    forall k | 0 < k < n && Parent(k) == j ensures !Before(t[k], t[Parent(j)]) {
      assert !Before(s[k], s[j]);
    }
  }

  lemma DownEnd(s: seq<Submission>, n: nat, i: nat)
    requires i < n && IsHeapButDown(s, n, i)
    requires forall k :: 0 < k < n && Parent(k) == i ==> !Before(s[k], s[i])
    ensures IsHeap(s[..n])
  {
    forall k | 0 < k < n ensures !Before(s[..n][k], s[..n][Parent(k)]) {
    }
  }

  lemma PopStart(s: seq<Submission>)
    requires IsHeap(s) && s != []
    ensures IsHeapButDown(Swapped(s, 0, |s| - 1), |s| - 1, 0)
  {
  }

  lemma HeadRemoved(s: seq<Submission>, t: seq<Submission>)
    requires s != [] && multiset(t) == multiset(s) && |t| == |s| && t[|t| - 1] == s[0]
    ensures multiset(t[..|t| - 1]) == multiset(s) - multiset{s[0]}
  {
    assert t == t[..|t| - 1] + [t[|t| - 1]];
  }

  class Submissions {
    var subs: seq<Submission>

    constructor ()
      ensures subs == []
    {
      subs := [];
    }

    predicate Less(i: nat, j: nat)
      requires i < |subs| && j < |subs|
      reads this
    {
      Before(subs[i], subs[j])
    }

    method Swap(i: nat, j: nat)
      requires i < |subs| && j < |subs|
      modifies this
      ensures subs == Swapped(old(subs), i, j)
      ensures multiset(subs) == multiset(old(subs))
    {
      SwapKeepsElements(subs, i, j);
      subs := subs[i := subs[j]][j := subs[i]];
    }

    method Push(sub: Submission)
      modifies this
      ensures subs == old(subs) + [sub]
    {
      subs := subs + [sub];
    }

    method Pop() returns (sub: Submission)
      requires |subs| > 0
      modifies this
      ensures subs == old(subs)[..|old(subs)| - 1] && sub == old(subs)[|old(subs)| - 1]
    {
      var n := |subs|;
      sub := subs[n - 1];
      subs := subs[..n - 1];
    }

    function Peek(): (r: Option<Submission>)
      reads this
      ensures r.None? <==> subs == []
      ensures r.Some? && IsHeap(subs) ==>
        r.value in subs && forall k :: 0 <= k < |subs| ==> !Before(subs[k], r.value)
    {
      if |subs| > 0 then
        HeadIsMinimum(subs);
        Some(subs[0])
      else None
    }

    /** up of container/heap. */
    method Up(last: nat)
      requires last < |subs| && IsHeapButUp(subs, last)
      modifies this
      ensures IsHeap(subs)
      ensures multiset(subs) == multiset(old(subs))
    {
      var j: nat := last;
      while true
        invariant j < |subs| && IsHeapButUp(subs, j)
        invariant multiset(subs) == multiset(old(subs))
        decreases j
      {
        if j == 0 || !Less(j, Parent(j)) {
          break;
        }
        UpStep(subs, j);
        Swap(Parent(j), j);
        j := Parent(j);
      }
    }

    /** down of container/heap, for the first n elements. */
    method Down(n: nat)
      requires 0 < n <= |subs| && IsHeapButDown(subs, n, 0)
      modifies this
      ensures |subs| == |old(subs)| && forall k :: n <= k < |subs| ==> subs[k] == old(subs)[k]
      ensures IsHeap(subs[..n])
      ensures multiset(subs) == multiset(old(subs))
    {
      var i: nat := 0;
      while true
        invariant i < n && |subs| == |old(subs)|
        invariant forall k :: n <= k < |subs| ==> subs[k] == old(subs)[k]
        invariant IsHeapButDown(subs, n, i)
        invariant multiset(subs) == multiset(old(subs))
        decreases n - i
      {
        var j := 2 * i + 1;
        if j >= n {
          break;
        }
        if j + 1 < n && Less(j + 1, j) {
          j := j + 1;
        }
        assert IsFirstChild(subs, n, i, j) by {
          ChildIsFirst(subs, n, i, j);
        }
        if !Less(j, i) {
          NoChildBefore(subs, n, i, j);
          break;
        }
        DownStep(subs, n, i, j);
        Swap(i, j);
        i := j;
      }
      DownEnd(subs, n, i);
    }

    /** heap.Push. */
    method HeapPush(sub: Submission)
      requires IsHeap(subs)
      modifies this
      ensures IsHeap(subs)
      ensures multiset(subs) == multiset(old(subs)) + multiset{sub}
    {
      Push(sub);
      Up(|subs| - 1);
    }

    /** heap.Pop: removes the element that Peek shows. */
    method HeapPop() returns (sub: Submission)
      requires IsHeap(subs) && subs != []
      modifies this
      ensures sub == old(subs)[0]
      ensures IsHeap(subs)
      ensures multiset(subs) == multiset(old(subs)) - multiset{sub}
    {
      var n: nat := |subs| - 1;
      ghost var all := subs;
      Swap(0, n);
      PopStart(all);
      if n > 0 {
        Down(n);
      }
      HeadRemoved(all, subs);
      sub := Pop();
    }
  }
}

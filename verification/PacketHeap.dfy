/** `packetHeap` under `container/heap`: a growable array kept in heap order in place. */
module PacketHeap {
  import opened Common
  import opened PacketOrder

  function Parent(k: nat): nat
    requires k > 0
  {
    (k - 1) / 2
  }

  ghost predicate ChildOk(s: seq<Item>, k: nat)
    requires 1 <= k < |s|
  {
    !Before(s[k], s[Parent(k)])
  }

  /** `k` is not before its grandparent. */
  ghost predicate GrandOk(s: seq<Item>, k: nat)
    requires 1 <= k < |s| && Parent(k) > 0
  {
    !Before(s[k], s[Parent(Parent(k))])
  }

  ghost predicate HeapOrdered(s: seq<Item>) {
    forall k :: 1 <= k < |s| ==> ChildOk(s, k)
  }

  /** Heap order except that `j` may be before its parent. */
  ghost predicate RisingAt(s: seq<Item>, j: nat) {
    && (forall k :: 1 <= k < |s| && k != j ==> ChildOk(s, k))
    && (forall k :: 1 <= k < |s| && Parent(k) == j && j > 0 ==> GrandOk(s, k))
  }

  /** Heap order except that the children of `i` may be before it. */
  ghost predicate SinkingAt(s: seq<Item>, i: nat) {
    && (forall k :: 1 <= k < |s| && Parent(k) != i ==> ChildOk(s, k))
    && (forall k :: 1 <= k < |s| && Parent(k) == i && i > 0 ==> GrandOk(s, k))
  }

  function Swapped(s: seq<Item>, i: nat, j: nat): (r: seq<Item>)
    requires i < |s| && j < |s|
    ensures |r| == |s| && multiset(r) == multiset(s)
  {
    SwapMultiset(s, i, j);
    s[i := s[j]][j := s[i]]
  }

  lemma RiseStep(s: seq<Item>, j: nat)
    requires RisingAt(s, j) && 0 < j < |s| && !ChildOk(s, j)
    ensures RisingAt(Swapped(s, Parent(j), j), Parent(j))
  {
    var i := Parent(j);
    var r := Swapped(s, i, j);
    forall k | 1 <= k < |r| && k != i ensures ChildOk(r, k) {
      if k != j {
        assert ChildOk(s, k);
        if Parent(k) == j { assert GrandOk(s, k); }
      }
    }
    forall k | 1 <= k < |r| && Parent(k) == i && i > 0 ensures GrandOk(r, k) {
      assert ChildOk(s, i);
      if k != j { assert ChildOk(s, k); }
    }
  }

  lemma SinkStep(s: seq<Item>, i: nat, j: nat)
    requires SinkingAt(s, i) && 0 < j < |s| && Parent(j) == i && !ChildOk(s, j)
    requires forall k :: 1 <= k < |s| && Parent(k) == i ==> !Before(s[k], s[j])
    ensures SinkingAt(Swapped(s, i, j), j)
  {
    var r := Swapped(s, i, j);
    forall k | 1 <= k < |r| && Parent(k) != j ensures ChildOk(r, k) {
      if k == i {
        assert GrandOk(s, j);
      } else if Parent(k) != i {
        assert ChildOk(s, k);
      }
    }
    forall k | 1 <= k < |r| && Parent(k) == j ensures GrandOk(r, k) {
      assert ChildOk(s, k);
    }
  }

  lemma Children(i: nat, k: nat)
    requires k > 0
    ensures Parent(k) == i <==> k == 2 * i + 1 || k == 2 * i + 2
  {
  }

  /** With no child of `i` before it, the heap order is whole. */
  lemma SinkDone(s: seq<Item>, i: nat)
    requires SinkingAt(s, i)
    requires 2 * i + 1 < |s| ==> ChildOk(s, 2 * i + 1)
    requires 2 * i + 2 < |s| ==> ChildOk(s, 2 * i + 2)
    ensures HeapOrdered(s)
  {
    forall k | 1 <= k < |s| ensures ChildOk(s, k) {
      Children(i, k);
    }
  }

  /** One turn of `down`: either `i` is in place or its lesser child moves up. */
  lemma SinkTurn(s: seq<Item>, i: nat, j: nat)
    requires SinkingAt(s, i) && (j == 2 * i + 1 || j == 2 * i + 2) && j < |s|
    requires j == 2 * i + 1 && j + 1 < |s| ==> !Before(s[j + 1], s[j])
    requires j == 2 * i + 2 ==> !Before(s[j - 1], s[j])
    ensures !Before(s[j], s[i]) ==> HeapOrdered(s)
    ensures Before(s[j], s[i]) ==> SinkingAt(Swapped(s, i, j), j)
  {
    Children(i, j);
    if Before(s[j], s[i]) {
      forall k | 1 <= k < |s| && Parent(k) == i ensures !Before(s[k], s[j]) {
        Children(i, k);
      }
      SinkStep(s, i, j);
    } else {
      SinkDone(s, i);
    }
  }

  /** No item is before the root. */
  lemma {:induction false} RootIsLeast(s: seq<Item>, k: nat)
    requires HeapOrdered(s) && k < |s|
    ensures !Before(s[k], s[0])
  {
    if k > 0 {
      RootIsLeast(s, Parent(k));
      assert ChildOk(s, k);
    }
  }

  /** The root of a heap is the head of the sorted sequence with the same items. */
  lemma RootIsHead(s: seq<Item>, q: seq<Item>)
    requires HeapOrdered(s) && Sorted(q) && multiset(s) == multiset(q) && s != []
    ensures q != [] && s[0] == q[0]
  {
    assert |q| == |multiset(q)| == |multiset(s)| == |s|;
    assert s[0] in multiset(s) && q[0] in multiset(q);
    assert s[0] in q && q[0] in s;
    var i :| 0 <= i < |q| && q[i] == s[0];
    var j :| 0 <= j < |s| && s[j] == q[0];
    assert i == 0 || Before(q[0], s[0]);
    RootIsLeast(s, j);
  }

  /** An array in heap order and the sorted sequence that it stands for. */
  ghost predicate StandsFor(s: seq<Item>, q: seq<Item>) {
    HeapOrdered(s) && Sorted(q) && multiset(s) == multiset(q)
  }

  /** Taking the root out of the array takes the head off the sequence. */
  lemma PopStands(was: seq<Item>, now: seq<Item>, q: seq<Item>)
    requires StandsFor(was, q) && was != []
    requires HeapOrdered(now) && multiset(now) == multiset(was) - multiset{was[0]}
    ensures q != [] && StandsFor(now, q[1..]) && q == [was[0]] + q[1..]
  {
    RootIsHead(was, q);
    SortedTail(q);
    assert q == [q[0]] + q[1..];
  }

  /** A new item behind the array can rise from there, and belongs into the sequence. */
  lemma PushStands(was: seq<Item>, q: seq<Item>, x: Item)
    requires StandsFor(was, q) && forall y :: y in q ==> y.seqNo != x.seqNo
    ensures RisingAt(was + [x], |was|)
    ensures Sorted(Insert(q, x)) && multiset(Insert(q, x)) == multiset(was + [x])
  {
    forall k | 1 <= k < |was + [x]| && k != |was| ensures ChildOk(was + [x], k) {
      assert ChildOk(was, k);
    }
    hide HeapOrdered;
    InsertMultiset(q, x);
    InsertSorted(q, x);
  }

  /** The queue: `sorted` is the sequence that the array in heap order stands for. */
  class Heap {
    var buf: array<Item>
    var len: nat
    ghost var sorted: seq<Item>

    ghost predicate Valid()
      reads this, buf
    {
      len <= buf.Length && StandsFor(buf[..len], sorted)
    }

    constructor ()
      ensures Valid() && sorted == [] && fresh(buf)
    {
      buf := new Item[0];
      len := 0;
      sorted := [];
    }

    /** `append`: write behind the last item, moving to a larger array when this one is full. */
    method Append(x: Item)
      requires len <= buf.Length
      modifies this`buf, this`len, buf
      ensures len == old(len) + 1 <= buf.Length && (buf == old(buf) || fresh(buf))
      ensures buf[..len] == old(buf[..len]) + [x]
    {
      if len == buf.Length {
        var grown := new Item[2 * len + 1];
        for i := 0 to len
          invariant buf == old(buf) && len == old(len) && buf[..] == old(buf[..])
          invariant grown[..i] == buf[..i]
        {
          grown[i] := buf[i];
        }
        buf := grown;
      }
      buf[len] := x;
      len := len + 1;
      assert buf[..len] == old(buf[..len]) + [x];
    }

    /** `heap.Push`: append, then sift up. */
    method Push(x: Item)
      requires Valid() && forall y :: y in sorted ==> y.seqNo != x.seqNo
      modifies this, buf
      ensures Valid() && (buf == old(buf) || fresh(buf))
      ensures sorted == Insert(old(sorted), x)
    {
      hide HeapOrdered, RisingAt, Sorted, Insert;
      PushStands(buf[..len], sorted, x);
      Append(x);
      Up(buf, len, len - 1);
      sorted := Insert(sorted, x);
    }

    /** `heap.Pop`: swap the root to the end, sift the new root down, cut the end off. */
    method Pop() returns (x: Item)
      requires Valid() && len > 0
      modifies this, buf
      ensures Valid() && buf == old(buf)
      ensures old(sorted) == [x] + sorted
    {
      hide HeapOrdered, Sorted;
      ghost var was := buf[..len];
      var n := len - 1;
      PopRoot(buf, n);
      PopStands(was, buf[..n], sorted);
      x := buf[n];
      len := n;
      sorted := sorted[1..];
    }

    /** `len(p.queue) > 0`. */
    method NonEmpty() returns (b: bool)
      requires Valid()
      ensures b <==> sorted != []
      ensures b ==> len > 0 && buf.Length > 0 && buf[0] == sorted[0]
    {
      b := len > 0;
      if b {
        RootIsHead(buf[..len], sorted);
      } else {
        assert |sorted| == |multiset(sorted)| == |multiset(buf[..len])| == 0;
      }
    }
  }

  /** The array work of `heap.Pop` on `n + 1` items: the root ends up at index `n`. */
  method PopRoot(a: array<Item>, n: nat)
    requires n < a.Length && HeapOrdered(a[..n + 1])
    modifies a
    ensures HeapOrdered(a[..n]) && a[n] == old(a[0])
    ensures multiset(a[..n]) == multiset(old(a[..n + 1])) - multiset{old(a[0])}
  {
    ghost var was := a[..n + 1];
    Swap(a, n + 1, 0, n);
    assert a[..n + 1] == a[..n] + [a[n]];
    CutRoot(was, a[..n], a[n]);
    hide HeapOrdered, SinkingAt, Swapped;
    Down(a, n);
  }

  /** The root swapped to the end and cut off leaves a heap that may have to sink at the root. */
  lemma CutRoot(was: seq<Item>, init: seq<Item>, last: Item)
    requires HeapOrdered(was) && was != [] && init + [last] == Swapped(was, 0, |was| - 1)
    ensures last == was[0] && SinkingAt(init, 0)
    ensures multiset(init) == multiset(was) - multiset{was[0]}
  {
    var n := |init|;
    assert (init + [last])[n] == last;
    forall k | 1 <= k < n && Parent(k) != 0 ensures ChildOk(init, k) {
      assert ChildOk(was, k);
      assert (init + [last])[k] == was[k] && (init + [last])[Parent(k)] == was[Parent(k)];
    }
    assert multiset(init + [last]) == multiset(init) + multiset{last};
  }

  method Swap(a: array<Item>, n: nat, i: nat, j: nat)
    requires i < n <= a.Length && j < n
    modifies a
    ensures a[..n] == Swapped(old(a[..n]), i, j)
    ensures n < a.Length ==> a[n] == old(a[n])
  {
    a[i], a[j] := a[j], a[i];
  }

  /** `up`: move item `start` towards the root until its parent is not after it. */
  method Up(a: array<Item>, n: nat, start: nat)
    requires start < n <= a.Length && RisingAt(a[..n], start)
    modifies a
    ensures HeapOrdered(a[..n]) && multiset(a[..n]) == multiset(old(a[..n]))
  {
    var j := start;
    while true
      invariant 0 <= j < n && RisingAt(a[..n], j)
      invariant multiset(a[..n]) == multiset(old(a[..n]))
      decreases j
    {
      // Go divides -1 by 2 to 0, so the root counts as its own parent
      var i := if j == 0 then 0 else (j - 1) / 2;
      if i == j || !Before(a[j], a[i]) { break; }
      ghost var was := a[..n];
      RiseStep(was, j);
      Swap(a, n, i, j);
      j := i;
    }
  }

  /** `down` from the root: move it away until neither child is before it. */
  method Down(a: array<Item>, n: nat)
    requires n < a.Length && SinkingAt(a[..n], 0)
    modifies a
    ensures HeapOrdered(a[..n]) && multiset(a[..n]) == multiset(old(a[..n]))
    ensures a[n] == old(a[n])
  {
    var i := 0;
    while true
      invariant 0 <= i <= n && SinkingAt(a[..n], i)
      invariant multiset(a[..n]) == multiset(old(a[..n]))
      invariant a[n] == old(a[n])
      decreases n - i
    {
      var left := 2 * i + 1;
      ghost var was := a[..n];
      if left >= n {
        SinkDone(was, i);
        break;
      }
      var j := left;
      if left + 1 < n && Before(a[left + 1], a[left]) { j := left + 1; }
      SinkTurn(was, i, j);
      if !Before(a[j], a[i]) { break; }
      Swap(a, n, i, j);
      i := j;
    }
  }
}

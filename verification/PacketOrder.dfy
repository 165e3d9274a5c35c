/** The order of the release queue, and the sorted sequence that the heap stands for. */
module PacketOrder {
  import opened Common

  /** A `scheduledPacket`. */
  datatype Item = Item(data: Bytes, releaseAt: Time, seqNo: nat)

  /** `packetHeap.Less`. */
  predicate Before(a: Item, b: Item) {
    if a.releaseAt == b.releaseAt then a.seqNo < b.seqNo else a.releaseAt < b.releaseAt
  }

  ghost predicate Sorted(q: seq<Item>) {
    forall i, j :: 0 <= i < j < |q| ==> Before(q[i], q[j])
  }

  function Insert(q: seq<Item>, x: Item): seq<Item> {
    if q == [] then [x]
    else if Before(x, q[0]) then [x] + q
    else [q[0]] + Insert(q[1..], x)
  }

  function InsertAll(q: seq<Item>, xs: seq<Item>): seq<Item> {
    if xs == [] then q else Insert(InsertAll(q, xs[..|xs| - 1]), xs[|xs| - 1])
  }

  function Sort(xs: seq<Item>): seq<Item> { InsertAll([], xs) }

  /** How many leading items a poll at `now` pops. */
  function ReadyCount(q: seq<Item>, now: Time): (k: nat)
    ensures k <= |q|
    ensures forall i :: 0 <= i < k ==> q[i].releaseAt <= now
    ensures k < |q| ==> q[k].releaseAt > now
  {
    if q == [] || q[0].releaseAt > now then 0 else 1 + ReadyCount(q[1..], now)
  }

  /** The items due by `now`, in the order in which they stand. */
  function Due(q: seq<Item>, now: Time): seq<Item> {
    if q == [] then []
    else (if q[0].releaseAt <= now then [q[0]] else []) + Due(q[1..], now)
  }

  lemma {:induction false} InsertMultiset(q: seq<Item>, x: Item)
    ensures multiset(Insert(q, x)) == multiset(q) + multiset{x}
  {
    if q != [] {
      assert q == [q[0]] + q[1..];
      InsertMultiset(q[1..], x);
    }
  }

  lemma InsertMember(q: seq<Item>, x: Item, y: Item)
    ensures y in Insert(q, x) <==> y == x || y in q
  {
    InsertMultiset(q, x);
    assert y in Insert(q, x) <==> y in multiset(Insert(q, x));
    assert y in q <==> y in multiset(q);
  }

  lemma SortedTail(q: seq<Item>)
    requires Sorted(q) && q != []
    ensures Sorted(q[1..]) && (forall y :: y in q[1..] ==> Before(q[0], y))
  {
    forall y | y in q[1..] ensures Before(q[0], y) {
      var k :| 0 <= k < |q[1..]| && q[1..][k] == y;
      assert q[k + 1] == y;
    }
  }

  lemma SortedCons(x: Item, q: seq<Item>)
    requires Sorted(q) && forall y :: y in q ==> Before(x, y)
    ensures Sorted([x] + q)
  {
    var r := [x] + q;
    forall i, j | 0 <= i < j < |r| ensures Before(r[i], r[j]) {
      assert r[j] == q[j - 1] && q[j - 1] in q;
    }
  }

  lemma {:induction false} InsertSorted(q: seq<Item>, x: Item)
    requires Sorted(q) && forall y :: y in q ==> y.seqNo != x.seqNo
    ensures Sorted(Insert(q, x))
  {
    if q == [] {
    } else {
      assert q[0] in q;
      SortedTail(q);
      if Before(x, q[0]) {
        assert q == [q[0]] + q[1..];
        SortedCons(x, q);
      } else {
        InsertSorted(q[1..], x);
        forall y | y in Insert(q[1..], x) ensures Before(q[0], y) {
          InsertMember(q[1..], x, y);
        }
        SortedCons(q[0], Insert(q[1..], x));
      }
    }
  }

  /** Inserting behind a prefix of earlier items leaves the prefix alone. */
  lemma {:induction false} InsertBehind(p: seq<Item>, q: seq<Item>, x: Item)
    requires forall y :: y in p ==> Before(y, x)
    ensures Insert(p + q, x) == p + Insert(q, x)
  {
    if p == [] {
      assert p + q == q;
    } else {
      assert p[0] in p;
      assert (p + q)[1..] == p[1..] + q;
      InsertBehind(p[1..], q, x);
    }
  }

  lemma {:induction false} InsertAllConcat(q: seq<Item>, xs: seq<Item>, ys: seq<Item>)
    ensures InsertAll(InsertAll(q, xs), ys) == InsertAll(q, xs + ys)
  {
    if ys == [] {
      assert xs + ys == xs;
    } else {
      assert (xs + ys)[..|xs + ys| - 1] == xs + ys[..|ys| - 1];
      InsertAllConcat(q, xs, ys[..|ys| - 1]);
    }
  }

  lemma {:induction false} InsertAllMultiset(q: seq<Item>, xs: seq<Item>)
    ensures multiset(InsertAll(q, xs)) == multiset(q) + multiset(xs)
  {
    if xs != [] {
      var init, last := xs[..|xs| - 1], xs[|xs| - 1];
      assert xs == init + [last];
      InsertAllMultiset(q, init);
      InsertMultiset(InsertAll(q, init), last);
    }
  }

  lemma {:induction false} InsertAllBehind(p: seq<Item>, q: seq<Item>, xs: seq<Item>)
    requires forall y, x :: y in p && x in xs ==> Before(y, x)
    ensures InsertAll(p + q, xs) == p + InsertAll(q, xs)
  {
    if xs != [] {
      var init, last := xs[..|xs| - 1], xs[|xs| - 1];
      assert last in xs;
      InsertAllBehind(p, q, init);
      InsertBehind(p, InsertAll(q, init), last);
    }
  }

  lemma SortedHeads(a: seq<Item>, b: seq<Item>)
    requires a != [] && b != [] && Sorted(a) && Sorted(b) && multiset(a) == multiset(b)
    ensures a[0] == b[0]
  {
    var x, y := a[0], b[0];
    assert x in multiset(a) && y in multiset(b);
    assert x in b && y in a;
    assert y == x || Before(y, x);
  }

  /** A sorted sequence is determined by its multiset, so `Sort` is the only sorted arrangement. */
  lemma {:induction false} SortedUnique(a: seq<Item>, b: seq<Item>)
    requires Sorted(a) && Sorted(b) && multiset(a) == multiset(b)
    ensures a == b
  {
    assert |a| == |multiset(a)| == |multiset(b)| == |b|;
    if a != [] {
      SortedHeads(a, b);
      assert a == [a[0]] + a[1..] && b == [b[0]] + b[1..];
      assert multiset(a[1..]) == multiset(a) - multiset{a[0]};
      assert multiset(b[1..]) == multiset(b) - multiset{b[0]};
      SortedUnique(a[1..], b[1..]);
    }
  }

  /** On a sorted queue the popped prefix is exactly the due part, and the rest is not due. */
  lemma {:induction false} ReadyIsDue(q: seq<Item>, now: Time)
    requires Sorted(q)
    ensures q[..ReadyCount(q, now)] == Due(q, now)
    ensures forall y :: y in q[ReadyCount(q, now)..] ==> y.releaseAt > now
  {
    var k := ReadyCount(q, now);
    if q == [] {
    } else {
      SortedTail(q);
      if q[0].releaseAt > now {
        NoneDue(q, now);
      } else {
        ReadyIsDue(q[1..], now);
        assert q[..k] == [q[0]] + q[1..][..k - 1];
        assert q[k..] == q[1..][k - 1..];
      }
    }
  }

  lemma {:induction false} NoneDue(q: seq<Item>, now: Time)
    requires forall y :: y in q ==> y.releaseAt > now
    ensures Due(q, now) == []
  {
    if q != [] {
      assert q[0] in q;
      NoneDue(q[1..], now);
    }
  }

  lemma {:induction false} AllDue(q: seq<Item>, now: Time)
    requires forall y :: y in q ==> y.releaseAt <= now
    ensures Due(q, now) == q
  {
    if q != [] {
      assert q[0] in q;
      AllDue(q[1..], now);
    }
  }

  lemma {:induction false} DueConcat(p: seq<Item>, q: seq<Item>, now: Time)
    ensures Due(p + q, now) == Due(p, now) + Due(q, now)
  {
    if p == [] {
      assert p + q == q;
    } else {
      assert (p + q)[0] == p[0] && (p + q)[1..] == p[1..] + q;
      DueConcat(p[1..], q, now);
      var head := if p[0].releaseAt <= now then [p[0]] else [];
      assert Due(p, now) == head + Due(p[1..], now) && Due(p + q, now) == head + Due(p[1..] + q, now);
      hide Due;
    }
  }
}

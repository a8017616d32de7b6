// Date order of the lists of siblings: what threading keeps of it, and the one case where a root list
// ends up out of order.
module ThreadOrder {
  import opened ThreadSpec
  import opened ThreadLists

  // ----- Insertion into a list

  /** Where an article goes: behind all that are dated no later, up to the first later one. */
  lemma InsertPlace(f: Forest, list: seq<MsgId>, c: MsgId) returns (i: nat)
    ensures i <= |list| && InsertByDate(f, list, c) == list[..i] + [c] + list[i..]
    ensures forall q | 0 <= q < i :: Date(f, list[q]) <= Date(f, c)
    ensures i < |list| ==> Date(f, c) < Date(f, list[i])
  {
    if list == [] || Date(f, c) < Date(f, list[0]) {
      i := 0;
      assert [c] + list == list[..0] + [c] + list[0..];
    } else {
      ScanStops(f, list, Date(f, c), 0);
      i := ScanPast(f, list, Date(f, c), 0) + 1;
    }
  }

  /** A list is in order just when it is so after an insertion. */
  lemma InsertOrder(f: Forest, list: seq<MsgId>, c: MsgId)
    ensures ByDate(f, InsertByDate(f, list, c)) <==> ByDate(f, list)
  {
    if ByDate(f, list) { InsertKeepsOrder(f, list, c); }
    var r := InsertByDate(f, list, c);
    var i := InsertPlace(f, list, c);
    if ByDate(f, r) {
      forall p, q | 0 <= p < q < |list| ensures Date(f, list[p]) <= Date(f, list[q]) {
        assert list[p] == r[if p < i then p else p + 1] && list[q] == r[if q < i then q else q + 1];
      }
    }
  }

  lemma {:induction false} InsertAllOrder(f: Forest, acc: seq<MsgId>, list: seq<MsgId>)
    ensures ByDate(f, InsertAll(f, acc, list)) <==> ByDate(f, acc)
    decreases |list|
  {
    if list != [] {
      InsertOrder(f, acc, list[0]);
      InsertAllOrder(f, InsertByDate(f, acc, list[0]), list[1..]);
    }
  }

  /** merge_threads: the roots of both threads in one list, which is in date order just when the list
      they were put into was. */
  lemma MergeSorts(f: Forest, s1: SubjName, s2: SubjName)
    requires ThreadOf(f, s1) != ThreadOf(f, s2)
    ensures var g, k1, k2 := MergeThreads(f, s1, s2), ThreadOf(f, s1), ThreadOf(f, s2);
      && multiset(Roots(g, k1)) == multiset(Roots(f, k1)) + multiset(Roots(f, k2)) && Roots(g, k2) == []
      && (ByDate(g, Roots(g, k1)) <==> ByDate(f, Roots(f, k1)))
      && (forall k | k != k1 && k != k2 :: Roots(g, k) == Roots(f, k))
  {
    var g, k1, k2 := MergeThreads(f, s1, s2), ThreadOf(f, s1), ThreadOf(f, s2);
    InsertAllCounts(f, Roots(f, k1), Roots(f, k2));
    InsertAllOrder(f, Roots(f, k1), Roots(f, k2));
    assert forall x :: Date(g, x) == Date(f, x);
  }

  // ----- Insertion around an article that is out of place

  lemma OrderSplit(f: Forest, a: seq<MsgId>, b: seq<MsgId>, x: MsgId)
    requires ByDate(f, a + b)
    requires forall y | y in a :: Date(f, y) <= Date(f, x)
    ensures ByDate(f, a + [x] + b) <==> forall y | y in b :: Date(f, x) <= Date(f, y)
  {
    var r := a + [x] + b;
    if ByDate(f, r) {
      forall y | y in b ensures Date(f, x) <= Date(f, y) {
        var j :| 0 <= j < |b| && b[j] == y;
        assert r[|a|] == x && r[|a| + 1 + j] == y;
      }
    }
    if forall y | y in b :: Date(f, x) <= Date(f, y) {
      forall p, q | 0 <= p < q < |r| ensures Date(f, r[p]) <= Date(f, r[q]) {
        if p < |a| && q < |a| {
          assert (a + b)[p] == r[p] && (a + b)[q] == r[q];
        } else if p < |a| < q {
          assert (a + b)[p] == r[p] && (a + b)[q - 1] == r[q];
        } else if p < |a| {
          assert r[p] in a;
        } else if p == |a| {
          assert r[q] == b[q - |a| - 1];
        } else {
          assert (a + b)[p - 1] == r[p] && (a + b)[q - 1] == r[q];
        }
      }
    }
  }

  /** An article dated between one behind `m` and `m` itself. */
  ghost predicate Between(f: Forest, x: MsgId, m: MsgId, behind: seq<MsgId>) {
    Date(f, x) < Date(f, m) && exists y | y in behind :: Date(f, y) < Date(f, x)
  }

  /** `x` came into `a + [m] + b`. */
  ghost predicate Came(f: Forest, a: seq<MsgId>, m: MsgId, b: seq<MsgId>, x: MsgId, a': seq<MsgId>, b': seq<MsgId>) {
    && (ByDate(f, a' + b') <==> !Between(f, x, m, b))
    && (forall y :: y in a' + b' <==> y in a + b || y == x)
    && (forall y | y in b' :: y in b || Date(f, y) >= Date(f, m))
    && (forall y | y in b :: y in b')
  }

  lemma CameBefore(f: Forest, a: seq<MsgId>, m: MsgId, b: seq<MsgId>, x: MsgId, i: nat)
    requires ByDate(f, a + b) && i <= |a|
    requires forall q | 0 <= q < i :: Date(f, a[q]) <= Date(f, x)
    requires if i < |a| then Date(f, x) < Date(f, a[i]) else Date(f, x) < Date(f, m)
    ensures Came(f, a, m, b, x, a[..i] + [x] + a[i..], b)
  {
    var a' := a[..i] + [x] + a[i..];
    assert a[..i] + (a[i..] + b) == a + b && a' + b == a[..i] + [x] + (a[i..] + b);
    OrderSplit(f, a[..i], a[i..] + b, x);
    BeforeSplit(f, a, b, i, x, m);
    SameMembers(a, b, a', b, x, i);
  }

  lemma CameBehind(f: Forest, a: seq<MsgId>, m: MsgId, b: seq<MsgId>, x: MsgId, j: nat)
    requires ByDate(f, a + b) && j <= |b| && Date(f, m) <= Date(f, x)
    requires forall y | y in a + b[..j] :: Date(f, y) <= Date(f, x)
    requires j < |b| ==> Date(f, x) < Date(f, b[j])
    ensures Came(f, a, m, b, x, a, b[..j] + [x] + b[j..])
  {
    var b' := b[..j] + [x] + b[j..];
    assert ByDate(f, a + b') by {
      assert (a + b[..j]) + b[j..] == a + b && a + b' == (a + b[..j]) + [x] + b[j..];
      OrderSplit(f, a + b[..j], b[j..], x);
      BehindSplit(f, a, b, j, x);
    }
    hide ByDate, Date;
    SameMembers(a, b, a, b', x, j);
    InsertedMembers(b, b', x, j);
  }

  lemma InsertedMembers(b: seq<MsgId>, b': seq<MsgId>, x: MsgId, j: nat)
    requires j <= |b| && b' == b[..j] + [x] + b[j..]
    ensures forall y :: y in b' <==> y in b || y == x
  {
    assert b == b[..j] + b[j..];
  }

  lemma SliceLow(a: seq<MsgId>, m: MsgId, b: seq<MsgId>, i: nat, x: MsgId)
    requires i <= |a|
    ensures var list := a + [m] + b; list[..i] + [x] + list[i..] == (a[..i] + [x] + a[i..]) + [m] + b
    ensures var list := a + [m] + b;
      (forall q | 0 <= q < i :: a[q] == list[q]) && list[i] == if i < |a| then a[i] else m
    ensures m !in a && x != m ==> m !in a[..i] + [x] + a[i..]
  {
  }

  lemma SliceHigh(a: seq<MsgId>, m: MsgId, b: seq<MsgId>, j: nat, x: MsgId)
    requires j <= |b|
    ensures var list, i := a + [m] + b, j + |a| + 1;
      && list[..i] + [x] + list[i..] == a + [m] + (b[..j] + [x] + b[j..]) && list[|a|] == m
      && (forall y | y in a + b[..j] :: y in list[..i]) && (i < |list| ==> list[i] == b[j])
    ensures m !in b && x != m ==> m !in b[..j] + [x] + b[j..]
  {
    var list, i := a + [m] + b, j + |a| + 1;
    assert list[..i] == a + [m] + b[..j] && list[i..] == b[j..];
  }

  /** Inserting into `a + [m] + b`, where `a + b` is in order. */
  lemma InsertAround(f: Forest, a: seq<MsgId>, m: MsgId, b: seq<MsgId>, x: MsgId)
      returns (a': seq<MsgId>, b': seq<MsgId>)
    requires ByDate(f, a + b)
    ensures InsertByDate(f, a + [m] + b, x) == a' + [m] + b' && Came(f, a, m, b, x, a', b')
    ensures m !in a && m !in b && x != m ==> m !in a' && m !in b'
  {
    hide Came, Between, ByDate, InsertByDate, Date;
    var list := a + [m] + b;
    var i := InsertPlace(f, list, x);
    if i <= |a| {
      a', b' := a[..i] + [x] + a[i..], b;
      SliceLow(a, m, b, i, x);
      CameBefore(f, a, m, b, x, i);
    } else {
      var j := i - |a| - 1;
      a', b' := a, b[..j] + [x] + b[j..];
      SliceHigh(a, m, b, j, x);
      CameBehind(f, a, m, b, x, j);
    }
  }

  lemma SameMembers(a: seq<MsgId>, b: seq<MsgId>, a': seq<MsgId>, b': seq<MsgId>, x: MsgId, j: nat)
    requires (j <= |a| && a' == a[..j] + [x] + a[j..] && b' == b)
      || (j <= |b| && a' == a && b' == b[..j] + [x] + b[j..])
    ensures forall y :: y in a' + b' <==> y in a + b || y == x
  {
    if j <= |a| && a' == a[..j] + [x] + a[j..] { assert a == a[..j] + a[j..]; } else { assert b == b[..j] + b[j..]; }
  }

  /** The article went in front of `m`. */
  lemma BeforeSplit(f: Forest, a: seq<MsgId>, b: seq<MsgId>, i: nat, x: MsgId, m: MsgId)
    requires ByDate(f, a + b) && i <= |a|
    requires if i < |a| then Date(f, x) < Date(f, a[i]) else Date(f, x) < Date(f, m)
    ensures (forall y | y in a[i..] + b :: Date(f, x) <= Date(f, y)) <==> !Between(f, x, m, b)
  {
    if i < |a| {
      forall y | y in a[i..] + b ensures Date(f, x) < Date(f, y) {
        var q :| 0 <= q < |a[i..] + b| && (a[i..] + b)[q] == y;
        assert (a + b)[i + q] == y && (a + b)[i] == a[i];
      }
    }
  }

  /** The article went behind `m`. */
  lemma BehindSplit(f: Forest, a: seq<MsgId>, b: seq<MsgId>, j: nat, x: MsgId)
    requires ByDate(f, a + b) && j <= |b|
    requires j < |b| ==> Date(f, x) < Date(f, b[j])
    ensures forall y | y in b[j..] :: Date(f, x) <= Date(f, y)
  {
    forall y | y in b[j..] ensures Date(f, x) <= Date(f, y) {
      var q :| 0 <= q < |b[j..]| && b[j..][q] == y;
      assert (a + b)[|a| + j + q] == y && (a + b)[|a| + j] == b[j];
    }
  }

  lemma DropMiddle(a: seq<MsgId>, m: MsgId, b: seq<MsgId>)
    requires m !in a
    ensures Drop(a + [m] + b, m) == a + b
  {
    var list := a + [m] + b;
    assert list[|a|] == m && list[..|a|] == a && list[|a| + 1..] == b;
    DropFirst(list, |a|);
  }

  lemma OrderWithout(f: Forest, p: seq<MsgId>, x: MsgId, q: seq<MsgId>)
    requires ByDate(f, p + [x] + q)
    ensures ByDate(f, p + q)
  {
    var r := p + [x] + q;
    forall i, j | 0 <= i < j < |p + q| ensures Date(f, (p + q)[i]) <= Date(f, (p + q)[j]) {
      assert (p + q)[i] == r[if i < |p| then i else i + 1] && (p + q)[j] == r[if j < |p| then j else j + 1];
    }
  }

  /** What an insertion puts around `m`. */
  lemma InsertSomewhere(f: Forest, a: seq<MsgId>, m: MsgId, b: seq<MsgId>, x: MsgId)
      returns (a': seq<MsgId>, b': seq<MsgId>)
    requires m !in a && m !in b && x != m
    ensures InsertByDate(f, a + [m] + b, x) == a' + [m] + b' && m !in a' && m !in b'
    ensures ByDate(f, a' + b') ==> ByDate(f, a + b)
  {
    hide ByDate, InsertByDate, Date;
    var i := InsertSplits(f, a + [m] + b, x);
    if i <= |a| {
      a', b' := a[..i] + [x] + a[i..], b;
      SliceLow(a, m, b, i, x);
      assert a[..i] + (a[i..] + b) == a + b && a' + b' == a[..i] + [x] + (a[i..] + b);
      if ByDate(f, a' + b') { OrderWithout(f, a[..i], x, a[i..] + b); }
    } else {
      var j := i - |a| - 1;
      a', b' := a, b[..j] + [x] + b[j..];
      SliceHigh(a, m, b, j, x);
      assert (a + b[..j]) + b[j..] == a + b && a' + b' == (a + b[..j]) + [x] + b[j..];
      if ByDate(f, a' + b') { OrderWithout(f, a + b[..j], x, b[j..]); }
    }
  }

  lemma {:induction false} StaysUnsorted(f: Forest, a: seq<MsgId>, m: MsgId, b: seq<MsgId>, list: seq<MsgId>)
    requires !ByDate(f, a + b) && m !in a && m !in b && m !in list
    ensures !ByDate(f, Drop(InsertAll(f, a + [m] + b, list), m))
    decreases |list|
  {
    hide ByDate;
    if list == [] {
      DropMiddle(a, m, b);
    } else {
      var a', b' := InsertSomewhere(f, a, m, b, list[0]);
      StaysUnsorted(f, a', m, b', list[1..]);
    }
  }

  lemma BetweenSame(f: Forest, a: seq<MsgId>, m: MsgId, b: seq<MsgId>, x: MsgId, a': seq<MsgId>, b': seq<MsgId>,
      z: MsgId)
    requires Came(f, a, m, b, x, a', b')
    ensures Between(f, z, m, b') <==> Between(f, z, m, b)
  {
  }

  /** Some article of `list` is dated between one behind `m` and `m` itself. */
  ghost predicate SomeBetween(f: Forest, list: seq<MsgId>, m: MsgId, behind: seq<MsgId>) {
    exists x | x in list :: Between(f, x, m, behind)
  }

  /** A whole list inserted around `m`, which may be out of place: without `m` the result is in order
      just when no article of the list is dated between one behind `m` and `m` itself. */
  lemma {:induction false} InsertAllAround(f: Forest, a: seq<MsgId>, m: MsgId, b: seq<MsgId>, list: seq<MsgId>)
    requires ByDate(f, a + b) && m !in a && m !in b && m !in list
    ensures ByDate(f, Drop(InsertAll(f, a + [m] + b, list), m)) <==> !SomeBetween(f, list, m, b)
    decreases |list|
  {
    hide ByDate, Between;
    if list == [] {
      DropMiddle(a, m, b);
    } else {
      var x, rest := list[0], list[1..];
      var a', b' := InsertAround(f, a, m, b, x);
      assert forall y :: y in list <==> y == x || y in rest;
      if Between(f, x, m, b) {
        StaysUnsorted(f, a', m, b', rest);
      } else {
        InsertAllAround(f, a', m, b', rest);
        forall z ensures Between(f, z, m, b') <==> Between(f, z, m, b) { BetweenSame(f, a, m, b, x, a', b', z); }
      }
    }
  }
}

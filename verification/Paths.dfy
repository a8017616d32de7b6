// Climbing parent links.  A set of links maps a child to its parent; an item
// that is not a key has no parent.
module Paths {
  import opened Options

  type Links<!K> = map<K, K>

  /** The climb from `x` runs off the top within `n` links. */
  ghost predicate Tops<K(!new)>(up: Links<K>, x: K, n: nat) {
    x !in up || (n > 0 && Tops(up, up[x], n - 1))
  }

  ghost predicate Grounded<K(!new)>(up: Links<K>, x: K) {
    exists n: nat :: Tops(up, x, n)
  }

  /** Every climb runs off the top, so no item is above itself. */
  ghost predicate Acyclic<K(!new)>(up: Links<K>) {
    forall x | x in up :: Grounded(up, x)
  }

  /** `t` is `x` or is met within `n` links above it. */
  ghost predicate Meets<K(!new)>(up: Links<K>, x: K, t: K, n: nat) {
    x == t || (n > 0 && x in up && Meets(up, up[x], t, n - 1))
  }

  ghost predicate AtOrAbove<K(!new)>(up: Links<K>, x: K, t: K) {
    exists n: nat :: Meets(up, x, t, n)
  }

  /** The number of links above `x`. */
  ghost function Height<K(!new)>(up: Links<K>, x: K): (n: nat)
    requires Grounded(up, x)
    ensures Tops(up, x, n)
    ensures forall i: nat :: Tops(up, x, i) ==> n <= i
  {
    var n: nat :| Tops(up, x, n);
    LeastTop(up, x, n)
  }

  ghost function LeastTop<K(!new)>(up: Links<K>, x: K, n: nat): (m: nat)
    requires Tops(up, x, n)
    ensures Tops(up, x, m)
    ensures forall i: nat :: Tops(up, x, i) ==> m <= i
  {
    if n > 0 && Tops(up, x, n - 1) then LeastTop(up, x, n - 1)
    else
      assert forall i: nat :: Tops(up, x, i) ==> n <= i by {
        forall i: nat | Tops(up, x, i) ensures n <= i {
          if i < n { TopsMore(up, x, i, n - 1); }
        }
      }
      n
  }

  lemma {:induction false} TopsMore<K(!new)>(up: Links<K>, x: K, n: nat, m: nat)
    requires Tops(up, x, n) && n <= m
    ensures Tops(up, x, m)
  {
    if x in up { TopsMore(up, up[x], n - 1, m - 1); }
  }

  lemma GroundedStep<K(!new)>(up: Links<K>, x: K)
    requires x in up
    ensures Grounded(up, x) <==> Grounded(up, up[x])
    ensures Grounded(up, x) ==> Height(up, up[x]) < Height(up, x)
  {
    if Grounded(up, x) {
      var n := Height(up, x);
      assert Tops(up, up[x], n - 1);
    }
    if Grounded(up, up[x]) {
      var n := Height(up, up[x]);
      assert Tops(up, x, n + 1);
    }
  }

  lemma AboveStep<K(!new)>(up: Links<K>, x: K, t: K)
    requires x in up && x != t
    ensures AtOrAbove(up, x, t) <==> AtOrAbove(up, up[x], t)
  {
    if AtOrAbove(up, x, t) {
      var n: nat :| Meets(up, x, t, n);
      assert Meets(up, up[x], t, n - 1);
    }
    if AtOrAbove(up, up[x], t) {
      var n: nat :| Meets(up, up[x], t, n);
      assert Meets(up, x, t, n + 1);
    }
  }

  lemma AboveEnds<K(!new)>(up: Links<K>, x: K, t: K)
    ensures AtOrAbove(up, x, x)
    ensures x !in up && AtOrAbove(up, x, t) ==> x == t
  {
    assert Meets(up, x, x, 0);
  }

  lemma {:induction false} AboveTrans<K(!new)>(up: Links<K>, x: K, y: K, z: K)
    requires AtOrAbove(up, x, y) && AtOrAbove(up, y, z)
    ensures AtOrAbove(up, x, z)
  {
    var n: nat :| Meets(up, x, y, n);
    AboveTransN(up, x, y, z, n);
  }

  lemma {:induction false} AboveTransN<K(!new)>(up: Links<K>, x: K, y: K, z: K, n: nat)
    requires Meets(up, x, y, n) && AtOrAbove(up, y, z)
    ensures AtOrAbove(up, x, z)
    decreases n
  {
    if x != y {
      AboveTransN(up, up[x], y, z, n - 1);
      if x == z { AboveEnds(up, x, x); } else { AboveStep(up, x, z); }
    }
  }

  /** In an acyclic set of links nothing is above itself. */
  lemma {:induction false} NotAboveItself<K(!new)>(up: Links<K>, x: K)
    requires Acyclic(up) && x in up
    ensures !AtOrAbove(up, up[x], x)
  {
    if AtOrAbove(up, up[x], x) {
      GroundedStep(up, x);
      var n: nat :| Meets(up, up[x], x, n);
      HeightAbove(up, up[x], x, n);
    }
  }

  lemma {:induction false} HeightAbove<K(!new)>(up: Links<K>, x: K, t: K, n: nat)
    requires Grounded(up, x) && Meets(up, x, t, n)
    ensures Grounded(up, t) && Height(up, t) <= Height(up, x)
  {
    if x != t {
      GroundedStep(up, x);
      HeightAbove(up, up[x], t, n - 1);
    }
  }

  /** Two items above the same one lie on one climb. */
  lemma {:induction false} OneClimb<K(!new)>(up: Links<K>, x: K, s: K, t: K, n: nat)
    requires Meets(up, x, s, n) && AtOrAbove(up, x, t)
    ensures AtOrAbove(up, s, t) || AtOrAbove(up, t, s)
  {
    if x == s {
    } else if x == t {
      assert AtOrAbove(up, t, s);
    } else {
      AboveStep(up, x, t);
      OneClimb(up, up[x], s, t, n - 1);
    }
  }

  // ----- Cutting and adding links

  lemma {:induction false} CutTops<K(!new)>(up: Links<K>, cut: set<K>, x: K, n: nat)
    requires Tops(up, x, n)
    ensures Tops(up - cut, x, n)
  {
    if x in up - cut { CutTops(up, cut, up[x], n - 1); }
  }

  lemma CutKeepsAcyclic<K(!new)>(up: Links<K>, cut: set<K>)
    requires Acyclic(up)
    ensures Acyclic(up - cut)
  {
    forall x | x in up - cut ensures Grounded(up - cut, x) {
      var n: nat :| Tops(up, x, n);
      CutTops(up, cut, x, n);
    }
  }

  lemma GroundedInAcyclic<K(!new)>(up: Links<K>, x: K)
    requires Acyclic(up)
    ensures Grounded(up, x)
  {
    if x !in up { assert Tops(up, x, 0); }
  }

  /** A climb that never meets `c` is not changed by what `c` links to. */
  lemma {:induction false} RelinkFar<K(!new)>(up: Links<K>, c: K, p: K, x: K, n: nat)
    requires Tops(up, x, n) && !AtOrAbove(up, x, c)
    ensures Tops(up[c := p], x, n)
  {
    AboveEnds(up, x, c);
    if x in up {
      AboveStep(up, x, c);
      RelinkFar(up, c, p, up[x], n - 1);
    }
  }

  lemma {:induction false} RelinkNear<K(!new)>(up: Links<K>, c: K, p: K, x: K, n: nat)
    requires c !in up && Tops(up, x, n) && Grounded(up[c := p], p)
    ensures Grounded(up[c := p], x)
  {
    var up' := up[c := p];
    if x == c {
      GroundedStep(up', c);
    } else if x in up {
      RelinkNear(up, c, p, up[x], n - 1);
      GroundedStep(up', x);
    } else {
      assert Tops(up', x, 0);
    }
  }

  /** Giving a top `c` a parent that does not lie below `c` makes no cycle. */
  lemma LinkKeepsAcyclic<K(!new)>(up: Links<K>, c: K, p: K)
    requires Acyclic(up) && c !in up && !AtOrAbove(up, p, c)
    ensures Acyclic(up[c := p])
  {
    var up' := up[c := p];
    assert Grounded(up, p) by { if p !in up { assert Tops(up, p, 0); } }
    RelinkFar(up, c, p, p, Height(up, p));
    assert Grounded(up', p);
    forall x | x in up' ensures Grounded(up', x) {
      assert Grounded(up, x) by { if x !in up { assert Tops(up, x, 0); } }
      RelinkNear(up, c, p, x, Height(up, x));
    }
  }

  /** What is met above `x` is met through one of the items that link to it. */
  lemma {:induction false} LastLink<K(!new)>(up: Links<K>, x: K, t: K, n: nat) returns (y: K)
    requires Meets(up, x, t, n) && x != t
    ensures AtOrAbove(up, x, y) && y in up && up[y] == t
  {
    if up[x] == t {
      y := x;
      AboveEnds(up, x, x);
    } else {
      y := LastLink(up, up[x], t, n - 1);
      if x == y { AboveEnds(up, x, x); } else { AboveStep(up, x, y); }
    }
  }

  /** A climb in a cut set of links is a climb in the whole set. */
  lemma {:induction false} CutAbove<K(!new)>(up: Links<K>, cut: set<K>, x: K, t: K, n: nat)
    requires Meets(up - cut, x, t, n)
    ensures Meets(up, x, t, n)
  {
    if x != t { CutAbove(up, cut, up[x], t, n - 1); }
  }

  /** A climb that does not meet `p` is there without the link of `p`. */
  lemma {:induction false} AvoidAbove<K(!new)>(up: Links<K>, m: K, p: K, x: K, t: K, n: nat)
    requires Meets(up - {m}, x, t, n) && !AtOrAbove(up - {m}, x, p)
    ensures Meets(up - {p}, x, t, n)
  {
    AboveEnds(up - {m}, x, p);
    if x != t {
      AboveStep(up - {m}, x, p);
      AvoidAbove(up, m, p, up[x], t, n - 1);
    }
  }

  /** When each later item of a chain is linked to by the one before it only, a climb from outside
      meets the chain through its first item. */
  lemma {:induction false} ChainEntry<K(!new)>(up: Links<K>, chain: seq<K>, x: K, i: nat)
    requires i < |chain| && AtOrAbove(up, x, chain[i])
    requires forall j, y | 1 <= j < |chain| && y in up && up[y] == chain[j] :: y == chain[j - 1]
    requires forall j | 1 <= j < |chain| :: x != chain[j]
    ensures AtOrAbove(up, x, chain[0])
    ensures i > 0 ==> chain[0] in up
  {
    if i > 0 {
      var n: nat :| Meets(up, x, chain[i], n);
      var y := LastLink(up, x, chain[i], n);
      assert y == chain[i - 1];
      ChainEntry(up, chain, x, i - 1);
    }
  }

  // ----- The climb that looks for the child of `m` lying above `x`

  /** The first item at or above `x` whose parent is `m`, if the climb from `x` meets one. */
  ghost function LinkTo<K(!new)>(up: Links<K>, x: K, m: K): (r: Option<K>)
    requires x != m && Grounded(up - {m}, x)
    ensures r.Some? ==> r.value in up && up[r.value] == m && AtOrAbove(up - {m}, x, r.value)
    ensures r.None? ==> !AtOrAbove(up, x, m)
    decreases Height(up - {m}, x)
  {
    AboveEnds(up, x, m);
    AboveEnds(up - {m}, x, x);
    if x !in up then None
    else if up[x] == m then Some(x)
    else
      GroundedStep(up - {m}, x);
      AboveStep(up, x, m);
      var r := LinkTo(up, up[x], m);
      assert r.Some? ==> AtOrAbove(up - {m}, x, r.value) by {
        if r.Some? && x != r.value { AboveStep(up - {m}, x, r.value); }
      }
      r
  }
}

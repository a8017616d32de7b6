/** The edit distance between two strings: the recurrence, and the least number of edits that turns one into the
    other. */
module EditDistance {
  import opened Options

  function Min(a: nat, b: nat): nat {
    if b < a then b else a
  }

  /** The strings have the same two characters before `r` and `c`, in the other order. */
  predicate Crossed(from: string, to: string, r: nat, c: nat) {
    2 <= r <= |to| && 2 <= c <= |from| && from[c - 1] == to[r - 2] && from[c - 2] == to[r - 1]
  }

  /** The recurrence on the first `r` characters of `to` and the first `c` of `from`; a swap may be used where it
      applies. */
  function Dist(from: string, to: string, r: nat, c: nat): nat
    requires r <= |to| && c <= |from|
    decreases r + c
  {
    if r == 0 then c
    else if c == 0 then r
    else
      var changed := Dist(from, to, r - 1, c - 1) + if from[c - 1] == to[r - 1] then 0 else 1;
      var best := Min(Min(changed, Dist(from, to, r - 1, c) + 1), Dist(from, to, r, c - 1) + 1);
      if Crossed(from, to, r, c) then Min(best, Dist(from, to, r - 2, c - 2) + 1) else best
  }

  function Distance(from: string, to: string): nat {
    Dist(from, to, |to|, |from|)
  }

  /** The recurrence, as the value it takes and the values it does not exceed. */
  lemma Unfold(from: string, to: string, r: nat, c: nat)
    requires 1 <= r <= |to| && 1 <= c <= |from|
    ensures var d, step := Dist(from, to, r, c), if from[c - 1] == to[r - 1] then 0 else 1;
      && d <= Dist(from, to, r - 1, c - 1) + step && d <= Dist(from, to, r - 1, c) + 1
        && d <= Dist(from, to, r, c - 1) + 1
      && (Crossed(from, to, r, c) ==> d <= Dist(from, to, r - 2, c - 2) + 1)
      && (|| d == Dist(from, to, r - 1, c - 1) + step || d == Dist(from, to, r - 1, c) + 1
        || d == Dist(from, to, r, c - 1) + 1
          || (Crossed(from, to, r, c) && d == Dist(from, to, r - 2, c - 2) + 1))
  {
  }

  lemma Edges(from: string, to: string, r: nat, c: nat)
    requires r <= |to| && c <= |from|
    ensures Dist(from, to, 0, c) == c && Dist(from, to, r, 0) == r
  {
  }

  // ----- edits

  /** Keep, change or delete a character of the string, insert one, or put two neighbours in the other order. */
  datatype Edit = Keep | Change(x: char) | Insert(x: char) | Delete | Swap

  /** What the edits make of a string, the last one at its end; none when they do not use it up. */
  function Edited(edits: seq<Edit>, from: string): Option<string> {
    var n := |from|;
    if edits == [] then if n == 0 then Some("") else None
    else
      var rest := edits[..|edits| - 1];
      match edits[|edits| - 1]
      case Keep => if n == 0 then None else Then(Edited(rest, from[..n - 1]), [from[n - 1]])
      case Change(x) => if n == 0 then None else Then(Edited(rest, from[..n - 1]), [x])
      case Insert(x) => Then(Edited(rest, from), [x])
      case Delete => if n == 0 then None else Edited(rest, from[..n - 1])
      case Swap => if n < 2 then None else Then(Edited(rest, from[..n - 2]), [from[n - 1], from[n - 2]])
  }

  function Then(s: Option<string>, t: string): Option<string> {
    if s.None? then None else Some(s.value + t)
  }

  /** The edits, the last one at the end, turn the first `c` characters of `from` into the first `r` of `to`. */
  predicate Turns(edits: seq<Edit>, from: string, to: string, r: nat, c: nat)
    requires r <= |to| && c <= |from|
    decreases |edits|
  {
    if edits == [] then r == 0 && c == 0
    else
      var rest := edits[..|edits| - 1];
      match edits[|edits| - 1]
      case Keep => r > 0 && c > 0 && from[c - 1] == to[r - 1] && Turns(rest, from, to, r - 1, c - 1)
      case Change(x) => r > 0 && c > 0 && x == to[r - 1] && Turns(rest, from, to, r - 1, c - 1)
      case Insert(x) => r > 0 && x == to[r - 1] && Turns(rest, from, to, r - 1, c)
      case Delete => c > 0 && Turns(rest, from, to, r, c - 1)
      case Swap => Crossed(from, to, r, c) && Turns(rest, from, to, r - 2, c - 2)
  }

  /** The first `r` characters of a string are `s` and `t`. */
  lemma EndsIn(s: Option<string>, t: string, to: string, r: nat)
    requires r <= |to|
    ensures Then(s, t) == Some(to[..r]) <==> |t| <= r && s == Some(to[..r - |t|]) && t == to[r - |t|..r]
  {
    if |t| <= r { assert to[..r] == to[..r - |t|] + to[r - |t|..r]; }
    if s.Some? && s.value + t == to[..r] {
      assert |s.value| == r - |t| && (s.value + t)[..r - |t|] == s.value && (s.value + t)[r - |t|..] == t;
    }
  }

  /** Edits turn one part into the other when that is what they make of it. */
  lemma {:induction false} TurnsIs(edits: seq<Edit>, from: string, to: string, r: nat, c: nat)
    requires r <= |to| && c <= |from|
    ensures Turns(edits, from, to, r, c) <==> Edited(edits, from[..c]) == Some(to[..r])
    decreases |edits|
  {
    hide Then;
    if edits == [] {
    } else {
      var rest := edits[..|edits| - 1];
      match edits[|edits| - 1]
      case Keep =>
        if c > 0 { EndsIn(Edited(rest, from[..c - 1]), [from[c - 1]], to, r); }
        if r > 0 && c > 0 { TurnsIs(rest, from, to, r - 1, c - 1); }
        assert c > 0 ==> from[..c][..c - 1] == from[..c - 1];
      case Change(x) =>
        if c > 0 { EndsIn(Edited(rest, from[..c - 1]), [x], to, r); }
        if r > 0 && c > 0 { TurnsIs(rest, from, to, r - 1, c - 1); }
        assert c > 0 ==> from[..c][..c - 1] == from[..c - 1];
      case Insert(x) =>
        EndsIn(Edited(rest, from[..c]), [x], to, r);
        if r > 0 { TurnsIs(rest, from, to, r - 1, c); }
      case Delete =>
        if c > 0 { TurnsIs(rest, from, to, r, c - 1); }
        assert c > 0 ==> from[..c][..c - 1] == from[..c - 1];
      case Swap =>
        if c > 1 { EndsIn(Edited(rest, from[..c - 2]), [from[c - 1], from[c - 2]], to, r); }
        if r > 1 && c > 1 { TurnsIs(rest, from, to, r - 2, c - 2); }
        assert c > 1 ==> from[..c][..c - 2] == from[..c - 2];
    }
  }

  function Cost(edits: seq<Edit>): nat {
    if edits == [] then 0 else Cost(edits[..|edits| - 1]) + if edits[|edits| - 1].Keep? then 0 else 1
  }

  /** Along the edges the recurrence counts. */
  lemma NotPastEdge(from: string, to: string, r: nat, c: nat)
    requires r <= |to| && c <= |from|
    ensures r > 0 && c == 0 ==> Dist(from, to, r, c) == Dist(from, to, r - 1, c) + 1
    ensures c > 0 && r == 0 ==> Dist(from, to, r, c) == Dist(from, to, r, c - 1) + 1
  {
  }

  /** No edits are cheaper than the recurrence says. */
  lemma {:induction false} NoneCheaper(edits: seq<Edit>, from: string, to: string, r: nat, c: nat)
    requires r <= |to| && c <= |from| && Turns(edits, from, to, r, c)
    ensures Dist(from, to, r, c) <= Cost(edits)
    decreases |edits|
  {
    hide Dist;
    Edges(from, to, r, c);
    if edits != [] {
      if r > 0 && c > 0 { Unfold(from, to, r, c); }
      NotPastEdge(from, to, r, c);
      var rest := edits[..|edits| - 1];
      match edits[|edits| - 1]
      case Keep => NoneCheaper(rest, from, to, r - 1, c - 1);
      case Change(x) => NoneCheaper(rest, from, to, r - 1, c - 1);
      case Insert(x) => NoneCheaper(rest, from, to, r - 1, c);
      case Delete => NoneCheaper(rest, from, to, r, c - 1);
      case Swap => NoneCheaper(rest, from, to, r - 2, c - 2);
    }
  }

  lemma OneMore(edits: seq<Edit>, e: Edit, from: string, to: string, r: nat, c: nat, r0: nat, c0: nat)
    requires r <= |to| && c <= |from| && r0 <= r && c0 <= c && Turns(edits, from, to, r0, c0)
    requires match e
      case Keep => r0 + 1 == r && c0 + 1 == c && from[c - 1] == to[r - 1]
      case Change(x) => r0 + 1 == r && c0 + 1 == c && x == to[r - 1]
      case Insert(x) => r0 + 1 == r && c0 == c && x == to[r - 1]
      case Delete => r0 == r && c0 + 1 == c
      case Swap => Crossed(from, to, r, c) && r0 + 2 == r && c0 + 2 == c
    ensures Turns(edits + [e], from, to, r, c) && Cost(edits + [e]) == Cost(edits) + if e == Keep then 0 else 1
  {
    assert (edits + [e])[..|edits|] == edits;
  }

  /** The edit that leads to the value of the recurrence, and where it starts from. */
  lemma LastEdit(from: string, to: string, r: nat, c: nat) returns (e: Edit, r0: nat, c0: nat)
    requires r <= |to| && c <= |from| && 0 < r + c
    ensures r0 <= r && c0 <= c && r0 + c0 < r + c
    ensures match e
      case Keep => r0 + 1 == r && c0 + 1 == c && from[c - 1] == to[r - 1]
      case Change(x) => r0 + 1 == r && c0 + 1 == c && x == to[r - 1]
      case Insert(x) => r0 + 1 == r && c0 == c && x == to[r - 1]
      case Delete => r0 == r && c0 + 1 == c
      case Swap => Crossed(from, to, r, c) && r0 + 2 == r && c0 + 2 == c
    ensures Dist(from, to, r, c) == Dist(from, to, r0, c0) + if e == Keep then 0 else 1
  {
    hide Dist;
    NotPastEdge(from, to, r, c);
    if r == 0 { return Delete, 0, c - 1; }
    if c == 0 { return Insert(to[r - 1]), r - 1, 0; }
    Unfold(from, to, r, c);
    var d := Dist(from, to, r, c);
    if Crossed(from, to, r, c) && d == Dist(from, to, r - 2, c - 2) + 1 {
      e, r0, c0 := Swap, r - 2, c - 2;
    } else if d == Dist(from, to, r, c - 1) + 1 {
      e, r0, c0 := Delete, r, c - 1;
    } else if d == Dist(from, to, r - 1, c) + 1 {
      e, r0, c0 := Insert(to[r - 1]), r - 1, c;
    } else {
      e, r0, c0 := if from[c - 1] == to[r - 1] then Keep else Change(to[r - 1]), r - 1, c - 1;
    }
  }

  /** Some edits cost just what the recurrence says. */
  lemma {:induction false} SomeCostsThat(from: string, to: string, r: nat, c: nat) returns (edits: seq<Edit>)
    requires r <= |to| && c <= |from|
    ensures Turns(edits, from, to, r, c) && Cost(edits) == Dist(from, to, r, c)
    decreases r + c
  {
    hide Dist;
    if r + c == 0 {
      Edges(from, to, 0, 0);
      return [];
    }
    hide Turns, Cost;
    var e, r0, c0 := LastEdit(from, to, r, c);
    var rest := SomeCostsThat(from, to, r0, c0);
    OneMore(rest, e, from, to, r, c, r0, c0);
    edits := rest + [e];
  }

  /** The distance is the least cost of edits that make one string of the other. */
  lemma DistanceIsLeast(from: string, to: string)
    ensures exists edits :: Edited(edits, from) == Some(to) && Cost(edits) == Distance(from, to)
    ensures forall edits :: Edited(edits, from) == Some(to) ==> Distance(from, to) <= Cost(edits)
  {
    hide Turns, Edited, Cost, Dist;
    assert from[..|from|] == from && to[..|to|] == to;
    var edits := SomeCostsThat(from, to, |to|, |from|);
    TurnsIs(edits, from, to, |to|, |from|);
    forall es | Edited(es, from) == Some(to) ensures Distance(from, to) <= Cost(es) {
      TurnsIs(es, from, to, |to|, |from|);
      NoneCheaper(es, from, to, |to|, |from|);
    }
  }

  /** The distance is at least the difference in length. */
  lemma {:induction false} LengthGap(from: string, to: string, r: nat, c: nat)
    requires r <= |to| && c <= |from|
    ensures r - c <= Dist(from, to, r, c) && c - r <= Dist(from, to, r, c)
    decreases r + c
  {
    hide Dist;
    if r > 0 && c > 0 {
      LengthGap(from, to, r - 1, c - 1);
      LengthGap(from, to, r - 1, c);
      LengthGap(from, to, r, c - 1);
      if Crossed(from, to, r, c) { LengthGap(from, to, r - 2, c - 2); }
      Unfold(from, to, r, c);
    } else {
      Edges(from, to, r, c);
    }
  }

  // ----- when a whole row is above a bound

  /** Every value of row `r` is at least `bound`. */
  predicate RowFrom(from: string, to: string, r: nat, bound: nat)
    requires r <= |to|
  {
    forall c :: 0 <= c <= |from| ==> bound <= Dist(from, to, r, c)
  }

  /** No value of a row is more than one above that in the row before, and the first is at most the number of the
      row. */
  lemma RowStep(from: string, to: string, r: nat, c: nat)
    requires 1 <= r <= |to| && c <= |from|
    ensures Dist(from, to, r, c) <= Dist(from, to, r - 1, c) + 1
    ensures 1 <= |from| ==> Dist(from, to, r, 1) <= r == Dist(from, to, r, 0)
  {
    hide Dist;
    Edges(from, to, r, c);
    Edges(from, to, r - 1, 0);
    if c > 0 { Unfold(from, to, r, c); }
    if 1 <= |from| { Unfold(from, to, r, 1); }
  }

  /** A row above the bound from its first column on is above it in column zero too, and the row before is not below
      it. */
  lemma RowBefore(from: string, to: string, r: nat, bound: nat)
    requires 1 <= r <= |to| && from != ""
    requires forall c :: 1 <= c <= |from| ==> bound < Dist(from, to, r, c)
    ensures RowFrom(from, to, r, bound + 1) && RowFrom(from, to, r - 1, bound)
  {
    hide Dist;
    assert bound < Dist(from, to, r, 1);
    RowStep(from, to, r, 0);
    var q := r - 1;
    forall c | 0 <= c <= |from| ensures bound <= Dist(from, to, q, c) {
      RowStep(from, to, r, c);
      if c > 0 { assert bound < Dist(from, to, r, c); }
    }
  }

  /** From then on every later row stays above the bound: a swap reaches two rows back but costs one. */
  lemma {:induction false} RowsAfter(from: string, to: string, r: nat, s: nat, bound: nat)
    requires 1 <= r <= s <= |to| && RowFrom(from, to, r, bound + 1) && RowFrom(from, to, r - 1, bound)
    ensures RowFrom(from, to, s, bound + 1) && RowFrom(from, to, s - 1, bound)
  {
    hide Dist;
    if r < s {
      RowsAfter(from, to, r, s - 1, bound);
      forall c | 0 <= c <= |from| ensures bound < Dist(from, to, s, c) { NextRow(from, to, s, c, bound); }
    }
  }

  lemma {:induction false} NextRow(from: string, to: string, s: nat, c: nat, bound: nat)
    requires 2 <= s <= |to| && c <= |from| && RowFrom(from, to, s - 1, bound + 1) && RowFrom(from, to, s - 2, bound)
    ensures bound < Dist(from, to, s, c)
  {
    hide Dist;
    if c == 0 {
      Edges(from, to, s, 0);
      Edges(from, to, s - 1, 0);
      assert bound + 1 <= Dist(from, to, s - 1, 0);
    } else {
      NextRow(from, to, s, c - 1, bound);
      Unfold(from, to, s, c);
    }
  }
}

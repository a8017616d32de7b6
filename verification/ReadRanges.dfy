/** The list of read articles on a newsrc line, as items with the numerals they are written in, and as a set. */
module ReadRanges {
  import opened Decimals

  datatype Word = Word(text: string)

  type Num = w: Word | Numeral(w.text) witness Word("0")

  const ONE: Num := Word("1")

  datatype Item = One(num: Num) | Span(first: Num, last: Num) {

    function Start(): Num {
      if One? then num else first
    }

    function End(): Num {
      if One? then num else last
    }

    function Lo(): nat {
      Value(Start().text)
    }

    function Hi(): nat {
      Value(End().text)
    }

    function Show(): (s: string)
      ensures s != "" && IsDigit(s[0])
    {
      if One? then num.text else first.text + "-" + last.text
    }
  }

  // ----- the set a list stands for

  function Range(lo: nat, hi: nat): (r: set<nat>)
    ensures forall n: nat :: n in r <==> lo <= n <= hi
  {
    if hi < lo then {} else if hi == 0 then {0} else Range(lo, hi - 1) + {hi}
  }

  function Below(a: nat): (r: set<nat>)
    ensures forall n: nat :: n in r <==> 1 <= n < a
  {
    if a == 0 then {} else Range(1, a - 1)
  }

  function Denote(items: seq<Item>): set<nat> {
    if items == [] then {} else Range(items[0].Lo(), items[0].Hi()) + Denote(items[1..])
  }

  lemma {:induction false} DenoteJoined(a: seq<Item>, b: seq<Item>)
    ensures Denote(a + b) == Denote(a) + Denote(b)
  {
    hide Range;
    if a == [] {
      assert a + b == b;
    } else {
      DenoteJoined(a[1..], b);
      assert (a + b)[1..] == a[1..] + b;
    }
  }

  lemma {:induction false} InDenote(items: seq<Item>, n: nat)
    ensures n in Denote(items) <==> exists i :: 0 <= i < |items| && items[i].Lo() <= n <= items[i].Hi()
  {
    if items != [] {
      InDenote(items[1..], n);
      var rest := items[1..];
      if i :| 0 <= i < |items| && items[i].Lo() <= n <= items[i].Hi() {
        if i > 0 { assert rest[i - 1] == items[i]; }
      }
      if j :| 0 <= j < |rest| && rest[j].Lo() <= n <= rest[j].Hi() {
        assert items[j + 1] == rest[j];
      }
    }
  }

  // ----- well-formed lists

  /** A run that holds nothing, as in the 1-0 that is printed when article 1 is unread. */
  predicate Empty(it: Item) {
    it.Lo() == 1 && it.Hi() == 0
  }

  predicate Before(a: Item, b: Item, gap: nat) {
    a.Hi() == 0 || a.Hi() + gap <= b.Lo()
  }

  /**
   * Items in order, each starting at 1 or later and running upwards; the first may be an empty run. With a gap of 1 the
   * items do not overlap, with a gap of 2 no two could be written as one.
   */
  predicate Lined(items: seq<Item>, gap: nat) {
    && (forall i :: 0 <= i < |items| ==>
      1 <= items[i].Lo() && (items[i].Lo() <= items[i].Hi() || (i == 0 && Empty(items[0]))))
    && (forall i, j :: 0 <= i < j < |items| ==> Before(items[i], items[j], gap))
  }

  /** The list is nothing but an empty run. */
  predicate Hollow(items: seq<Item>) {
    |items| == 1 && Empty(items[0])
  }

  // ----- one item in place of several

  /** The list with the items from `p` to `q` replaced by one. */
  function Splice(items: seq<Item>, p: nat, q: nat, it: Item): seq<Item>
    requires p <= q <= |items|
  {
    items[..p] + [it] + items[q..]
  }

  lemma SpliceDenotes(items: seq<Item>, p: nat, q: nat, it: Item)
    requires p <= q <= |items|
    ensures Denote(Splice(items, p, q, it)) == Denote(items[..p]) + Range(it.Lo(), it.Hi()) + Denote(items[q..])
    ensures Denote(items) == Denote(items[..p]) + Denote(items[p..q]) + Denote(items[q..])
  {
    hide Denote;
    DenoteJoined(items[..p] + [it], items[q..]);
    DenoteJoined(items[..p], [it]);
    DenoteOne(it);
    DenoteJoined(items[..p] + items[p..q], items[q..]);
    DenoteJoined(items[..p], items[p..q]);
    assert items == items[..p] + items[p..q] + items[q..];
  }

  lemma SpliceLined(items: seq<Item>, p: nat, q: nat, it: Item, gap: nat)
    requires p <= q <= |items| && Lined(items, gap) && 1 <= it.Lo() <= it.Hi()
    requires forall i :: 0 <= i < p ==> Before(items[i], it, gap)
    requires forall i :: q <= i < |items| ==> Before(it, items[i], gap) && items[i].Lo() <= items[i].Hi()
    ensures Lined(Splice(items, p, q, it), gap)
  {
    hide Before;
    var r := Splice(items, p, q, it);
    forall i | 0 <= i < |r| ensures 1 <= r[i].Lo() && (r[i].Lo() <= r[i].Hi() || (i == 0 && Empty(r[0]))) {
      if p < i { assert r[i] == items[i - p - 1 + q]; }
    }
    forall i, j | 0 <= i < j < |r| ensures Before(r[i], r[j], gap) {
      if p < i { assert r[i] == items[i - p - 1 + q]; }
      if p < j { assert r[j] == items[j - p - 1 + q]; }
    }
  }

  // ----- adding one number

  /** How many leading items start at or below `n`. */
  function Passed(items: seq<Item>, n: nat): (k: nat)
    ensures k <= |items| && (k < |items| ==> n < items[k].Lo())
    ensures forall i :: 0 <= i < k ==> items[i].Lo() <= n
  {
    if items == [] || n < items[0].Lo() then 0 else 1 + Passed(items[1..], n)
  }

  lemma {:induction false} PassedFrom(items: seq<Item>, n: nat, k: nat)
    requires k <= |items| && forall i :: 0 <= i < k ==> items[i].Lo() <= n
    ensures Passed(items, n) == k + Passed(items[k..], n)
  {
    if k == 0 {
      assert items[0..] == items;
    } else {
      PassedFrom(items[1..], n, k - 1);
      assert items[1..][k - 1..] == items[k..];
    }
  }

  /** Whether `n` joins the item before it, as the next number: not when that is a single number and the comma after
      it is followed by blanks, which is what `loose` says. */
  predicate Extends(items: seq<Item>, k: nat, n: nat, loose: bool) {
    && 0 < k <= |items| && 0 < items[k - 1].Hi() && items[k - 1].Hi() + 1 == n
    && !(loose && k < |items| && items[k - 1].One?)
  }

  /** Whether `n` joins the item after it. */
  predicate Meets(items: seq<Item>, k: nat, n: nat) {
    k < |items| && items[k].Lo() == n + 1
  }

  /** The item that `n` ends up in. */
  function Joined(items: seq<Item>, k: nat, n: nat, loose: bool): Item {
    if Extends(items, k, n, loose) then Span(items[k - 1].Start(), if Meets(items, k, n) then items[k].End()
      else Word(Dec(n)))
    else if Meets(items, k, n) then Span(Word(Dec(n)), items[k].End())
    else One(Word(Dec(n)))
  }

  /** The list after adding a number that is not in it; `loose` says that blanks stand before the item after it. */
  function Insert(items: seq<Item>, n: nat, loose: bool): seq<Item> {
    var k := Passed(items, n);
    if 0 < k == |items| && items[k - 1].Hi() == 0 && items[k - 1].Span? then
      DigitsJoined(items[k - 1].last.text, Dec(n));
      items[..k - 1] + [Span(items[k - 1].first, Word(items[k - 1].last.text + Dec(n)))]
    else
      Splice(items, if Extends(items, k, n, loose) then k - 1 else k, if Meets(items, k, n) then k + 1
        else k, Joined(items, k, n, loose))
  }

  lemma DigitsJoined(a: string, b: string)
    requires Numeral(a) && Numeral(b)
    ensures Numeral(a + b)
  {
  }

  lemma DenoteOne(it: Item)
    ensures Denote([it]) == Range(it.Lo(), it.Hi())
  {
    assert [it][1..] == [];
  }

  /** Every item before the first one above `n` ends below `n`, and every other starts above. */
  lemma Surrounded(items: seq<Item>, gap: nat, n: nat)
    requires 1 <= gap && Lined(items, gap) && n !in Denote(items)
    ensures forall i :: 0 <= i < Passed(items, n) ==> items[i].Hi() < n
    ensures forall i :: Passed(items, n) <= i < |items| ==> n < items[i].Lo()
  {
    var k := Passed(items, n);
    InDenote(items, n);
    forall i | k <= i < |items| ensures n < items[i].Lo() {
      if k < i { assert Before(items[k], items[i], gap); }
    }
  }

  /**
   * Adding a number adds just that number, and the list stays in order with the gaps it had; unless the list is nothing
   * but an empty run and the number is not 1.
   */
  lemma InsertDenotes(items: seq<Item>, gap: nat, n: nat, loose: bool)
    requires 1 <= gap <= 2 && (loose && 0 < Passed(items, n) ==> gap == 1) && Lined(items, gap) && 1 <= n
      && n !in Denote(items)
    ensures Denote(Insert(items, n, loose)) == Denote(items) + {n} <==> !Hollow(items) || n == 1
    ensures Lined(Insert(items, n, loose), gap) && !Hollow(Insert(items, n, loose))
  {
    if Hollow(items) {
      HollowInsert(items, n, loose);
    } else {
      Surrounded(items, gap, n);
      InsertAdds(items, gap, n, loose);
      InsertLined(items, gap, n, loose);
    }
  }

  lemma {:induction false} ValueZero(s: string, t: string)
    requires Digits(s) && Value(s) == 0 && Digits(t)
    ensures Digits(s + t) && Value(s + t) == Value(t)
    decreases |t|
  {
    if t == "" {
      assert s + t == s;
    } else {
      ValueZero(s, t[..|t| - 1]);
      assert (s + t)[..|s + t| - 1] == s + t[..|t| - 1];
    }
  }

  /** The empty run 1-0 followed by the number's digits is the run from 1 to the number. */
  lemma HollowInsert(items: seq<Item>, n: nat, loose: bool)
    requires Hollow(items) && 1 <= n
    ensures Denote(items) == {} && Denote(Insert(items, n, loose)) == Range(1, n)
    ensures Lined(Insert(items, n, loose), 2) && !Hollow(Insert(items, n, loose))
    ensures Range(1, n) == {n} <==> n == 1
  {
    assert items == [items[0]];
    DenoteOne(items[0]);
    assert Passed(items, n) == 1;
    var last := items[0].last.text;
    ValueZero(last, Dec(n));
    DigitsJoined(last, Dec(n));
    assert Insert(items, n, loose) == [Span(items[0].first, Word(last + Dec(n)))];
    DenoteOne(Span(items[0].first, Word(last + Dec(n))));
    assert 1 in Range(1, n);
  }

  lemma InsertAdds(items: seq<Item>, gap: nat, n: nat, loose: bool)
    requires 1 <= gap <= 2 && (loose && 0 < Passed(items, n) ==> gap == 1) && Lined(items, gap) && 1 <= n
      && !Hollow(items)
    requires forall i :: 0 <= i < Passed(items, n) ==> items[i].Hi() < n
    ensures Denote(Insert(items, n, loose)) == Denote(items) + {n}
  {
    hide Denote, Value, Dec, Range, Lined;
    var k := Passed(items, n);
    var p := if Extends(items, k, n, loose) then k - 1 else k;
    var q := if Meets(items, k, n) then k + 1 else k;
    var it := Joined(items, k, n, loose);
    HollowOnly(items, gap, k);
    assert Insert(items, n, loose) == Splice(items, p, q, it);
    SpliceDenotes(items, p, q, it);
    JoinedRange(items, gap, k, n, loose);
    OneMoreIn(Denote(items[..p]), Denote(items[p..q]), Denote(items[q..]), n);
  }

  lemma OneMoreIn(a: set<nat>, b: set<nat>, c: set<nat>, n: nat)
    ensures a + (b + {n}) + c == (a + b + c) + {n}
  {
  }

  /** The item that the number ends up in holds it, and the numbers of the items that it joins. */
  lemma JoinedRange(items: seq<Item>, gap: nat, k: nat, n: nat, loose: bool)
    requires 1 <= gap && Lined(items, gap) && k <= |items|
    requires forall i :: 0 <= i < k ==> items[i].Lo() <= n
    ensures var p, q := if Extends(items, k, n, loose) then k - 1 else k, if Meets(items, k, n) then k + 1 else k;
      Range(Joined(items, k, n, loose).Lo(), Joined(items, k, n, loose).Hi()) == Denote(items[p..q]) + {n}
  {
    hide Denote, Item.Lo, Item.Hi, Joined, Range;
    var p := if Extends(items, k, n, loose) then k - 1 else k;
    Between(items, p, k, if Meets(items, k, n) then k + 1 else k);
    JoinedEnds(items, k, n, loose);
    RangesMeet(if p < k then items[p].Lo() else n, n, if Meets(items, k, n) then items[k].Hi() else n);
  }

  lemma RangesMeet(lo: nat, n: nat, hi: nat)
    requires lo <= n <= hi
    ensures Range(lo, hi) == (if lo < n then Range(lo, n - 1) else {}) + (if n < hi then Range(n + 1, hi) else {}) + {n}
  {
  }

  /** What at most two neighbouring items stand for. */
  lemma Between(items: seq<Item>, p: nat, k: nat, q: nat)
    requires p <= k <= q <= |items| && k <= p + 1 && q <= k + 1
    ensures Denote(items[p..q]) == (if p < k then Range(items[p].Lo(), items[p].Hi()) else {}) +
      (if k < q then Range(items[k].Lo(), items[k].Hi()) else {})
  {
    hide Range;
    if p < k {
      assert items[p..q][1..] == items[k..q];
    } else {
      assert items[p..q] == items[k..q];
    }
    if k < q { assert items[k..q] == [items[k]]; DenoteOne(items[k]); }
  }

  lemma JoinedEnds(items: seq<Item>, k: nat, n: nat, loose: bool)
    ensures Joined(items, k, n, loose).Lo() == if Extends(items, k, n, loose) then items[k - 1].Lo() else n
    ensures Joined(items, k, n, loose).Hi() == if Meets(items, k, n) then items[k].Hi() else n
  {
    hide Value, Dec;
  }

  lemma InsertLined(items: seq<Item>, gap: nat, n: nat, loose: bool)
    requires 1 <= gap <= 2 && (loose && 0 < Passed(items, n) ==> gap == 1) && Lined(items, gap) && 1 <= n
      && !Hollow(items)
    requires forall i :: 0 <= i < Passed(items, n) ==> items[i].Hi() < n
    requires forall i :: Passed(items, n) <= i < |items| ==> n < items[i].Lo()
    ensures Lined(Insert(items, n, loose), gap) && !Hollow(Insert(items, n, loose))
  {
    hide Item.Lo, Item.Hi, Joined, Lined, Before, Hollow;
    var k := Passed(items, n);
    var p := if Extends(items, k, n, loose) then k - 1 else k;
    var q := if Meets(items, k, n) then k + 1 else k;
    var it := Joined(items, k, n, loose);
    JoinedAround(items, gap, k, n, loose);
    SpliceLined(items, p, q, it, gap);
    SplicedIn(items, p, q, it);
    HollowOnly(items, gap, k);
    NotHollow(Insert(items, n, loose), p);
  }

  lemma SplicedIn(items: seq<Item>, p: nat, q: nat, it: Item)
    requires p <= q <= |items|
    ensures |Splice(items, p, q, it)| > p && Splice(items, p, q, it)[p] == it
  {
  }

  lemma NotHollow(items: seq<Item>, p: nat)
    requires p < |items| && items[p].Lo() <= items[p].Hi()
    ensures !Hollow(items)
  {
    hide Item.Lo, Item.Hi;
  }

  lemma HollowOnly(items: seq<Item>, gap: nat, k: nat)
    requires Lined(items, gap) && !Hollow(items)
    ensures !(0 < k == |items| && items[k - 1].Hi() == 0 && items[k - 1].Span?)
  {
    hide Item.Lo, Item.Hi;
  }

  /** The item that holds the number lies between those before and after it. */
  lemma JoinedAround(items: seq<Item>, gap: nat, k: nat, n: nat, loose: bool)
    requires 1 <= gap <= 2 && (loose && 0 < k ==> gap == 1) && Lined(items, gap) && 1 <= n && k <= |items|
    requires forall i :: 0 <= i < k ==> items[i].Hi() < n
    requires forall i :: k <= i < |items| ==> n < items[i].Lo()
    ensures 1 <= Joined(items, k, n, loose).Lo() <= Joined(items, k, n, loose).Hi()
    ensures forall i :: 0 <= i < (if Extends(items, k, n, loose) then k - 1 else k) ==>
              Before(items[i], Joined(items, k, n, loose), gap)
    ensures forall i :: (if Meets(items, k, n) then k + 1 else k) <= i < |items| ==>
      Before(Joined(items, k, n, loose), items[i], gap) && items[i].Lo() <= items[i].Hi()
  {
    hide Item.Lo, Item.Hi, Joined;
    JoinedEnds(items, k, n, loose);
    forall i | 0 <= i < (if Extends(items, k, n, loose) then k - 1 else k)
      ensures Before(items[i], Joined(items, k, n, loose), gap) {
      if i < k - 1 { assert Before(items[i], items[k - 1], gap); }
    }
    forall i | (if Meets(items, k, n) then k + 1 else k) <= i < |items|
      ensures Before(Joined(items, k, n, loose), items[i], gap) && items[i].Lo() <= items[i].Hi()
    {
      if k < i { assert Before(items[k], items[i], gap); }
    }
  }

  /** Runs go beyond their first number, but for one from 1 at the start. */
  predicate Proper(items: seq<Item>) {
    forall i :: 0 <= i < |items| && items[i].Span? ==> items[i].Lo() < items[i].Hi() || (i == 0 && items[0].Lo() == 1)
  }

  /** A number that joins neither neighbour is put in by itself, and one that joins makes a run. */
  lemma InsertProper(items: seq<Item>, gap: nat, n: nat, loose: bool)
    requires 1 <= gap && Lined(items, gap) && 1 <= n && n !in Denote(items) && !Hollow(items) && Proper(items)
    ensures Proper(Insert(items, n, loose))
  {
    hide Denote, Value, Dec, Item.Lo, Item.Hi, Before, Proper;
    var k := Passed(items, n);
    var p := if Extends(items, k, n, loose) then k - 1 else k;
    var q := if Meets(items, k, n) then k + 1 else k;
    var it := Joined(items, k, n, loose);
    Surrounded(items, gap, n);
    HollowOnly(items, gap, k);
    JoinedEnds(items, k, n, loose);
    SpliceProper(items, p, q, it);
  }

  lemma SpliceProper(items: seq<Item>, p: nat, q: nat, it: Item)
    requires p <= q <= |items| && Proper(items) && (it.Span? ==> it.Lo() < it.Hi())
    requires q == 0 < |items| ==> items[0].Lo() != 1
    ensures Proper(Splice(items, p, q, it))
  {
    hide Item.Lo, Item.Hi;
    var r := Splice(items, p, q, it);
    forall i | 0 <= i < |r| && r[i].Span? ensures r[i].Lo() < r[i].Hi() || (i == 0 && r[0].Lo() == 1) {
      if p < i { assert r[i] == items[i - p - 1 + q]; }
    }
  }

  // ----- marking everything below a number

  /** How many leading items end at or below `a`. */
  function Expired(items: seq<Item>, a: nat): (k: nat)
    ensures k <= |items| && (k < |items| ==> a < items[k].Hi())
    ensures forall i :: 0 <= i < k ==> items[i].Hi() <= a
  {
    if items == [] || a < items[0].Hi() then 0 else 1 + Expired(items[1..], a)
  }

  lemma {:induction false} ExpiredFrom(items: seq<Item>, a: nat, k: nat)
    requires k <= |items| && forall i :: 0 <= i < k ==> items[i].Hi() <= a
    ensures Expired(items, a) == k + Expired(items[k..], a)
  {
    if k == 0 {
      assert items[0..] == items;
    } else {
      ExpiredFrom(items[1..], a, k - 1);
      assert items[1..][k - 1..] == items[k..];
    }
  }

  /** The run of items[k] has started at or below `a` and ends above it. */
  predicate Landed(items: seq<Item>, a: nat, k: nat) {
    k < |items| && items[k].Span? && items[k].Lo() <= a < items[k].Hi()
  }

  /** The run that takes the place of the items up to `a`. */
  function Opening(items: seq<Item>, a: nat, k: nat): Item
    requires k <= |items| && 1 < a
  {
    if Landed(items, a, k) then Span(ONE, items[k].last)
    else Span(ONE, Word(Dec(if k > 0 && items[k - 1].Hi() == a then a else a - 1)))
  }

  /** The list once everything below `a` is marked read. */
  function Expire(items: seq<Item>, a: nat): seq<Item> {
    var k := Expired(items, a);
    if a <= 1 || (Landed(items, a, k) && items[k].Lo() == 1) then items
    else Splice(items, 0, if Landed(items, a, k) then k + 1 else k, Opening(items, a, k))
  }

  lemma ValueOfOne()
    ensures Value(ONE.text) == 1
  {
    assert "1"[..0] == "";
  }

  /** An item whose end is far enough along is not in the part that is dropped. */
  lemma ExpiredBelow(items: seq<Item>, gap: nat, a: nat)
    requires 1 <= gap && Lined(items, gap)
    ensures forall i :: 0 <= i < Expired(items, a) ==>
              items[i].Hi() <= a && (i + 1 < Expired(items, a) ==> items[i].Hi() < a)
    ensures forall i :: Expired(items, a) < i < |items| ==> a + gap < items[i].Lo()
  {
    var k := Expired(items, a);
    forall i | 0 <= i < k ensures items[i].Hi() <= a && (i + 1 < k ==> items[i].Hi() < a) {
      if i + 1 < k { assert Before(items[i], items[i + 1], gap); }
    }
    forall i | k < i < |items| ensures a + gap < items[i].Lo() {
      assert Before(items[k], items[i], gap);
    }
  }

  /** The part that is dropped holds numbers up to `a`, and `a` itself just when it ends there. */
  lemma DroppedBelow(items: seq<Item>, gap: nat, a: nat)
    requires 1 <= gap && Lined(items, gap) && 1 < a
    ensures Denote(items[..Expired(items, a)]) <= Range(1, a)
    ensures var k := Expired(items, a); a in Denote(items[..k]) <==> k > 0 && items[k - 1].Hi() == a
  {
    hide Denote, Value, Dec, Expired, Item.Lo, Item.Hi;
    var k := Expired(items, a);
    ExpiredBelow(items, gap, a);
    forall n: nat ensures n in Denote(items[..k]) <==> exists i :: 0 <= i < k && items[i].Lo() <= n <= items[i].Hi() {
      InDenote(items[..k], n);
      if i :| 0 <= i < k && items[i].Lo() <= n <= items[i].Hi() { assert items[..k][i] == items[i]; }
    }
    if k > 0 && items[k - 1].Hi() == a {
      assert items[k - 1].Lo() <= a;
    }
  }

  /** The run put in front holds what it replaces and everything below `a`. */
  lemma OpeningHolds(items: seq<Item>, gap: nat, a: nat)
    requires 1 <= gap <= 2 && Lined(items, gap) && 1 < a
    ensures var k := Expired(items, a); var q := if Landed(items, a, k) then k + 1 else k;
      Range(Opening(items, a, k).Lo(), Opening(items, a, k).Hi()) == Denote(items[..k]) + Denote(items[k..q]) + Below(a)
  {
    hide Denote, Value, Dec, Expired, Range, Below;
    var k := Expired(items, a);
    DroppedBelow(items, gap, a);
    Between(items, k, k, if Landed(items, a, k) then k + 1 else k);
    ValueOfOne();
  }

  /** A run that starts at 1 and is not over at `a` is left as it is. */
  lemma NothingToExpire(items: seq<Item>, a: nat, k: nat)
    requires Landed(items, a, k) && items[k].Lo() == 1
    ensures Below(a) <= Denote(items)
  {
    forall n: nat | n in Below(a) ensures n in Denote(items) {
      InDenote(items, n);
    }
  }

  lemma ExpireAdds(items: seq<Item>, gap: nat, a: nat)
    requires 1 <= gap <= 2 && Lined(items, gap) && 1 < a
    ensures Denote(Expire(items, a)) == Denote(items) + Below(a)
  {
    hide Denote, Value, Dec, Range, Below, Opening;
    var k := Expired(items, a);
    if Landed(items, a, k) && items[k].Lo() == 1 {
      NothingToExpire(items, a, k);
    } else {
      var q := if Landed(items, a, k) then k + 1 else k;
      var it := Opening(items, a, k);
      OpeningHolds(items, gap, a);
      SpliceDenotes(items, k, q, it);
      DenoteOne(it);
      DenoteJoined([it], items[q..]);
      assert Expire(items, a) == [it] + items[q..] by { assert items[..0] == []; }
    }
  }

  lemma ExpireLined(items: seq<Item>, gap: nat, a: nat)
    requires 1 <= gap <= 2 && Lined(items, gap) && 1 < a
    ensures Lined(Expire(items, a), gap) && !Hollow(Expire(items, a))
  {
    hide Value, Dec;
    var k := Expired(items, a);
    var q := if Landed(items, a, k) then k + 1 else k;
    ExpiredBelow(items, gap, a);
    ValueOfOne();
    if Expire(items, a) != items {
      var it := Opening(items, a, k);
      forall i | q <= i < |items| ensures Before(it, items[i], gap) && items[i].Lo() <= items[i].Hi() {
        if k < i { assert Before(items[k], items[i], gap); }
        if k > 0 { assert Before(items[k - 1], items[i], gap); }
      }
      SpliceLined(items, 0, q, it, gap);
    }
  }

  /** Marking everything below a number read adds just those numbers, and the list stays in order. */
  lemma ExpireDenotes(items: seq<Item>, gap: nat, a: nat)
    requires 1 <= gap <= 2 && Lined(items, gap)
    ensures Denote(Expire(items, a)) == Denote(items) + Below(a)
    ensures Lined(Expire(items, a), gap)
    ensures 1 < a ==> !Hollow(Expire(items, a))
  {
    if a <= 1 {
      assert Below(a) == {};
    } else {
      ExpiredBelow(items, gap, a);
      ExpireAdds(items, gap, a);
      ExpireLined(items, gap, a);
    }
  }
}

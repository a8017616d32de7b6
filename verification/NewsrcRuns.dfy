/** What a group's list says after any sequence of edits, and when its unread count stays right. */
module NewsrcRuns {
  import opened Decimals
  import opened ReadRanges
  import opened RangeText
  import opened NewsrcGroup

  datatype Call = AddCall(n: nat) | TrimCall(a1st: nat)

  function Apply(g: Group, c: Call): Group {
    match c
    case AddCall(n) => Add(g, n)
    case TrimCall(a) => Trim(g, a)
  }

  function Run(g: Group, calls: seq<Call>): Group {
    if calls == [] then g else Apply(Run(g, calls[..|calls| - 1]), calls[|calls| - 1])
  }

  /** The call says that article `n` was read or has expired. */
  predicate Marks(c: Call, n: nat) {
    match c
    case AddCall(m) => m == n
    case TrimCall(a) => n < a
  }

  /** No blanks stand after commas. */
  predicate Tight(pads: seq<nat>) {
    forall i :: 1 <= i < |pads| ==> pads[i] == 0
  }

  /** A group whose list is in use and is not the empty run alone. Without blanks after commas neighbouring numbers are
      always joined, which a gap of 2 says. */
  predicate InUse(g: Group, gap: nat) {
    && g.listed && g.toread != TR_BOGUS && Lined(g.items, gap) && !Hollow(g.items) && Fits(g.pads, g.items)
    && (gap == 2 ==> Tight(g.pads))
  }

  lemma SpliceTight(pads: seq<nat>, n: nat, p: nat, q: nat, x: nat)
    requires Tight(pads) && p <= q <= n && x == 0
    ensures Tight(SplicePads(pads, n, p, q, x))
  {
  }

  lemma StaysTight(pads: seq<nat>, items: seq<Item>, m: nat)
    requires Tight(pads) && Fits(pads, items)
    ensures Tight(InsertPads(pads, items, m)) && Tight(ExpirePads(pads, items, m))
    ensures Loose(pads, items, m) ==> Passed(items, m) == 0
  {
    hide Tight, SplicePads, Extends, Meets, Landed, Expired, Passed, Item.Lo, Item.Hi;
    var k, loose, j := Passed(items, m), Loose(pads, items, m), Expired(items, m);
    TightPad(pads, k);
    TightPad(pads, k + 1);
    TightPad(pads, j + 1);
    if !Glued(items, k) {
      SpliceTight(pads, |items|, if Extends(items, k, m, loose) then k - 1 else k, if Meets(items, k, m) then k + 1
        else k,
        if Meets(items, k, m) then Pad(pads, k + 1) else 0) by { JoinedPlace(items, k, m, loose); }
    }
    SpliceTight(OneLead(pads), |items|, 0, if Landed(items, m, j) then j + 1 else j,
      if Landed(items, m, j) then Pad(pads, j + 1) else 0) by { LandedPlace(items, m, j); }
  }

  lemma JoinedPlace(items: seq<Item>, k: nat, n: nat, loose: bool)
    ensures (Extends(items, k, n, loose) ==> 0 < k <= |items|) && (Meets(items, k, n) ==> k < |items|)
  {
  }

  lemma LandedPlace(items: seq<Item>, a: nat, k: nat)
    ensures Landed(items, a, k) ==> k < |items|
  {
  }

  lemma TightPad(pads: seq<nat>, i: nat)
    requires Tight(pads)
    ensures (0 < i ==> Pad(pads, i) == 0) && Tight(OneLead(pads))
  {
  }

  lemma AddMarks(g: Group, m: nat, gap: nat)
    requires 1 <= gap <= 2 && InUse(g, gap) && 1 <= m && m !in Denote(g.items)
    ensures InUse(Add(g, m), gap) && Denote(Add(g, m).items) == Denote(g.items) + {m}
  {
    hide Denote, Lined, Insert, Hollow, InsertPads, Fits, Passed;
    if gap == 2 { StaysTight(g.pads, g.items, m); }
    InsertDenotes(g.items, gap, m, Loose(g.pads, g.items, m));
    InsertFits(g.pads, g.items, m);
  }

  lemma ApplyMarks(g: Group, c: Call, gap: nat, n: nat)
    requires 1 <= gap <= 2 && InUse(g, gap) && 1 <= n
    ensures InUse(Apply(g, c), gap) && g.ngmax <= Apply(g, c).ngmax
    ensures n in Denote(Apply(g, c).items) <==> n in Denote(g.items) || Marks(c, n)
  {
    hide Denote, Lined, Expire, Hollow, Fits, ExpirePads, Tight;
    match c
    case AddCall(m) =>
      if m > 0 && m !in Denote(g.items) { AddMarks(g, m, gap); }
    case TrimCall(a) =>
      ExpireDenotes(g.items, gap, a);
      ExpireFits(g.pads, g.items, a);
      if gap == 2 { StaysTight(g.pads, g.items, a); }
      if a <= 1 { Unexpired(g.pads, g.items, a); }
  }

  /**
   * After any sequence of calls an article of the group counts as read exactly when it was in the list at the start, or
   * some call marked it; and the list is still in order, with the gaps it had.
   */
  lemma {:induction false} ReadExactlyWhenMarked(g: Group, calls: seq<Call>, gap: nat, n: nat)
    requires 1 <= gap <= 2 && InUse(g, gap) && 1 <= n
    ensures InUse(Run(g, calls), gap)
    ensures n <= Run(g, calls).ngmax ==>
      (WasRead(Run(g, calls), n) <==> n in Denote(g.items) || exists c :: c in calls && Marks(c, n))
    ensures n in Denote(Run(g, calls).items) <==> n in Denote(g.items) || exists c :: c in calls && Marks(c, n)
  {
    hide InUse, Apply, Denote;
    if calls != [] {
      var most, c := calls[..|calls| - 1], calls[|calls| - 1];
      ReadExactlyWhenMarked(g, most, gap, n);
      ApplyMarks(Run(g, most), c, gap, n);
      assert calls == most + [c];
    }
    UsedList(Run(g, calls), gap);
  }

  lemma UsedList(g: Group, gap: nat)
    requires InUse(g, gap)
    ensures g.listed && g.toread != TR_BOGUS
  {
  }

  /** A line holding only the empty run 1-0: adding 5 marks 3 as read. */
  lemma HollowExample()
    ensures var g := Group(true, [1], [Span(ONE, Word("0"))], 9, 9);
      Hollow(g.items) && Lined(g.items, 2) && !WasRead(g, 3) && WasRead(Add(g, 5), 3)
  {
    hide Denote, Insert, WasRead, Add;
    var g := Group(true, [1], [Span(ONE, Word("0"))], 9, 9);
    ValueOfOne();
    assert "0"[..0] == "";
    assert Value("0") == 0;
    assert Empty(g.items[0]);
    HollowInsert(g.items, 5, Loose(g.pads, g.items, 5));
    HollowMarks(g, 3, 5);
  }

  lemma HollowMarks(g: Group, m: nat, n: nat)
    requires g.listed && 0 < m < n <= g.ngmax && 0 < g.toread && Denote(g.items) == {}
      && Denote(Insert(g.items, n, Loose(g.pads, g.items, n))) == Range(1, n)
    ensures !WasRead(g, m) && WasRead(Add(g, n), m)
  {
    hide Denote, Insert;
  }

  // ----- the unread count

  /** The count of unread articles is the number of articles less those that were read. */
  predicate Accurate(g: Group) {
    g.toread == g.ngmax - |Denote(g.items)|
  }

  lemma {:induction false} RangeSize(n: nat)
    ensures |Range(1, n)| == n
  {
    if n > 0 {
      RangeSize(n - 1);
      assert Range(1, n) == Range(1, n - 1) + {n};
    } else {
      assert Range(1, n) == {};
    }
  }

  lemma SubsetSize<T>(a: set<T>, b: set<T>)
    requires a <= b
    ensures |a| <= |b| && (|a| == |b| ==> a == b)
  {
    assert b == a + (b - a);
    assert |b| == |a| + |b - a|;
  }

  /**
   * Adding an article keeps the count right exactly when something was unread before or the article is at most one past
   * the last.
   */
  lemma CountStaysRight(g: Group, gap: nat, n: nat)
    requires 1 <= gap <= 2 && InUse(g, gap) && 1 <= n && 0 <= g.toread && Accurate(g)
    requires Denote(g.items) <= Range(1, g.ngmax)
    ensures Accurate(Add(g, n)) <==> 0 < g.toread || n <= g.ngmax + 1
    ensures Denote(Add(g, n).items) <= Range(1, Add(g, n).ngmax)
  {
    hide Denote, Lined, Insert, Hollow, Range;
    RangeSize(g.ngmax);
    SubsetSize(Denote(g.items), Range(1, g.ngmax));
    if n !in Denote(g.items) {
      AddMarks(g, n, gap);
      assert |Denote(g.items) + {n}| == |Denote(g.items)| + 1;
    }
  }

  /** All five articles of the group are read; with 7 the group has seven, and six read, but the count stays 0. */
  lemma CountExample()
    ensures var g := Group(true, [1], [Span(ONE, Word(Dec(5)))], 0, 5);
      InUse(g, 2) && Accurate(g) && Denote(g.items) <= Range(1, g.ngmax) && !Accurate(Add(g, 7))
  {
    hide Insert, Add, Denote, Value, Dec, Range;
    var five := Word(Dec(5));
    var g := Group(true, [1], [Span(ONE, five)], 0, 5);
    ValueOfOne();
    DenoteOne(g.items[0]);
    RangeSize(5);
    assert Value(Dec(5)) == 5;
    assert Lined(g.items, 2);
    assert !Hollow(g.items);
    CountStaysRight(g, 2, 7);
  }
}

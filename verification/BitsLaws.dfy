/** When the flags say what the list says, and the round trip from flags to list and back. */
module BitsLaws {
  import opened Decimals
  import opened ReadRanges
  import opened GroupArticles
  import opened NewsrcGroup
  import opened ReadBits

  /** Every existing article is unread just when it is not in the list. */
  ghost predicate Exact(a: Arts, b: Arts, items: seq<Item>, absfirst: nat, lastart: nat) {
    forall n: nat :: absfirst <= n <= lastart && At(a, n).present ==> (At(b, n).unread <==> n !in Denote(items))
  }

  /**
   * The flags say what the list says exactly when the article at which unread ones may begin is not an existing one
   * that a single number below it marks read.
   */
  lemma LoadedExactIff(a: Arts, b: Arts, items: seq<Item>, absfirst: nat, lastart: nat)
    requires 0 < absfirst && Lined(items, 1) && Loaded(a, b, items, absfirst, lastart)
    ensures var first := FirstArt(items, absfirst);
      Exact(a, b, items, absfirst, lastart) <==>
        !(first <= lastart && At(a, first).present && first !in Denote(items) && Strays(items, first))
  {
    hide Denote, Lined, Strays, Opens;
    var first := FirstArt(items, absfirst);
    if first <= lastart && At(a, first).present && first !in Denote(items) && Strays(items, first) {
      assert Covers(items, first, first);
      assert !At(b, first).unread;
    }
  }

  /** A run from 1 at the start of the list that reaches the first article leaves no number below the first unread
      one. */
  lemma OpenedNoStray(items: seq<Item>, absfirst: nat)
    requires 0 < absfirst && Lined(items, 1) && Opens(items) && absfirst <= items[0].Hi() + 1
    ensures !Strays(items, FirstArt(items, absfirst))
  {
    hide Item.Lo, Item.Hi;
    var first := items[0].Hi() + 1;
    ExpiredFrom(items, first - 1, 1);
    if |items| > 1 {
      assert Before(items[0], items[1], 1);
      assert items[1..][0] == items[1];
    }
  }

  /** A list trimmed to the first article there is leaves none either. */
  lemma TrimmedNoStray(items: seq<Item>, absfirst: nat)
    requires 0 < absfirst && Lined(items, 1)
    ensures var trimmed := Expire(items, absfirst); !Strays(trimmed, FirstArt(trimmed, absfirst))
  {
    hide Value, Dec;
    var trimmed := Expire(items, absfirst);
    var k := Expired(items, absfirst);
    ExpireDenotes(items, 1, absfirst);
    if Opens(trimmed) && absfirst <= trimmed[0].Hi() + 1 {
      OpenedNoStray(trimmed, absfirst);
    } else if absfirst > 1 {
      ValueOfOne();
      assert trimmed == items;
    }
  }

  /** After checkexpired has trimmed the list to the first article there is, rc_to_bits is exact. */
  lemma TrimmedLoadsExactly(a: Arts, b: Arts, items: seq<Item>, absfirst: nat, lastart: nat)
    requires 0 < absfirst && Lined(items, 1) && Loaded(a, b, Expire(items, absfirst), absfirst, lastart)
    ensures forall n: nat :: absfirst <= n <= lastart && At(a, n).present ==> (At(b, n).unread <==> n !in Denote(items))
  {
    hide Denote, Lined, Strays, Opens, Loaded, Expire;
    TrimmedNoStray(items, absfirst);
    ExpireDenotes(items, 1, absfirst);
    LoadedExactIff(a, b, Expire(items, absfirst), absfirst, lastart);
  }

  /** Without trimming: the list 3 in a group that begins at 10 makes article 10 read. */
  lemma StrayExample(a: Arts, b: Arts, lastart: nat)
    requires 10 <= lastart && At(a, 10).present && Loaded(a, b, [One(Word(Dec(3)))], 10, lastart)
    ensures 10 !in Denote([One(Word(Dec(3)))]) && !At(b, 10).unread
  {
    hide Value, Dec;
    var items := [One(Word(Dec(3)))];
    DenoteOne(items[0]);
    assert FirstArt(items, 10) == 10;
    assert Expired(items, 9) == 1 by { ExpiredFrom(items, 9, 1); }
    assert Covers(items, 10, 10);
  }

  /**
   * Printing the flags and reading the line back gives every article its unread flag again, and the same count, when
   * unread articles exist; whatever the flags of existing articles were before the line was read.
   */
  lemma RoundTrip(a: Arts, before: Arts, b: Arts, items: seq<Item>, absfirst: nat, lastart: nat)
    requires 0 < absfirst && Lined(items, 2) && Opens(items) && absfirst <= items[0].Hi() + 1
    requires Printed(a, items, absfirst, if lastart < absfirst then absfirst else lastart + 1)
    requires forall n: nat :: absfirst <= n <= lastart ==> (At(a, n).unread ==> At(a, n).present)
    requires forall n: nat :: absfirst <= n <= lastart ==>
      At(before, n).present == At(a, n).present && (At(before, n).unread ==> At(before, n).present)
    requires Loaded(before, b, items, absfirst, lastart)
    ensures forall n: nat :: absfirst <= n <= lastart ==> At(b, n).unread == At(a, n).unread
    ensures Tally(b, FirstArt(items, absfirst), lastart + 1) == UnreadCount(a, absfirst, lastart + 1)
  {
    hide Denote, Lined, Strays;
    Looser(items);
    OpenedNoStray(items, absfirst);
    LoadedExactIff(before, b, items, absfirst, lastart);
    forall n: nat | absfirst <= n <= lastart ensures At(b, n).unread == At(a, n).unread {
      assert n in Denote(items) <==> !At(a, n).unread;
    }
    var first := FirstArt(items, absfirst);
    forall n | absfirst <= n < first && n <= lastart ensures !At(a, n).unread {
      OpensAtOne(items);
      Found(items, n, 0);
    }
    CountsAgree(a, b, absfirst, first, lastart + 1);
  }

  lemma {:induction false} CountsAgree(a: Arts, b: Arts, lo: nat, first: nat, hi: nat)
    requires lo <= first
    requires forall n :: lo <= n < hi ==> At(b, n).unread == At(a, n).unread && (n < first ==> !At(a, n).unread)
    requires forall n :: lo <= n < hi && At(b, n).unread ==> At(b, n).present
    ensures Tally(b, first, hi) == UnreadCount(a, lo, hi)
    decreases hi - lo
  {
    if lo < hi { CountsAgree(a, b, lo, first, hi - 1); }
  }

  /** A group left and entered again: the flags are printed, forgotten, and read back from the line. */
  method LeaveAndReturn(g: Newsgroup, before: Arts)
    requires 0 < g.absfirst
    requires forall n: nat :: g.absfirst <= n <= g.lastart ==> (At(g.arts, n).unread ==> At(g.arts, n).present)
    requires forall n: nat :: g.absfirst <= n <= g.lastart ==>
      At(before, n).present == At(g.arts, n).present && (At(before, n).unread ==> At(before, n).present)
    modifies g`arts, g`firstart, g.ngptr`rcline, g.ngptr`pads, g.ngptr`items, g.ngptr`toread, g.ngptr`rcChanged
    ensures forall n: nat :: g.absfirst <= n <= g.lastart ==> At(g.arts, n).unread == At(old(g.arts), n).unread
    ensures g.ngptr.toread == UnreadCount(old(g.arts), g.absfirst, g.lastart + 1)
  {
    hide Printed, Loaded, Tally, UnreadCount, Lined, Opens;
    ghost var a := g.arts;
    g.BitsToRc();
    g.arts := before;
    g.RcToBits();
    RoundTrip(a, before, g.arts, g.ngptr.items, g.absfirst, g.lastart);
  }
}

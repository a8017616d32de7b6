/** The list of read articles turned into flags on the articles, and the flags turned back into a list. */
module ReadBits {
  import opened Decimals
  import opened ReadRanges
  import opened RangeText
  import opened GroupArticles
  import opened GroupCounts
  import opened NewsrcGroup

  // ----- pieces of the line between commas

  /** The position of the first `c` from `i` on, or the end. */
  function Find(s: string, c: char, i: nat): (j: nat)
    requires i <= |s|
    ensures i <= j <= |s| && (j < |s| ==> s[j] == c) && forall m :: i <= m < j ==> s[m] != c
    decreases |s| - i
  {
    if i < |s| && s[i] != c then Find(s, c, i + 1) else i
  }

  lemma {:induction false} FindAt(s: string, c: char, i: nat, j: nat)
    requires i <= j <= |s| && (j < |s| ==> s[j] == c) && forall m :: i <= m < j ==> s[m] != c
    ensures Find(s, c, i) == j
    decreases j - i
  {
    if i < j { FindAt(s, c, i + 1, j); }
  }

  /** The text of an item holds no comma, and a dash just when it is a run. */
  lemma ShowChars(it: Item)
    ensures forall m :: 0 <= m < |it.Show()| ==> it.Show()[m] != ','
    ensures Find(it.Show(), '-', 0) == if it.One? then |it.Show()| else |it.first.text|
  {
    FindAt(it.Show(), '-', 0, if it.One? then |it.Show()| else |it.first.text|);
  }

  /** Item `k` with the blanks before it, which the first one has no more. */
  function Piece(pads: seq<nat>, items: seq<Item>, k: nat): string
    requires k < |items|
  {
    (if k == 0 then "" else Blanks(Pad(pads, k))) + items[k].Show()
  }

  /** The first `k` pieces, each followed by a comma. */
  function Pieces(pads: seq<nat>, items: seq<Item>, k: nat): string
    requires k <= |items|
  {
    if k == 0 then "" else Pieces(pads, items, k - 1) + Piece(pads, items, k - 1) + ","
  }

  lemma PiecesNext(pads: seq<nat>, items: seq<Item>, k: nat)
    requires k < |items|
    ensures Pieces(pads, items, k + 1) == Pieces(pads, items, k) + (Piece(pads, items, k) + ",")
  {
    hide Piece;
  }

  lemma {:induction false} PiecesParts(pads: seq<nat>, items: seq<Item>, k: nat)
    requires k <= |items|
    ensures var all, t := Pieces(pads, items, |items|), Pieces(pads, items, k); |t| <= |all| && all[..|t|] == t
    decreases |items| - k
  {
    hide Pieces, Piece;
    if k < |items| {
      PiecesParts(pads, items, k + 1);
      PiecesNext(pads, items, k);
      Prefix(Pieces(pads, items, |items|), Pieces(pads, items, k + 1), Pieces(pads, items, k),
        Piece(pads, items, k) + ",");
    }
  }

  lemma Prefix(s: string, t: string, a: string, b: string)
    requires t == a + b && |t| <= |s| && s[..|t|] == t
    ensures |a| <= |s| && s[..|a|] == a && s[|a|..|t|] == b
  {
    assert s[..|a|] == s[..|t|][..|a|];
    assert s[|a|..|t|] == s[..|t|][|a|..];
  }

  lemma PieceChars(pads: seq<nat>, items: seq<Item>, k: nat)
    requires k < |items|
    ensures forall m :: 0 <= m < |Piece(pads, items, k)| ==> Piece(pads, items, k)[m] != ','
  {
    hide Item.Show;
    ShowChars(items[k]);
  }

  /** Item `k` up to its comma. */
  lemma PieceAt(line: string, pads: seq<nat>, items: seq<Item>, k: nat, s: nat)
    requires k < |items| && line == Pieces(pads, items, |items|) && s == |Pieces(pads, items, k)|
    ensures var c := s + |Piece(pads, items, k)|;
      && s < c < |line| && Find(line, ',', s) == c && line[s..c] == Piece(pads, items, k)
      && c + 1 == |Pieces(pads, items, k + 1)|
  {
    hide Pieces, Find;
    PiecesParts(pads, items, k + 1);
    PiecesNext(pads, items, k);
    var show := Piece(pads, items, k);
    assert show != "";
    hide Piece;
    Prefix(line, Pieces(pads, items, k + 1), Pieces(pads, items, k), show + ",");
    var c := s + |show|;
    assert line[s..c + 1] == show + ",";
    assert line[s..c] == line[s..c + 1][..|show|] == show;
    assert line[c] == line[s..c + 1][|show|] == ',';
    PieceChars(pads, items, k);
    forall m | s <= m < c ensures line[m] != ',' {
      assert line[m] == line[s..c][m - s];
    }
    FindAt(line, ',', s, c);
  }

  /** No comma is left after the last item. */
  lemma NoPiece(line: string, pads: seq<nat>, items: seq<Item>)
    requires line == Pieces(pads, items, |items|)
    ensures Find(line, ',', |line|) == |line|
  {
  }

  lemma PadAtol(s: string, b: nat)
    requires b < |s| && s[b] != ' ' && forall j :: 0 <= j < b ==> s[j] == ' '
    ensures Atol(s, 0) == Atol(s, b)
  {
    hide SkipDigits, Value;
    PastBlanks(s, 0, b);
  }

  lemma PadDash(b: nat, t: string)
    ensures var s := Blanks(b) + t; s[b..] == t && Find(s, '-', 0) == b + Find(t, '-', 0)
  {
    hide Find;
    var s, h := Blanks(b) + t, Find(t, '-', 0);
    assert forall m :: b <= m < |s| ==> s[m] == t[m - b];
    assert s[b..] == t;
    FindAt(s, '-', 0, b + h);
  }

  /** The numbers of a text after some blanks. */
  lemma PaddedNumbers(b: nat, it: Item)
    ensures var s := Blanks(b) + it.Show();
      && Atol(s, 0) == it.Lo()
      && Find(s, '-', 0) == (if it.One? then |s| else b + |it.first.text|)
      && (it.Span? ==> Find(s, '-', 0) + 1 <= |s| && Atol(s, Find(s, '-', 0) + 1) == it.Hi())
  {
    hide Find, Value, Atol, SkipDigits;
    var s := Blanks(b) + it.Show();
    ShowChars(it);
    PadDash(b, it.Show());
    if it.One? {
      ReadNumeral(s, b, it.num.text, "");
    } else {
      ReadRun(s, b, it.first.text, it.last.text, "");
    }
    PadAtol(s, b);
  }

  /** The numbers of a piece. */
  lemma PieceNumbers(pads: seq<nat>, items: seq<Item>, k: nat)
    requires k < |items|
    ensures var s, it := Piece(pads, items, k), items[k];
      && Atol(s, 0) == it.Lo() && (Find(s, '-', 0) == |s| <==> it.One?)
      && (it.Span? ==> Find(s, '-', 0) + 1 <= |s| && Atol(s, Find(s, '-', 0) + 1) == it.Hi())
  {
    hide Find, Atol, Item.Lo, Item.Hi;
    var b := if k == 0 then 0 else Pad(pads, k);
    PaddedNumbers(b, items[k]);
    assert Piece(pads, items, k) == Blanks(b) + items[k].Show();
  }

  /** A list with a comma after each item starts with 1 and a dash just when its first item is a run from "1". */
  lemma StartsItem(s: string, pads: seq<nat>, items: seq<Item>)
    requires s == Pieces(pads, items, |items|)
    ensures SkipBlanks(s, 0) == 0
    ensures 2 <= |s| && s[..2] == "1-" <==> Opens(items)
    ensures Opens(items) ==> Atol(s, 2) == items[0].Hi()
  {
    hide Item.Show;
    if items != [] {
      PieceAt(s, pads, items, 0, 0);
      assert Piece(pads, items, 0) == items[0].Show();
      StartsWith(s, items[0]);
    }
  }

  /** The pieces before item `k`, its blanks and the line from there are the line from the first item on. */
  lemma {:induction false} FromPieces(pads: seq<nat>, items: seq<Item>, k: nat)
    requires k < |items|
    ensures From(pads, items, 0) ==
      Pieces(pads, items, k) + ((if k == 0 then "" else Blanks(Pad(pads, k))) + From(pads, items, k))
  {
    if k > 0 {
      hide From, Item.Show, Blanks, Pieces;
      FromPieces(pads, items, k - 1);
      PiecesNext(pads, items, k - 1);
      FromNext(pads, items, k - 1);
      Regrouped(Pieces(pads, items, k - 1), if k == 1 then "" else Blanks(Pad(pads, k - 1)), items[k - 1].Show(),
        Blanks(Pad(pads, k)), From(pads, items, k));
    } else {
      assert Pieces(pads, items, 0) == "";
    }
  }

  lemma Regrouped(a: string, b: string, c: string, d: string, e: string)
    ensures a + (b + (c + ("," + d + e))) == a + ((b + c) + ",") + (d + e)
  {
  }

  /** The list without its first blanks, with a comma put at the end of a list that is not empty. */
  lemma ScratchCopy(line: string, pads: seq<nat>, items: seq<Item>)
    requires line == Line(pads, items)
    ensures Pad(pads, 0) <= |line|
    ensures var s := line[Pad(pads, 0)..]; (if s != "" then s + "," else s) == Pieces(pads, items, |items|)
  {
    assert line[Pad(pads, 0)..] == From(pads, items, 0);
    if items != [] {
      hide Item.Show, Pieces, Blanks;
      var k := |items| - 1;
      FromPieces(pads, items, k);
      PiecesNext(pads, items, k);
      assert From(pads, items, k) == items[k].Show() + "" == items[k].Show();
    }
  }

  lemma StartsWith(s: string, it: Item)
    requires |it.Show()| < |s| && s[..|it.Show()|] == it.Show() && s[|it.Show()|] == ','
    ensures s[0] != ' ' && (2 <= |s| && s[..2] == "1-" <==> it.Span? && it.first.text == "1")
    ensures it.Span? && it.first.text == "1" ==> Atol(s, 2) == it.Hi()
  {
    var show := it.Show();
    assert forall m :: 0 <= m < |show| ==> s[m] == show[m];
    if it.Span? {
      var a := it.first.text;
      assert show[|a|] == '-';
      assert forall m :: 0 <= m < |a| ==> show[m] == a[m];
      assert s[1] == if |a| == 1 then '-' else a[1];
      assert |a| > 1 ==> IsDigit(a[1]);
      assert s[..2] == [s[0], s[1]];
      assert a == "1" <==> |a| == 1 && a[0] == '1';
      if a == "1" {
        assert s[2..] == it.last.text + s[|show|..];
        ReadNumeral(s, 2, it.last.text, s[|show|..]);
      }
    } else {
      assert s[1] == if |show| == 1 then ',' else show[1];
      assert |show| > 1 ==> IsDigit(it.num.text[1]);
      assert s[..2][1] == s[1];
    }
  }

  // ----- what the line means for the flags

  /** The line begins with the characters 1 and dash. */
  predicate Opens(items: seq<Item>) {
    items != [] && items[0].Span? && items[0].first.text == "1"
  }

  function FirstArt(items: seq<Item>, absfirst: nat): (first: nat)
    ensures absfirst <= first
  {
    if Opens(items) && absfirst <= items[0].Hi() + 1 then items[0].Hi() + 1 else absfirst
  }

  /** The last of the items that lie wholly below `first` is a single number. */
  predicate Strays(items: seq<Item>, first: nat)
    requires 0 < first
  {
    var j := Expired(items, first - 1);
    j > 0 && items[j - 1].One?
  }

  /** The articles that rc_to_bits leaves read. */
  predicate Covers(items: seq<Item>, first: nat, n: nat)
    requires 0 < first
  {
    n in Denote(items) || (n == first && Strays(items, first))
  }

  // ----- one item of the line

  function Min(a: int, b: int): int {
    if a <= b then a else b
  }

  /** Where the run of item `it` begins and ends among the articles. */
  function FromArt(it: Item, first: nat, lastart: nat): nat {
    var min := if it.Lo() < first then first else it.Lo();
    if lastart < min then lastart + 1 else min
  }

  function ToArt(it: Item, first: nat, lastart: nat): int {
    var min := FromArt(it, first, lastart);
    var max := if it.One? then min else if it.Hi() < min then min - 1 else it.Hi();
    Min(max, lastart)
  }

  /** Some item among the first `k` has left the article `first` marked read though it lies below it. */
  predicate StrayAt(items: seq<Item>, first: nat, k: nat)
    requires 0 < first && k <= |items|
  {
    var j := Expired(items, first - 1);
    var m := if j < k then j else k;
    m > 0 && items[m - 1].One?
  }

  /** The next article to look at after `k` items. */
  predicate Reached(items: seq<Item>, first: nat, lastart: nat, k: nat, i: nat)
    requires 0 < first && k <= |items|
  {
    if lastart < first then lastart < i
    else if k <= Expired(items, first - 1) then i == if k > 0 && items[k - 1].One? then first + 1 else first
    else i == Min(items[k - 1].Hi(), lastart) + 1
  }

  /** The articles from `first` up to `i` are as they will be, as far as the first `k` items say. */
  predicate Settled(arts: Arts, items: seq<Item>, first: nat, lastart: nat, k: nat, i: nat)
    requires 0 < first && k <= |items|
  {
    forall n :: first <= n < i && n <= lastart && At(arts, n).present ==>
      (At(arts, n).unread <==> n !in Denote(items) && !(n == first && StrayAt(items, first, k)))
  }

  /** `b` is `a` with the existing articles from `i` up to `min` unread, and those from there through `max` read. */
  ghost predicate Marked(a: Arts, b: Arts, i: nat, min: nat, max: int) {
    forall n: nat :: At(b, n) ==
      if i <= n < min then (if At(a, n).present then At(a, n).(unread := true) else At(a, n))
      else if i <= n <= max then At(a, n).(unread := false)
      else At(a, n)
  }

  /** Items that end below `first` come first, and those that do not lie in order after it. */
  lemma Outside(items: seq<Item>, first: nat, k: nat, n: nat)
    requires 0 < first && Lined(items, 1) && k <= |items|
    requires k > 0 ==> items[k - 1].Hi() < n
    requires k < |items| ==> n < items[k].Lo()
    requires Expired(items, first - 1) <= k && first <= n
    ensures n !in Denote(items)
  {
    hide Item.Lo, Item.Hi, Denote;
    forall i | 0 <= i < k ensures items[i].Hi() < n {
      if i < k - 1 { assert Before(items[i], items[k - 1], 1); }
    }
    NotYet(items, n, k);
  }

  lemma BelowStep(a: Arts, b: Arts, items: seq<Item>, first: nat, lastart: nat, k: nat, i: nat)
    requires 0 < first <= lastart && Lined(items, 1) && k < Expired(items, first - 1)
    requires Reached(items, first, lastart, k, i) && Settled(a, items, first, lastart, k, i)
    requires Marked(a, b, i, FromArt(items[k], first, lastart), ToArt(items[k], first, lastart))
    ensures var i2 := ToArt(items[k], first, lastart) + 1;
      && 0 <= i2 && Reached(items, first, lastart, k + 1, i2) && Settled(b, items, first, lastart, k + 1, i2)
      && Tally(b, first, i2) == Tally(a, first, i) + Tally(b, i, FromArt(items[k], first, lastart))
  {
    hide Denote, Item.Lo, Item.Hi;
    BelowEnds(items, first, k);
    var i2 := ToArt(items[k], first, lastart) + 1;
    assert Settled(b, items, first, lastart, k + 1, i2);
    TallyNone(a, first, i);
    TallyNone(b, first, i2);
  }

  lemma BelowEnds(items: seq<Item>, first: nat, k: nat)
    requires 0 < first && Lined(items, 1) && k < Expired(items, first - 1)
    ensures items[k].Hi() < first && (items[k].Lo() < first || Empty(items[k]))
      && (items[k].One? ==> items[k].Lo() == items[k].Hi())
  {
  }

  /** Where an item that does not lie wholly below `first` begins and ends. */
  lemma AboveEnds(items: seq<Item>, first: nat, lastart: nat, k: nat, i: nat)
    requires 0 < first <= lastart && Lined(items, 1) && Expired(items, first - 1) <= k < |items|
    requires Reached(items, first, lastart, k, i)
    ensures var min, i2 := FromArt(items[k], first, lastart), ToArt(items[k], first, lastart) + 1;
      && first <= min <= i2 == Min(items[k].Hi(), lastart) + 1 && first <= i <= i2
      && (min == items[k].Lo() || (min == first && items[k].Lo() < first)
        || (min == lastart + 1 && lastart < items[k].Lo()))
      && first <= items[k].Hi() && items[k].Lo() <= items[k].Hi() && (min < i ==> min == first)
    ensures k > 0 && i <= lastart ==> items[k - 1].Hi() < i
    ensures StrayAt(items, first, k) ==> first < i
    ensures StrayAt(items, first, k) == StrayAt(items, first, k + 1)
  {
    hide Item.Lo, Item.Hi;
    AtOrAfter(items, first, k);
    if k > 0 { assert Before(items[k - 1], items[k], 1); }
  }

  lemma AtOrAfter(items: seq<Item>, first: nat, k: nat)
    requires 0 < first && Lined(items, 1) && Expired(items, first - 1) <= k < |items|
    ensures first <= items[k].Hi() && items[k].Lo() <= items[k].Hi()
      && (items[k].One? ==> items[k].Lo() == items[k].Hi())
  {
    var j := Expired(items, first - 1);
    if j < k { assert Before(items[j], items[k], 1); }
  }

  lemma AboveSettled(a: Arts, b: Arts, items: seq<Item>, first: nat, lastart: nat, k: nat, i: nat)
    requires 0 < first <= lastart && Lined(items, 1) && Expired(items, first - 1) <= k < |items|
    requires Reached(items, first, lastart, k, i) && Settled(a, items, first, lastart, k, i)
    requires Marked(a, b, i, FromArt(items[k], first, lastart), ToArt(items[k], first, lastart))
    ensures 0 <= ToArt(items[k], first, lastart) + 1
      && Settled(b, items, first, lastart, k + 1, ToArt(items[k], first, lastart) + 1)
  {
    hide Item.Lo, Item.Hi, Denote, FromArt, ToArt, Reached, StrayAt, Lined, Expired;
    AboveEnds(items, first, lastart, k, i);
    var min, i2 := FromArt(items[k], first, lastart), ToArt(items[k], first, lastart) + 1;
    forall n | i <= n < i2 && n <= lastart ensures n in Denote(items) <==> min <= n {
      if n < min { Outside(items, first, k, n); } else { Found(items, n, k); }
    }
  }

  lemma AboveStep(a: Arts, b: Arts, items: seq<Item>, first: nat, lastart: nat, k: nat, i: nat)
    requires 0 < first <= lastart && Lined(items, 1) && Expired(items, first - 1) <= k < |items|
    requires Reached(items, first, lastart, k, i) && Settled(a, items, first, lastart, k, i)
    requires Marked(a, b, i, FromArt(items[k], first, lastart), ToArt(items[k], first, lastart))
    ensures var i2 := ToArt(items[k], first, lastart) + 1;
      && 0 <= i2 && Reached(items, first, lastart, k + 1, i2) && Settled(b, items, first, lastart, k + 1, i2)
      && Tally(b, first, i2) == Tally(a, first, i) + Tally(b, i, FromArt(items[k], first, lastart))
  {
    hide Item.Lo, Item.Hi, Denote, FromArt, ToArt, StrayAt, Lined, Expired, Settled;
    AboveEnds(items, first, lastart, k, i);
    AboveSettled(a, b, items, first, lastart, k, i);
    var min, i2 := FromArt(items[k], first, lastart), ToArt(items[k], first, lastart) + 1;
    var from := if i < min then min else i;
    TallyAgrees(a, b, first, i);
    TallySplit(b, first, i, i2);
    TallySplit(b, i, from, i2);
    TallyNone(b, from, i2);
  }

  /** With the first article beyond the last there is nothing to mark. */
  lemma BeyondStep(a: Arts, b: Arts, items: seq<Item>, first: nat, lastart: nat, k: nat, i: nat)
    requires 0 < first && lastart < first && k < |items| && Reached(items, first, lastart, k, i)
    requires Marked(a, b, i, FromArt(items[k], first, lastart), ToArt(items[k], first, lastart))
    ensures var i2 := ToArt(items[k], first, lastart) + 1;
      && 0 <= i2 && Reached(items, first, lastart, k + 1, i2) && Settled(b, items, first, lastart, k + 1, i2)
      && Tally(b, first, i2) == 0 == Tally(b, i, FromArt(items[k], first, lastart))
  {
  }

  lemma ItemStep(a: Arts, b: Arts, items: seq<Item>, first: nat, lastart: nat, k: nat, i: nat)
    requires 0 < first && Lined(items, 1) && k < |items|
    requires Reached(items, first, lastart, k, i) && Settled(a, items, first, lastart, k, i)
    requires Marked(a, b, i, FromArt(items[k], first, lastart), ToArt(items[k], first, lastart))
    requires lastart < first ==> Tally(a, first, i) == 0
    ensures var i2 := ToArt(items[k], first, lastart) + 1;
      && 0 <= i2 && Reached(items, first, lastart, k + 1, i2) && Settled(b, items, first, lastart, k + 1, i2)
      && Tally(b, first, i2) == Tally(a, first, i) + Tally(b, i, FromArt(items[k], first, lastart))
      && (lastart < first ==> Tally(b, first, i2) == 0)
  {
    hide Lined, Reached, Settled, Tally, FromArt, ToArt, Marked, Expired;
    if lastart < first { BeyondStep(a, b, items, first, lastart, k, i); }
    else if k < Expired(items, first - 1) { BelowStep(a, b, items, first, lastart, k, i); }
    else { AboveStep(a, b, items, first, lastart, k, i); }
  }

  lemma LastEnds(items: seq<Item>, first: nat, lastart: nat, i: nat)
    requires 0 < first <= lastart && Lined(items, 1) && Reached(items, first, lastart, |items|, i)
    ensures first <= i <= lastart + 1
    ensures items != [] && i <= lastart ==> items[|items| - 1].Hi() < i
    ensures StrayAt(items, first, |items|) ==> first < i
  {
    hide Item.Lo, Item.Hi, Lined;
    var k := |items|;
    if Expired(items, first - 1) < k { AtOrAfter(items, first, k - 1); }
  }

  /** The articles after the last item, all unread when they exist. */
  lemma LastStep(a: Arts, b: Arts, items: seq<Item>, first: nat, lastart: nat, i: nat)
    requires 0 < first <= lastart && Lined(items, 1)
    requires Reached(items, first, lastart, |items|, i) && Settled(a, items, first, lastart, |items|, i)
    requires Marked(a, b, i, lastart + 1, i - 1)
    ensures Settled(b, items, first, lastart, |items|, lastart + 1)
    ensures first <= i <= lastart + 1 && Tally(b, first, lastart + 1) == Tally(a, first, i) + Tally(b, i, lastart + 1)
  {
    hide Item.Lo, Item.Hi, Denote, Lined, Reached, StrayAt, Expired;
    LastEnds(items, first, lastart, i);
    forall n | i <= n <= lastart ensures n !in Denote(items) {
      Outside(items, first, |items|, n);
    }
    TallyAgrees(a, b, first, i);
    TallySplit(b, first, i, lastart + 1);
  }

  /** An article before and after: only the unread flag differs, and only where `first` and `lastart` allow. */
  predicate KeptOne(x: Art, y: Art, inside: bool) {
    y == x.(unread := y.unread) && (!x.present ==> y.unread ==> x.unread) && (!inside ==> y == x)
  }

  ghost predicate Kept(a: Arts, b: Arts, first: nat, lastart: nat) {
    forall n: nat :: KeptOne(At(a, n), At(b, n), first <= n <= lastart)
  }

  lemma KeptStep(a: Arts, b: Arts, c: Arts, first: nat, lastart: nat, i: nat, min: nat, max: int)
    requires Kept(a, b, first, lastart) && Marked(b, c, i, min, max)
    requires (first <= i && min <= lastart + 1 && max <= lastart) || (min <= i && max < i)
    ensures Kept(a, c, first, lastart)
  {
    forall n: nat ensures KeptOne(At(a, n), At(c, n), first <= n <= lastart) {
      assert KeptOne(At(a, n), At(b, n), first <= n <= lastart);
    }
  }

  /** Marking the articles before `min` unread and then those through `max` read. */
  lemma MarkedBoth(a: Arts, b: Arts, c: Arts, i: nat, min: nat, max: int)
    requires Marked(a, b, i, min, i - 1) && Marked(b, c, if i < min then min else i, if i < min then min else i, max)
    ensures Marked(a, c, i, min, max) && Tally(b, i, min) == Tally(c, i, min)
  {
    TallyAgrees(b, c, i, min);
  }

  lemma StartMarking(a: Arts, items: seq<Item>, absfirst: nat, first: nat, lastart: nat, k: nat)
    requires 0 < absfirst && k == (if Opens(items) then 1 else 0) && Lined(items, 1)
      && first == FirstArt(items, absfirst)
    ensures Reached(items, first, lastart, k, first) && Settled(a, items, first, lastart, k, first)
    ensures Tally(a, first, first) == 0 && Kept(a, a, first, lastart)
  {
  }

  lemma StepBounds(items: seq<Item>, first: nat, lastart: nat, k: nat, i: nat)
    requires 0 < first && k < |items| && Lined(items, 1) && Reached(items, first, lastart, k, i)
    ensures FromArt(items[k], first, lastart) <= lastart + 1 && ToArt(items[k], first, lastart) <= lastart
    ensures first <= i || (FromArt(items[k], first, lastart) <= i && ToArt(items[k], first, lastart) < i)
  {
  }

  /** There is no comma after the last item. */
  lemma NoneLeft(line: string, pads: seq<nat>, items: seq<Item>, k: nat, s: nat)
    requires line == Pieces(pads, items, |items|) && k <= |items| && s == |Pieces(pads, items, k)| <= |line|
    ensures Find(line, ',', s) == |line| <==> k == |items|
  {
    hide Pieces, Find, Piece;
    if k == |items| { NoPiece(line, pads, items); } else { PieceAt(line, pads, items, k, s); }
  }

  /** What rc_to_bits does to the flags. */
  ghost predicate Loaded(a: Arts, b: Arts, items: seq<Item>, absfirst: nat, lastart: nat)
    requires 0 < absfirst
  {
    var first := FirstArt(items, absfirst);
    forall n: nat :: At(b, n) == At(a, n).(unread := At(b, n).unread)
      && (n < absfirst ==> At(b, n) == At(a, n))
      && (lastart < n ==> (At(b, n).unread <==> At(a, n).unread && !(absfirst <= n < first)))
      && (absfirst <= n <= lastart ==>
            if At(a, n).present then (At(b, n).unread <==> !Covers(items, first, n))
              else (At(b, n).unread ==> At(a, n).unread))
  }

  lemma LoadedAll(a: Arts, mid: Arts, b: Arts, items: seq<Item>, absfirst: nat, lastart: nat)
    requires 0 < absfirst && Lined(items, 1)
    requires var first := FirstArt(items, absfirst);
      && Marked(a, mid, absfirst, absfirst, first - 1) && Kept(mid, b, first, lastart)
      && (first <= lastart ==> Settled(b, items, first, lastart, |items|, lastart + 1))
    ensures Loaded(a, b, items, absfirst, lastart)
  {
    hide Denote, Item.Lo, Item.Hi, Lined, Expired;
    var first := FirstArt(items, absfirst);
    forall n | absfirst <= n < first ensures n in Denote(items) {
      ValueOfOne();
      assert items[0].Lo() == 1 by { OpensAtOne(items); }
      Found(items, n, 0);
    }
  }

  /** The articles after the last item marked, the flags are as the whole list says. */
  lemma Finish(a: Arts, mid: Arts, c: Arts, b: Arts, items: seq<Item>, absfirst: nat, lastart: nat, i: nat)
    requires 0 < absfirst && Lined(items, 1)
    requires var first := FirstArt(items, absfirst);
      && Marked(a, mid, absfirst, absfirst, first - 1) && Kept(mid, c, first, lastart)
      && Reached(items, first, lastart, |items|, i) && Settled(c, items, first, lastart, |items|, i)
      && (lastart < first ==> Tally(c, first, i) == 0)
    requires Marked(c, b, i, lastart + 1, i - 1)
    ensures Loaded(a, b, items, absfirst, lastart)
    ensures var first := FirstArt(items, absfirst);
      Tally(b, first, lastart + 1) == Tally(c, first, i) + Tally(b, i, lastart + 1)
  {
    hide Lined, Reached, Settled, Loaded, Opens, FirstArt, Kept, At;
    var first := FirstArt(items, absfirst);
    if first <= lastart {
      LastEnds(items, first, lastart, i);
      LastStep(c, b, items, first, lastart, i);
      KeptStep(mid, c, b, first, lastart, i, lastart + 1, lastart);
    } else {
      assert lastart < i by { BeyondLast(items, first, lastart, i); }
      KeptStep(mid, c, b, first, lastart, i, lastart + 1, i - 1);
    }
    LoadedAll(a, mid, b, items, absfirst, lastart);
  }

  lemma BeyondLast(items: seq<Item>, first: nat, lastart: nat, i: nat)
    requires 0 < first && lastart < first && Reached(items, first, lastart, |items|, i)
    ensures lastart < i
  {
  }

  lemma OpensAtOne(items: seq<Item>)
    requires Opens(items)
    ensures items[0].Lo() == 1
  {
    ValueOfOne();
  }

  // ----- the line printed from the flags

  /** The list holds the articles below `absfirst` and those from there up to `i` that are not unread. */
  ghost predicate Printed(arts: Arts, items: seq<Item>, absfirst: nat, i: nat) {
    forall n: nat :: n in Denote(items) <==> 1 <= n < i && (n < absfirst || !At(arts, n).unread)
  }

  /** The last item ends below `i`, and next to it only when article `i` is unread or beyond the last. */
  predicate RoomAt(arts: Arts, items: seq<Item>, lastart: nat, i: nat) {
    items != [] && items[|items| - 1].Hi() < i
      && (i <= lastart && items[|items| - 1].Hi() + 1 == i ==> At(arts, i).unread)
  }

  function Written(lo: nat, hi: nat): Item {
    if hi > lo then Span(Word(Dec(lo)), Word(Dec(hi))) else One(Word(Dec(lo)))
  }

  /** After the first run, single articles stand as single numbers and all others as runs. */
  predicate Shaped(items: seq<Item>) {
    forall i :: 1 <= i < |items| ==> (items[i].One? <==> items[i].Lo() == items[i].Hi())
  }

  lemma StaysShaped(items: seq<Item>, lo: nat, hi: nat)
    requires Shaped(items) && lo <= hi
    ensures Shaped(items + [Written(lo, hi)])
  {
    hide Value, Dec;
    var it := Written(lo, hi);
    assert it.Lo() == lo && it.Hi() == hi;
  }

  /** One more run of read articles at the end of the list. */
  lemma PrintRun(arts: Arts, items: seq<Item>, absfirst: nat, lastart: nat, lo: nat, hi: nat)
    requires 0 < absfirst <= lo <= hi <= lastart && Lined(items, 2) && RoomAt(arts, items, lastart, lo)
    requires Printed(arts, items, absfirst, lo)
    requires forall n :: lo <= n <= hi ==> !At(arts, n).unread
    requires hi < lastart ==> At(arts, hi + 1).unread
    ensures var more := items + [Written(lo, hi)];
      && Lined(more, 2) && RoomAt(arts, more, lastart, hi + 1) && Printed(arts, more, absfirst, hi + 1)
      && Ahead([1], more, |more|) == Ahead([1], items, |items|) + Written(lo, hi).Show() + ","
  {
    hide Value, Dec, Denote, Ahead, Item.Show;
    var it := Written(lo, hi);
    assert it.Lo() == lo && it.Hi() == hi;
    DenoteJoined(items, [it]);
    DenoteOne(it);
    OneAtEnd(items, it);
    RunAtEnd(items, it);
  }

  lemma OneAtEnd(items: seq<Item>, it: Item)
    requires items != []
    ensures var more := items + [it]; Ahead([1], more, |more|) == Ahead([1], items, |items|) + it.Show() + ","
  {
    hide Ahead, Item.Show;
    var more := items + [it];
    AheadNext([1], more, |items|);
    AheadSame([1], items, [1], more, |items|);
    assert Blanks(0) == "";
  }

  lemma RunAtEnd(items: seq<Item>, it: Item)
    requires Lined(items, 2) && items != [] && 1 <= it.Lo() <= it.Hi() && items[|items| - 1].Hi() + 2 <= it.Lo()
    ensures Lined(items + [it], 2)
  {
    hide Item.Lo, Item.Hi;
    var r := items + [it];
    forall i, j | 0 <= i < j < |r| ensures Before(r[i], r[j], 2) {
      if j == |items| && i < |items| - 1 { assert Before(items[i], items[|items| - 1], 2); }
    }
  }

  lemma PrintNone(arts: Arts, items: seq<Item>, absfirst: nat, lastart: nat, i: nat)
    requires absfirst <= i <= lastart && At(arts, i).unread && RoomAt(arts, items, lastart, i)
      && Printed(arts, items, absfirst, i)
    ensures RoomAt(arts, items, lastart, i + 1) && Printed(arts, items, absfirst, i + 1)
  {
  }

  lemma {:induction false} CountNone(arts: Arts, lo: nat, mid: nat, hi: nat)
    requires lo <= mid <= hi && forall n :: mid <= n < hi ==> !At(arts, n).unread
    ensures UnreadCount(arts, lo, hi) == UnreadCount(arts, lo, mid)
    decreases hi - mid
  {
    if mid < hi { CountNone(arts, lo, mid, hi - 1); }
  }

  lemma RunText(lo: nat, hi: nat, s: string)
    ensures s + Dec(lo) + (if hi > lo then "-" + Dec(hi) + "," else ",") == s + Written(lo, hi).Show() + ","
  {
    hide Dec;
  }

  lemma Looser(items: seq<Item>)
    requires Lined(items, 2)
    ensures Lined(items, 1)
  {
    hide Item.Lo, Item.Hi;
    forall i, j | 0 <= i < j < |items| ensures Before(items[i], items[j], 1) {
      assert Before(items[i], items[j], 2);
    }
  }

  /** The comma at the end taken back. */
  lemma StripComma(s: string, items: seq<Item>)
    requires items != [] && s == Ahead([1], items, |items|)
    ensures s != "" && s[..|s| - 1] == Line([1], items)
  {
    hide Ahead, Line;
    AtEnd([1], items);
  }

  lemma FirstRun(i: nat)
    requires 0 < i
    ensures var it := Span(ONE, Word(Dec(i - 1)));
      it.Lo() == 1 && it.Hi() == i - 1 && it.Show() == "1-" + Dec(i - 1) && Opens([it])
        && Denote([it]) == Range(1, i - 1)
  {
    hide Value, Dec, Denote;
    ValueOfOne();
    DenoteOne(Span(ONE, Word(Dec(i - 1))));
  }

  lemma FirstText(it: Item)
    ensures Ahead([1], [it], 1) == " " + it.Show() + ","
  {
    hide Item.Show;
    AheadNext([1], [it], 0);
    assert Ahead([1], [it], 0) == " " && Blanks(0) == "";
  }

  /** The first run of a printed line. */
  lemma PrintFirst(arts: Arts, absfirst: nat, lastart: nat, i: nat)
    requires 0 < absfirst <= i && (i <= lastart ==> At(arts, i).unread)
    requires forall n :: absfirst <= n < i ==> !At(arts, n).unread
    ensures var items := [Span(ONE, Word(Dec(i - 1)))];
      && Lined(items, 2) && RoomAt(arts, items, lastart, i) && Printed(arts, items, absfirst, i)
      && Ahead([1], items, |items|) == " 1-" + Dec(i - 1) + ","
      && Opens(items) && items[0].Hi() == i - 1
  {
    hide Value, Dec, Denote, Opens, Ahead, Item.Lo, Item.Hi, Item.Show, Range;
    FirstRun(i);
    FirstText(Span(ONE, Word(Dec(i - 1))));
  }

  class Newsgroup {
    const ngptr: NgData
    var absfirst: nat
    var firstart: nat
    var lastart: nat
    var arts: Arts
    var subjects: map<nat, Subj>
    var selectedOnly: bool
    var selectedCount: int
    var missingCount: int
    var chaseCount: int
    var checkCount: int

    constructor (np: NgData, absfirst: nat, lastart: nat, arts: Arts)
      ensures ngptr == np && this.absfirst == absfirst && this.lastart == lastart && this.arts == arts
    {
      ngptr, this.absfirst, firstart, this.lastart, this.arts := np, absfirst, absfirst, lastart, arts;
      subjects, selectedOnly, selectedCount, missingCount, chaseCount, checkCount := map[], false, 0, 0, 0, 0;
    }

    /** Existing articles from `i` up to `min` become unread; how many is returned. */
    method MarkUnread(i: nat, min: nat) returns (count: nat)
      modifies this`arts
      ensures Marked(old(arts), arts, i, min, i - 1)
      ensures count == Tally(arts, i, min)
    {
      count := 0;
      for n := i to if i < min then min else i
        invariant Marked(old(arts), arts, i, n, i - 1)
        invariant count == Tally(arts, i, n)
      {
        ghost var was := arts;
        if At(arts, n).present {
          arts := SetUnread(arts, n, true);
          count := count + 1;
        }
        TallyAgrees(was, arts, i, n);
      }
    }

    /** Articles from `i` through `max` become read. */
    method MarkRead(i: nat, max: int)
      modifies this`arts
      ensures Marked(old(arts), arts, i, i, max)
    {
      for n := i to if i <= max then max + 1 else i
        invariant Marked(old(arts), arts, i, i, n - 1)
      {
        arts := SetUnread(arts, n, false);
      }
    }

    /** The articles before a run, and those in it. */
    method MarkPiece(i: nat, min: nat, max: int) returns (count: nat)
      modifies this`arts
      ensures Marked(old(arts), arts, i, min, max)
      ensures count == Tally(arts, i, min)
    {
      hide Marked, Tally;
      ghost var was := arts;
      count := MarkUnread(i, min);
      ghost var half := arts;
      MarkRead(if i < min then min else i, max);
      MarkedBoth(was, half, arts, i, min, max);
    }

    /** set_firstart: a line that begins with a run from 1 says where the unread articles may begin. */
    method SetFirstart(s: string, ghost pads: seq<nat>, ghost items: seq<Item>) returns (opens: bool)
      requires 0 < absfirst && s == Pieces(pads, items, |items|) && Lined(items, 1)
      modifies this`firstart
      ensures opens == Opens(items) && firstart == FirstArt(items, absfirst)
      ensures opens <==> items != [] && items[0].Span? && items[0].first.text == "1"
      ensures absfirst <= firstart && (firstart == absfirst || opens)
      ensures opens ==> items[0].Hi() < firstart && (firstart == absfirst || firstart == items[0].Hi() + 1)
    {
      hide Pieces, Lined, Find, Item.Hi, SkipDigits, Atol;
      var from := SkipBlanks(s, 0);
      StartsItem(s, pads, items);
      if from + 2 <= |s| && s[from..from + 2] == "1-" {
        firstart := Atol(s, from + 2) + 1;
        if firstart < absfirst { firstart := absfirst; }
        return true;
      }
      firstart := absfirst;
      return false;
    }

    /** One item of the line: its end, where the run begins and ends, and whether it has a dash. */
    method ReadPiece(s: string, from: nat, ghost pads: seq<nat>, ghost items: seq<Item>, ghost k: nat)
      returns (c: nat, min: nat, max: int)
      requires 0 < firstart && s == Pieces(pads, items, |items|) && k < |items| && from == |Pieces(pads, items, k)|
      ensures c < |s| && c + 1 == |Pieces(pads, items, k + 1)|
      ensures min == FromArt(items[k], firstart, lastart) && max == ToArt(items[k], firstart, lastart)
    {
      hide Pieces, Piece, Find, Atol, Item.Lo, Item.Hi;
      PieceAt(s, pads, items, k, from);
      c := Find(s, ',', from);
      var piece := s[from..c];
      var h := Find(piece, '-', 0);
      PieceNumbers(pads, items, k);
      min := Atol(piece, 0);
      if min < firstart { min := firstart; }
      if min > lastart { min := lastart + 1; }
      if h == |piece| {
        max := min;
      } else {
        max := Atol(piece, h + 1);
        if max < min { max := min - 1; }
      }
      if max > lastart { max := lastart; }
    }

    /** Past a run from 1 at the start, with the articles in it read. */
    method PassOpening(mybuf: string, opens: bool, ghost pads: seq<nat>, ghost items: seq<Item>)
      returns (s: nat, ghost k: nat)
      requires 0 < absfirst && mybuf == Pieces(pads, items, |items|) && opens == Opens(items)
        && firstart == FirstArt(items, absfirst)
      modifies this`arts
      ensures k == (if opens then 1 else 0) <= |items| && s == |Pieces(pads, items, k)| <= |mybuf|
      ensures Marked(old(arts), arts, absfirst, absfirst, firstart - 1)
    {
      hide Find, Piece, Item.Lo, Item.Hi, FromArt, ToArt;
      s, k := 0, 0;
      if opens {
        var c, _, _ := ReadPiece(mybuf, 0, pads, items, 0);
        s, k := c + 1, 1;
        MarkRead(absfirst, firstart - 1);
      }
    }

    /** rc_to_bits: the flags of the articles from the list of those read, and the count of unread ones. */
    method RcToBits()
      requires ngptr.Valid() && 0 < absfirst
      modifies this`firstart, this`arts, ngptr`toread
      ensures firstart == FirstArt(ngptr.items, absfirst)
      ensures Loaded(old(arts), arts, ngptr.items, absfirst, lastart)
      ensures ngptr.toread == Tally(arts, firstart, lastart + 1)
    {
      hide Pieces, From, Line, Find, Item.Lo, Item.Hi, Lined, Expired, Denote, FromArt, ToArt, Tally, Marked, Kept,
        Reached, Settled, Loaded, Opens, FirstArt, At;
      ghost var pads, items := ngptr.pads, ngptr.items;
      SkipsBlanks(ngptr.rcline, pads, items);
      var mybuf := ngptr.rcline[SkipBlanks(ngptr.rcline, 0)..];
      if mybuf != "" { mybuf := mybuf + ","; }
      ScratchCopy(ngptr.rcline, pads, items);
      var opens := SetFirstart(mybuf, pads, items);
      var s, k := PassOpening(mybuf, opens, pads, items);
      ghost var mid := arts;
      var unread: nat, i: nat := 0, firstart;
      StartMarking(mid, items, absfirst, firstart, lastart, k);
      while Find(mybuf, ',', s) < |mybuf|
        invariant firstart == FirstArt(items, absfirst) && ngptr.toread == old(ngptr.toread)
        invariant k <= |items| && s == |Pieces(pads, items, k)| <= |mybuf| && mybuf == Pieces(pads, items, |items|)
        invariant Reached(items, firstart, lastart, k, i) && Settled(arts, items, firstart, lastart, k, i)
        invariant unread == Tally(arts, firstart, i) && (lastart < firstart ==> unread == 0)
        invariant Kept(mid, arts, firstart, lastart)
        decreases |items| - k
      {
        NoneLeft(mybuf, pads, items, k, s);
        var c, min, max := ReadPiece(mybuf, s, pads, items, k);
        ghost var was := arts;
        var count := MarkPiece(i, min, max);
        StepBounds(items, firstart, lastart, k, i);
        KeptStep(mid, was, arts, firstart, lastart, i, min, max);
        ItemStep(was, arts, items, firstart, lastart, k, i);
        unread := unread + count;
        i := max + 1;
        s := c + 1;
        k := k + 1;
      }
      NoneLeft(mybuf, pads, items, k, s);
      ghost var was := arts;
      var count := MarkUnread(i, lastart + 1);
      Finish(old(arts), mid, was, arts, items, absfirst, lastart, i);
      unread := unread + count;
      ngptr.toread := unread;
    }

    /** The articles read from `i` on, through the last of the run. */
    method RunEnd(from: nat) returns (i: nat)
      requires from <= lastart && !At(arts, from).unread
      ensures from <= i <= lastart && (forall n :: from <= n <= i ==> !At(arts, n).unread)
      ensures i < lastart ==> At(arts, i + 1).unread
    {
      i := from + 1;
      while i <= lastart && !At(arts, i).unread
        invariant from < i <= lastart + 1 && forall n :: from <= n < i ==> !At(arts, n).unread
      {
        i := i + 1;
      }
      i := i - 1;
    }

    /** bits_to_rc: the list printed from the flags, and the count of unread articles. */
    method BitsToRc()
      requires 0 < absfirst
      modifies ngptr`rcline, ngptr`pads, ngptr`items, ngptr`toread, ngptr`rcChanged
      ensures ngptr.Valid() && Lined(ngptr.items, 2) && Opens(ngptr.items) && absfirst <= ngptr.items[0].Hi() + 1
      ensures Printed(arts, ngptr.items, absfirst, if lastart < absfirst then absfirst else lastart + 1)
      ensures Shaped(ngptr.items) && ngptr.pads == [1] && ngptr.rcChanged
      ensures ngptr.toread == if ngptr.subscribechar == NEGCHAR then TR_UNSUB
        else UnreadCount(arts, absfirst, lastart + 1)
    {
      hide Value, Dec, Denote, Ahead, Line, Item.Show, Lined, Printed, Item.Lo, Item.Hi;
      var i := absfirst;
      while i <= lastart && !At(arts, i).unread
        invariant absfirst <= i && (i <= lastart + 1 || i == absfirst)
        invariant forall n :: absfirst <= n < i ==> !At(arts, n).unread
        invariant UnreadCount(arts, absfirst, i) == 0
      {
        i := i + 1;
      }
      var s := " 1-" + Dec(i - 1) + ",";
      ghost var items := [Span(ONE, Word(Dec(i - 1)))];
      PrintFirst(arts, absfirst, lastart, i);
      var count := 0;
      while i <= lastart
        invariant absfirst <= i && (i <= lastart + 1 || i == absfirst)
        invariant Lined(items, 2) && RoomAt(arts, items, lastart, i) && Printed(arts, items, absfirst, i)
        invariant Opens(items) && absfirst <= items[0].Hi() + 1 && Shaped(items)
        invariant s == Ahead([1], items, |items|) && count == UnreadCount(arts, absfirst, i)
      {
        if At(arts, i).unread {
          count := count + 1;
          PrintNone(arts, items, absfirst, lastart, i);
        } else {
          var oldi := i;
          i := RunEnd(i);
          RunText(oldi, i, s);
          s := s + Dec(oldi) + (if i > oldi then "-" + Dec(i) + "," else ",");
          PrintRun(arts, items, absfirst, lastart, oldi, i);
          CountNone(arts, absfirst, oldi, i + 1);
          StaysShaped(items, oldi, i);
          items := items + [Written(oldi, i)];
        }
        i := i + 1;
      }
      StripComma(s, items);
      Looser(items);
      ngptr.rcline := s[..|s| - 1];
      ngptr.pads, ngptr.items := [1], items;
      ngptr.toread := if ngptr.subscribechar == NEGCHAR then TR_UNSUB else count;
      ngptr.rcChanged := true;
    }

    // ----- marking single articles

    /** The flags and counts together. */
    ghost function Counted(): Counts
      reads this, ngptr
    {
      Counts(arts, subjects, absfirst, firstart, ngptr.toread, selectedOnly, selectedCount, missingCount, chaseCount,
        checkCount)
    }

    /** check_first: unread articles begin no later than `min`. */
    method CheckFirst(min: nat)
      modifies this`firstart
      ensures Counted() == LowerFirst(old(Counted()), min)
      ensures firstart <= old(firstart) && (firstart <= min || firstart <= absfirst)
      ensures firstart == old(firstart) || (firstart == min && absfirst <= min)
        || (firstart == absfirst && min < absfirst)
    {
      var from := min;
      if from < absfirst { from := absfirst; }
      if from < firstart { firstart := from; }
    }

    method FollowSubject(n: nat)
      requires n in arts
      modifies this`arts, this`subjects, this`selectedCount
      ensures Counted() == Followed(old(Counted()), n)
    {
      if arts[n].subj.Some? {
        var subj := SubjAt(subjects, arts[n].subj.value);
        if selectedOnly {
          if subj.sel {
            arts := arts[n := arts[n].(sel := true)];
            selectedCount := selectedCount + 1;
          }
        } else {
          subjects := subjects[arts[n].subj.value := subj.(visit := true)];
        }
      }
    }

    method OneMore(n: nat)
      requires n in arts
      modifies this`firstart, this`arts, this`subjects, this`selectedCount, ngptr`toread
      ensures Counted() == More(old(Counted()), n)
      ensures old(arts[n].unread) ==> Counted() == old(Counted())
      ensures !old(arts[n].unread) ==>
        var c, ap := old(Counted()), old(arts[n]);
        var chosen := ap.subj.Some? && selectedOnly && SubjAt(c.subjects, ap.subj.value).sel;
        && Counted() == c.(
             arts := c.arts[n := ap.(unread := true, del := false, sel := ap.sel || chosen)],
             subjects := if ap.subj.None? || selectedOnly then c.subjects
               else c.subjects[ap.subj.value := SubjAt(c.subjects, ap.subj.value).(visit := true)],
             firstart := firstart, toread := c.toread + 1, selected := c.selected + (if chosen then 1 else 0))
        && firstart <= c.firstart && (firstart <= n || firstart <= absfirst)
        && (firstart == c.firstart || (firstart == n && absfirst <= n) || (firstart == absfirst && n < absfirst))
    {
      hide Followed, LowerFirst, SubjAt;
      if !arts[n].unread {
        MoreIs(Counted(), n);
        FirstIs(Counted(), n);
        CheckFirst(n);
        arts := arts[n := arts[n].(unread := true, del := false)];
        ngptr.toread := ngptr.toread + 1;
        FollowSubject(n);
      }
    }

    method OneLess(n: nat)
      requires n in arts
      modifies this`arts, this`selectedCount, ngptr`toread
      ensures Counted() == Less(old(Counted()), n)
      ensures n in arts && var ap := old(arts[n]);
        && arts == old(arts)[n := ap.(unread := false, sel := ap.sel && !ap.unread)]
        && selectedCount == old(selectedCount) - (if ap.sel && ap.unread then 1 else 0)
        && ngptr.toread == old(ngptr.toread) - (if ap.unread && old(ngptr.toread) > TR_NONE then 1 else 0)
    {
      hide Less;
      LessIs(Counted(), n);
      LessArts(arts, n);
      if arts[n].unread {
        arts := arts[n := arts[n].(unread := false)];
        if arts[n].sel {
          selectedCount := selectedCount - 1;
          arts := arts[n := arts[n].(sel := false)];
        }
        if ngptr.toread > TR_NONE { ngptr.toread := ngptr.toread - 1; }
      }
    }

    method OneMissing(n: nat)
      requires n in arts
      modifies this`arts, this`selectedCount, this`missingCount, ngptr`toread
      ensures Counted() == Missing(old(Counted()), n)
      ensures n in arts && var ap := old(arts[n]);
        && arts == old(arts)[n := ap.(present := false, unread := false, sel := ap.sel && !ap.unread, hasRe := false,
             yankback := false, cached := true, threaded := true)]
        && missingCount == old(missingCount) + (if ap.unread then 1 else 0)
        && selectedCount == old(selectedCount) - (if ap.sel && ap.unread then 1 else 0)
        && ngptr.toread == old(ngptr.toread) - (if ap.unread && old(ngptr.toread) > TR_NONE then 1 else 0)
    {
      hide Missing, Less;
      MissingIs(Counted(), n);
      missingCount := missingCount + if arts[n].unread then 1 else 0;
      OneLess(n);
      ghost var was := arts[n];
      arts := arts[n := arts[n].(hasRe := false, yankback := false, present := false, cached := true,
        threaded := true)];
      UpdateTwice(old(arts), n, was, arts[n]);
    }

    method MarkAsRead(n: nat)
      requires n in arts
      modifies this`arts, this`selectedCount, this`chaseCount, this`checkCount, ngptr`toread
      ensures Counted() == Read(old(Counted()), n)
      ensures n in arts && var ap := old(arts[n]);
        && arts == old(arts)[n := ap.(unread := false, sel := ap.sel && !ap.unread, kchase := ap.kchase || ap.xrefs)]
        && chaseCount == old(chaseCount) + (if ap.xrefs && !ap.kchase then 1 else 0)
        && checkCount == old(checkCount) + 1
        && selectedCount == old(selectedCount) - (if ap.sel && ap.unread then 1 else 0)
        && ngptr.toread == old(ngptr.toread) - (if ap.unread && old(ngptr.toread) > TR_NONE then 1 else 0)
    {
      hide Read, Less;
      ReadIs(Counted(), n);
      OneLess(n);
      ghost var was := arts[n];
      UpdateTwice(old(arts), n, was, was.(kchase := true));
      assert was.(kchase := was.kchase || was.xrefs) == if was.xrefs && !was.kchase then was.(kchase := true) else was;
      if arts[n].xrefs && !arts[n].kchase {
        arts := arts[n := arts[n].(kchase := true)];
        chaseCount := chaseCount + 1;
      }
      checkCount := checkCount + 1;
    }
  }
}

/** How a list of read articles is written on a newsrc line: blanks, then the items with commas between them, and blanks
    after a comma where there are any. */
module RangeText {
  import opened Decimals
  import opened ReadRanges

  function Blanks(b: nat): (s: string)
    ensures |s| == b && forall i :: 0 <= i < b ==> s[i] == ' '
  {
    seq(b, _ => ' ')
  }

  /** How many blanks stand before item `i`. */
  function Pad(pads: seq<nat>, i: nat): nat {
    if i < |pads| then pads[i] else 0
  }

  /** The line from item `k` on. */
  function From(pads: seq<nat>, items: seq<Item>, k: nat): (s: string)
    requires k <= |items|
    ensures k < |items| ==> s != "" && IsDigit(s[0])
    ensures k == |items| ==> s == ""
    decreases |items| - k, 1
  {
    if k == |items| then "" else items[k].Show() + After(pads, items, k)
  }

  /** What stands after item `k`. */
  function After(pads: seq<nat>, items: seq<Item>, k: nat): (s: string)
    requires k < |items|
    ensures s == "" || s[0] == ','
    decreases |items| - k, 0
  {
    if k + 1 == |items| then "" else "," + Blanks(Pad(pads, k + 1)) + From(pads, items, k + 1)
  }

  /** What stands before item `k` of a line, or would stand before one more item. */
  function Ahead(pads: seq<nat>, items: seq<Item>, k: nat): (s: string)
    requires k <= |items|
    ensures k > 0 ==> s != ""
  {
    if k == 0 then Blanks(Pad(pads, 0))
    else Ahead(pads, items, k - 1) + items[k - 1].Show() + "," + Blanks(Pad(pads, k))
  }

  function Line(pads: seq<nat>, items: seq<Item>): string {
    Blanks(Pad(pads, 0)) + From(pads, items, 0)
  }

  /** A run and a single number, without and with blanks. */
  lemma LineExample()
    ensures var items := [Span(ONE, Word("5")), One(Word("7"))];
      Line([1], items) == " 1-5,7" && Line([0, 2], items) == "1-5,  7"
  {
    var items := [Span(ONE, Word("5")), One(Word("7"))];
    assert Blanks(0) == "" && Blanks(1) == " " && Blanks(2) == "  ";
    forall pads: seq<nat> ensures From(pads, items, 0) == "1-5," + Blanks(Pad(pads, 1)) + "7" {
      assert After(pads, items, 1) == "" && From(pads, items, 1) == "7" + "" == "7";
    }
  }

  lemma Regroup(a: string, b: string, c: string, d: string)
    ensures a + (b + ("," + c + d)) == (a + b + "," + c) + d
  {
  }

  lemma AheadNext(pads: seq<nat>, items: seq<Item>, k: nat)
    requires k < |items|
    ensures Ahead(pads, items, k + 1) == Ahead(pads, items, k) + items[k].Show() + "," + Blanks(Pad(pads, k + 1))
  {
  }

  lemma FromNext(pads: seq<nat>, items: seq<Item>, k: nat)
    requires k + 1 < |items|
    ensures From(pads, items, k) ==
      items[k].Show() + ("," + Blanks(Pad(pads, k + 1)) + From(pads, items, k + 1))
  {
  }

  lemma OneOn(pads: seq<nat>, items: seq<Item>, k: nat)
    requires k + 1 < |items|
    ensures Ahead(pads, items, k) + From(pads, items, k) == Ahead(pads, items, k + 1) + From(pads, items, k + 1)
  {
    hide Item.Show, Blanks, Ahead, From;
    AheadNext(pads, items, k);
    FromNext(pads, items, k);
    Regroup(Ahead(pads, items, k), items[k].Show(), Blanks(Pad(pads, k + 1)), From(pads, items, k + 1));
  }

  /** A line is what stands before an item, and the line from there on. */
  lemma {:induction false} AtItem(pads: seq<nat>, items: seq<Item>, k: nat)
    requires k <= |items| && (k == |items| ==> k == 0)
    ensures Line(pads, items) == Ahead(pads, items, k) + From(pads, items, k)
  {
    hide From, Blanks, Item.Show;
    if k > 0 {
      hide Line, Ahead;
      AtItem(pads, items, k - 1);
      OneOn(pads, items, k - 1);
    }
  }

  /** The end of the line, with a comma, is where one more item would go. */
  lemma AtEnd(pads: seq<nat>, items: seq<Item>)
    requires items != [] && Pad(pads, |items|) == 0
    ensures Line(pads, items) + "," == Ahead(pads, items, |items|)
  {
    hide Item.Show, Line, Ahead;
    AtItem(pads, items, |items| - 1);
    AheadNext(pads, items, |items| - 1);
    assert From(pads, items, |items| - 1) == items[|items| - 1].Show() + "";
  }

  // ----- items replaced

  lemma {:induction false} AheadSame(pads: seq<nat>, items: seq<Item>, c: seq<nat>, r: seq<Item>, p: nat)
    requires p <= |items| && p <= |r| && r[..p] == items[..p] && forall i :: 0 <= i <= p ==> Pad(c, i) == Pad(pads, i)
    ensures Ahead(c, r, p) == Ahead(pads, items, p)
  {
    if p > 0 {
      assert r[..p - 1] == r[..p][..p - 1] && items[..p - 1] == items[..p][..p - 1] && r[..p][p - 1] == r[p - 1];
      AheadSame(pads, items, c, r, p - 1);
      assert items[..p][p - 1] == items[p - 1];
    }
  }

  lemma {:induction false} FromSame(pads: seq<nat>, items: seq<Item>, q: nat, c: seq<nat>, r: seq<Item>, p: nat)
    requires q <= |items| && p <= |r| && r[p..] == items[q..]
    requires forall i :: q < i < |items| ==> Pad(pads, i) == Pad(c, i - q + p)
    ensures From(c, r, p) == From(pads, items, q)
    decreases |items| - q
  {
    assert |r| - p == |r[p..]| == |items[q..]| == |items| - q;
    if q < |items| {
      assert r[p] == r[p..][0] == items[q..][0] == items[q];
      assert r[p + 1..] == r[p..][1..] == items[q..][1..] == items[q + 1..];
      FromSame(pads, items, q + 1, c, r, p + 1);
      if q + 1 < |items| { assert Pad(c, p + 1) == Pad(pads, q + 1); }
    }
  }

  /** The blanks when the items from `p` to `q` are replaced by one, which takes those before item `p`, and `x` are left
      before the one after it. */
  function SplicePads(pads: seq<nat>, n: nat, p: nat, q: nat, x: nat): seq<nat>
    requires p <= q <= n
  {
    seq(n - q + p + 1, i requires 0 <= i => SplicePad(pads, p, q, x, i))
  }

  function SplicePad(pads: seq<nat>, p: nat, q: nat, x: nat, i: nat): nat {
    if i <= p then Pad(pads, i) else if i == p + 1 then x else Pad(pads, i - p - 1 + q)
  }

  lemma SpliceText(pads: seq<nat>, items: seq<Item>, p: nat, q: nat, it: Item, x: nat)
    requires p <= q <= |items|
    ensures Line(SplicePads(pads, |items|, p, q, x), Splice(items, p, q, it)) ==
      Ahead(pads, items, p) + (it.Show() + if q == |items| then "" else "," + Blanks(x) + From(pads, items, q))
  {
    hide Item.Show, Ahead, Line, Blanks;
    var c, r := SplicePads(pads, |items|, p, q, x), Splice(items, p, q, it);
    AtItem(c, r, p);
    AheadSame(pads, items, c, r, p);
    FromSame(pads, items, q, c, r, p + 1);
    assert From(c, r, p) == it.Show() + After(c, r, p);
  }

  lemma CutAfter(line: string, s: nat, a: string, rest: string)
    requires s <= |line| && line[s..] == a + ("-" + rest)
    ensures var t := s + |a|;
      t < |line| && line[t] == '-' && line[..t + 1] == line[..s] + a + "-" && line[t + 1..] == rest
  {
    var t := s + |a|;
    assert |line| == s + |a| + 1 + |rest|;
    assert forall i :: s <= i < |line| ==> line[i] == line[s..][i - s];
    assert line[t + 1..] == line[s..][|a| + 1..] == rest;
  }

  /** Reading a run: two numerals with a dash between them. */
  lemma ReadRun(line: string, s: nat, a: string, c: string, rest: string)
    requires s <= |line| && Numeral(a) && Numeral(c) && (rest == "" || !IsDigit(rest[0]))
    requires line[s..] == a + ("-" + (c + rest))
    ensures var t := SkipDigits(line, s);
      && t == s + |a| && t < |line| && line[t] == '-' && IsDigit(line[s]) && Atol(line, s) == Value(a)
      && line[..t + 1] == line[..s] + a + "-" && line[t + 1..] == c + rest
      && IsDigit(line[t + 1]) && Atol(line, t + 1) == Value(c) && line[SkipDigits(line, t + 1)..] == rest
  {
    hide Atol, SkipDigits, Value, Digits;
    ReadNumeral(line, s, a, "-" + (c + rest));
    CutAfter(line, s, a, c + rest);
    ReadNumeral(line, s + |a| + 1, c, rest);
  }

  lemma ItemAt(line: string, pads: seq<nat>, items: seq<Item>, k: nat, s: nat)
    requires k < |items| && line == Line(pads, items) && s == |Ahead(pads, items, k)|
    ensures s < |line| && line[..s] == Ahead(pads, items, k) && line[s..] == items[k].Show() + After(pads, items, k)
  {
    hide Ahead, Line;
    AtItem(pads, items, k);
  }

  /** Reading item `k` when it is a single number. */
  lemma ReadOne(line: string, pads: seq<nat>, items: seq<Item>, k: nat, s: nat)
    requires k < |items| && line == Line(pads, items) && s == |Ahead(pads, items, k)| && items[k].One?
    ensures s < |line| && IsDigit(line[s]) && Atol(line, s) == items[k].Lo() == items[k].Hi()
    ensures var t := SkipDigits(line, s); line[t..] == After(pads, items, k) && (t == |line| || line[t] == ',')
    ensures line[..s] == Ahead(pads, items, k)
  {
    hide From, Ahead, Value, SkipDigits, Line;
    ItemAt(line, pads, items, k, s);
    ReadNumeral(line, s, items[k].num.text, After(pads, items, k));
    var t := SkipDigits(line, s);
    assert t < |line| ==> line[t] == line[t..][0];
  }

  /** Reading item `k` when it is a run: two numbers with a dash between them. */
  lemma ReadSpan(line: string, pads: seq<nat>, items: seq<Item>, k: nat, s: nat)
    requires k < |items| && line == Line(pads, items) && s == |Ahead(pads, items, k)| && items[k].Span?
    ensures s < |line| && IsDigit(line[s]) && Atol(line, s) == items[k].Lo()
    ensures var t := SkipDigits(line, s);
      && t < |line| && line[t] == '-' && line[..t + 1] == Ahead(pads, items, k) + items[k].first.text + "-"
      && line[t + 1..] == items[k].last.text + After(pads, items, k)
      && IsDigit(line[t + 1]) && Atol(line, t + 1) == items[k].Hi()
        && line[SkipDigits(line, t + 1)..] == After(pads, items, k)
    ensures line[..s] == Ahead(pads, items, k)
  {
    hide From, Ahead, Value, SkipDigits, Line, After;
    ItemAt(line, pads, items, k, s);
    var it := items[k];
    assert line[s..] == it.first.text + ("-" + (it.last.text + After(pads, items, k)));
    ReadRun(line, s, it.first.text, it.last.text, After(pads, items, k));
  }

  /** The position of the next digit, or the end. */
  function NextDigit(s: string, i: nat): (j: nat)
    requires i <= |s|
    ensures i <= j <= |s|
    decreases |s| - i
  {
    if i < |s| && !IsDigit(s[i]) then NextDigit(s, i + 1) else i
  }

  lemma {:induction false} NextPast(s: string, i: nat, b: nat)
    requires i + b < |s| && IsDigit(s[i + b]) && forall j :: i <= j < i + b ==> s[j] == ' '
    ensures NextDigit(s, i) == i + b
    decreases b
  {
    if b > 0 { NextPast(s, i + 1, b - 1); }
  }

  /** From the end of item `k` the next digit is that of the next item, or there is none. */
  lemma NextItem(line: string, pads: seq<nat>, items: seq<Item>, k: nat, e: nat)
    requires k < |items| && line == Line(pads, items) && e <= |line| && line[e..] == After(pads, items, k)
    ensures NextDigit(line, e) == if k + 1 < |items| then |Ahead(pads, items, k + 1)| else |line|
    ensures e == |line| - |After(pads, items, k)| && line == line[..e] + After(pads, items, k)
  {
    hide Line, Ahead, Item.Show, Blanks;
    assert line == line[..e] + line[e..];
    if k + 1 < |items| {
      var b := Pad(pads, k + 1);
      AtItem(pads, items, k + 1);
      assert line[e] == line[e..][0] == ',';
      forall j | e + 1 <= j < e + 1 + b ensures line[j] == ' ' {
        assert line[j] == line[e..][j - e] == Blanks(b)[j - e - 1];
      }
      assert line[e + 1 + b] == line[e..][1 + b] == From(pads, items, k + 1)[0];
      NextPast(line, e + 1, b);
      assert |line| == |Ahead(pads, items, k + 1)| + |From(pads, items, k + 1)|;
    }
  }
}

/** One newsgroup of a newsrc file: the in-place edits of its list of read articles, and the count of unread ones. */
module NewsrcGroup {
  import opened Decimals
  import opened ReadRanges
  import opened RangeText

  const TR_NONE := 0
  const TR_UNSUB := -1
  const TR_BOGUS := -3

  const NEGCHAR := '!'

  /** `pads` are the blanks before each item; there may be some on a line without items. */
  datatype Group = Group(listed: bool, pads: seq<nat>, items: seq<Item>, toread: int, ngmax: nat)

  predicate Fits(pads: seq<nat>, items: seq<Item>) {
    |pads| <= |items| || |pads| <= 1
  }

  /** Whether blanks stand before the item after which `n` belongs. */
  predicate Loose(pads: seq<nat>, items: seq<Item>, n: nat) {
    Pad(pads, Passed(items, n)) > 0
  }

  /** The list is nothing but an empty run, or ends with one, where `n` belongs. */
  predicate Glued(items: seq<Item>, k: nat) {
    0 < k == |items| && items[k - 1].Hi() == 0 && items[k - 1].Span?
  }

  /** The blanks once `n` is added. */
  function InsertPads(pads: seq<nat>, items: seq<Item>, n: nat): seq<nat> {
    var k, loose := Passed(items, n), Loose(pads, items, n);
    if Glued(items, k) then pads
    else SplicePads(pads, |items|, if Extends(items, k, n, loose) then k - 1 else k,
      if Meets(items, k, n) then k + 1 else k, if Meets(items, k, n) then Pad(pads, k + 1) else 0)
  }

  /** The blanks once everything below `a` is marked read. */
  function ExpirePads(pads: seq<nat>, items: seq<Item>, a: nat): seq<nat> {
    var k := Expired(items, a);
    if a <= 1 || (Landed(items, a, k) && items[k].Lo() == 1) then pads
    else SplicePads(OneLead(pads), |items|, 0, if Landed(items, a, k) then k + 1 else k,
      if Landed(items, a, k) then Pad(pads, k + 1) else 0)
  }

  /** One blank at the start of the line. */
  function OneLead(pads: seq<nat>): seq<nat> {
    [1] + if pads == [] then [] else pads[1..]
  }

  /** A group whose highest article number is raised to `n` if it was lower. */
  function Raise(g: Group, n: nat): Group {
    if n <= g.ngmax then g
    else g.(ngmax := n, toread := if g.toread > TR_NONE then g.toread + (n - g.ngmax) else g.toread)
  }

  function Add(g: Group, n: nat): Group {
    if n == 0 || !g.listed || g.toread == TR_BOGUS then g
    else if n in Denote(g.items) then Raise(g, n)
    else
      var r := Raise(g, n);
      r.(pads := InsertPads(g.pads, g.items, n), items := Insert(g.items, n, Loose(g.pads, g.items, n)),
        toread := if r.toread > TR_NONE then r.toread - 1 else r.toread)
  }

  predicate WasRead(g: Group, n: nat) {
    n == 0 || (g.listed && (g.toread == TR_BOGUS || (n <= g.ngmax && n in Denote(g.items))))
  }

  function Trim(g: Group, a: nat): Group {
    g.(pads := ExpirePads(g.pads, g.items, a), items := Expire(g.items, a))
  }

  lemma {:induction false} PastBlanks(s: string, i: nat, b: nat)
    requires i <= b <= |s| && (forall j :: i <= j < b ==> s[j] == ' ') && (b < |s| ==> s[b] != ' ')
    ensures SkipBlanks(s, i) == b
    decreases b - i
  {
    if i < b { PastBlanks(s, i + 1, b); }
  }

  lemma SkipsBlanks(line: string, pads: seq<nat>, items: seq<Item>)
    requires line == Line(pads, items)
    ensures |line| == Pad(pads, 0) + |From(pads, items, 0)| && SkipBlanks(line, 0) == Pad(pads, 0)
  {
    hide From, Item.Show, SkipBlanks;
    var b := Pad(pads, 0);
    assert line[..b] == Blanks(b) && line[b..] == From(pads, items, 0);
    forall j | 0 <= j < b ensures line[j] == ' ' { assert line[j] == Blanks(b)[j]; }
    if b < |line| { assert line[b] == line[b..][0]; }
    PastBlanks(line, 0, b);
  }

  lemma ReadNumber(line: string, pads: seq<nat>, items: seq<Item>, k: nat, s: nat)
    requires k < |items| && line == Line(pads, items) && s == |Ahead(pads, items, k)|
    ensures s < |line| && IsDigit(line[s]) && Atol(line, s) == items[k].Lo()
  {
    if items[k].One? { ReadOne(line, pads, items, k, s); } else { ReadSpan(line, pads, items, k, s); }
  }

  // ----- the new line

  /** The line up to where the number, or what is left of it, goes. */
  predicate Cut(mbuf: string, pads: seq<nat>, items: seq<Item>, k: nat, n: nat, loose: bool)
    requires k <= |items|
  {
    if Extends(items, k, n, loose) then mbuf == Ahead(pads, items, k - 1) + items[k - 1].Start().text + "-"
    else mbuf == Ahead(pads, items, k)
  }

  lemma EndsWith(mbuf: string, pads: seq<nat>, items: seq<Item>, k: nat, n: nat, loose: bool)
    requires k <= |items| && Cut(mbuf, pads, items, k, n, loose)
    ensures |mbuf| > 0 && mbuf[|mbuf| - 1] == '-' <==> Extends(items, k, n, loose)
  {
    if !Extends(items, k, n, loose) && 0 < k {
      hide Ahead, Item.Show;
      AheadNext(pads, items, k - 1);
    }
  }

  /** The line with the number in it, as what stands before the number, its item, and the rest. */
  lemma InsertText(pads: seq<nat>, items: seq<Item>, k: nat, n: nat, loose: bool)
    requires k == Passed(items, n) && !Glued(items, k) && loose == Loose(pads, items, n)
    ensures var q := if Meets(items, k, n) then k + 1 else k;
      Line(InsertPads(pads, items, n), Insert(items, n, loose)) ==
        Ahead(pads, items, if Extends(items, k, n, loose) then k - 1 else k) +
        (Joined(items, k, n, loose).Show() + if q == |items| then "" else
          "," + Blanks(if Meets(items, k, n) then Pad(pads, k + 1) else 0) + From(pads, items, q))
  {
    hide From, Ahead, Line, Blanks, Joined, SplicePads, Splice, Item.Show;
    var p, q := if Extends(items, k, n, loose) then k - 1 else k, if Meets(items, k, n) then k + 1 else k;
    SpliceText(pads, items, p, q, Joined(items, k, n, loose), if Meets(items, k, n) then Pad(pads, k + 1) else 0);
  }

  /** The number joins the item after it. */
  lemma PutMeeting(mbuf: string, pads: seq<nat>, items: seq<Item>, k: nat, n: nat, loose: bool)
    requires k == Passed(items, n) < |items| && loose == Loose(pads, items, n)
    requires Cut(mbuf, pads, items, k, n, loose) && Meets(items, k, n)
    ensures (if Extends(items, k, n, loose) then mbuf else mbuf + Dec(n) + "-") +
      (items[k].End().text + After(pads, items, k)) == Line(InsertPads(pads, items, n), Insert(items, n, loose))
  {
    hide From, Ahead, Line, Dec, Value, InsertPads, Insert, Blanks, Passed;
    InsertText(pads, items, k, n, loose);
    if Extends(items, k, n, loose) {
      DashText(Ahead(pads, items, k - 1), items[k - 1].Start().text, items[k].End().text, After(pads, items, k));
    } else {
      DashText(Ahead(pads, items, k), Dec(n), items[k].End().text, After(pads, items, k));
    }
  }

  lemma DashText(a: string, b: string, c: string, d: string)
    ensures (a + b + "-") + (c + d) == a + ((b + "-" + c) + d)
  {
  }

  /** What stands before the items from `q` on, when an item is put in front of them. */
  function Rest(pads: seq<nat>, items: seq<Item>, q: nat): string
    requires q <= |items|
  {
    if q == |items| then "" else "," + From(pads, items, q)
  }

  /** The number does not join the item after it. */
  lemma PutApart(mbuf: string, pads: seq<nat>, items: seq<Item>, k: nat, n: nat, loose: bool)
    requires k == Passed(items, n) && !Glued(items, k) && loose == Loose(pads, items, n)
    requires Cut(mbuf, pads, items, k, n, loose) && !Meets(items, k, n)
    ensures mbuf + Dec(n) + Rest(pads, items, k) == Line(InsertPads(pads, items, n), Insert(items, n, loose))
  {
    hide From, Ahead, Line, Dec, Value, InsertPads, Insert, Blanks, Passed;
    InsertText(pads, items, k, n, loose);
    NoBlanks(From(pads, items, k));
    if Extends(items, k, n, loose) {
      PutText(Ahead(pads, items, k - 1), items[k - 1].Start().text + "-", Dec(n), Rest(pads, items, k));
    } else {
      PutText(Ahead(pads, items, k), "", Dec(n), Rest(pads, items, k));
    }
  }

  lemma NoBlanks(s: string)
    ensures "," + Blanks(0) + s == "," + s
  {
    assert Blanks(0) == "";
  }

  lemma PutText(a: string, b: string, c: string, d: string)
    ensures (a + b) + c + d == a + ((b + c) + d)
  {
  }

  /** The items before `k` have been read, and `s` is at item `k` or at the end. */
  predicate ScannedTo(line: string, pads: seq<nat>, items: seq<Item>, k: nat, s: nat, lastnum: nat, maxt: int)
    requires k <= |items| && s <= |line|
  {
    && s == (if k < |items| then |Ahead(pads, items, k)| else |line|)
    && lastnum == (if k == 0 then 0 else items[k - 1].Hi())
    && (maxt < 0 <==> k == 0 || items[k - 1].One?)
    && (0 <= maxt ==> maxt <= |line| && line[..maxt] == Ahead(pads, items, k - 1) + items[k - 1].first.text + "-")
  }

  lemma StartScan(line: string, pads: seq<nat>, items: seq<Item>)
    requires line == Line(pads, items)
    ensures Pad(pads, 0) <= |line| && ScannedTo(line, pads, items, 0, Pad(pads, 0), 0, -1)
  {
  }

  lemma Found(items: seq<Item>, n: nat, k: nat)
    requires k < |items| && items[k].Lo() <= n <= items[k].Hi()
    ensures n in Denote(items)
  {
    InDenote(items, n);
  }

  /** With the first `k` items below `n` and the next above it, `n` is not in the list. */
  lemma NotYet(items: seq<Item>, n: nat, k: nat)
    requires Lined(items, 1) && k <= |items|
    requires forall i :: 0 <= i < k ==> items[i].Hi() < n
    requires k < |items| ==> n < items[k].Lo()
    ensures n !in Denote(items)
  {
    hide Denote, Item.Lo, Item.Hi;
    InDenote(items, n);
    forall i | k <= i < |items| ensures n < items[i].Lo() {
      if k < i { assert Before(items[k], items[i], 1); }
    }
  }

  /** The line cut after the dash of the run before. */
  lemma CutAtDash(line: string, pads: seq<nat>, items: seq<Item>, k: nat, s: nat, lastnum: nat, maxt: int, n: nat,
      loose: bool)
    requires k <= |items| && s <= |line| && ScannedTo(line, pads, items, k, s, lastnum, maxt)
    ensures Extends(items, k, n, loose) <==>
      lastnum != 0 && n == lastnum + 1 && (0 <= maxt || k == |items| || !loose)
    ensures Extends(items, k, n, loose) && 0 <= maxt ==> Cut(line[..maxt], pads, items, k, n, loose)
  {
    hide Value, Ahead, Item.Show, Item.Hi;
  }

  /** The line cut before an item. */
  lemma CutAtItem(line: string, pads: seq<nat>, items: seq<Item>, k: nat, s: nat, lastnum: nat, maxt: int)
    requires k <= |items| && s <= |line| && line == Line(pads, items)
      && ScannedTo(line, pads, items, k, s, lastnum, maxt)
    ensures k < |items| || k == 0 ==> line[..s] == Ahead(pads, items, k)
  {
    hide Value, Ahead, Item.Show, Item.Hi, Line;
    AtItem(pads, items, if k < |items| then k else 0);
    if k == |items| == 0 { assert line[..s] == line; }
  }

  /** The last character before an item that is not the first. */
  lemma AheadEnds(pads: seq<nat>, items: seq<Item>, k: nat)
    requires 0 < k <= |items| && Lined(items, 1)
    ensures var s := Ahead(pads, items, k); |s| > 0 && (s[|s| - 1] == ',' <==> Pad(pads, k) == 0)
    ensures items[k - 1].One? ==> items[k - 1].Hi() != 0
  {
    hide Ahead, Item.Show;
    AheadNext(pads, items, k - 1);
  }

  /** A comma at the end made a dash. */
  lemma Dashed(mbuf: string, pads: seq<nat>, items: seq<Item>, k: nat, n: nat, loose: bool)
    requires 0 < k <= |items| && items[k - 1].One? && Extends(items, k, n, loose)
    requires mbuf == Ahead(pads, items, k) && Pad(pads, k) == 0
    ensures |mbuf| > 0 && mbuf[|mbuf| - 1] == ',' && Cut(mbuf[..|mbuf| - 1] + "-", pads, items, k, n, loose)
  {
    hide Ahead, Value;
    AheadNext(pads, items, k - 1);
    assert mbuf[..|mbuf| - 1] == Ahead(pads, items, k - 1) + items[k - 1].Show();
  }

  /** What follows the first number of item `k` when it is skipped, or kept as the end of a run. */
  lemma AfterStart(line: string, pads: seq<nat>, items: seq<Item>, k: nat, s: nat)
    requires s <= |line| && k < |items| && line == Line(pads, items) && s == |Ahead(pads, items, k)|
    ensures var t := SkipDigits(line, s);
      if items[k].Span? then t < |line| && line[t] == '-'
        && line[t + 1..] == items[k].End().text + After(pads, items, k)
      else !(t < |line| && line[t] == '-') && s <= |line| && line[s..] == items[k].End().text + After(pads, items, k)
  {
    hide From, Ahead, SkipDigits, Value, Line;
    if items[k].One? {
      ReadOne(line, pads, items, k, s);
      ItemAt(line, pads, items, k, s);
    } else {
      ReadSpan(line, pads, items, k, s);
    }
  }

  lemma FromItem(line: string, pads: seq<nat>, items: seq<Item>, k: nat, s: nat)
    requires k < |items| && line == Line(pads, items) && s == |Ahead(pads, items, k)|
    ensures s <= |line| && line[s..] == From(pads, items, k)
  {
    hide Item.Show, Line, Ahead, From;
    AtItem(pads, items, k);
  }

  /** There is a digit where the scan stopped just when an item is left. */
  lemma MoreNumbers(line: string, pads: seq<nat>, items: seq<Item>, k: nat, s: nat, lastnum: nat, maxt: int)
    requires k <= |items| && s <= |line| && line == Line(pads, items)
      && ScannedTo(line, pads, items, k, s, lastnum, maxt)
    ensures s < |line| && IsDigit(line[s]) <==> k < |items|
    ensures s == if k < |items| then |Ahead(pads, items, k)| else |line|
  {
    hide Line, From, Ahead;
    if k < |items| { ReadNumber(line, pads, items, k, s); }
  }

  /** Digits put right after a run that is the whole of the list. */
  lemma PutAfterHollow(line: string, pads: seq<nat>, items: seq<Item>, n: nat, loose: bool)
    requires line == Line(pads, items) && Glued(items, Passed(items, n)) && Lined(items, 1)
    ensures line + Dec(n) == Line(InsertPads(pads, items, n), Insert(items, n, loose))
  {
    hide Ahead, Dec, Value, Line, Item.Hi, Passed, Item.Show;
    var k := |items| - 1;
    var it := items[k];
    DigitsJoined(it.last.text, Dec(n));
    var with := Span(it.first, Word(it.last.text + Dec(n)));
    var r := Insert(items, n, loose);
    assert r == items[..k] + [with];
    AtItem(pads, items, k);
    AtItem(pads, r, k);
    AheadSame(pads, items, pads, r, k);
    ShowGrown(it, n);
  }

  lemma ShowGrown(it: Item, n: nat)
    requires it.Span? && Numeral(it.last.text + Dec(n))
    ensures Span(it.first, Word(it.last.text + Dec(n))).Show() == it.Show() + Dec(n)
  {
  }

  // ----- looking for the first number above the expired ones

  /** The numbers of the items before `k` have been read. */
  predicate AtStart(line: string, pads: seq<nat>, items: seq<Item>, k: nat, s: nat, lastnum: nat)
    requires k <= |items|
  {
    && s == (if k < |items| then |Ahead(pads, items, k)| else |line|)
    && lastnum == (if k == 0 then 0 else items[k - 1].Hi())
  }

  /** Those and the first number of the run that is item `k`. */
  predicate Midway(line: string, pads: seq<nat>, items: seq<Item>, k: nat, s: nat, lastnum: nat)
    requires k <= |items| && s <= |line|
  {
    && k < |items| && items[k].Span? && lastnum == items[k].Lo()
    && 0 < s < |line| && line[s - 1] == '-' && line[s..] == items[k].last.text + After(pads, items, k)
    && Atol(line, s) == items[k].Hi() && line[SkipDigits(line, s)..] == After(pads, items, k)
  }

  lemma NextNumber(line: string, t: nat)
    requires t + 1 < |line| && line[t] == '-' && IsDigit(line[t + 1])
    ensures NextDigit(line, t) == t + 1
  {
    assert NextDigit(line, t + 1) == t + 1;
  }

  /** One number read: on to the second number of a run, or to the next item. */
  lemma ExpireStep(line: string, pads: seq<nat>, items: seq<Item>, k: nat, landed: bool, s: nat, lastnum: nat)
    requires line == Line(pads, items) && k < |items| && s <= |line|
    requires if landed then Midway(line, pads, items, k, s, lastnum) else AtStart(line, pads, items, k, s, lastnum)
    ensures var to := NextDigit(line, SkipDigits(line, s));
      if !landed && items[k].Span? then Midway(line, pads, items, k, to, Atol(line, s))
        else AtStart(line, pads, items, k + 1, to, Atol(line, s))
    ensures Atol(line, s) == if !landed && items[k].Span? then items[k].Lo() else items[k].Hi()
  {
    hide Line, From, Ahead, SkipDigits, Atol, NextDigit, After, Item.Show, Item.Lo, Item.Hi, IsDigit;
    var t := SkipDigits(line, s);
    if landed {
      NextItem(line, pads, items, k, t);
    } else if items[k].One? {
      ReadOne(line, pads, items, k, s);
      NextItem(line, pads, items, k, t);
    } else {
      ReadSpan(line, pads, items, k, s);
      NextNumber(line, t);
    }
  }

  /** The items up to `a` are those that were read whole. */
  lemma StopsAt(items: seq<Item>, a: nat, k: nat, landed: bool)
    requires Lined(items, 1) && 1 < a && k <= |items| && Expired(items, a) == k + Expired(items[k..], a)
    requires k < |items| ==> if landed then items[k].Span? && items[k].Lo() <= a < items[k].Hi() else a < items[k].Lo()
    requires landed ==> k < |items|
    ensures Expired(items, a) == k && (landed <==> Landed(items, a, k))
  {
    hide Item.Lo, Item.Hi;
  }

  /** A dash before the place where the reading stopped shows that it is inside a run. */
  lemma StopsShort(line: string, pads: seq<nat>, items: seq<Item>, k: nat, s: nat, lastnum: nat, landed: bool)
    requires line == Line(pads, items) && k <= |items| && s <= |line|
    requires if landed then Midway(line, pads, items, k, s, lastnum) else AtStart(line, pads, items, k, s, lastnum)
    ensures s < |line| && s > 0 && line[s - 1] == '-' <==> landed
    ensures s < |line| <==> k < |items|
  {
    if landed {
      assert |line[s..]| > 0;
    } else {
      NoDash(line, pads, items, k, s);
    }
  }

  lemma NoDash(line: string, pads: seq<nat>, items: seq<Item>, k: nat, s: nat)
    requires line == Line(pads, items) && k <= |items| && s <= |line|
    requires s == if k < |items| then |Ahead(pads, items, k)| else |line|
    ensures s < |line| <==> k < |items|
    ensures 0 < s < |line| ==> line[s - 1] != '-'
  {
    hide Item.Show, Line, Ahead;
    if k < |items| {
      AtItem(pads, items, k);
      EndsWith(Ahead(pads, items, k), pads, items, k, 0, false);
      assert 0 < s ==> line[s - 1] == Ahead(pads, items, k)[s - 1];
    }
  }

  lemma Unexpired(pads: seq<nat>, items: seq<Item>, a: nat)
    requires a <= 1
    ensures Expire(items, a) == items && ExpirePads(pads, items, a) == pads
  {
  }

  lemma ExpireNothing(pads: seq<nat>, items: seq<Item>, a: nat, k: nat)
    requires k == Expired(items, a) && Landed(items, a, k) && items[k].Lo() == 1
    ensures Expire(items, a) == items && ExpirePads(pads, items, a) == pads
  {
  }

  /** A line that begins with a blank and a run from 1, with `x` blanks before the next item. */
  lemma OpenedLine(pads: seq<nat>, items: seq<Item>, q: nat, w: Num, x: nat)
    requires q <= |items|
    ensures Line(SplicePads(OneLead(pads), |items|, 0, q, x), Splice(items, 0, q, Span(ONE, w))) ==
      " 1-" + (w.text + if q == |items| then "" else "," + Blanks(x) + From(pads, items, q))
  {
    hide Line, SplicePads, Splice;
    SpliceText(OneLead(pads), items, 0, q, Span(ONE, w), x);
    assert Ahead(OneLead(pads), items, 0) == " ";
    FromSame(pads, items, q, OneLead(pads), items, q);
    assert Span(ONE, w).Show() == "1-" + w.text;
  }

  /** The line from the second number of the run on, after a 1 and a dash. */
  lemma ExpireLanded(line: string, pads: seq<nat>, items: seq<Item>, a: nat, k: nat, s: nat, lastnum: nat)
    requires 1 < a && k == Expired(items, a) && Landed(items, a, k) && s <= |line|
      && Midway(line, pads, items, k, s, lastnum)
    requires lastnum != 1
    ensures " 1-" + line[s..] == Line(ExpirePads(pads, items, a), Expire(items, a))
  {
    hide Line, From, Item.Show, Item.Hi, Item.Lo, Expired, Splice, SplicePads, SkipDigits, Atol;
    OpenedLine(pads, items, k + 1, items[k].last, Pad(pads, k + 1));
  }

  /** The line from the next item on, after a run from 1. */
  lemma ExpireBetween(line: string, pads: seq<nat>, items: seq<Item>, a: nat, k: nat, s: nat, lastnum: nat)
    requires 1 < a && k == Expired(items, a) && !Landed(items, a, k) && s <= |line|
    requires line == Line(pads, items) && AtStart(line, pads, items, k, s, lastnum)
    ensures var numbuf := " 1-" + Dec(if lastnum != a then a - 1 else a);
      (if s < |line| then numbuf + "," + line[s..] else numbuf) == Line(ExpirePads(pads, items, a), Expire(items, a))
  {
    hide Line, From, Ahead, Dec, Value, Item.Show, Expired, Splice, SplicePads;
    NoDash(line, pads, items, k, s);
    OpenedLine(pads, items, k, Word(Dec(if lastnum != a then a - 1 else a)), 0);
    NoBlanks(From(pads, items, k));
    if k < |items| { FromItem(line, pads, items, k, s); }
  }

  // ----- the blanks of the new line

  lemma InsertFits(pads: seq<nat>, items: seq<Item>, n: nat)
    requires Fits(pads, items)
    ensures Fits(InsertPads(pads, items, n), Insert(items, n, Loose(pads, items, n)))
  {
  }

  lemma ExpireFits(pads: seq<nat>, items: seq<Item>, a: nat)
    requires Fits(pads, items)
    ensures Fits(ExpirePads(pads, items, a), Expire(items, a))
  {
  }

  // ----- the record of a group

  class NgData {
    var rcline: string     // what follows the name and its colon
    var numoffset: nat
    var toread: int
    var ngmax: nat
    var abs1st: nat
    var rcChanged: bool
    var subscribechar: char
    ghost var pads: seq<nat>
    ghost var items: seq<Item>

    ghost predicate Valid()
      reads this
    {
      rcline == Line(pads, items) && Lined(items, 1) && Fits(pads, items)
    }

    ghost function State(): Group
      reads this
    {
      Group(numoffset != 0, pads, items, toread, ngmax)
    }

    /**
     * Reading the line up to where `artnum` belongs: the items that start at or below it. `done` says it was found.
     * Otherwise `s` is the next item or the end, `lastnum` the last number read and `maxt` where it stands when it ends
     * a run.
     */
    method Scan(artnum: nat) returns (done: bool, s: nat, lastnum: nat, maxt: int, ghost k: nat)
      requires Valid()
      ensures k <= |items| && s <= |rcline|
      ensures done <==> artnum in Denote(items)
      ensures !done ==> k == Passed(items, artnum) && ScannedTo(rcline, pads, items, k, s, lastnum, maxt)
    {
      hide Line, From, Ahead, SkipDigits, Atol, NextDigit, After, Denote, Item.Show, Item.Lo, Item.Hi, Lined,
        Passed, IsDigit, SkipBlanks;
      SkipsBlanks(rcline, pads, items);
      s := SkipBlanks(rcline, 0);
      var t := s;
      done, lastnum, maxt, k := false, 0, -1, 0;
      assert ScannedTo(rcline, pads, items, 0, s, 0, -1) by { StartScan(rcline, pads, items); }
      while s < |rcline| && IsDigit(rcline[s]) && Atol(rcline, s) <= artnum
        invariant k <= |items| && s <= |rcline| && ScannedTo(rcline, pads, items, k, s, lastnum, maxt)
        invariant forall i :: 0 <= i < k ==> items[i].Lo() <= artnum && items[i].Hi() < artnum
        decreases |items| - k
      {
        var min := Atol(rcline, s);
        t := SkipDigits(rcline, s);
        if items[k].One? { ReadOne(rcline, pads, items, k, s); } else { ReadSpan(rcline, pads, items, k, s); }
        if t < |rcline| && rcline[t] == '-' {
          t := t + 1;
          var max := Atol(rcline, t);
          if artnum <= max {
            Found(items, artnum, k);
            return true, s, lastnum, maxt, k;
          }
          lastnum, maxt := max, t;
          t := SkipDigits(rcline, t);
        } else {
          if artnum == min {
            Found(items, artnum, k);
            return true, s, lastnum, maxt, k;
          }
          lastnum, maxt := min, -1;
        }
        NextItem(rcline, pads, items, k, t);
        t := NextDigit(rcline, t);
        s := t;
        k := k + 1;
      }
      if k < |items| { ReadNumber(rcline, pads, items, k, s); }
      PassedFrom(items, artnum, k);
      NotYet(items, artnum, k);
    }

    /** The line up to where a number that is not in it goes. */
    method CutLine(artnum: nat, s: nat, lastnum: nat, maxt: int, morenum: bool, ghost k: nat, ghost loose: bool)
      returns (mbuf: string)
      requires Valid() && k <= |items| && s <= |rcline| && ScannedTo(rcline, pads, items, k, s, lastnum, maxt)
      requires morenum <==> k < |items|
      requires loose <==> Pad(pads, k) > 0
      ensures if Glued(items, k) then mbuf == rcline else Cut(mbuf, pads, items, k, artnum, loose)
    {
      hide Line, From, Ahead, Item.Show, Item.Hi, Item.Lo, Lined;
      CutAtDash(rcline, pads, items, k, s, lastnum, maxt, artnum, loose);
      CutAtItem(rcline, pads, items, k, s, lastnum, maxt);
      if k > 0 { AheadEnds(pads, items, k); }
      if 0 <= maxt && lastnum != 0 && artnum == lastnum + 1 {
        mbuf := rcline[..maxt];
      } else {
        mbuf := rcline[..s];
        if k == |items| { assert rcline[..s] == rcline; }
        if lastnum != 0 {
          if !morenum {
            mbuf := mbuf + ",";
            AtEnd(pads, items);
          }
          if maxt < 0 && artnum == lastnum + 1 && mbuf[|mbuf| - 1] == ',' {
            Dashed(mbuf, pads, items, k, artnum, loose);
            mbuf := mbuf[..|mbuf| - 1] + "-";
          }
        }
      }
    }

    /** The number put in at the cut, and the remainder of the line after it. */
    method PutNumber(cut: string, artnum: nat, from: nat, morenum: bool, ghost k: nat, ghost loose: bool)
      returns (line: string)
      requires Valid() && k <= |items| && from <= |rcline| && k == Passed(items, artnum)
        && loose == Loose(pads, items, artnum)
      requires morenum <==> k < |items|
      requires morenum ==> from == |Ahead(pads, items, k)|
      requires !morenum ==> from == |rcline|
      requires if Glued(items, k) then cut == rcline else Cut(cut, pads, items, k, artnum, loose)
      ensures line == Line(InsertPads(pads, items, artnum), Insert(items, artnum, loose))
    {
      hide Line, From, Ahead, Item.Show, Item.Hi, Item.Lo, Lined, Dec, Passed, Cut, SkipDigits, Atol, Joined,
        Splice, After,
        InsertPads, Insert, From, Blanks;
      var mbuf, s := cut, from;
      if morenum {
        var min := Atol(rcline, s);
        ReadNumber(rcline, pads, items, k, s);
        EndsWith(mbuf, pads, items, k, artnum, loose);
        if min == artnum + 1 {
          var rangeBefore := |mbuf| > 0 && mbuf[|mbuf| - 1] == '-';
          var nextmax := SkipDigits(rcline, s);
          AfterStart(rcline, pads, items, k, s);
          if !rangeBefore { mbuf := mbuf + Dec(artnum) + "-"; }
          if nextmax < |rcline| && rcline[nextmax] == '-' { s := nextmax + 1; }
          PutMeeting(cut, pads, items, k, artnum, loose);
        } else {
          mbuf := mbuf + Dec(artnum) + ",";
          PutApart(cut, pads, items, k, artnum, loose);
          FromItem(rcline, pads, items, k, s);
        }
      } else {
        mbuf := mbuf + Dec(artnum);
        if Glued(items, k) {
          PutAfterHollow(rcline, pads, items, artnum, loose);
        } else {
          PutApart(cut, pads, items, k, artnum, loose);
        }
      }
      line := mbuf + rcline[s..];
    }

    /** The number put into the line where the scan stopped. */
    method WriteNumber(artnum: nat, s: nat, lastnum: nat, maxt: int, ghost k: nat)
      requires Valid() && 1 <= artnum && artnum !in Denote(items) && s <= |rcline|
      requires k == Passed(items, artnum) && ScannedTo(rcline, pads, items, k, s, lastnum, maxt)
      modifies this`rcline, this`pads, this`items
      ensures Valid() && pads == InsertPads(old(pads), old(items), artnum)
      ensures items == Insert(old(items), artnum, Loose(old(pads), old(items), artnum))
    {
      hide Line, Lined, Denote, Insert, Passed, SkipDigits, Ahead, ScannedTo, Cut, Item.Hi, Dec, InsertPads, Fits, From;
      ghost var loose := Loose(pads, items, artnum);
      InsertDenotes(items, 1, artnum, loose);
      InsertFits(pads, items, artnum);
      var morenum := s < |rcline| && IsDigit(rcline[s]);
      MoreNumbers(rcline, pads, items, k, s, lastnum, maxt);
      var mbuf := CutLine(artnum, s, lastnum, maxt, morenum, k, loose);
      rcline := PutNumber(mbuf, artnum, s, morenum, k, loose);
      pads, items := InsertPads(pads, items, artnum), Insert(items, artnum, loose);
    }

    /**
     * addartnum: mark an article number read, if it is not already. The highest number is raised to it. What was
     * positive as the count of unread articles grows by as much, and is one less for a number that was not in the list.
     */
    method AddArtNum(artnum: nat)
      requires Valid() && abs1st != 0
      modifies this`rcline, this`toread, this`ngmax, this`pads, this`items
      ensures Valid() && State() == Add(old(State()), artnum)
      ensures artnum == 0 || numoffset == 0 || old(toread) == TR_BOGUS ==>
        rcline == old(rcline) && toread == old(toread) && ngmax == old(ngmax)
      ensures artnum > 0 && numoffset != 0 && old(toread) != TR_BOGUS ==>
        && ngmax >= old(ngmax) && ngmax >= artnum && (ngmax == old(ngmax) || ngmax == artnum)
        && (old(toread) <= 0 ==> toread == old(toread))
        && (old(toread) > 0 ==>
              toread == old(toread) + (ngmax - old(ngmax)) - if artnum in Denote(old(items)) then 0 else 1)
        && (!Hollow(old(items)) ==> Denote(items) == Denote(old(items)) + {artnum})
    {
      hide Line, Lined, Denote, Insert, Passed, ScannedTo, InsertPads, Fits, Loose, Hollow;
      if artnum == 0 || numoffset == 0 || toread == TR_BOGUS { return; }
      if artnum > ngmax {
        if toread > TR_NONE { toread := toread + (artnum - ngmax); }
        ngmax := artnum;
      }
      var done, s, lastnum, maxt, k := Scan(artnum);
      if done {
        assert artnum in Denote(items) && Denote(items) + {artnum} == Denote(items);
        return;
      }
      InsertDenotes(items, 1, artnum, Loose(pads, items, artnum));
      WriteNumber(artnum, s, lastnum, maxt, k);
      if toread > TR_NONE { toread := toread - 1; }
    }

    /** was_read_group: whether an article is marked read, or cannot be looked up. */
    method WasReadGroup(artnum: nat) returns (read: bool)
      requires Valid()
      ensures read <==> WasRead(State(), artnum)
      ensures artnum == 0 ==> read
      ensures artnum > 0 && numoffset == 0 ==> !read
      ensures artnum > 0 && numoffset != 0 && toread == TR_BOGUS ==> read
      ensures artnum > 0 && numoffset != 0 && toread != TR_BOGUS ==>
        (read <==> artnum <= ngmax && artnum in Denote(items))
    {
      hide Line, Lined, Denote;
      if artnum == 0 { return true; }
      if numoffset == 0 { return false; }
      if toread == TR_BOGUS { return true; }
      if artnum > ngmax { return false; }
      var done, _, _, _, _ := Scan(artnum);
      return done;
    }

    /** Reading numbers up to `a`: `landed` says the next one ends a run that began at or below `a`. */
    method ScanExpired(a: nat) returns (s: nat, lastnum: nat, ghost k: nat, ghost landed: bool)
      requires Valid() && 1 < a
      ensures k == Expired(items, a) && s <= |rcline| && (landed <==> Landed(items, a, k))
      ensures if landed then Midway(rcline, pads, items, k, s, lastnum) else AtStart(rcline, pads, items, k, s, lastnum)
    {
      hide Line, From, Ahead, SkipDigits, Atol, NextDigit, After, Item.Show, Item.Lo, Item.Hi, Lined, Expired,
        IsDigit, SkipBlanks;
      SkipsBlanks(rcline, pads, items);
      s := SkipBlanks(rcline, 0);
      lastnum, k, landed := 0, 0, false;
      StartScan(rcline, pads, items);
      while s < |rcline| && Atol(rcline, s) <= a
        invariant k <= |items| && s <= |rcline| && forall i :: 0 <= i < k ==> items[i].Hi() <= a
        invariant if landed then Midway(rcline, pads, items, k, s, lastnum) && lastnum <= a
                    else AtStart(rcline, pads, items, k, s, lastnum)
        decreases |items| - k, !landed
      {
        var num := Atol(rcline, s);
        ExpireStep(rcline, pads, items, k, landed, s, lastnum);
        s := SkipDigits(rcline, s);
        s := NextDigit(rcline, s);
        landed := !landed && items[k].Span?;
        if !landed { k := k + 1; }
        lastnum := num;
      }
      if k < |items| && !landed { ReadNumber(rcline, pads, items, k, s); }
      ExpiredFrom(items, a, k);
      StopsAt(items, a, k, landed);
    }

    /** The line opened with a run from 1: with the end of the run the scan stopped in, or before the next item. */
    method WriteOpening(a1st: nat, s: nat, lastnum: nat, inRun: bool, ghost k: nat)
      requires Valid() && 1 < a1st && s <= |rcline| && k == Expired(items, a1st) && inRun == Landed(items, a1st, k)
      requires if inRun then lastnum != 1 && Midway(rcline, pads, items, k, s, lastnum)
                 else AtStart(rcline, pads, items, k, s, lastnum)
      modifies this`rcline, this`rcChanged, this`pads, this`items
      ensures Valid() && pads == ExpirePads(old(pads), old(items), a1st) && items == Expire(old(items), a1st)
      ensures rcChanged
    {
      hide Line, Lined, Denote, Expire, Ahead, Dec, Expired, After, ExpirePads, From, Blanks, Fits, Landed, AtStart,
        Midway;
      ExpireDenotes(items, 1, a1st);
      ExpireFits(pads, items, a1st);
      if inRun {
        ExpireLanded(rcline, pads, items, a1st, k, s, lastnum);
        rcline := " 1-" + rcline[s..];
      } else {
        ExpireBetween(rcline, pads, items, a1st, k, s, lastnum);
        var numbuf := " 1-" + Dec(if lastnum != a1st then a1st - 1 else a1st);
        rcline := if s < |rcline| then numbuf + "," + rcline[s..] else numbuf;
      }
      rcChanged, pads, items := true, ExpirePads(pads, items, a1st), Expire(items, a1st);
    }

    /** checkexpired: every number below the first article there is counts as read. */
    method CheckExpired(a1st: nat)
      requires Valid()
      modifies this`rcline, this`rcChanged, this`pads, this`items
      ensures Valid() && State() == Trim(old(State()), a1st)
      ensures Denote(items) == Denote(old(items)) + Below(a1st)
      ensures old(rcChanged) ==> rcChanged
      ensures rcline != old(rcline) ==> rcChanged
    {
      hide Line, Lined, Expire, Ahead, Item.Show, Item.Hi, Item.Lo, Expired, After, ExpirePads, From, Blanks, Fits,
        Landed, AtStart, Denote;
      ExpireDenotes(items, 1, a1st);
      if a1st <= 1 {
        Unexpired(pads, items, a1st);
        return;
      }
      var s, lastnum, k, landed := ScanExpired(a1st);
      StopsShort(rcline, pads, items, k, s, lastnum, landed);
      if s < |rcline| && s > 0 && rcline[s - 1] == '-' {
        if lastnum != 1 {
          WriteOpening(a1st, s, lastnum, true, k);
        } else {
          ExpireNothing(pads, items, a1st, k);
        }
      } else {
        WriteOpening(a1st, s, lastnum, false, k);
      }
    }
  }
}

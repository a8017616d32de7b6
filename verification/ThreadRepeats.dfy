// An article without a date whose References line takes one fake twice breaks the forest: the fake
// ends up in two lists, or twice in one.
module ThreadRepeats {
  import opened Options
  import opened Paths
  import opened ThreadSpec
  import opened ThreadLists
  import opened ThreadSafety
  import opened ThreadDetach
  import opened ThreadWalk
  import opened ThreadForest
  import opened ThreadOutcome

  ghost predicate Twice(f: Forest, x: MsgId) {
    || (exists p, q | p != q :: x in Kids(f, p) && x in Kids(f, q))
    || (exists p :: multiset(Kids(f, p))[x] > 1)
  }

  lemma TwiceIsWrong(f: Forest, x: MsgId)
    requires Twice(f, x)
    ensures !WellFormed(f)
  {
    if p, q :| p != q && x in Kids(f, p) && x in Kids(f, q) {
      assert KidsPoint(f) ==> Parent(f, x) == Some(p) && Parent(f, x) == Some(q);
    } else {
      var p :| multiset(Kids(f, p))[x] > 1;
      if Distinct(Kids(f, p)) { DistinctCounts(Kids(f, p), x); }
    }
  }

  /** No child list loses anything. */
  ghost predicate Grows(f: Forest, g: Forest) {
    forall p, x :: multiset(Kids(f, p))[x] <= multiset(Kids(g, p))[x]
  }

  lemma TwiceGrows(f: Forest, g: Forest, x: MsgId)
    requires Grows(f, g) && Twice(f, x)
    ensures Twice(g, x)
  {
    if p, q :| p != q && x in Kids(f, p) && x in Kids(f, q) {
      assert multiset(Kids(f, p))[x] > 0 && multiset(Kids(f, q))[x] > 0;
      assert multiset(Kids(g, p))[x] > 0 && multiset(Kids(g, q))[x] > 0;
      assert x in Kids(g, p) && x in Kids(g, q);
    } else {
      var p :| multiset(Kids(f, p))[x] > 1;
      assert multiset(Kids(g, p))[x] > 1;
    }
  }

  /** `y` is in two places for good: it is not one of the children of `m`. */
  ghost predicate Ruined(f: Forest, m: MsgId, y: MsgId) {
    Twice(f, y) && y != m && Parent(f, y).Some? && Parent(f, y) != Some(m)
  }

  /** `prev` is in a child list already and is about to be put in one again. */
  ghost predicate Doomed(f: Forest, m: MsgId, prev: MsgId) {
    && prev != m && Parent(f, prev).Some? && Parent(f, prev) != Some(m)
    && exists p :: prev in Kids(f, p)
  }

  lemma LinkGrows(f: Forest, c: MsgId)
    ensures Grows(f, LinkChild(f, c)) && (forall x :: Parent(LinkChild(f, c), x) == Parent(f, x))
    ensures Parent(f, c).Some? ==>
              var p := Parent(f, c).value;
              Kids(LinkChild(f, c), p) == InsertByDate(f, Kids(f, p), c)
  {
    var g := LinkChild(f, c);
    assert forall x :: Parent(g, x) == Parent(f, x);
    match Parent(f, c)
    case Some(p) =>
      InsertCounts(f, Kids(f, p), c);
      assert forall q | q != p :: Kids(g, q) == Kids(f, q);
    case None =>
      assert forall q :: Kids(g, q) == Kids(f, q);
  }

  lemma LinkAgain(f: Forest, c: MsgId, p: MsgId)
    requires Parent(f, c).Some? && c in Kids(f, p)
    ensures Twice(LinkChild(f, c), c)
  {
    var q := Parent(f, c).value;
    var g := LinkChild(f, c);
    LinkGrows(f, c);
    InsertCounts(f, Kids(f, q), c);
    assert multiset(Kids(f, p))[c] > 0;
    assert multiset(Kids(g, p))[c] > 0;
    assert multiset(Kids(g, q))[c] == multiset(Kids(f, q))[c] + 1;
    assert c in Kids(g, p) && c in Kids(g, q);
  }

  lemma SetParentKids(f: Forest, c: MsgId, p: Option<MsgId>)
    ensures var g := SetParent(f, c, p);
            && (forall x :: Kids(g, x) == Kids(f, x)) && (forall x | x != c :: Parent(g, x) == Parent(f, x))
            && Parent(g, c) == p
  {
  }

  // ----- The walk from a doomed state

  lemma AttachRuins(f: Forest, m: MsgId, prev: MsgId, id: MsgId, re: bool)
    requires Doomed(f, m, prev) && Subj(f, prev).None? && id != m
    ensures Ruined(Attach(f, prev, id, re), m, prev)
  {
    var h := SetParent(f, prev, Some(id));
    SetParentKids(f, prev, Some(id));
    var p :| prev in Kids(f, p);
    LinkAgain(h, prev, p);
    LinkGrows(h, prev);
  }

  lemma AttachStaysRuined(f: Forest, m: MsgId, prev: MsgId, id: MsgId, re: bool, y: MsgId)
    requires Ruined(f, m, y) && Subj(f, prev).None? && id != m
    ensures Ruined(Attach(f, prev, id, re), m, y)
  {
    var h := SetParent(f, prev, Some(id));
    SetParentKids(f, prev, Some(id));
    assert Grows(f, h);
    TwiceGrows(f, h, y);
    LinkGrows(h, prev);
    TwiceGrows(h, LinkChild(h, prev), y);
  }

  lemma GetStaysRuined(f: Forest, m: MsgId, id: MsgId, y: MsgId)
    ensures Ruined(f, m, y) ==> Ruined(GetArticle(f, id), m, y)
    ensures Doomed(f, m, y) ==> Doomed(GetArticle(f, id), m, y)
  {
    GetSame(f, id);
    assert Parent(GetArticle(f, id), y) == Parent(f, y);
    var g := GetArticle(f, id);
    assert forall p :: Kids(g, p) == Kids(f, p);
    if Ruined(f, m, y) { TwiceGrows(f, g, y); }
  }

  lemma SetDateStaysRuined(f: Forest, m: MsgId, x: MsgId, d: int, y: MsgId)
    ensures Ruined(f, m, y) ==> Ruined(SetDate(f, x, d), m, y)
    ensures Doomed(f, m, y) ==> Doomed(SetDate(f, x, d), m, y)
    ensures Subj(SetDate(f, x, d), y) == Subj(f, y)
  {
    var g := SetDate(f, x, d);
    assert forall p :: Kids(g, p) == Kids(f, p);
    assert Parent(g, y) == Parent(f, y);
    if Ruined(f, m, y) { TwiceGrows(f, g, y); }
  }

  lemma {:induction false} WalkStaysRuined(f: Forest, m: MsgId, refs: seq<MsgId>, prev: MsgId, re: bool, y: MsgId)
    requires Ruined(f, m, y) && Subj(f, prev).None? && prev != m
    ensures var w := Walk(f, m, refs, prev, Some(prev), re); w.last.Some? && Ruined(w.forest, m, y)
    ensures var w := Walk(f, m, refs, prev, Some(prev), re); Subj(w.forest, m) == Subj(f, m)
    decreases |refs|
  {
    if refs != [] {
      var id, rest := refs[|refs| - 1], refs[..|refs| - 1];
      var f1 := GetArticle(f, id);
      GetSame(f, id);
      GetStaysRuined(f, m, id, y);
      assert At(f1, prev) == At(f, prev) && At(f1, m) == At(f, m) && At(f1, id) == At(f, id);
      if Passed(f1, m, id) {
        WalkStaysRuined(f1, m, rest, prev, re, y);
      } else {
        var f2 := Attach(f1, prev, id, re);
        AttachStaysRuined(f1, m, prev, id, re, y);
        AttachSubjects(f1, prev, id, re);
        if Subj(f1, id).None? {
          SetDateStaysRuined(f2, m, id, Date(f2, m), y);
          SetDateStaysRuined(f2, m, id, Date(f2, m), m);
          SetDateStaysRuined(f2, m, id, Date(f2, m), id);
          WalkStaysRuined(SetDate(f2, id, Date(f2, m)), m, rest, id, re, y);
        }
      }
    }
  }

  /** From a doomed state the walk ruins the forest, or leaves it doomed at its last article. */
  lemma {:induction false} WalkDoomed(f: Forest, m: MsgId, refs: seq<MsgId>, prev: MsgId, re: bool)
    requires Doomed(f, m, prev) && Subj(f, prev).None?
    ensures var w := Walk(f, m, refs, prev, Some(prev), re);
            && Subj(w.forest, m) == Subj(f, m) && w.last.Some?
            && ((exists y :: Ruined(w.forest, m, y)) ||
                (Subj(w.forest, w.last.value).None? && Doomed(w.forest, m, w.last.value)))
    decreases |refs|
  {
    if refs != [] {
      var id, rest := refs[|refs| - 1], refs[..|refs| - 1];
      var f1 := GetArticle(f, id);
      GetSame(f, id);
      GetStaysRuined(f, m, id, prev);
      assert At(f1, prev) == At(f, prev) && At(f1, m) == At(f, m) && At(f1, id) == At(f, id);
      if Passed(f1, m, id) {
        WalkDoomed(f1, m, rest, prev, re);
      } else {
        var f2 := Attach(f1, prev, id, re);
        AttachRuins(f1, m, prev, id, re);
        AttachSubjects(f1, prev, id, re);
        if Subj(f1, id).None? {
          SetDateStaysRuined(f2, m, id, Date(f2, m), prev);
          SetDateStaysRuined(f2, m, id, Date(f2, m), m);
          SetDateStaysRuined(f2, m, id, Date(f2, m), id);
          WalkStaysRuined(SetDate(f2, id, Date(f2, m)), m, rest, id, re, prev);
        }
      }
    }
  }

  // ----- Nothing repairs it

  lemma {:induction false} NameStaysRuined(f: Forest, x: Option<MsgId>, s: SubjName)
    ensures var g := NameFakes(f, x, s);
            (forall p :: Kids(g, p) == Kids(f, p)) && (forall y :: Parent(g, y) == Parent(f, y))
    decreases Unknown(f)
  {
    if x.Some? && x.value in f.nodes && Subj(f, x.value).None? {
      var h := SetSubj(f, x.value, Some(s));
      PutEffect(f, x.value, At(f, x.value).(subj := Some(s)));
      assert x.value in Unknown(f) && Unknown(h) == Unknown(f) - {x.value};
      assert forall p :: Kids(h, p) == Kids(f, p);
      assert forall y :: Parent(h, y) == Parent(f, y);
      NameStaysRuined(h, Parent(f, x.value), s);
    }
  }

  lemma {:induction false} DropCounts(list: seq<MsgId>, c: MsgId, x: MsgId)
    requires x != c
    ensures multiset(Drop(list, c))[x] == multiset(list)[x]
  {
    if list != [] {
      assert list == [list[0]] + list[1..];
      if list[0] != c { DropCounts(list[1..], c, x); }
    }
  }

  lemma CutStaysRuined(f: Forest, m: MsgId, x: Option<MsgId>, y: MsgId)
    requires Ruined(f, m, y)
    ensures Twice(CutLoop(f, m, x), y)
  {
    if x.Some? && x.value != m && Grounded(Up(f) - {m}, x.value) {
      match LinkTo(Up(f), x.value, m)
      case None =>
      case Some(c) =>
        UpMeans(f);
        ReleaseStaysTwice(f, m, c, y);
        var h := Release(f, c);
        LinkGrows(h, c);
        TwiceGrows(h, LinkChild(h, c), y);
    }
  }

  lemma ReleaseStaysTwice(f: Forest, m: MsgId, c: MsgId, y: MsgId)
    requires Twice(f, y) && y != c && Parent(f, c) == Some(m)
    ensures Twice(Release(f, c), y)
  {
    var h := UnlinkChild(f, c);
    var g := Release(f, c);
    SetParentKids(h, c, None);
    DropCounts(Kids(f, m), c, y);
    UnlinkKids(f, c);
    assert forall p :: multiset(Kids(g, p))[y] == multiset(Kids(f, p))[y];
    if p, q :| p != q && y in Kids(f, p) && y in Kids(f, q) {
      assert multiset(Kids(f, p))[y] > 0 && multiset(Kids(f, q))[y] > 0;
      assert y in Kids(g, p) && y in Kids(g, q);
    } else {
      var p :| multiset(Kids(f, p))[y] > 1;
      assert multiset(Kids(g, p))[y] > 1;
    }
  }

  lemma SettleStaysRuined(f: Forest, m: MsgId, last: MsgId, y: MsgId)
    requires Ruined(f, m, y) && Subj(f, m).Some?
    ensures Twice(Settle(f, m, last), y)
  {
    var s := Subj(f, m).value;
    var f1 := match Subj(f, last)
              case Some(t) => JoinThreads(f, t, s)
              case None => LinkChild(SetSubj(f, last, Some(s)), last);
    assert Ruined(f1, m, y) by {
      if Subj(f, last).Some? {
        assert f1.nodes == f.nodes;
        SameNodesRuined(f, f1, m, y);
      } else {
        SetSubjStaysRuined(f, m, last, s, y);
        LinkGrows(SetSubj(f, last, Some(s)), last);
        TwiceGrows(SetSubj(f, last, Some(s)), f1, y);
      }
    }
    NamedStaysRuined(f1, m, s, y);
  }

  lemma NamedStaysRuined(f: Forest, m: MsgId, s: SubjName, y: MsgId)
    requires Ruined(f, m, y)
    ensures Twice(CutLoop(NameFakes(f, Parent(f, m), s), m, NamedUpTo(f, Parent(f, m), s)), y)
  {
    NameStaysRuined(f, Parent(f, m), s);
    var g := NameFakes(f, Parent(f, m), s);
    TwiceGrows(f, g, y);
    CutStaysRuined(g, m, NamedUpTo(f, Parent(f, m), s), y);
  }

  lemma SameNodesRuined(f: Forest, g: Forest, m: MsgId, y: MsgId)
    requires g.nodes == f.nodes && Ruined(f, m, y)
    ensures Ruined(g, m, y)
  {
    assert forall p :: Kids(g, p) == Kids(f, p);
    TwiceGrows(f, g, y);
  }

  lemma SetSubjStaysRuined(f: Forest, m: MsgId, x: MsgId, s: SubjName, y: MsgId)
    ensures Ruined(f, m, y) ==> Ruined(SetSubj(f, x, Some(s)), m, y)
    ensures Doomed(f, m, y) ==> Doomed(SetSubj(f, x, Some(s)), m, y)
  {
    var g := SetSubj(f, x, Some(s));
    assert forall p :: Kids(g, p) == Kids(f, p);
    assert Parent(g, y) == Parent(f, y);
    if Ruined(f, m, y) { TwiceGrows(f, g, y); }
  }

  lemma SettleDoomed(f: Forest, m: MsgId, last: MsgId)
    requires Doomed(f, m, last) && Subj(f, last).None? && Subj(f, m).Some?
    ensures Twice(Settle(f, m, last), last)
  {
    var s := Subj(f, m).value;
    var h := SetSubj(f, last, Some(s));
    SetSubjStaysRuined(f, m, last, s, last);
    var p :| last in Kids(h, p);
    LinkAgain(h, last, p);
    LinkGrows(h, last);
    NamedStaysRuined(LinkChild(h, last), m, s, last);
  }

  // ----- The first repeated id

  ghost predicate Spoiled(w: Walked, m: MsgId) {
    && w.last.Some?
    && ((exists y :: Ruined(w.forest, m, y)) ||
        (Subj(w.forest, w.last.value).None? && Doomed(w.forest, m, w.last.value)))
  }

  lemma AttachDooms(f: Forest, m: MsgId, prev: MsgId, id: MsgId, p: MsgId, re: bool)
    requires Subj(f, prev).None? && id != m
    requires id == prev || (id in Kids(f, p) && Parent(f, id).Some? && Parent(f, id) != Some(m))
    ensures Doomed(Attach(f, prev, id, re), m, id)
  {
    var h := SetParent(f, prev, Some(id));
    var g := Attach(f, prev, id, re);
    SetParentKids(f, prev, Some(id));
    LinkGrows(h, prev);
    if id == prev {
      InsertMembers(h, Kids(h, id), prev);
      assert prev in Kids(g, id);
    } else {
      assert multiset(Kids(h, p))[id] > 0;
      assert multiset(Kids(g, p))[id] > 0;
      assert id in Kids(g, p);
    }
  }

  /** Taking a fake of the chain again dooms it. */
  lemma TakenAgain(f: Forest, m: MsgId, chain: seq<MsgId>, re: bool, id: MsgId)
    requires Chain(f, m, chain, None) && id in chain && id != m
    ensures Doomed(Attach(f, chain[|chain| - 1], id, re), m, id)
  {
    var prev := chain[|chain| - 1];
    var i :| 0 <= i < |chain| && chain[i] == id;
    assert i > 0 && prev != m by { assert chain[0] == m; }
    ChainDated(f, m, chain, None, prev);
    if id == prev {
      AttachDooms(f, m, prev, id, id, re);
    } else {
      assert At(f, chain[i + 1]) == ChainNode(f, m, chain, None, i + 1);
      assert At(f, chain[i]) == ChainNode(f, m, chain, None, i);
      assert chain[i + 1] != m by { assert chain[0] == m; }
      AttachDooms(f, m, prev, id, chain[i + 1], re);
    }
  }

  lemma PassedOwnId(f: Forest, m: MsgId, chain: seq<MsgId>, re: bool, id: MsgId)
    requires Walking(f, m, chain, re) && Date(f, m) == 0
    ensures Passed(GetArticle(f, id), m, id) <==> id == m
    ensures id !in chain && id != m && Subj(f, id).None? ==> At(GetArticle(f, id), id) == BLANK
  {
    GetSame(f, id);
    if Passed(GetArticle(f, id), m, id) { PassedOwn(f, m, chain, id); }
    assert id in Elems(chain) || At(f, id) == BLANK || Subj(f, id).Some?;
  }

  lemma {:induction false} RepeatSpoils(f: Forest, m: MsgId, refs: seq<MsgId>, chain: seq<MsgId>, re: bool)
    requires Walking(f, m, chain, re) && !Unrepeated(f, m, refs, chain)
    ensures var w := Walk(f, m, refs, chain[|chain| - 1], TopOf(chain), re);
            Spoiled(w, m) && Subj(w.forest, m) == Subj(f, m)
    decreases |refs|
  {
    hide Twice, Ruined, Doomed, Acyclic, Fake, Up, GetArticle, Attach, Lists, Closed, Threads, Homes, Families, Placed,
      Free, Placing, Labels, Sound, Well, ChainNode, Passed;
    var prev := chain[|chain| - 1];
    var id, rest := refs[|refs| - 1], refs[..|refs| - 1];
    var f1 := GetArticle(f, id);
    GetKeeps(f, m, chain, re, id);
    GetSame(f, id);
    PassedOwnId(f, m, chain, re, id);
    assert At(f1, id) == At(f, id) && At(f1, m) == At(f, m);
    assert forall x :: Subj(f1, x) == Subj(f, x);
    if id == m {
      FreshSame(f, f1, m, rest);
      assert prev == m <==> |chain| == 1;
      RepeatSpoils(f1, m, rest, chain, re);
    } else if id in chain {
      ChainDated(f, m, chain, None, id);
      var g := Attach(f1, prev, id, re);
      var h := SetDate(g, id, Date(g, m));
      TakenAgain(f1, m, chain, re, id);
      AttachSubjects(f1, prev, id, re);
      SetDateStaysRuined(g, m, id, Date(g, m), id);
      SetDateStaysRuined(g, m, id, Date(g, m), m);
      WalkDoomed(h, m, rest, id, re);
    } else {
      RepeatLater(f, m, refs, chain, re);
      var g := Attach(f1, prev, id, re);
      var h := SetDate(g, id, Date(g, m));
      BlankStep(f1, m, chain, re, id);
      DateElsewhere(g, id, Date(g, m), m);
      AttachSubjects(f1, prev, id, re);
      RepeatSpoils(h, m, rest, chain + [id], re);
    }
  }

  /** An id that is no repeat itself leaves the repeat to the rest of the line. */
  lemma RepeatLater(f: Forest, m: MsgId, refs: seq<MsgId>, chain: seq<MsgId>, re: bool)
    requires refs != [] && !Unrepeated(f, m, refs, chain) && |chain| > 0
    requires var id := refs[|refs| - 1]; id != m && id !in chain
    ensures var id := refs[|refs| - 1];
            var f1 := GetArticle(f, id);
            var g := Attach(f1, chain[|chain| - 1], id, re);
            Subj(f, id).None? && (Date(g, m) == 0 ==>
              !Unrepeated(SetDate(g, id, Date(g, m)), m, refs[..|refs| - 1], chain + [id]))
  {
    hide LinkChild, UnlinkChild, GetArticle, Attach, Fresh;
    var id, rest := refs[|refs| - 1], refs[..|refs| - 1];
    var f1 := GetArticle(f, id);
    var g := Attach(f1, chain[|chain| - 1], id, re);
    var h := SetDate(g, id, Date(g, m));
    GetSame(f, id);
    AttachSubjects(f1, chain[|chain| - 1], id, re);
    DateElsewhere(g, id, Date(g, m), m);
    assert forall x :: Subj(f1, x) == Subj(f, x) == Subj(h, x);
    FreshSame(f, h, m, rest);
    FreshNext(f, m, refs);
    if Subj(f, id).None? { RepeatInRest(id, Fresh(f, m, rest), chain); }
  }

  lemma FreshNext(f: Forest, m: MsgId, refs: seq<MsgId>)
    requires refs != [] && refs[|refs| - 1] != m
    ensures var id := refs[|refs| - 1];
      Fresh(f, m, refs) == if Subj(f, id).Some? then [] else [id] + Fresh(f, m, refs[..|refs| - 1])
  {
  }

  lemma RepeatInRest(id: MsgId, later: seq<MsgId>, chain: seq<MsgId>)
    requires id !in chain && !(Distinct([id] + later) && forall x | x in [id] + later :: x !in chain)
    ensures !(Distinct(later) && forall x | x in later :: x !in chain + [id])
  {
    if Distinct(later) && forall x | x in later :: x !in chain + [id] {
      assert id in chain + [id] && forall x | x in chain :: x in chain + [id];
      DistinctCons(id, later);
    }
  }

  lemma DistinctCons(id: MsgId, later: seq<MsgId>)
    requires Distinct(later) && id !in later
    ensures Distinct([id] + later)
  {
  }

  /** Without a date a repeated fake always breaks the forest. */
  lemma RepeatBreaks(f: Forest, m: MsgId, refs: seq<MsgId>, re: bool)
    requires Ready(f, m, re) && !Datable(f, m, refs)
    ensures !WellFormed(Finish(f, m, refs, re))
  {
    StartWalking(f, m, re);
    FreshNotOwn(f, m, refs);
    RepeatSpoils(f, m, refs, [m], re);
    var w := Walk(f, m, refs, m, None, re);
    var last := w.last.value;
    var g := Finish(f, m, refs, re);
    if y :| Ruined(w.forest, m, y) {
      SettleStaysRuined(w.forest, m, last, y);
      TwiceIsWrong(g, y);
    } else {
      SettleDoomed(w.forest, m, last);
      TwiceIsWrong(g, last);
    }
  }

  /** A step keeps the forest well formed exactly when it takes no fake twice: the article has a date,
      or none of the new fakes of its References line is repeated there. */
  lemma StepWellFormedIff(f: Forest, e: Event)
    requires WellFormed(f)
    ensures WellFormed(Step(f, e)) <==> Traceable(f, e)
  {
    if Traceable(f, e) {
      StepKeepsWellFormed(f, e);
    } else {
      StepFinishes(f, e);
      TraceableIs(f, e);
      RepeatBreaks(Entered(f, e), e.id, e.refs, Again(f, e));
    }
  }

  // ----- A line that names one id twice

  lemma AttachData(f: Forest, prev: MsgId, id: MsgId, x: MsgId)
    ensures var g := Attach(f, prev, id, false);
      && Parent(g, x) == (if x == prev then Some(id) else Parent(f, x))
      && Date(g, x) == Date(f, x) && Subj(g, x) == Subj(f, x)
  {
    hide LinkChild;
    LinkFields(SetParent(f, prev, Some(id)), prev, x);
  }

  /** The walk over a line that names the fake `c` twice. */
  lemma WalkTwice(f: Forest, m: MsgId, c: MsgId) returns (w: Walked)
    requires m != c && Subj(f, c).None? && Date(f, c) == 0 && Date(f, m) == 0 && Subj(f, m).Some?
    ensures w == Walk(f, m, [c, c], m, None, false) && w.last == Some(c) && Subj(w.forest, c).None?
    ensures Parent(w.forest, c) == Some(c) == Parent(w.forest, m) && Subj(w.forest, m) == Subj(f, m)
  {
    hide Attach, GetArticle;
    var f1 := GetArticle(f, c);
    GetSame(f, c);
    var f2 := Attach(f1, m, c, false);
    assert Untouched(f, f1, c) && Untouched(f, f1, m);
    AttachData(f1, m, c, c);
    AttachData(f1, m, c, m);
    var g := SetDate(f2, c, 0);
    assert [c, c][..1] == [c] && [c][..0] == [];
    assert Walk(f, m, [c, c], m, None, false) == Walk(g, m, [c], c, Some(c), false);
    var g1 := GetArticle(g, c);
    GetSame(g, c);
    assert Untouched(g, g1, c) && Untouched(g, g1, m);
    AttachData(g1, c, c, c);
    AttachData(g1, c, c, m);
    var h := SetDate(Attach(g1, c, c, false), c, 0);
    assert Walk(g, m, [c], c, Some(c), false) == Walk(h, m, [], c, Some(c), false);
    w := Walk(h, m, [], c, Some(c), false);
  }

  /** A climb that starts at an article that is its own parent leads nowhere. */
  lemma {:induction false} OwnParent(up: Links<MsgId>, x: MsgId, n: nat)
    requires x in up && up[x] == x
    ensures !Tops(up, x, n)
  {
    if n > 0 { OwnParent(up, x, n - 1); }
  }

  lemma NoTop(up: Links<MsgId>, x: MsgId)
    requires x in up && up[x] == x
    ensures !Grounded(up, x)
  {
    forall n: nat ensures !Tops(up, x, n) { OwnParent(up, x, n); }
  }

  lemma SelfParent(f: Forest, m: MsgId, c: MsgId)
    requires m != c && Subj(f, c).None? && Date(f, c) == 0 && Date(f, m) == 0 && Subj(f, m).Some?
    ensures Parent(Finish(f, m, [c, c], false), c) == Some(c)
  {
    hide LinkChild, Grounded, LinkTo, Walk;
    var w := WalkTwice(f, m, c);
    var s := Subj(f, m).value;
    var g := SetSubj(w.forest, c, Some(s));
    LinkFields(g, c, c);
    LinkFields(g, c, m);
    var h := LinkChild(g, c);
    assert Subj(h, c) == Some(s) && Parent(h, m) == Some(c) == Parent(h, c);
    assert NameFakes(h, Some(c), s) == h && NamedUpTo(h, Some(c), s) == Some(c);
    var up := Up(h) - {m};
    assert c in up && up[c] == c;
    NoTop(up, c);
  }

  /** The smallest such line: an article without a date names one new id twice. The fake becomes its own parent, so the
      search for a loop, which climbs from it, never ends. */
  lemma RepeatExample()
    ensures var e := Event(MsgId("a@b"), 0, SubjName("s"), [MsgId("c@d"), MsgId("c@d")], false);
            && WellFormed(EMPTY) && !WellFormed(Step(EMPTY, e))
            && Parent(Step(EMPTY, e), MsgId("c@d")) == Some(MsgId("c@d"))
  {
    var a, c := MsgId("a@b"), MsgId("c@d");
    var e := Event(a, 0, SubjName("s"), [c, c], false);
    EmptyWellFormed();
    StepWellFormedIff(EMPTY, e);
    assert c.text != a.text;
    assert e.refs[..1] == [c] && e.refs[..1][..0] == [];
    assert NewIds(EMPTY, e, e.refs[..1]) == [c] + NewIds(EMPTY, e, e.refs[..1][..0]);
    assert NewIds(EMPTY, e, e.refs) == [c, c];
    StepFinishes(EMPTY, e);
    SelfParent(Entered(EMPTY, e), a, c);
  }
}

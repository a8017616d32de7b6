// What every article knows after a step, and which threads a step joins.
module ThreadNaming {
  import opened Options
  import opened Paths
  import opened ThreadSpec
  import opened ThreadLists
  import opened ThreadSafety
  import opened ThreadDetach
  import opened ThreadWalk
  import opened ThreadSettle
  import opened ThreadForest
  import opened ThreadOutcome

  /** What is known of an article, apart from its place. */
  datatype Data = Data(date: int, fake: bool, threaded: bool, subj: Option<SubjName>)

  function DataOf(f: Forest, x: MsgId): Data {
    Data(Date(f, x), Fake(f, x), Threaded(f, x), Subj(f, x))
  }

  lemma UntouchedData(f: Forest, g: Forest, x: MsgId)
    requires Untouched(f, g, x)
    ensures DataOf(g, x) == DataOf(f, x)
  {
  }

  lemma SteadyData(f: Forest, g: Forest, m: MsgId, x: MsgId)
    requires Steady(f, g, m, x)
    ensures DataOf(g, x) == DataOf(f, x)
  {
  }

  // ----- the walk

  lemma AttachData(f: Forest, prev: MsgId, id: MsgId, re: bool, x: MsgId)
    ensures DataOf(Attach(f, prev, id, re), x) == DataOf(f, x)
  {
    hide LinkChild, UnlinkChild;
    var f1 := if re && Subj(f, prev).Some? then UnlinkChild(f, prev) else f;
    UnlinkFieldsOf(f, prev, x);
    var f2 := SetParent(f1, prev, Some(id));
    PutEffect(f1, prev, At(f1, prev).(parent := Some(id)));
    LinkFields(f2, prev, x);
  }

  /** The walk gives no subjects, and leaves what is known of the article itself. */
  lemma {:induction false} WalkData(f: Forest, m: MsgId, refs: seq<MsgId>, prev: MsgId, last: Option<MsgId>, re: bool,
      x: MsgId)
    ensures Subj(Walk(f, m, refs, prev, last, re).forest, x) == Subj(f, x)
    ensures x == m ==> DataOf(Walk(f, m, refs, prev, last, re).forest, x) == DataOf(f, x)
    decreases |refs|
  {
    hide GetArticle, Attach, SetDate;
    if refs != [] {
      var id, rest := refs[|refs| - 1], refs[..|refs| - 1];
      var f1 := GetArticle(f, id);
      GetSame(f, id);
      assert At(f1, x) == At(f, x);
      if Passed(f1, m, id) {
        WalkData(f1, m, rest, prev, if prev == m then None else Some(prev), re, x);
      } else {
        var f2 := Attach(f1, prev, id, re);
        AttachData(f1, prev, id, re, x);
        if Subj(f1, id).None? {
          DatedData(f2, id, Date(f2, m), x);
          WalkData(SetDate(f2, id, Date(f2, m)), m, rest, id, Some(id), re, x);
        }
      }
    }
  }

  lemma DatedData(f: Forest, id: MsgId, d: int, x: MsgId)
    ensures Subj(SetDate(f, id, d), x) == Subj(f, x)
    ensures x != id ==> DataOf(SetDate(f, id, d), x) == DataOf(f, x)
  {
    PutEffect(f, id, At(f, id).(date := d));
  }

  /** The fakes of the chain have the date of the article, and no subject yet. */
  lemma ChainData(f: Forest, m: MsgId, chain: seq<MsgId>, top: Option<MsgId>, x: MsgId)
    requires Chain(f, m, chain, top) && x in chain[1..]
    ensures DataOf(f, x) == Data(Date(f, m), true, false, None)
  {
    var i :| 0 <= i < |chain[1..]| && chain[1..][i] == x;
    assert At(f, chain[i + 1]) == ChainNode(f, m, chain, top, i + 1);
  }

  // ----- settling

  lemma HungData(f: Forest, m: MsgId, chain: seq<MsgId>, top: MsgId, x: MsgId)
    requires Hung(f, m, chain, top) && Home(f, top) == Home(f, m)
    ensures var s := Subj(f, m).value;
      var g := CutLoop(NameFakes(f, Parent(f, m), s), m, NamedUpTo(f, Parent(f, m), s));
      DataOf(g, x) == if x in chain[1..] then DataOf(f, x).(subj := Some(s)) else DataOf(f, x)
  {
    hide CutLoop, Hung, Home, Well, Up;
    HungOwn(f, m, chain, top);
    var s := Subj(f, m).value;
    NameHung(f, m, chain, top);
    var g := NameFakes(f, Parent(f, m), s);
    CutFields(g, m, Some(top), x);
    SteadyData(g, CutLoop(g, m, Some(top)), m, x);
  }

  lemma HungOwn(f: Forest, m: MsgId, chain: seq<MsgId>, top: MsgId)
    requires Hung(f, m, chain, top)
    ensures Subj(f, m).Some? && |chain| > 0
  {
  }

  /** Settling gives the article's subject to the fakes of its chain, and changes no other data. */
  lemma SettleData(w: Walked, m: MsgId, chain: seq<MsgId>, re: bool, x: MsgId)
    requires WalkEnd(w, m, chain, re) && w.last.Some? && Subj(w.forest, m).Some?
    ensures |chain| > 0
    ensures DataOf(Settle(w.forest, m, w.last.value), x) ==
      if x in chain[1..] then DataOf(w.forest, x).(subj := Subj(w.forest, m)) else DataOf(w.forest, x)
  {
    hide Hung, Walking, CutLoop, NameFakes, NamedUpTo, JoinThreads, Home, LinkChild;
    var f, last, s := w.forest, w.last.value, Subj(w.forest, m).value;
    if Subj(f, last).Some? {
      HungOwn(f, m, chain, last);
      JoinHung(f, m, chain, last);
      JoinKeepsSubj(f, Subj(f, last).value, s, m);
      JoinKeepsSubj(f, Subj(f, last).value, s, x);
      HungData(JoinThreads(f, Subj(f, last).value, s), m, chain, last, x);
    } else {
      var less := chain[..|chain| - 1];
      RootLast(f, m, chain, re);
      RootKeepsSubj(f, last, Some(s), m);
      var h := SetSubj(f, last, Some(s));
      PutEffect(f, last, At(f, last).(subj := Some(s)));
      LinkFields(h, last, x);
      HungOwn(LinkChild(h, last), m, less, last);
      HungData(LinkChild(h, last), m, less, last, x);
      RestOf(chain, x);
      HungApart(LinkChild(h, last), m, less, last);
    }
  }

  lemma RestOf(chain: seq<MsgId>, x: MsgId)
    requires |chain| > 1
    ensures x in chain[1..] <==> x in chain[..|chain| - 1][1..] || x == chain[|chain| - 1]
  {
    assert chain[1..] == chain[..|chain| - 1][1..] + [chain[|chain| - 1]];
  }

  lemma HungApart(f: Forest, m: MsgId, chain: seq<MsgId>, top: MsgId)
    requires Hung(f, m, chain, top)
    ensures |chain| > 0 && top !in chain[1..]
  {
  }

  lemma LineParts(w: Walked, m: MsgId, chain: seq<MsgId>, re: bool, x: MsgId)
    requires WalkEnd(w, m, chain, re)
    ensures |chain| > 0 && chain[0] == m && m !in chain[1..] && |WholeLine(w, chain)| > 0
    ensures x in chain[1..] ==> DataOf(w.forest, x) == Data(Date(w.forest, m), true, false, None)
    ensures x in chain[1..] <==> x in WholeLine(w, chain)[1..] && Subj(w.forest, x).None?
    ensures w.last.None? ==> chain[1..] == []
  {
    hide Hung, Walking;
    var f, line := w.forest, WholeLine(w, chain);
    var top := EndChain(w, m, chain, re);
    if x in chain[1..] { ChainData(f, m, chain, top, x); }
    if |line| > |chain| {
      assert line[1..] == chain[1..] + [w.last.value];
    }
    if x in line[1..] && x !in chain[1..] { assert x == w.last.value; }
  }

  lemma EndChain(w: Walked, m: MsgId, chain: seq<MsgId>, re: bool) returns (top: Option<MsgId>)
    requires WalkEnd(w, m, chain, re)
    ensures Chain(w.forest, m, chain, top) && m !in chain[1..]
  {
    top := if w.last.Some? && Subj(w.forest, w.last.value).Some? then w.last else None;
  }

  lemma NotKnown(f: Forest, x: MsgId)
    requires WellFormed(f) && Subj(f, x).None?
    ensures At(f, x) == BLANK
  {
  }

  /** What is known of each article once the references have been followed. */
  lemma FinishData(f: Forest, m: MsgId, refs: seq<MsgId>, re: bool, x: MsgId)
    requires Ready(f, m, re) && Datable(f, m, refs)
    ensures |Lineage(f, refs, [m])| > 0
    ensures DataOf(Finish(f, m, refs, re), x) ==
      if x == m || Subj(f, x).Some? then DataOf(f, x)
      else if x in Lineage(f, refs, [m])[1..] then Data(Date(f, m), true, false, Subj(f, m))
      else DataOf(EMPTY, x)
  {
    hide WalkEnd, Walk, Settle, LinkChild, WellFormed, Datable, Lineage, WholeLine;
    ReadyThreads(f, m, refs, re);
    ReadySubject(f, m, re);
    StartWalking(f, m, re);
    FreshNotOwn(f, m, refs);
    StartsUnrepeated(f, m, refs);
    var chain := WalkEnds(f, m, refs, [m], re);
    var w := Walk(f, m, refs, m, None, re);
    WalkData(f, m, refs, m, None, re, x);
    WalkData(f, m, refs, m, None, re, m);
    LineParts(w, m, chain, re, x);
    match w.last {
      case Some(last) => SettleData(w, m, chain, re, x);
      case None => LinkFields(w.forest, m, x);
    }
    if x != m && Subj(f, x).Some? {
      FinishFields(f, m, refs, re, x);
      SteadyData(f, Finish(f, m, refs, re), m, x);
    } else if x != m && x !in chain[1..] {
      NotKnown(Finish(f, m, refs, re), x);
    }
  }

  // ----- a step

  lemma EnteredOwn(f: Forest, e: Event)
    requires WellFormed(f) && !Rejected(f, e)
    ensures DataOf(Entered(f, e), e.id) ==
      if Again(f, e) then DataOf(f, e.id) else Data(e.date, false, true, Some(e.subj))
  {
    hide WellFormed, Detach, Loose, Well;
    var g, m := AddSubject(f, e.subj), e.id;
    AddSubjectKeeps(f, e.subj);
    assert At(g, m) == At(f, m);
    if !Again(f, e) {
      match Subj(f, m)
      case None => PutEffect(g, m, At(Taken(g, m, e.date, e.subj), m));
      case Some(had) => DisplacedData(g, m, e.date, e.subj, had);
    }
  }

  lemma DisplacedData(f: Forest, m: MsgId, d: int, s: SubjName, had: SubjName)
    requires WellFormed(f) && m in f.nodes && Subj(f, m) == Some(had) && s in f.thread
    ensures DataOf(Detach(Taken(f, m, d, s), m, had), m) == Data(d, false, true, Some(s))
  {
    hide WellFormed, Release, ShedChain, JoinThreads, Loose;
    TakenFields(f, m, d, s);
    var h := JoinThreads(Taken(f, m, d, s), had, s);
    TakenReleased(f, m, d, s, had);
    ShedLoose(Release(h, m), m, Parent(h, m));
    DisplacedReady(f, m, d, s, had);
  }

  lemma DisplacedReady(f: Forest, m: MsgId, d: int, s: SubjName, had: SubjName)
    requires WellFormed(f) && m in f.nodes && Subj(f, m) == Some(had) && s in f.thread
    ensures var g := Detach(Taken(f, m, d, s), m, had); !Fake(g, m) && Threaded(g, m)
  {
    hide WellFormed, Detach;
    DetachReady(f, m, d, s, had);
  }

  /** The subject that the article has once it is entered. */
  function OwnSubject(f: Forest, e: Event): Option<SubjName> {
    if Again(f, e) then Subj(f, e.id) else Some(e.subj)
  }

  /**
   * What is known of every article after a step. The article has the data of its header, or its own when it was
   * threaded before, and is real. Articles that had a subject keep their data, except for the fakes that the step
   * forgets. The other ids of the line are those of fakes, with the date and the subject of the article. Of all others
   * nothing is known.
   */
  lemma StepData(f: Forest, e: Event, x: MsgId)
    requires WellFormed(f) && Traceable(f, e) && !Rejected(f, e)
    ensures DataOf(Step(f, e), x) ==
      if x == e.id then if Again(f, e) then DataOf(f, x) else Data(e.date, false, true, Some(e.subj))
      else if Subj(f, x).Some? && !Goes(f, e, x) then DataOf(f, x)
      else if x in LineOf(f, e, e.refs, [e.id]) then Data(StepDate(f, e), true, false, OwnSubject(f, e))
      else Data(0, true, false, None)
  {
    hide WellFormed, Traceable, Rejected, Again, Goes, Entered, Lineage, LineOf, Finish, Ready, Datable, Untouched;
    var g, line := Entered(f, e), LineOf(f, e, e.refs, [e.id]);
    StepFinishes(f, e);
    TraceableIs(f, e);
    LineIsLineage(f, e, e.refs, [e.id]);
    FinishData(g, e.id, e.refs, Again(f, e), x);
    EnteredOwn(f, e);
    LineHead(f, e, e.refs, [e.id]);
    assert line == [line[0]] + line[1..];
    if x != e.id {
      EnteredExactly(f, e, x);
      if !Goes(f, e, x) { UntouchedData(f, g, x); }
    }
  }

  lemma {:induction false} LineHead(f: Forest, e: Event, refs: seq<MsgId>, chain: seq<MsgId>)
    requires |chain| > 0
    ensures |LineOf(f, e, refs, chain)| > 0 && LineOf(f, e, refs, chain)[0] == chain[0]
    decreases |refs|
  {
    hide Goes;
    if refs != [] {
      LineHead(f, e, refs[..|refs| - 1], chain);
      LineHead(f, e, refs[..|refs| - 1], chain + [refs[|refs| - 1]]);
    }
  }

  /** The new fakes of a References line. */
  lemma NewFakes(f: Forest, e: Event, i: nat)
    requires WellFormed(f) && Traceable(f, e) && !Rejected(f, e)
    requires 0 < i < |LineOf(f, e, e.refs, [e.id])|
    requires var x := LineOf(f, e, e.refs, [e.id])[i]; Subj(f, x).None? || Goes(f, e, x)
    ensures var x := LineOf(f, e, e.refs, [e.id])[i];
      && Subj(Step(f, e), x) == Subj(Step(f, e), e.id) && Fake(Step(f, e), x) && !Threaded(Step(f, e), x)
      && Date(Step(f, e), x) == StepDate(f, e)
  {
    hide WellFormed, Traceable, Rejected, Again, Goes, LineOf, Step;
    var line := LineOf(f, e, e.refs, [e.id]);
    LineApart(f, e, e.refs, [e.id]);
    LineHead(f, e, e.refs, [e.id]);
    StepData(f, e, line[i]);
    StepData(f, e, e.id);
    OwnIs(f, e);
  }

  lemma OwnIs(f: Forest, e: Event)
    ensures OwnSubject(f, e) == if Again(f, e) then Subj(f, e.id) else Some(e.subj)
  {
  }

  lemma {:induction false} LineApart(f: Forest, e: Event, refs: seq<MsgId>, chain: seq<MsgId>)
    requires Distinct(chain)
    ensures Distinct(LineOf(f, e, refs, chain))
    decreases |refs|
  {
    hide Goes;
    if refs != [] {
      var id, rest := refs[|refs| - 1], refs[..|refs| - 1];
      if id in chain {
        LineApart(f, e, rest, chain);
      } else {
        assert Distinct(chain + [id]);
        LineApart(f, e, rest, chain + [id]);
      }
    }
  }

  // ----- which threads are joined

  /** The subjects are in one thread. */
  predicate Together(f: Forest, s: SubjName, t: SubjName) {
    ThreadOf(f, s) == ThreadOf(f, t)
  }

  /** The threads of `a` and `b` are one in `g`, and otherwise the threads are those of `f`. */
  ghost predicate OneOf(f: Forest, g: Forest, a: SubjName, b: SubjName) {
    && g.thread.Keys == f.thread.Keys
    && forall s, t | s in f.thread && t in f.thread :: Together(g, s, t) <==>
         || Together(f, s, t)
         || ((Together(f, s, a) || Together(f, s, b)) && (Together(f, t, a) || Together(f, t, b)))
  }

  lemma RenamedOne(f: Forest, g: Forest, a: SubjName, b: SubjName)
    requires Renamed(f, g, ThreadOf(f, a), ThreadOf(f, b))
    ensures OneOf(f, g, a, b)
  {
    hide ThreadOf;
  }

  lemma KeepsThread(f: Forest, c: MsgId)
    ensures LinkChild(f, c).thread == UnlinkChild(f, c).thread == Release(f, c).thread == f.thread
  {
  }

  lemma {:induction false} WalkThread(f: Forest, m: MsgId, refs: seq<MsgId>, prev: MsgId, last: Option<MsgId>, re: bool)
    ensures Walk(f, m, refs, prev, last, re).forest.thread == f.thread
    decreases |refs|
  {
    hide Attach, GetArticle, Date, Subj;
    if refs != [] {
      var id, rest := refs[|refs| - 1], refs[..|refs| - 1];
      var f1 := GetArticle(f, id);
      GetSame(f, id);
      if Passed(f1, m, id) {
        WalkThread(f1, m, rest, prev, if prev == m then None else Some(prev), re);
      } else {
        var f2 := Attach(f1, prev, id, re);
        AttachThread(f1, prev, id, re);
        if Subj(f1, id).None? { WalkThread(SetDate(f2, id, Date(f2, m)), m, rest, id, Some(id), re); }
      }
    }
  }

  lemma AttachThread(f: Forest, prev: MsgId, id: MsgId, re: bool)
    ensures Attach(f, prev, id, re).thread == f.thread
  {
  }

  lemma {:induction false} NameThread(f: Forest, x: Option<MsgId>, s: SubjName)
    ensures NameFakes(f, x, s).thread == f.thread
    decreases Unknown(f)
  {
    if x.Some? && x.value in f.nodes && Subj(f, x.value).None? {
      var h := SetSubj(f, x.value, Some(s));
      assert x.value in Unknown(f) && Unknown(h) == Unknown(f) - {x.value};
      NameThread(h, Parent(f, x.value), s);
    }
  }

  lemma CutThread(f: Forest, m: MsgId, x: Option<MsgId>)
    ensures CutLoop(f, m, x).thread == f.thread
  {
    hide LinkChild, Release;
    if x.Some? && x.value != m && Grounded(Up(f) - {m}, x.value) {
      match LinkTo(Up(f), x.value, m)
      case None =>
      case Some(c) =>
        KeepsThread(f, c);
        KeepsThread(Release(f, c), c);
    }
  }

  /** Settling joins the threads of the article and of the known one that it came to, if any. */
  lemma SettleThread(w: Walked, m: MsgId, chain: seq<MsgId>, re: bool)
    requires WalkEnd(w, m, chain, re) && w.last.Some? && Subj(w.forest, m).Some?
    ensures var f, g := w.forest, Settle(w.forest, m, w.last.value);
      if Subj(f, w.last.value).Some? then OneOf(f, g, Subj(f, w.last.value).value, Subj(f, m).value)
      else g.thread == f.thread
  {
    hide Walking, CutLoop, NameFakes, NamedUpTo, JoinThreads, LinkChild, OneOf, Hung;
    var f, last, s := w.forest, w.last.value, Subj(w.forest, m).value;
    var g := match Subj(f, last)
      case Some(t) => JoinThreads(f, t, s)
      case None => LinkChild(SetSubj(f, last, Some(s)), last);
    NameThread(g, Parent(g, m), s);
    CutThread(NameFakes(g, Parent(g, m), s), m, NamedUpTo(g, Parent(g, m), s));
    match Subj(f, last)
    case Some(t) =>
      HungJoins(f, m, chain, last);
      RenamedOne(f, g, t, s);
      SameOne(f, g, Settle(f, m, last), t, s);
    case None => KeepsThread(SetSubj(f, last, Some(s)), last);
  }

  lemma SameOne(f: Forest, g: Forest, h: Forest, a: SubjName, b: SubjName)
    requires OneOf(f, g, a, b) && h.thread == g.thread
    ensures OneOf(f, h, a, b)
  {
    assert forall s, t :: Together(h, s, t) == Together(g, s, t);
  }

  lemma HungJoins(f: Forest, m: MsgId, chain: seq<MsgId>, x: MsgId)
    requires Hung(f, m, chain, x)
    ensures Subj(f, x).Some? && Subj(f, m).Some?
    ensures var t, s := Subj(f, x).value, Subj(f, m).value;
      Renamed(f, JoinThreads(f, t, s), ThreadOf(f, t), ThreadOf(f, s))
  {
    HungHeads(f, m, chain, x);
    JoinRenames(f, Subj(f, x).value, Subj(f, m).value);
  }

  lemma LineEnd(w: Walked, m: MsgId, chain: seq<MsgId>, re: bool)
    requires WalkEnd(w, m, chain, re) && Subj(w.forest, m).Some?
    ensures |WholeLine(w, chain)| > 0
    ensures var line := WholeLine(w, chain); var end := line[|line| - 1];
      if |line| > 1 && Subj(w.forest, end).Some? then w.last == Some(end)
      else w.last.None? || Subj(w.forest, w.last.value).None?
  {
    hide Hung, Walking;
    if |chain| > 1 {
      assert chain[|chain| - 1] == chain[1..][|chain| - 2];
      LineParts(w, m, chain, re, chain[|chain| - 1]);
    } else {
      LineParts(w, m, chain, re, m);
    }
  }

  lemma FinishThread(f: Forest, m: MsgId, refs: seq<MsgId>, re: bool)
    requires Ready(f, m, re) && Datable(f, m, refs)
    ensures |Lineage(f, refs, [m])| > 0 && Subj(f, m).Some?
    ensures var line, g := Lineage(f, refs, [m]), Finish(f, m, refs, re); var end := line[|line| - 1];
      if |line| > 1 && Subj(f, end).Some? then OneOf(f, g, Subj(f, end).value, Subj(f, m).value)
      else g.thread == f.thread
  {
    hide WalkEnd, Walk, Settle, LinkChild, Datable, Lineage, WholeLine, OneOf, Ready;
    ReadySubject(f, m, re);
    StartWalking(f, m, re);
    StartsUnrepeated(f, m, refs);
    var chain := WalkEnds(f, m, refs, [m], re);
    var w := Walk(f, m, refs, m, None, re);
    WalkThread(f, m, refs, m, None, re);
    WalkData(f, m, refs, m, None, re, m);
    LineEnd(w, m, chain, re);
    var line := WholeLine(w, chain);
    WalkData(f, m, refs, m, None, re, line[|line| - 1]);
    match w.last
    case Some(last) =>
      SettleThread(w, m, chain, re);
      if Subj(w.forest, last).Some? {
        SameBase(w.forest, f, Finish(f, m, refs, re), Subj(w.forest, last).value, Subj(w.forest, m).value);
      }
    case None => KeepsThread(w.forest, m);
  }

  lemma SameBase(f: Forest, h: Forest, g: Forest, a: SubjName, b: SubjName)
    requires OneOf(f, g, a, b) && h.thread == f.thread
    ensures OneOf(h, g, a, b)
  {
    assert forall s, t :: Together(h, s, t) == Together(f, s, t);
  }

  lemma DisplacedThread(f: Forest, m: MsgId, d: int, s: SubjName, had: SubjName)
    requires WellFormed(f) && m in f.nodes && Subj(f, m) == Some(had) && s in f.thread
    ensures OneOf(f, Detach(Taken(f, m, d, s), m, had), had, s)
  {
    hide WellFormed, Release, ShedChain, JoinThreads, Loose, OneOf, Renamed;
    var e := Taken(f, m, d, s);
    var h := JoinThreads(e, had, s);
    TakenFields(f, m, d, s);
    TakenJoins(f, m, d, s, had);
    RenamedOne(e, h, had, s) by { assert ThreadOf(e, had) == ThreadOf(f, had) && ThreadOf(e, s) == ThreadOf(f, s); }
    SameBase(e, f, h, had, s);
    TakenReleased(f, m, d, s, had);
    KeepsThread(h, m);
    ShedLoose(Release(h, m), m, Parent(h, m));
    SameOne(f, h, Detach(e, m, had), had, s);
  }

  /** The subject of the fake that the article replaces. */
  function HadSubject(f: Forest, e: Event): Option<SubjName> {
    if Again(f, e) then None else Subj(f, e.id)
  }

  /** The subject of the known article that the line of the article ends with. */
  ghost function MetSubject(f: Forest, e: Event): Option<SubjName> {
    var line := LineOf(f, e, e.refs, [e.id]);
    if |line| > 1 && !Goes(f, e, line[|line| - 1]) then Subj(f, line[|line| - 1]) else None
  }

  predicate WithSubject(f: Forest, s: SubjName, t: Option<SubjName>) {
    t.Some? && Together(f, s, t.value)
  }

  /** The threads that a step makes one: those of the article, of the fake it replaces, and of the known article that
      its line ends with. */
  ghost predicate Joins(f: Forest, e: Event, s: SubjName) {
    WithSubject(f, s, OwnSubject(f, e)) || WithSubject(f, s, HadSubject(f, e)) || WithSubject(f, s, MetSubject(f, e))
  }

  lemma EnteredThread(f: Forest, e: Event)
    requires WellFormed(f) && !Rejected(f, e)
    ensures var g := AddSubject(f, e.subj);
      match HadSubject(f, e)
      case Some(had) => OneOf(g, Entered(f, e), had, e.subj)
      case None => Entered(f, e).thread == g.thread
    ensures HadSubject(f, e).Some? ==> OwnSubject(f, e) == Some(e.subj)
  {
    hide WellFormed, Detach, OneOf;
    var g := AddSubject(f, e.subj);
    AddSubjectKeeps(f, e.subj);
    assert At(g, e.id) == At(f, e.id);
    if !Again(f, e) && Subj(f, e.id).Some? {
      DisplacedThread(g, e.id, e.date, e.subj, Subj(f, e.id).value);
    }
  }

  lemma AddedThread(f: Forest, n: SubjName)
    ensures forall s :: ThreadOf(AddSubject(f, n), s) == ThreadOf(f, s)
    ensures AddSubject(f, n).thread.Keys == f.thread.Keys + {n}
  {
  }

  /** The known article that the line ends with is known once the article is entered. */
  lemma MetEntered(f: Forest, e: Event)
    requires WellFormed(f) && !Rejected(f, e)
    ensures |LineOf(f, e, e.refs, [e.id])| > 0
    ensures var line := LineOf(f, e, e.refs, [e.id]);
      MetSubject(f, e) == if |line| > 1 then Subj(Entered(f, e), line[|line| - 1]) else None
  {
    hide WellFormed, LineOf, Entered, Goes, Rejected, Untouched;
    var line := LineOf(f, e, e.refs, [e.id]);
    LineHead(f, e, e.refs, [e.id]);
    LineApart(f, e, e.refs, [e.id]);
    if |line| > 1 {
      var end := line[|line| - 1];
      assert end != line[0];
      EnteredExactly(f, e, end);
      if !Goes(f, e, end) { UntouchedData(f, Entered(f, e), end); }
    }
  }

  lemma SubjectsIn(f: Forest, e: Event)
    requires WellFormed(f) && !Rejected(f, e)
    ensures forall s | OwnSubject(f, e) == Some(s) || HadSubject(f, e) == Some(s) || MetSubject(f, e) == Some(s) ::
      s in f.thread || s == e.subj
    ensures OwnSubject(f, e).Some?
  {
    hide LineOf, Goes;
    if Again(f, e) { assert At(f, e.id) != BLANK; }
  }

  /** Two joins, one after the other. */
  lemma JoinedTwice(f: Forest, g: Forest, h: Forest, own: SubjName, had: Option<SubjName>, met: Option<SubjName>,
      s: SubjName, t: SubjName)
    requires match had case Some(a) => OneOf(f, g, a, own) case None => g.thread == f.thread
    requires match met case Some(a) => OneOf(g, h, a, own) case None => h.thread == g.thread
    requires s in f.thread && t in f.thread && own in f.thread && (had.Some? ==> had.value in f.thread)
      && (met.Some? ==> met.value in f.thread)
    ensures h.thread.Keys == f.thread.Keys
    ensures Together(h, s, t) <==>
      || Together(f, s, t)
      || ((WithSubject(f, s, Some(own)) || WithSubject(f, s, had) || WithSubject(f, s, met)) &&
        (WithSubject(f, t, Some(own)) || WithSubject(f, t, had) || WithSubject(f, t, met)))
  {
    assert g.thread.Keys == f.thread.Keys;
    assert had.None? ==> forall x, y :: Together(g, x, y) == Together(f, x, y);
    assert met.None? ==> forall x, y :: Together(h, x, y) == Together(g, x, y);
  }

  /** A step makes one thread of the threads that it joins, and leaves all others apart. */
  lemma StepThreads(f: Forest, e: Event, s: SubjName, t: SubjName)
    requires WellFormed(f) && Traceable(f, e) && !Rejected(f, e)
    requires s in f.thread.Keys + {e.subj} && t in f.thread.Keys + {e.subj}
    ensures Step(f, e).thread.Keys == f.thread.Keys + {e.subj}
    ensures Together(Step(f, e), s, t) <==> Together(f, s, t) || (Joins(f, e, s) && Joins(f, e, t))
  {
    hide WellFormed, Traceable, Rejected, Again, Entered, Lineage, LineOf, Finish, Ready, Datable, OneOf, OwnSubject,
      HadSubject, MetSubject, Goes, AddSubject, ThreadOf, Step;
    var g, h := AddSubject(f, e.subj), Entered(f, e);
    StepFinishes(f, e);
    TraceableIs(f, e);
    LineIsLineage(f, e, e.refs, [e.id]);
    FinishThread(h, e.id, e.refs, Again(f, e));
    EnteredOwn(f, e);
    OwnIs(f, e);
    EnteredThread(f, e);
    MetEntered(f, e);
    SubjectsIn(f, e);
    AddedThread(f, e.subj);
    JoinedTwice(g, h, Step(f, e), OwnSubject(f, e).value, HadSubject(f, e), MetSubject(f, e), s, t);
  }
}

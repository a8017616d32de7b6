// The main results about the article forest.
module ThreadForest {
  import opened Options
  import opened Paths
  import opened ThreadSpec
  import opened ThreadLists
  import opened ThreadSafety
  import opened ThreadDetach
  import opened ThreadWalk
  import opened ThreadSettle
  import opened ThreadGone

  /** A hung chain with one thread settles into a well formed forest. */
  lemma HungSettles(f: Forest, m: MsgId, chain: seq<MsgId>, x: MsgId)
    requires Hung(f, m, chain, x) && Home(f, x) == Home(f, m)
    ensures var s := Subj(f, m).value;
            WellFormed(CutLoop(NameFakes(f, Parent(f, m), s), m, NamedUpTo(f, Parent(f, m), s)))
  {
    hide Sound, Threaded, Threads, HungLinks, OneChildLinks, ChainNode, Release, Placing, LinkTo, Subj, Labels,
      RootsPoint, Homes, OneRootList, Kids, Named, Acyclic, FamiliesBut, LinkChild, Roots, Elems, Distinct, ThreadOf,
      Grounded, Meets, Placed, AtOrAbove;
    var s := Subj(f, m).value;
    var g := NameFakes(f, Parent(f, m), s);
    var up := Up(f);
    NameHung(f, m, chain, x);
    HungHasLinks(f, m, chain, x);
    CutAtFootAcyclic(up, chain, x);
    GroundedInAcyclic(up - {m}, x);
    assert x != m by { assert m in chain; }
    match LinkTo(up, x, m) {
      case None => NoLoop(up, chain, x);
      case Some(c) =>
        LoopCut(up, chain, x, c);
        UpMeans(g);
        CutWell(g, m, c);
    }
  }

  lemma SettleWell(w: Walked, m: MsgId, chain: seq<MsgId>, re: bool)
    requires WalkEnd(w, m, chain, re) && w.last.Some?
    ensures WellFormed(Settle(w.forest, m, w.last.value))
  {
    var f, x := w.forest, w.last.value;
    if Subj(f, x).Some? {
      JoinHung(f, m, chain, x);
      JoinKeepsSubj(f, Subj(f, x).value, Subj(f, m).value, m);
      HungSettles(JoinThreads(f, Subj(f, x).value, Subj(f, m).value), m, chain, x);
    } else {
      RootLast(f, m, chain, re);
      var g := LinkChild(SetSubj(f, x, Subj(f, m)), x);
      HungSettles(g, m, chain[..|chain| - 1], x);
      RootKeepsSubj(f, x, Subj(f, m), m);
    }
  }

  lemma JoinKeepsSubj(f: Forest, s1: SubjName, s2: SubjName, m: MsgId)
    ensures At(JoinThreads(f, s1, s2), m) == At(f, m)
  {
  }

  lemma RootKeepsSubj(f: Forest, x: MsgId, s: Option<SubjName>, m: MsgId)
    requires Subj(f, m) == s
    ensures Subj(LinkChild(SetSubj(f, x, s), x), m) == s
  {
  }

  /** When nothing was attached the article is a root, or stays where it was. */
  lemma NothingAttached(f: Forest, m: MsgId, re: bool)
    requires Walking(f, m, [m], re)
    ensures WellFormed(if re then f else LinkChild(f, m))
  {
    assert Elems([m]) == {m};
    if re {
      TightenWell(f, m);
    } else {
      var g := LinkChild(f, m);
      LinkEffect(f, m);
      SameUp(f, g);
      LinkedRootWell(f, g, m);
    }
  }

  lemma TightenWell(f: Forest, m: MsgId)
    requires Well(f, {m}) && Subj(f, m).Some? && Placed(f, m) && Threaded(f, m) && !Fake(f, m)
    ensures Well(f, {})
  {
    forall x | x in f.nodes
      ensures At(f, x) == BLANK || (Subj(f, x).Some? && Placed(f, x))
      ensures Threaded(f, x) != Fake(f, x)
    {
      if x != m { assert x !in {m}; }
    }
  }

  /** thread_article from the references on. */
  ghost function Finish(f: Forest, m: MsgId, refs: seq<MsgId>, re: bool): Forest {
    var w := Walk(f, m, refs, m, None, re);
    match w.last
    case Some(x) => Settle(w.forest, m, x)
    case None => if re then w.forest else LinkChild(w.forest, m)
  }

  lemma ReadyThreads(f: Forest, m: MsgId, refs: seq<MsgId>, re: bool)
    requires Ready(f, m, re) && Datable(f, m, refs)
    ensures WellFormed(Finish(f, m, refs, re))
  {
    StartWalking(f, m, re);
    FreshNotOwn(f, m, refs);
    var chain := WalkEnds(f, m, refs, [m], re);
    var w := Walk(f, m, refs, m, None, re);
    match w.last
    case Some(x) => SettleWell(w, m, chain, re);
    case None => NothingAttached(w.forest, m, re);
  }

  lemma {:induction false} FreshNotOwn(f: Forest, m: MsgId, refs: seq<MsgId>)
    ensures m !in Fresh(f, m, refs)
    ensures forall x | x in Fresh(f, m, refs) :: x in refs && Subj(f, x).None?
    decreases |refs|
  {
    if refs != [] { FreshNotOwn(f, m, refs[..|refs| - 1]); }
  }

  lemma StartsUnrepeated(f: Forest, m: MsgId, refs: seq<MsgId>)
    requires Datable(f, m, refs)
    ensures Unrepeated(f, m, refs, [m])
  {
    FreshNotOwn(f, m, refs);
  }

  /** Whether the event threads again the article object that its id already stands for. */
  predicate Again(f: Forest, e: Event) {
    e.id in f.nodes && !Fake(f, e.id)
  }

  /** The forest in which the references of an event are walked: the article has its data, and a
      fake that stood for it has given up its place. */
  ghost function Entered(f: Forest, e: Event): Forest {
    var g := AddSubject(f, e.subj);
    if Again(f, e) then g else TakePlace(g, e.id, e.date, e.subj)
  }

  /** The article `m` takes the place of a fake, if there was one, and gives it up at once. */
  ghost function TakePlace(f: Forest, m: MsgId, d: int, s: SubjName): Forest {
    match Subj(f, m)
    case None => Taken(f, m, d, s)
    case Some(had) => Detach(Taken(f, m, d, s), m, had)
  }

  lemma MarkedAlready(f: Forest, m: MsgId)
    requires m in f.nodes && !Fake(f, m) && Threaded(f, m)
    ensures Put(f, m, At(f, m).(fake := false, threaded := true)) == f
  {
    var n := At(f, m);
    assert n.(fake := false, threaded := true) == n;
    assert f.nodes[m := n] == f.nodes;
  }

  lemma AgainReady(f: Forest, m: MsgId)
    requires WellFormed(f) && m in f.nodes && !Fake(f, m)
    ensures Ready(f, m, true) && Threaded(f, m)
  {
    assert At(f, m) != BLANK && Threaded(f, m);
  }

  lemma EnterIs(f: Forest, m: MsgId, d: int, s: SubjName)
    ensures Put(Enter(f, m, d, s), m, At(Enter(f, m, d, s), m).(fake := false, threaded := true)) == Taken(f, m, d, s)
    ensures At(f, m) == BLANK ==> Taken(f, m, d, s) == Put(f, m, Node(d, false, true, Some(s), None, []))
  {
  }

  lemma NotThreadedYet(f: Forest, m: MsgId, d: int, s: SubjName)
    requires Labels(f, {}) && (m in f.nodes ==> Fake(f, m))
    ensures !Threaded(Enter(f, m, d, s), m)
  {
  }

  lemma ThreadAgain(f: Forest, m: MsgId, refs: seq<MsgId>)
    requires m in f.nodes && !Fake(f, m) && Threaded(f, m)
    ensures ThreadArticle(f, m, None, refs) == Finish(f, m, refs, true)
  {
    MarkedAlready(f, m);
  }

  lemma ThreadEntered(f: Forest, m: MsgId, d: int, s: SubjName, refs: seq<MsgId>)
    requires Labels(f, {}) && (m in f.nodes ==> Fake(f, m))
    ensures ThreadArticle(Enter(f, m, d, s), m, Subj(f, m), refs) ==
            Finish(TakePlace(f, m, d, s), m, refs, false)
  {
    EnterIs(f, m, d, s);
    NotThreadedYet(f, m, d, s);
  }

  lemma EnteredReady(f: Forest, m: MsgId, d: int, s: SubjName)
    requires WellFormed(f) && s in f.thread && (m in f.nodes ==> Fake(f, m))
    ensures Ready(TakePlace(f, m, d, s), m, false)
  {
    match Subj(f, m)
    case None =>
      assert At(f, m) == BLANK;
      EnterIs(f, m, d, s);
      FreshReady(f, m, d, s);
    case Some(had) => DetachReady(f, m, d, s, had);
  }

  /** A step first enters the article and then walks its references. */
  lemma StepFinishes(f: Forest, e: Event)
    requires WellFormed(f) && !Rejected(f, e)
    ensures Step(f, e) == Finish(Entered(f, e), e.id, e.refs, Again(f, e))
    ensures Ready(Entered(f, e), e.id, Again(f, e))
  {
    var g := AddSubject(f, e.subj);
    AddSubjectKeeps(f, e.subj);
    assert At(g, e.id) == At(f, e.id);
    if Again(f, e) {
      AgainReady(g, e.id);
      ThreadAgain(g, e.id, e.refs);
    } else {
      EnteredReady(g, e.id, e.date, e.subj);
      ThreadEntered(g, e.id, e.date, e.subj, e.refs);
    }
  }

  // ----- what may be asked of an event before its step

  /** The step forgets the fake `x`: a real article takes the place of a fake that has a subject, and `x`
      is above it for its sake alone. */
  ghost predicate Goes(f: Forest, e: Event, x: MsgId) {
    !Rejected(f, e) && !Again(f, e) && Subj(f, e.id).Some? && Sole(f, e.id, x)
  }

  lemma {:induction false} SoleSame(f: Forest, g: Forest, c: MsgId, x: MsgId, n: nat)
    requires forall y :: At(g, y) == At(f, y)
    ensures SoleWithin(g, c, x, n) == SoleWithin(f, c, x, n)
    decreases n
  {
    assert At(g, c) == At(f, c);
    if n > 0 && Parent(f, c).Some? {
      assert At(g, Parent(f, c).value) == At(f, Parent(f, c).value);
      SoleSame(f, g, Parent(f, c).value, x, n - 1);
    }
  }

  /** What becomes of another article before the references are walked: the fakes that go know nothing
      any more, and the rest keep their data and their parents. */
  lemma EnteredExactly(f: Forest, e: Event, x: MsgId)
    requires WellFormed(f) && !Rejected(f, e) && x != e.id
    ensures if Goes(f, e, x) then Fake(f, x) && At(Entered(f, e), x) == BLANK else Untouched(f, Entered(f, e), x)
  {
    hide WellFormed, Detach, Taken, Untouched, Sole;
    var g, m := AddSubject(f, e.subj), e.id;
    AddSubjectKeeps(f, e.subj);
    assert forall y :: At(g, y) == At(f, y);
    UntouchedAt(f, g, x);
    if !Again(f, e) {
      match Subj(f, m)
      case None =>
        TakenOthers(g, m, e.date, e.subj, x);
        UntouchedAt(f, Taken(g, m, e.date, e.subj), x);
      case Some(had) =>
        DisplacedExactly(g, m, e.date, e.subj, had, x);
        SoleStays(f, g, m, x);
        UntouchedFrom(f, g, Detach(Taken(g, m, e.date, e.subj), m, had), x);
    }
  }

  lemma UntouchedAt(f: Forest, g: Forest, x: MsgId)
    ensures At(g, x) == At(f, x) ==> Untouched(f, g, x)
  {
  }

  lemma UntouchedFrom(f: Forest, g: Forest, h: Forest, x: MsgId)
    requires At(g, x) == At(f, x)
    ensures Untouched(g, h, x) ==> Untouched(f, h, x)
  {
  }

  lemma TakenOthers(f: Forest, m: MsgId, d: int, s: SubjName, x: MsgId)
    requires x != m
    ensures At(Taken(f, m, d, s), x) == At(f, x)
  {
    PutEffect(f, m, At(f, m).(date := d, fake := false, subj := Some(s), threaded := true));
  }

  lemma SoleStays(f: Forest, g: Forest, m: MsgId, x: MsgId)
    requires forall y :: At(g, y) == At(f, y)
    ensures Sole(g, m, x) <==> Sole(f, m, x)
  {
    forall n: nat ensures SoleWithin(g, m, x, n) == SoleWithin(f, m, x, n) { SoleSame(f, g, m, x, n); }
  }

  /** The ids that the walk takes new fakes for, in that order: those from the right, other than the
      article's own, up to the first that names an article with a subject that the step does not forget. */
  ghost function NewIds(f: Forest, e: Event, refs: seq<MsgId>): seq<MsgId>
    decreases |refs|
  {
    if refs == [] then []
    else
      var id, rest := refs[|refs| - 1], refs[..|refs| - 1];
      if id == e.id then NewIds(f, e, rest)
      else if Subj(f, id).Some? && !Goes(f, e, id) then []
      else [id] + NewIds(f, e, rest)
  }

  lemma {:induction false} NewIdsAreFresh(f: Forest, e: Event, refs: seq<MsgId>)
    requires WellFormed(f) && !Rejected(f, e)
    ensures NewIds(f, e, refs) == Fresh(Entered(f, e), e.id, refs)
    decreases |refs|
  {
    hide WellFormed, Entered, Goes;
    if refs != [] {
      var id, rest := refs[|refs| - 1], refs[..|refs| - 1];
      NewIdsAreFresh(f, e, rest);
      if id != e.id { EnteredExactly(f, e, id); }
    }
  }

  /** The date that the article has when its references are walked. */
  function StepDate(f: Forest, e: Event): int {
    if Again(f, e) then Date(f, e.id) else e.date
  }

  lemma EnteredDate(f: Forest, e: Event)
    requires WellFormed(f) && !Rejected(f, e)
    ensures Date(Entered(f, e), e.id) == StepDate(f, e)
  {
    var g, m := AddSubject(f, e.subj), e.id;
    AddSubjectKeeps(f, e.subj);
    assert At(g, m) == At(f, m);
    if !Again(f, e) {
      match Subj(f, m)
      case None => PutEffect(g, m, At(Taken(g, m, e.date, e.subj), m));
      case Some(had) => DisplacedDate(g, m, e.date, e.subj, had);
    }
  }

  lemma DisplacedDate(f: Forest, m: MsgId, d: int, s: SubjName, had: SubjName)
    requires WellFormed(f) && m in f.nodes && Subj(f, m) == Some(had) && s in f.thread
    ensures Date(Detach(Taken(f, m, d, s), m, had), m) == d
  {
    hide WellFormed, Release, ShedChain, JoinThreads;
    TakenFields(f, m, d, s);
    var h := JoinThreads(Taken(f, m, d, s), had, s);
    TakenReleased(f, m, d, s, had);
    ShedLoose(Release(h, m), m, Parent(h, m));
  }

  /** No fake is taken twice for one References line: the article has a date, which marks the fakes made
      for the line, or the line does not repeat one of their ids. */
  ghost predicate Traceable(f: Forest, e: Event) {
    Rejected(f, e) || StepDate(f, e) != 0 || Distinct(NewIds(f, e, e.refs))
  }

  lemma TraceableIs(f: Forest, e: Event)
    requires WellFormed(f) && !Rejected(f, e)
    ensures Traceable(f, e) <==> Datable(Entered(f, e), e.id, e.refs)
  {
    NewIdsAreFresh(f, e, e.refs);
    EnteredDate(f, e);
  }

  /** Threading an article keeps the forest well formed: nothing is above itself, and every threaded
      article is in exactly the list that its parent, or without one its subject, names. */
  lemma StepKeepsWellFormed(f: Forest, e: Event)
    requires WellFormed(f) && Traceable(f, e)
    ensures WellFormed(Step(f, e))
  {
    if Rejected(f, e) {
      AddSubjectKeeps(f, e.subj);
    } else {
      StepFinishes(f, e);
      TraceableIs(f, e);
      ReadyThreads(Entered(f, e), e.id, e.refs, Again(f, e));
    }
  }

  ghost predicate TraceableRun(f: Forest, es: seq<Event>)
    decreases |es|
  {
    es == [] || (Traceable(f, es[0]) && TraceableRun(Step(f, es[0]), es[1..]))
  }

  /** Every run from a well formed forest stays well formed. */
  lemma {:induction false} RunKeepsWellFormed(f: Forest, es: seq<Event>)
    requires WellFormed(f) && TraceableRun(f, es)
    ensures WellFormed(Run(f, es))
    decreases |es|
  {
    if es != [] {
      StepKeepsWellFormed(f, es[0]);
      RunKeepsWellFormed(Step(f, es[0]), es[1..]);
    }
  }
}

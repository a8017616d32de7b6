// Headers with dates: a run of them needs no other condition.
module ThreadDated {
  import opened Options
  import opened Paths
  import opened ThreadSpec
  import opened ThreadLists
  import opened ThreadSafety
  import opened ThreadWalk
  import opened ThreadForest

  /** Real articles stay real, fakes stay fakes, and articles with a subject keep theirs and their date. */
  ghost predicate Marks(f: Forest, g: Forest) {
    && (forall x :: Fake(g, x) == Fake(f, x))
    && forall x | Subj(f, x).Some? :: Subj(g, x).Some? && Date(g, x) == Date(f, x)
  }

  lemma MarksTrans(f: Forest, h: Forest, g: Forest)
    requires Marks(f, h) && Marks(h, g)
    ensures Marks(f, g)
  {
  }

  /** Only lists and parents may differ. */
  ghost predicate SameData(f: Forest, g: Forest) {
    && (forall x :: Fake(g, x) == Fake(f, x)) && (forall x :: Subj(g, x) == Subj(f, x))
      && (forall x :: Date(g, x) == Date(f, x))
  }

  lemma KidsData(f: Forest, p: MsgId, kids: seq<MsgId>)
    ensures SameData(f, SetKids(f, p, kids))
  {
    PutEffect(f, p, At(f, p).(kids := kids));
  }

  lemma RootsData(f: Forest, k: SubjName, roots: seq<MsgId>)
    ensures SameData(f, SetRoots(f, k, roots))
  {
  }

  lemma LinkData(f: Forest, c: MsgId)
    ensures SameData(f, LinkChild(f, c)) && SameData(f, UnlinkChild(f, c))
  {
    hide SameData, SetKids, SetRoots, InsertByDate, Drop;
    match Parent(f, c)
    case Some(p) =>
      KidsData(f, p, InsertByDate(f, Kids(f, p), c));
      KidsData(f, p, Drop(Kids(f, p), c));
    case None =>
      match Home(f, c)
      case None => OwnData(f);
      case Some(k) =>
        RootsData(f, k, InsertByDate(f, Roots(f, k), c));
        RootsData(f, k, Drop(Roots(f, k), c));
  }

  lemma OwnData(f: Forest)
    ensures SameData(f, f)
  {
  }

  lemma ParentData(f: Forest, c: MsgId, p: Option<MsgId>)
    ensures SameData(f, SetParent(f, c, p))
  {
    PutEffect(f, c, At(f, c).(parent := p));
  }

  lemma AttachData(f: Forest, prev: MsgId, id: MsgId, re: bool)
    ensures SameData(f, Attach(f, prev, id, re))
  {
    hide LinkChild, UnlinkChild, SetParent;
    LinkData(f, prev);
    var f1 := if re && Subj(f, prev).Some? then UnlinkChild(f, prev) else f;
    ParentData(f1, prev, Some(id));
    LinkData(SetParent(f1, prev, Some(id)), prev);
  }

  lemma BlankMarks(f: Forest, g: Forest, id: MsgId, d: int)
    requires SameData(f, g) && Subj(f, id).None?
    ensures Marks(f, SetDate(g, id, d)) && forall x :: Subj(SetDate(g, id, d), x) == Subj(f, x)
  {
    PutEffect(g, id, At(g, id).(date := d));
    assert Subj(g, id).None?;
  }

  lemma {:induction false} WalkMarks(f: Forest, m: MsgId, refs: seq<MsgId>, prev: MsgId, last: Option<MsgId>, re: bool)
    ensures Marks(f, Walk(f, m, refs, prev, last, re).forest)
    decreases |refs|
  {
    hide Attach, SetDate, Date, Fake, Subj;
    if refs != [] {
      var id, rest := refs[|refs| - 1], refs[..|refs| - 1];
      var f1 := GetArticle(f, id);
      GetData(f, id);
      if (Date(f1, id) != 0 && Subj(f1, id).None?) || id == m {
        WalkMarks(f1, m, rest, prev, if prev == m then None else Some(prev), re);
      } else {
        AttachData(f1, prev, id, re);
        var f2 := Attach(f1, prev, id, re);
        if Subj(f1, id).None? {
          BlankMarks(f1, f2, id, Date(f2, m));
          WalkMarks(SetDate(f2, id, Date(f2, m)), m, rest, id, Some(id), re);
        }
      }
    }
  }

  lemma GetData(f: Forest, id: MsgId)
    ensures SameData(f, GetArticle(f, id))
  {
    GetSame(f, id);
  }

  lemma SubjMarks(f: Forest, c: MsgId, s: SubjName)
    ensures Marks(f, SetSubj(f, c, Some(s)))
  {
    PutEffect(f, c, At(f, c).(subj := Some(s)));
  }

  lemma {:induction false} NameMarks(f: Forest, x: Option<MsgId>, s: SubjName)
    ensures Marks(f, NameFakes(f, x, s))
    decreases Unknown(f)
  {
    hide Marks;
    if x.Some? && x.value in f.nodes && Subj(f, x.value).None? {
      var h := SetSubj(f, x.value, Some(s));
      SubjMarks(f, x.value, s);
      assert x.value in Unknown(f) && Unknown(h) == Unknown(f) - {x.value};
      NameMarks(h, Parent(f, x.value), s);
      MarksTrans(f, h, NameFakes(f, x, s));
    } else {
      OwnMarks(f);
    }
  }

  lemma OwnMarks(f: Forest)
    ensures Marks(f, f)
  {
  }

  lemma CutData(f: Forest, m: MsgId, x: Option<MsgId>)
    ensures SameData(f, CutLoop(f, m, x))
  {
    hide LinkChild, UnlinkChild, SetParent;
    if x.Some? && x.value != m && Grounded(Up(f) - {m}, x.value) {
      match LinkTo(Up(f), x.value, m)
      case None =>
      case Some(c) =>
        LinkData(f, c);
        ParentData(UnlinkChild(f, c), c, None);
        LinkData(Release(f, c), c);
    }
  }

  lemma SettleMarks(f: Forest, m: MsgId, last: MsgId)
    ensures Marks(f, Settle(f, m, last))
  {
    hide LinkChild, SetSubj, CutLoop, NameFakes, Marks;
    match Subj(f, m)
    case None => OwnMarks(f);
    case Some(s) =>
      var f1 := match Subj(f, last)
        case Some(t) => JoinThreads(f, t, s)
        case None => LinkChild(SetSubj(f, last, Some(s)), last);
      assert Marks(f, f1) by {
        match Subj(f, last)
        case Some(t) => JoinMarks(f, t, s);
        case None =>
          SubjMarks(f, last, s);
          LinkData(SetSubj(f, last, Some(s)), last);
          DataMarks(SetSubj(f, last, Some(s)), f1);
          MarksTrans(f, SetSubj(f, last, Some(s)), f1);
      }
      var f2 := NameFakes(f1, Parent(f1, m), s);
      NameMarks(f1, Parent(f1, m), s);
      CutData(f2, m, NamedUpTo(f1, Parent(f1, m), s));
      DataMarks(f2, Settle(f, m, last));
      MarksTrans(f, f1, f2);
      MarksTrans(f, f2, Settle(f, m, last));
  }

  lemma JoinMarks(f: Forest, s1: SubjName, s2: SubjName)
    ensures Marks(f, JoinThreads(f, s1, s2))
  {
    assert forall x :: At(JoinThreads(f, s1, s2), x) == At(f, x);
  }

  lemma DataMarks(f: Forest, g: Forest)
    requires SameData(f, g)
    ensures Marks(f, g)
  {
  }

  lemma FinishMarks(f: Forest, m: MsgId, refs: seq<MsgId>, re: bool)
    ensures Marks(f, Finish(f, m, refs, re))
  {
    hide Walk, Settle, LinkChild, Marks;
    var w := Walk(f, m, refs, m, None, re);
    WalkMarks(f, m, refs, m, None, re);
    match w.last
    case Some(x) =>
      SettleMarks(w.forest, m, x);
      MarksTrans(f, w.forest, Settle(w.forest, m, x));
    case None =>
      LinkData(w.forest, m);
      DataMarks(w.forest, LinkChild(w.forest, m));
      if !re { MarksTrans(f, w.forest, LinkChild(w.forest, m)); }
  }

  // ----- dated headers

  /** Every real article has a date. */
  ghost predicate AllDated(f: Forest) {
    forall x | x in f.nodes && !Fake(f, x) :: Date(f, x) != 0
  }

  lemma RealKnown(f: Forest, x: MsgId)
    requires WellFormed(f) && !Fake(f, x)
    ensures x in f.nodes && Subj(f, x).Some?
  {
    assert At(f, x) != BLANK;
  }

  lemma EnteredDated(f: Forest, e: Event)
    requires WellFormed(f) && !Rejected(f, e) && AllDated(f) && e.date != 0
    ensures forall x | !Fake(Entered(f, e), x) :: Subj(Entered(f, e), x).Some? && Date(Entered(f, e), x) != 0
  {
    hide WellFormed, Entered, Goes;
    EnteredDate(f, e);
    StepFinishes(f, e);
    forall x | !Fake(Entered(f, e), x) ensures Subj(Entered(f, e), x).Some? && Date(Entered(f, e), x) != 0 {
      if x != e.id {
        EnteredExactly(f, e, x);
        RealKnown(f, x);
      }
    }
  }

  /** A dated header can be traced whatever its References line says, and leaves all real articles dated. */
  lemma DatedStep(f: Forest, e: Event)
    requires WellFormed(f) && AllDated(f) && e.date != 0
    ensures Traceable(f, e) && WellFormed(Step(f, e)) && AllDated(Step(f, e))
  {
    hide WellFormed, Entered;
    assert Again(f, e) ==> Date(f, e.id) != 0;
    StepKeepsWellFormed(f, e);
    if Rejected(f, e) {
      AddSubjectKeeps(f, e.subj);
      assert forall x :: At(Step(f, e), x) == At(f, x);
    } else {
      StepFinishes(f, e);
      EnteredDated(f, e);
      FinishMarks(Entered(f, e), e.id, e.refs, Again(f, e));
    }
  }

  /** Every run of dated headers can be traced and ends well formed. */
  lemma {:induction false} DatedRun(f: Forest, es: seq<Event>)
    requires WellFormed(f) && AllDated(f) && forall e | e in es :: e.date != 0
    ensures TraceableRun(f, es) && WellFormed(Run(f, es)) && AllDated(Run(f, es))
    decreases |es|
  {
    hide WellFormed, Step, Traceable, AllDated;
    if es != [] {
      DatedStep(f, es[0]);
      DatedRun(Step(f, es[0]), es[1..]);
    }
  }

  /** Whatever dated headers come, and in whatever order: the articles end in a well formed forest. */
  lemma DatedFromNothing(es: seq<Event>)
    requires forall e | e in es :: e.date != 0
    ensures TraceableRun(EMPTY, es) && WellFormed(Run(EMPTY, es))
  {
    EmptyWellFormed();
    DatedRun(EMPTY, es);
  }
}

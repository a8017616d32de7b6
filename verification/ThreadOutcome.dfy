// Where threading puts an article, and what it leaves alone.
module ThreadOutcome {
  import opened Options
  import opened Paths
  import opened ThreadSpec
  import opened ThreadLists
  import opened ThreadSafety
  import opened ThreadDetach
  import opened ThreadWalk
  import opened ThreadSettle
  import opened ThreadGone
  import opened ThreadForest

  // ----- What stays

  /** `x` keeps its fields and its parent; only a child of `m` may become a root. */
  ghost predicate Steady(f: Forest, g: Forest, m: MsgId, x: MsgId) {
    && Subj(g, x) == Subj(f, x) && Date(g, x) == Date(f, x) && Fake(g, x) == Fake(f, x)
      && Threaded(g, x) == Threaded(f, x)
    && (Parent(g, x) == Parent(f, x) || (Parent(f, x) == Some(m) && Parent(g, x).None?))
  }

  lemma LinkFields(f: Forest, c: MsgId, x: MsgId)
    ensures Untouched(f, LinkChild(f, c), x)
  {
  }

  lemma UnlinkFieldsOf(f: Forest, c: MsgId, x: MsgId)
    ensures Untouched(f, UnlinkChild(f, c), x)
  {
  }

  lemma AttachFields(f: Forest, prev: MsgId, id: MsgId, re: bool, x: MsgId)
    requires x != prev
    ensures Untouched(f, Attach(f, prev, id, re), x)
  {
    var f1 := if re && Subj(f, prev).Some? then UnlinkChild(f, prev) else f;
    UnlinkFieldsOf(f, prev, x);
    var f2 := SetParent(f1, prev, Some(id));
    PutEffect(f1, prev, At(f1, prev).(parent := Some(id)));
    LinkFields(f2, prev, x);
  }

  lemma {:induction false} WalkFields(f: Forest, m: MsgId, refs: seq<MsgId>, prev: MsgId, last: Option<MsgId>,
      re: bool, x: MsgId)
    requires prev == m || Subj(f, prev).None?
    requires x != m && Subj(f, x).Some?
    ensures Untouched(f, Walk(f, m, refs, prev, last, re).forest, x)
    decreases |refs|
  {
    if refs != [] {
      var id, rest := refs[|refs| - 1], refs[..|refs| - 1];
      var f1 := GetArticle(f, id);
      GetSame(f, id);
      assert At(f1, x) == At(f, x) && At(f1, prev) == At(f, prev);
      if Passed(f1, m, id) {
        WalkFields(f1, m, rest, prev, if prev == m then None else Some(prev), re, x);
      } else {
        var f2 := Attach(f1, prev, id, re);
        AttachFields(f1, prev, id, re, x);
        AttachSubjects(f1, prev, id, re);
        if Subj(f1, id).None? {
          var f3 := SetDate(f2, id, Date(f2, m));
          PutEffect(f2, id, At(f2, id).(date := Date(f2, m)));
          assert At(f3, x) == At(f2, x);
          WalkFields(f3, m, rest, id, Some(id), re, x);
        }
      }
    }
  }

  lemma {:induction false} NameFields(f: Forest, p: Option<MsgId>, s: SubjName, x: MsgId)
    requires Subj(f, x).Some?
    ensures At(NameFakes(f, p, s), x) == At(f, x)
    decreases Unknown(f)
  {
    if p.Some? && p.value in f.nodes && Subj(f, p.value).None? {
      var h := SetSubj(f, p.value, Some(s));
      PutEffect(f, p.value, At(f, p.value).(subj := Some(s)));
      assert p.value in Unknown(f) && Unknown(h) == Unknown(f) - {p.value};
      NameFields(h, Parent(f, p.value), s, x);
    }
  }

  lemma CutFields(f: Forest, m: MsgId, p: Option<MsgId>, x: MsgId)
    ensures Steady(f, CutLoop(f, m, p), m, x)
  {
    if p.Some? && p.value != m && Grounded(Up(f) - {m}, p.value) {
      match LinkTo(Up(f), p.value, m)
      case None =>
      case Some(c) =>
        UpMeans(f);
        var h := Release(f, c);
        LinkFields(h, c, x);
        if x != c {
          ReleasedFields(f, c, x);
        } else {
          UnlinkFieldsOf(f, c, c);
        }
    }
  }

  lemma SettleFields(f: Forest, m: MsgId, last: MsgId, x: MsgId)
    requires Subj(f, x).Some? && Subj(f, m).Some?
    ensures Steady(f, Settle(f, m, last), m, x)
  {
    var s := Subj(f, m).value;
    var f1 := match Subj(f, last)
              case Some(t) => JoinThreads(f, t, s)
              case None => LinkChild(SetSubj(f, last, Some(s)), last);
    assert Untouched(f, f1, x) by {
      if Subj(f, last).None? {
        PutEffect(f, last, At(f, last).(subj := Some(s)));
        LinkFields(SetSubj(f, last, Some(s)), last, x);
      }
    }
    NameFields(f1, Parent(f1, m), s, x);
    CutFields(NameFakes(f1, Parent(f1, m), s), m, NamedUpTo(f1, Parent(f1, m), s), x);
  }

  lemma FinishFields(f: Forest, m: MsgId, refs: seq<MsgId>, re: bool, x: MsgId)
    requires Subj(f, m).Some? && x != m && Subj(f, x).Some?
    ensures Steady(f, Finish(f, m, refs, re), m, x)
  {
    var w := Walk(f, m, refs, m, None, re);
    WalkFields(f, m, refs, m, None, re, x);
    match w.last
    case Some(last) =>
      WalkOwnSubject(f, m, refs, m, None, re);
      SettleFields(w.forest, m, last, x);
    case None => LinkFields(w.forest, m, x);
  }

  lemma {:induction false} WalkOwnSubject(f: Forest, m: MsgId, refs: seq<MsgId>, prev: MsgId, last: Option<MsgId>,
      re: bool)
    ensures Subj(Walk(f, m, refs, prev, last, re).forest, m) == Subj(f, m)
    decreases |refs|
  {
    hide Date, Roots, Home, InsertByDate, Drop, GetArticle;
    if refs != [] {
      var id, rest := refs[|refs| - 1], refs[..|refs| - 1];
      var f1 := GetArticle(f, id);
      GetSame(f, id);
      assert At(f1, m) == At(f, m);
      if Passed(f1, m, id) {
        WalkOwnSubject(f1, m, rest, prev, if prev == m then None else Some(prev), re);
      } else {
        var f2 := Attach(f1, prev, id, re);
        AttachSubjects(f1, prev, id, re);
        if Subj(f1, id).None? {
          PutEffect(f2, id, At(f2, id).(date := Date(f2, m)));
          WalkOwnSubject(SetDate(f2, id, Date(f2, m)), m, rest, id, Some(id), re);
        }
      }
    }
  }

  /** A turned down event changes no article. */
  lemma RejectedChangesNothing(f: Forest, e: Event)
    requires Rejected(f, e)
    ensures Step(f, e).nodes == f.nodes
  {
  }

  // ----- Where the article goes

  /** The climb from `line[0]` goes through the rest of `line`. */
  ghost predicate Climbs(f: Forest, line: seq<MsgId>) {
    forall i | 0 <= i < |line| - 1 :: Parent(f, line[i]) == Some(line[i + 1])
  }

  lemma NamedParents(f: Forest, m: MsgId, s: SubjName, line: seq<MsgId>, p: Option<MsgId>)
    requires Climbs(f, line) && |line| > 0 && line[0] == m && m !in line[1..]
    ensures Climbs(CutLoop(NameFakes(f, Parent(f, m), s), m, p), line)
  {
    var g := NameFakes(f, Parent(f, m), s);
    NameParents(f, Parent(f, m), s);
    CutParents(g, m, p, line);
  }

  lemma {:induction false} NameParents(f: Forest, x: Option<MsgId>, s: SubjName)
    ensures var g := NameFakes(f, x, s); forall y :: Parent(g, y) == Parent(f, y)
    decreases Unknown(f)
  {
    if x.Some? && x.value in f.nodes && Subj(f, x.value).None? {
      var h := SetSubj(f, x.value, Some(s));
      PutEffect(f, x.value, At(f, x.value).(subj := Some(s)));
      assert x.value in Unknown(f) && Unknown(h) == Unknown(f) - {x.value};
      NameParents(h, Parent(f, x.value), s);
    }
  }

  lemma CutParents(f: Forest, m: MsgId, p: Option<MsgId>, line: seq<MsgId>)
    requires Climbs(f, line) && |line| > 0 && line[0] == m && m !in line[1..]
    ensures Climbs(CutLoop(f, m, p), line)
  {
    var g := CutLoop(f, m, p);
    forall i | 0 <= i < |line| - 1 ensures Parent(g, line[i]) == Some(line[i + 1]) {
      CutFields(f, m, p, line[i]);
      assert Parent(f, line[i]) == Some(line[i + 1]);
      assert line[i + 1] == line[1..][i];
    }
  }

  lemma HungClimbs(f: Forest, m: MsgId, chain: seq<MsgId>, x: MsgId)
    requires Hung(f, m, chain, x)
    ensures Climbs(f, chain + [x]) && m !in (chain + [x])[1..]
  {
    ChainParents(f, m, chain, Some(x));
    var line := chain + [x];
    forall i | 0 <= i < |line| - 1 ensures Parent(f, line[i]) == Some(line[i + 1]) {
      if i < |chain| - 1 { assert Parent(f, chain[i]) == Some(chain[i + 1]); }
    }
    assert forall i | 1 <= i < |chain| :: chain[i] != chain[0];
    assert m in chain;
  }

  lemma KnownClimbs(f: Forest, m: MsgId, chain: seq<MsgId>, x: MsgId)
    requires Hung(f, m, chain, x)
    ensures Climbs(Settle(f, m, x), chain + [x]) && (chain + [x])[0] == m
  {
    HungClimbs(f, m, chain, x);
    var g := JoinThreads(f, Subj(f, x).value, Subj(f, m).value);
    JoinParents(f, Subj(f, x).value, Subj(f, m).value);
    NamedParents(g, m, Subj(f, m).value, chain + [x], NamedUpTo(g, Parent(g, m), Subj(f, m).value));
  }

  lemma NewRootClimbs(f: Forest, m: MsgId, chain: seq<MsgId>, re: bool)
    requires Walking(f, m, chain, re) && |chain| > 1 && Subj(f, chain[|chain| - 1]).None?
    ensures Climbs(Settle(f, m, chain[|chain| - 1]), chain)
  {
    var x, less := chain[|chain| - 1], chain[..|chain| - 1];
    assert chain == less + [x];
    RootLast(f, m, chain, re);
    var g := LinkChild(SetSubj(f, x, Subj(f, m)), x);
    HungClimbs(g, m, less, x);
    NamedParents(g, m, Subj(f, m).value, chain, NamedUpTo(g, Parent(g, m), Subj(f, m).value));
  }

  lemma SettleClimbs(w: Walked, m: MsgId, chain: seq<MsgId>, re: bool)
    requires WalkEnd(w, m, chain, re) && w.last.Some?
    ensures Climbs(Settle(w.forest, m, w.last.value), WholeLine(w, chain)) && WholeLine(w, chain)[0] == m
  {
    if Subj(w.forest, w.last.value).Some? {
      KnownClimbs(w.forest, m, chain, w.last.value);
    } else {
      NewRootClimbs(w.forest, m, chain, re);
    }
  }

  lemma JoinParents(f: Forest, s1: SubjName, s2: SubjName)
    ensures forall y :: Parent(JoinThreads(f, s1, s2), y) == Parent(f, y)
  {
    var g := JoinThreads(f, s1, s2);
    assert forall y :: At(g, y) == At(f, y);
  }

  lemma FinishClimbs(f: Forest, m: MsgId, refs: seq<MsgId>, re: bool)
    requires Ready(f, m, re) && Datable(f, m, refs)
    ensures Climbs(Finish(f, m, refs, re), Lineage(f, refs, [m]))
    ensures Lineage(f, refs, [m]) == [m] ==> Parent(Finish(f, m, refs, re), m) == Parent(f, m)
  {
    StartWalking(f, m, re);
    FreshNotOwn(f, m, refs);
    var chain := WalkEnds(f, m, refs, [m], re);
    var w := Walk(f, m, refs, m, None, re);
    match w.last
    case Some(x) =>
      SettleClimbs(w, m, chain, re);
      assert |WholeLine(w, chain)| > 1;
    case None =>
      OwnIdsOnly(f, m, refs, re);
      LinkFields(w.forest, m, m);
  }

  /** When nothing is attached the walk leaves the article's parent alone. */
  lemma {:induction false} OwnIdsOnly(f: Forest, m: MsgId, refs: seq<MsgId>, re: bool)
    requires Walk(f, m, refs, m, None, re).last.None?
    ensures Parent(Walk(f, m, refs, m, None, re).forest, m) == Parent(f, m)
    decreases |refs|
  {
    if refs != [] {
      var id, rest := refs[|refs| - 1], refs[..|refs| - 1];
      var f1 := GetArticle(f, id);
      GetSame(f, id);
      assert At(f1, m) == At(f, m);
      if Passed(f1, m, id) {
        OwnIdsOnly(f1, m, rest, re);
      } else {
        LastStays(SetDate(Attach(f1, m, id, re), id, Date(Attach(f1, m, id, re), m)), m, rest, id, re);
      }
    }
  }

  lemma {:induction false} LastStays(f: Forest, m: MsgId, refs: seq<MsgId>, prev: MsgId, re: bool)
    requires prev != m
    ensures Walk(f, m, refs, prev, Some(prev), re).last.Some?
    decreases |refs|
  {
    if refs != [] {
      var id, rest := refs[|refs| - 1], refs[..|refs| - 1];
      var f1 := GetArticle(f, id);
      if Passed(f1, m, id) {
        LastStays(f1, m, rest, prev, re);
      } else {
        var f2 := Attach(f1, prev, id, re);
        if Subj(f1, id).None? { LastStays(SetDate(f2, id, Date(f2, m)), m, rest, id, re); }
      }
    }
  }

  /** The article, then each id of the line from the right that is not met already, up to the first that names
      an article with a subject that the step does not forget. */
  ghost function LineOf(f: Forest, e: Event, refs: seq<MsgId>, chain: seq<MsgId>): seq<MsgId>
    decreases |refs|
  {
    if refs == [] then chain
    else
      var id, rest := refs[|refs| - 1], refs[..|refs| - 1];
      if id in chain then LineOf(f, e, rest, chain)
      else if Subj(f, id).Some? && !Goes(f, e, id) then chain + [id]
      else LineOf(f, e, rest, chain + [id])
  }

  lemma {:induction false} LineIsLineage(f: Forest, e: Event, refs: seq<MsgId>, chain: seq<MsgId>)
    requires WellFormed(f) && !Rejected(f, e) && e.id in chain
    ensures LineOf(f, e, refs, chain) == Lineage(Entered(f, e), refs, chain)
    decreases |refs|
  {
    hide WellFormed, Entered, Goes;
    if refs != [] {
      var id, rest := refs[|refs| - 1], refs[..|refs| - 1];
      if id in chain {
        LineIsLineage(f, e, rest, chain);
      } else {
        EnteredExactly(f, e, id);
        LineIsLineage(f, e, rest, chain + [id]);
      }
    }
  }

  /** An article goes below the articles that its References line names: climbing from it one meets
      the ids of the line from the right, each new one once, up to the first article that was known.
      Without such an id it keeps its parent when it was threaded before, and has none otherwise. */
  lemma FollowsReferences(f: Forest, e: Event)
    requires WellFormed(f) && !Rejected(f, e) && Traceable(f, e)
    ensures var line := LineOf(f, e, e.refs, [e.id]);
            && Climbs(Step(f, e), line)
            && (line == [e.id] ==> Parent(Step(f, e), e.id) == if Again(f, e) then Parent(f, e.id) else None)
  {
    hide Traceable, Entered, Goes, Lineage, LineOf, Finish, Ready, Datable, WellFormed, Climbs, Parent, Step, Again,
      Rejected;
    StepFinishes(f, e);
    TraceableIs(f, e);
    LineIsLineage(f, e, e.refs, [e.id]);
    FinishClimbs(Entered(f, e), e.id, e.refs, Again(f, e));
    EnteredParent(f, e);
  }

  lemma EnteredParent(f: Forest, e: Event)
    requires WellFormed(f) && !Rejected(f, e)
    ensures Parent(Entered(f, e), e.id) == if Again(f, e) then Parent(f, e.id) else None
  {
    hide WellFormed, Acyclic, Well;
    StepFinishes(f, e);
    assert At(AddSubject(f, e.subj), e.id) == At(f, e.id);
  }

  /** All articles that the line goes through are in one thread. */
  lemma {:induction false} OneThread(f: Forest, line: seq<MsgId>, i: nat)
    requires WellFormed(f) && Climbs(f, line) && i < |line| && Subj(f, line[0]).Some? && line[0] in f.nodes
    ensures Home(f, line[i]) == Home(f, line[0]) && Subj(f, line[i]).Some?
  {
    if i > 0 {
      OneThread(f, line, i - 1);
      assert Parent(f, line[i - 1]) == Some(line[i]);
      assert line[i - 1] in Kids(f, line[i]) by {
        assert At(f, line[i - 1]) != BLANK;
        assert line[i - 1] in f.nodes;
      }
      assert At(f, line[i]) != BLANK;
      assert line[i] in f.nodes;
    }
  }
}

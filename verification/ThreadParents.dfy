// What a step leaves alone: exactly which articles lose their parent, and which are forgotten.
module ThreadParents {
  import opened Options
  import opened Paths
  import opened ThreadSpec
  import opened ThreadLists
  import opened ThreadSafety
  import opened ThreadDetach
  import opened ThreadWalk
  import opened ThreadSettle
  import opened ThreadGone
  import opened ThreadForest
  import opened ThreadOutcome
  import opened ThreadDates

  /** The first article from the right that the line meets: known, not the article itself, and not a fake
      that the step forgets. */
  ghost function Met(f: Forest, e: Event, refs: seq<MsgId>): Option<MsgId>
    decreases |refs|
  {
    if refs == [] then None
    else
      var id, rest := refs[|refs| - 1], refs[..|refs| - 1];
      if id != e.id && Subj(f, id).Some? && !Goes(f, e, id) then Some(id) else Met(f, e, rest)
  }

  lemma {:induction false} MetIsKnown(f: Forest, e: Event, refs: seq<MsgId>)
    requires WellFormed(f) && !Rejected(f, e)
    ensures Met(f, e, refs) == KnownRef(Entered(f, e), e.id, refs)
    decreases |refs|
  {
    hide WellFormed, Entered, Goes;
    if refs != [] {
      var id, rest := refs[|refs| - 1], refs[..|refs| - 1];
      MetIsKnown(f, e, rest);
      if id != e.id { EnteredExactly(f, e, id); }
    }
  }

  // ----- climbs among known articles

  lemma KnownUp(f: Forest, m: MsgId, re: bool, y: MsgId)
    requires Ready(f, m, re) && y != m && Subj(f, y).Some? && Parent(f, y).Some?
    ensures var p := Parent(f, y).value; p == m || Subj(f, p).Some?
  {
    var p := Parent(f, y).value;
    assert y in f.nodes && At(f, y) != BLANK;
    assert y !in {m} && Placed(f, y);
    assert Kids(f, p) != [] && p in f.nodes;
    if p != m { assert At(f, p) != BLANK; }
  }

  /** The two forests give known articles other than `m` the same parents. */
  ghost predicate SameParents(f: Forest, g: Forest, m: MsgId) {
    forall y | y != m && Subj(f, y).Some? :: Parent(g, y) == Parent(f, y)
  }

  /** With the link of `m` cut, a climb from a known article is the same in both. */
  lemma {:induction false} SameClimb(f: Forest, g: Forest, m: MsgId, re: bool, y: MsgId, t: MsgId, n: nat)
    requires Ready(f, m, re) && SameParents(f, g, m) && (y == m || Subj(f, y).Some?)
    ensures Meets(Up(g) - {m}, y, t, n) == Meets(Up(f) - {m}, y, t, n)
    decreases n
  {
    hide Ready;
    UpMeans(f);
    UpMeans(g);
    if n > 0 && y != t && y != m {
      assert Parent(g, y) == Parent(f, y);
      if Parent(f, y).Some? {
        KnownUp(f, m, re, y);
        SameClimb(f, g, m, re, Parent(f, y).value, t, n - 1);
      }
    }
  }

  /** The climb from `y` that meets a child `x` of `m` finds it as the way to `m`. */
  lemma {:induction false} LinkFound(up: Links<MsgId>, y: MsgId, m: MsgId, x: MsgId, n: nat)
    requires y != m && x != m && Grounded(up - {m}, y) && Meets(up - {m}, y, x, n) && x in up && up[x] == m
    ensures LinkTo(up, y, m) == Some(x)
    decreases n
  {
    if y != x {
      assert y in up && Meets(up - {m}, up[y], x, n - 1);
      if up[y] != m {
        GroundedStep(up - {m}, y);
        LinkFound(up, up[y], m, x, n - 1);
      }
    }
  }

  /** A climb to a child of `m` does not pass `m`. */
  lemma {:induction false} BelowFirst(up: Links<MsgId>, y: MsgId, m: MsgId, x: MsgId, n: nat)
    requires Acyclic(up) && x in up && up[x] == m && x != m && Meets(up, y, x, n)
    ensures Meets(up - {m}, y, x, n) && y != m
    decreases n
  {
    if y == m {
      NotAboveItself(up, x);
      assert AtOrAbove(up, m, x);
      assert false;
    }
    if y != x { BelowFirst(up, up[y], m, x, n - 1); }
  }

  // ----- the parents after a step

  lemma CutParent(f: Forest, m: MsgId, x0: MsgId, x: MsgId)
    requires x0 != m && Grounded(Up(f) - {m}, x0)
    ensures Parent(CutLoop(f, m, Some(x0)), x) == if LinkTo(Up(f), x0, m) == Some(x) then None else Parent(f, x)
  {
    hide LinkChild, Release, UnlinkChild;
    match LinkTo(Up(f), x0, m)
    case None =>
    case Some(c) =>
      LinkFields(Release(f, c), c, x);
      if x == c { ReleasedParent(f, c); } else { ReleasedFields(f, c, x); }
  }

  lemma ReleasedParent(f: Forest, c: MsgId)
    ensures Parent(Release(f, c), c) == None
  {
    PutEffect(UnlinkChild(f, c), c, At(UnlinkChild(f, c), c).(parent := None));
  }

  /** Settling below a known article takes the parent of the child that the climb from there meets. */
  lemma SettleParent(f: Forest, m: MsgId, chain: seq<MsgId>, x0: MsgId, x: MsgId)
    requires Hung(f, m, chain, x0)
    ensures x0 != m && Grounded(Up(f) - {m}, x0)
    ensures Parent(Settle(f, m, x0), x) == if LinkTo(Up(f), x0, m) == Some(x) then None else Parent(f, x)
  {
    hide Hung, JoinThreads, CutLoop, NameFakes, LinkTo, Home;
    HungParts(f, m, chain, x0);
    var s := Subj(f, m).value;
    var g := JoinThreads(f, Subj(f, x0).value, s);
    JoinHung(f, m, chain, x0);
    JoinKeepsSubj(f, Subj(f, x0).value, s, m);
    JoinParents(f, Subj(f, x0).value, s);
    NameHung(g, m, chain, x0);
    NameParents(g, Parent(g, m), s);
    JoinedUp(f, g);
    HungHasLinks(f, m, chain, x0);
    CutAtFootAcyclic(Up(f), chain, x0);
    GroundedInAcyclic(Up(f) - {m}, x0);
    CutParent(NameFakes(g, Parent(g, m), s), m, x0, x);
  }

  lemma HungParts(f: Forest, m: MsgId, chain: seq<MsgId>, x0: MsgId)
    requires Hung(f, m, chain, x0)
    ensures Subj(f, m).Some? && Subj(f, x0).Some? && x0 != m && |chain| > 0 && chain[0] == m
  {
    assert m in chain;
  }

  lemma JoinedUp(f: Forest, g: Forest)
    requires forall y :: Parent(g, y) == Parent(f, y)
    ensures Up(g) == Up(f)
  {
    UpMeans(f);
    UpMeans(g);
  }

  /** A new thread has no loop to cut. */
  lemma SettleNewParent(f: Forest, m: MsgId, chain: seq<MsgId>, re: bool, x: MsgId)
    requires Walking(f, m, chain, re) && |chain| > 1
    ensures Parent(Settle(f, m, chain[|chain| - 1]), x) == Parent(f, x)
  {
    hide Walking, CutLoop, NameFakes, LinkTo, LinkChild, Home;
    var last := chain[|chain| - 1];
    WalkingParts(f, m, chain, re);
    var s := Subj(f, m).value;
    var h := SetSubj(f, last, Some(s));
    var g := LinkChild(h, last);
    RootLast(f, m, chain, re);
    RootKeepsSubj(f, last, Some(s), m);
    SubjParents(f, last, s);
    LinkFields(h, last, x);
    LinkFields(h, last, last);
    HungParts(g, m, chain[..|chain| - 1], last);
    NameHung(g, m, chain[..|chain| - 1], last);
    NameParents(g, Parent(g, m), s);
    CutNothing(NameFakes(g, Parent(g, m), s), m, last);
  }

  lemma WalkingParts(f: Forest, m: MsgId, chain: seq<MsgId>, re: bool)
    requires Walking(f, m, chain, re) && |chain| > 1
    ensures Subj(f, m).Some? && Subj(f, chain[|chain| - 1]).None? && Parent(f, chain[|chain| - 1]).None?
  {
    WalkPrev(f, m, chain, re);
  }

  lemma SubjParents(f: Forest, x: MsgId, s: SubjName)
    ensures forall y :: Parent(SetSubj(f, x, Some(s)), y) == Parent(f, y)
  {
    PutEffect(f, x, At(f, x).(subj := Some(s)));
  }

  lemma CutNothing(f: Forest, m: MsgId, x: MsgId)
    requires Parent(f, x).None? && x != m
    ensures CutLoop(f, m, Some(x)) == f
  {
    UpMeans(f);
    if Grounded(Up(f) - {m}, x) { assert LinkTo(Up(f), x, m) == None; }
  }

  lemma KnownParents(f: Forest, m: MsgId, refs: seq<MsgId>, re: bool)
    ensures SameParents(f, Walk(f, m, refs, m, None, re).forest, m)
  {
    forall y | y != m && Subj(f, y).Some? ensures Parent(Walk(f, m, refs, m, None, re).forest, y) == Parent(f, y) {
      WalkFields(f, m, refs, m, None, re, y);
    }
  }

  /** From the references on: a known article loses its parent just when that is `m` and the known article
      that the line meets is at or below it. */
  lemma FinishParent(f: Forest, m: MsgId, refs: seq<MsgId>, re: bool, x: MsgId)
    requires Ready(f, m, re) && Datable(f, m, refs) && x != m && Subj(f, x).Some?
    ensures var known := KnownRef(f, m, refs);
      Parent(Finish(f, m, refs, re), x) ==
        if known.Some? && Parent(f, x) == Some(m) && AtOrAbove(Up(f), known.value, x) then None else Parent(f, x)
  {
    hide Ready, Walk, Settle, Hung, Walking, KnownRef, LinkTo, Meets, LinkChild;
    StartWalking(f, m, re);
    FreshNotOwn(f, m, refs);
    var chain := WalkEnds(f, m, refs, [m], re);
    var w := Walk(f, m, refs, m, None, re);
    WalkKnown(f, m, refs, m, None, re);
    KnownParents(f, m, refs, re);
    match w.last
    case Some(x0) =>
      if Subj(w.forest, x0).Some? {
        SettleParent(w.forest, m, chain, x0, x);
        KnownRefKnown(f, m, refs);
        LoopBelow(f, w.forest, m, re, x0, x);
      } else {
        SettleNewParent(w.forest, m, chain, re, x);
      }
    case None => LinkFields(w.forest, m, x);
  }

  lemma {:induction false} KnownRefKnown(f: Forest, m: MsgId, refs: seq<MsgId>)
    ensures var known := KnownRef(f, m, refs); known.Some? ==> known.value != m && Subj(f, known.value).Some?
    decreases |refs|
  {
    if refs != [] { KnownRefKnown(f, m, refs[..|refs| - 1]); }
  }

  /** The child of `m` that the climb meets, seen before the walk. */
  lemma LoopBelow(f: Forest, g: Forest, m: MsgId, re: bool, x0: MsgId, x: MsgId)
    requires Ready(f, m, re) && SameParents(f, g, m) && x0 != m && x != m && Subj(f, x0).Some? && Subj(f, x).Some?
    requires Grounded(Up(g) - {m}, x0)
    ensures LinkTo(Up(g), x0, m) == Some(x) <==> Parent(f, x) == Some(m) && AtOrAbove(Up(f), x0, x)
  {
    hide Ready, LinkTo, Meets;
    UpMeans(f);
    UpMeans(g);
    ReadyAcyclic(f, m, re);
    if LinkTo(Up(g), x0, m) == Some(x) {
      LinkMeans(Up(g), x0, m);
      var n: nat :| Meets(Up(g) - {m}, x0, x, n);
      SameClimb(f, g, m, re, x0, x, n);
      CutAbove(Up(f), {m}, x0, x, n);
    }
    if Parent(f, x) == Some(m) && AtOrAbove(Up(f), x0, x) {
      var n: nat :| Meets(Up(f), x0, x, n);
      BelowFirst(Up(f), x0, m, x, n);
      SameClimb(f, g, m, re, x0, x, n);
      LinkFound(Up(g), x0, m, x, n);
    }
  }

  lemma LinkMeans(up: Links<MsgId>, x: MsgId, m: MsgId)
    requires x != m && Grounded(up - {m}, x)
    ensures var r := LinkTo(up, x, m); r.Some? ==> r.value in up && up[r.value] == m && AtOrAbove(up - {m}, x, r.value)
  {
  }

  lemma ReadyAcyclic(f: Forest, m: MsgId, re: bool)
    requires Ready(f, m, re)
    ensures Acyclic(Up(f))
  {
  }

  // ----- what a step leaves alone

  /** The article comes below one of its own children's line: `x` is a child of the article, and the known
      article that the line meets is `x` or below it. */
  ghost predicate Cut(f: Forest, e: Event, x: MsgId) {
    var met := Met(f, e, e.refs);
    met.Some? && Parent(f, x) == Some(e.id) && AtOrAbove(Up(f), met.value, x)
  }

  lemma EnteredParents(f: Forest, e: Event)
    requires WellFormed(f) && !Rejected(f, e)
    ensures SameParents(Entered(f, e), f, e.id)
  {
    hide WellFormed, Entered, Goes;
    forall y | y != e.id && Subj(Entered(f, e), y).Some? ensures Parent(f, y) == Parent(Entered(f, e), y) {
      EnteredExactly(f, e, y);
    }
  }

  /** Climbs to a child of `m` are the same in two forests with the same parents. */
  lemma SameAbove(f: Forest, g: Forest, m: MsgId, re: bool, x0: MsgId, x: MsgId)
    requires Ready(f, m, re) && Acyclic(Up(g)) && SameParents(f, g, m) && x0 != m && x != m && Subj(f, x0).Some?
    requires Parent(f, x) == Some(m) && Parent(g, x) == Some(m)
    ensures AtOrAbove(Up(f), x0, x) <==> AtOrAbove(Up(g), x0, x)
  {
    hide Ready, Meets, Acyclic;
    UpMeans(f);
    UpMeans(g);
    ReadyAcyclic(f, m, re);
    if AtOrAbove(Up(f), x0, x) {
      var n: nat :| Meets(Up(f), x0, x, n);
      BelowFirst(Up(f), x0, m, x, n);
      SameClimb(f, g, m, re, x0, x, n);
      CutAbove(Up(g), {m}, x0, x, n);
    }
    if AtOrAbove(Up(g), x0, x) {
      var n: nat :| Meets(Up(g), x0, x, n);
      BelowFirst(Up(g), x0, m, x, n);
      SameClimb(f, g, m, re, x0, x, n);
      CutAbove(Up(f), {m}, x0, x, n);
    }
  }

  /** `x` has the same data in both forests. */
  ghost predicate DataKept(f: Forest, g: Forest, x: MsgId) {
    Subj(g, x) == Subj(f, x) && Date(g, x) == Date(f, x) && Fake(g, x) == Fake(f, x) && Threaded(g, x) == Threaded(f, x)
  }

  /** Nothing threaded is lost.  Of the other articles that have a subject, exactly the fakes that were
      above a replaced fake for its sake alone are forgotten; all the rest keep their data, and their
      parent too, but for the one child of the article that the article would come to hang below, which
      becomes a root. */
  lemma NothingLost(f: Forest, e: Event, x: MsgId)
    requires WellFormed(f) && Traceable(f, e) && !Rejected(f, e) && x != e.id && Subj(f, x).Some?
    ensures if Goes(f, e, x) then Fake(f, x) && At(Entered(f, e), x) == BLANK
            else DataKept(f, Step(f, e), x) && Parent(Step(f, e), x) == if Cut(f, e, x) then None else Parent(f, x)
  {
    hide WellFormed, Goes, Entered, Finish, Ready, Datable, KnownRef, Met;
    EnteredExactly(f, e, x);
    StepFinishes(f, e);
    TraceableIs(f, e);
    if !Goes(f, e, x) {
      var g, m, re := Entered(f, e), e.id, Again(f, e);
      ReadySubject(g, m, re);
      FinishFields(g, m, e.refs, re, x);
      FinishParent(g, m, e.refs, re, x);
      MetIsKnown(f, e, e.refs);
      KnownRefKnown(g, m, e.refs);
      EnteredParents(f, e);
      WellFormedUp(f);
      if KnownRef(g, m, e.refs).Some?
        && Parent(f, x) == Some(m) { SameAbove(g, f, m, re, KnownRef(g, m, e.refs).value, x); }
    }
  }

  lemma WellFormedUp(f: Forest)
    requires WellFormed(f)
    ensures Acyclic(Up(f))
  {
  }
}

// A real article in the place of a fake: the threads joined, the place left, and the fakes above
// that were there for it alone forgotten.
module ThreadEnter {
  import opened Options
  import opened Paths
  import opened ThreadSpec
  import opened ThreadLists
  import opened ThreadSafety
  import opened ThreadDetach
  import opened ThreadShed
  import opened ThreadCells
  import opened ThreadHeap
  import opened ThreadJoin
  import opened ThreadFields

  /** Whether a parent has one child shows in the pointers. */
  lemma OneKid(t: Threads, p: Article)
    requires t.Tidy() && Represents(t.Image(), t.f) && t.Held(p) && Kids(t.f, p.msgid) != []
    ensures p.child1 != null && (p.child1.sibling == null <==> |Kids(t.f, p.msgid)| == 1)
  {
    var kids := Kids(t.f, p.msgid);
    t.Shown(p.msgid);
    assert Linked(t.Cells(), kids);
    assert t.Cells()[kids[0]].sibling == Next(kids, 0);
  }

  lemma KidAbove(f: Forest, m: MsgId, path: seq<MsgId>, x: MsgId)
    requires Rooted(f, m) && Climbed(f, m, path, Some(x))
    ensures Kids(f, x) != [] && x in f.nodes
  {
    hide Line, Placed, Acyclic;
    LowestBelow(f, m, path, Some(x));
    PlacedIn(f, Lowest(m, path));
    ParentLists(f, Lowest(m, path), x);
  }

  lemma ParentLists(f: Forest, c: MsgId, x: MsgId)
    requires Placed(f, c) && Parent(f, c) == Some(x)
    ensures Kids(f, x) != []
  {
  }

  lemma StopIsFirm(f: Forest, x: MsgId)
    requires x in f.nodes && (!Fake(f, x) || (Kids(f, x) != [] && |Kids(f, x)| != 1))
    ensures Firm(f, Some(x), 2)
  {
  }

  /** What the climb sees of the article it has come to. */
  ghost predicate Seen(t: Threads, ap: Article)
    reads t`f, ap, ap.child1
  {
    && ap.child1 != null && ap.fake == Fake(t.f, ap.msgid) && IdOf(ap.parent) == Parent(t.f, ap.msgid)
    && (ap.child1.sibling == null <==> |Kids(t.f, ap.msgid)| == 1)
    && Kids(t.f, ap.msgid) != [] && ap.msgid in t.f.nodes && Grounded(Up(t.f), ap.msgid)
  }

  lemma ClimbSees(t: Threads, ap: Article, m: MsgId, path: seq<MsgId>)
    requires t.Tidy() && Represents(t.Image(), t.f) && t.Held(ap) && Rooted(t.f, m)
      && Climbed(t.f, m, path, Some(ap.msgid))
    ensures Seen(t, ap) && t.Held(ap.parent)
  {
    hide Line, Acyclic, Grounded, Well;
    KidAbove(t.f, m, path, ap.msgid);
    OneKid(t, ap);
    t.Shown(ap.msgid);
    AcyclicGrounded(t.f, m, ap.msgid);
  }

  lemma AcyclicGrounded(f: Forest, m: MsgId, x: MsgId)
    requires Rooted(f, m)
    ensures Grounded(Up(f), x)
  {
    hide Well;
    CutKeepsAcyclic(Up(f), {});
    assert Up(f) - {} == Up(f);
    GroundedInAcyclic(Up(f), x);
  }

  /** The climb past fakes with one child. */
  method FindStopper(t: Threads, article: Article) returns (ap: Article?, ghost path: seq<MsgId>)
    requires t.Repr() && Rooted(t.f, article.msgid) && t.Held(article)
    ensures t.Repr() && t.Held(ap)
    ensures Climbed(t.f, article.msgid, path, IdOf(ap)) && Firm(t.f, IdOf(ap), 2)
  {
    hide Represents, Rooted, Climbed, Firm, Threads.Tidy, Threads.RingsOk, Height, Grounded;
    ghost var m := article.msgid;
    CellIs(t, article);
    StartClimb(t.f, m);
    ap := article.parent;
    path := [];
    if ap != null { ClimbSees(t, ap, m, path); }
    while ap != null && ap.fake && ap.child1.sibling == null
      invariant t.Repr() && Rooted(t.f, m) && t.Held(ap) && Climbed(t.f, m, path, IdOf(ap))
      invariant ap != null ==> Seen(t, ap)
      decreases if ap == null then 0 else Height(Up(t.f), ap.msgid) + 1
    {
      CellIs(t, ap);
      ClimbOne(t.f, m, path, ap.msgid);
      path := path + [ap.msgid];
      ap := ap.parent;
      if ap != null { ClimbSees(t, ap, m, path); }
    }
    if ap != null { StopIsFirm(t.f, ap.msgid); } else { NoStop(t.f); }
  }

  lemma NoStop(f: Forest)
    ensures Firm(f, None, 2)
  {
  }

  // ----- letting articles go

  /** A sibling link of an article in no list says nothing. */
  lemma FreeSibling(st: Store, f: Forest, c: MsgId, s: Option<MsgId>)
    requires Represents(st, f) && Free(f, c) && c in st.cells
    ensures Represents(st.(cells := st.cells[c := st.cells[c].(sibling := s)]), f)
  {
    hide First, Next;
    var cells := st.cells[c := st.cells[c].(sibling := s)];
    forall p ensures Linked(cells, Kids(f, p)) { StillLinked(st.cells, cells, Kids(f, p)); }
    forall k ensures Linked(cells, Roots(f, k)) { StillLinked(st.cells, cells, Roots(f, k)); }
  }

  method ClearSibling(t: Threads, a: Article)
    requires t.Repr() && t.Held(a) && Free(t.f, a.msgid)
    modifies a`sibling
    ensures t.Repr() && t.f == old(t.f)
  {
    hide Represents, Free, Threads.RingsOk, Threads.Tidy;
    CellIs(t, a);
    ghost var st := t.Image();
    a.sibling := null;
    t.WroteSibling(a);
    FreeSibling(st, t.f, a.msgid, None);
    assert t.Image() == st.(cells := st.cells[a.msgid := st.cells[a.msgid].(sibling := None)]);
  }

  /** The article is taken out of its list and has no parent any more. */
  method LetGo(t: Threads, a: Article)
    requires t.Repr() && t.Held(a) && Lists(t.f) && Closed(t.f) && Placed(t.f, a.msgid)
      && Free(Release(t.f, a.msgid), a.msgid)
    modifies t`f, t.hash.Values`sibling, t.hash.Values`child1, t.hash.Values`parent, t.subjects.Values`thread
    ensures t.Repr() && t.f == Release(old(t.f), a.msgid)
  {
    hide Represents, Lists, Closed, Placed, Free, UnlinkChild, Threads.RingsOk, Threads.Tidy, Threads.Cells;
    t.UnlinkChild(a);
    WriteParent(t, a, null);
    ClearSibling(t, a);
  }

  /** A spent fake is taken out of its list and forgets its date, subject and parent. */
  method ForgetFake(t: Threads, ap: Article) returns (prev: Article?)
    requires t.Repr() && t.Held(ap) && Lists(t.f) && Closed(t.f) && Placed(t.f, ap.msgid)
    modifies t`f, t.hash.Values`sibling, t.hash.Values`child1, t.hash.Values`parent, t.hash.Values`date,
      t.hash.Values`subj,
      t.subjects.Values`thread
    ensures t.Repr() && t.f == Forget(old(t.f), ap.msgid)
    ensures t.Held(prev) && IdOf(prev) == Parent(old(t.f), ap.msgid)
  {
    hide Represents, Lists, Closed, Placed, UnlinkChild, Threads.RingsOk, Threads.Tidy, Threads.Cells;
    ghost var f := t.f;
    CellIs(t, ap);
    t.UnlinkChild(ap);
    prev := ap.parent;
    WriteDate(t, ap, 0);
    WriteSubj(t, ap, null);
    WriteParent(t, ap, null);
    ForgetInOrder(UnlinkChild(f, ap.msgid), ap.msgid);
  }

  lemma PutTwice(f: Forest, x: MsgId, n: Node, k: Node)
    ensures Put(Put(f, x, n), x, k) == Put(f, x, k) && At(Put(f, x, n), x) == n
  {
    assert f.nodes[x := n][x := k] == f.nodes[x := k];
  }

  /** The order of the three writes does not matter. */
  lemma ForgetInOrder(h: Forest, c: MsgId)
    ensures SetParent(SetSubj(SetDate(h, c, 0), c, None), c, None) ==
      SetSubj(SetDate(SetParent(h, c, None), c, 0), c, None)
  {
    hide Put, At;
    var n := At(h, c);
    PutTwice(h, c, n.(date := 0), n.(date := 0, subj := None));
    PutTwice(h, c, n.(date := 0, subj := None), n.(date := 0, subj := None, parent := None));
    PutTwice(h, c, n.(parent := None), n.(parent := None, date := 0));
    PutTwice(h, c, n.(parent := None, date := 0), n.(parent := None, date := 0, subj := None));
  }

  /** The climb that forgets the fakes of the line. */
  method ShedLine(t: Threads, first: Article?, stopper: Article?, ghost m: MsgId, ghost line: seq<MsgId>)
    requires t.Repr() && t.Held(first) && t.Held(stopper) && Shedding(t.f, m, line, IdOf(stopper))
      && IdOf(first) == FirstOf(line, IdOf(stopper))
    modifies t`f, t.hash.Values`sibling, t.hash.Values`child1, t.hash.Values`parent, t.hash.Values`date,
      t.hash.Values`subj,
      t.subjects.Values`thread
    ensures t.Repr() && t.f == ShedChain(old(t.f), IdOf(first))
  {
    hide Represents, Shedding, Placed, Forget, ShedChain, Threads.RingsOk, Threads.Tidy, Threads.Cells;
    var ap := first;
    ghost var path, stop := line, IdOf(stopper);
    AtStop(t, ap, stopper, path, stop, m);
    while ap != stopper
      invariant t.Repr() && t.Held(ap) && t.Held(stopper) && Shedding(t.f, m, path, stop)
        && IdOf(ap) == ThreadShed.FirstOf(path, stop)
      invariant ap == stopper <==> path == []
      invariant ShedChain(t.f, ThreadShed.FirstOf(path, stop)) == ShedChain(old(t.f), IdOf(first))
      decreases |path|
    {
      LineSpent(t.f, m, path, stop);
      ShedOne(t.f, m, path, stop);
      LooseLists(t.f, m, path, stop);
      ap := ForgetFake(t, ap);
      path := path[1..];
      AtStop(t, ap, stopper, path, stop, m);
    }
    ShedDone(t.f, m, stop);
  }

  lemma LooseLists(f: Forest, m: MsgId, path: seq<MsgId>, stop: Option<MsgId>)
    requires Shedding(f, m, path, stop)
    ensures Lists(f) && Closed(f)
  {
    LooseClosed(f, m);
  }

  /** The climb is at its end just when the line is used up. */
  lemma AtStop(t: Threads, ap: Article?, stopper: Article?, path: seq<MsgId>, stop: Option<MsgId>, m: MsgId)
    requires t.Held(ap) && t.Held(stopper) && stop == IdOf(stopper) && IdOf(ap) == ThreadShed.FirstOf(path, stop)
      && Shedding(t.f, m, path, stop)
    ensures ap == stopper <==> path == []
  {
    hide Loose;
    SameId(t, ap, stopper);
    if path != [] { LineSpent(t.f, m, path, stop); }
  }

  // ----- the place of a fake taken and given up

  /** The article took the place of a fake that had the subject `had`. */
  ghost predicate TookPlace(e: Forest, g: Forest, m: MsgId, d: int, s: SubjName, had: SubjName) {
    e == Taken(g, m, d, s) && WellFormed(g) && m in g.nodes && Subj(g, m) == Some(had) && s in g.thread
  }

  lemma TakenMergeable(e: Forest, g: Forest, m: MsgId, d: int, s: SubjName, had: SubjName)
    requires TookPlace(e, g, m, d, s, had)
    ensures Mergeable(e, ThreadOf(e, s))
  {
    TakenFields(g, m, d, s);
    TakenLists(g, m, d, s);
    TakenThreads(g, m, d, s);
    hide Lists, ThreadLists.Threads, Taken;
    var k2 := ThreadOf(e, s);
    forall x | x in Roots(e, k2) ensures Home(e, x) == Some(k2) {
      assert x in Roots(g, k2);
      assert Home(g, x) == Some(k2) by { HomeOfRoot(g, k2, x); }
    }
  }

  lemma HomeOfRoot(g: Forest, k: SubjName, x: MsgId)
    requires WellFormed(g) && x in Roots(g, k)
    ensures Home(g, x) == Some(k)
  {
  }

  lemma JoinedRooted(e: Forest, g: Forest, m: MsgId, d: int, s: SubjName, had: SubjName)
    requires TookPlace(e, g, m, d, s, had)
    ensures var h := JoinThreads(e, had, s);
      Rooted(h, m) && Loose(Release(h, m), m) && Lists(h) && Closed(h) && Placed(h, m)
  {
    hide JoinThreads, Release, Loose, WellFormed;
    TakenJoined(g, m, d, s, had);
    TakenReleased(g, m, d, s, had);
    TakenFields(g, m, d, s);
    var h := JoinThreads(e, had, s);
    assert At(h, m) == At(e, m);
    WellFormedAcyclic(g);
    PlacedIn(h, m);
  }

  lemma WellFormedAcyclic(g: Forest)
    requires WellFormed(g)
    ensures Acyclic(Up(g))
  {
  }

  lemma LooseFree(f: Forest, m: MsgId)
    requires Loose(f, m)
    ensures Free(f, m)
  {
  }

  lemma DetachIs(e: Forest, m: MsgId, had: SubjName, s: SubjName)
    requires Subj(e, m) == Some(s)
    ensures ThreadSpec.Detach(e, m, had) == var h := JoinThreads(e, had, s); ShedChain(Release(h, m), Parent(h, m))
  {
  }

  /** thread_article, for an article that took the place of a fake with a subject. */
  method Detach(t: Threads, article: Article, had: Subject, ghost g: Forest, ghost d: int)
    requires t.Repr() && t.Held(article) && t.HeldSubject(had) && article.subj != null
    requires TookPlace(t.f, g, article.msgid, d, article.subj.name, had.name)
    modifies t`f, t`rings, t.hash.Values`sibling, t.hash.Values`child1, t.hash.Values`parent, t.hash.Values`date,
      t.hash.Values`subj,
      t.subjects.Values`thread, t.subjects.Values`threadLink
    ensures t.Repr() && t.f == ThreadSpec.Detach(old(t.f), article.msgid, had.name)
  {
    hide Represents, TookPlace, Rooted, Loose, Lists, Closed, Placed, Free, JoinThreads, Release, ShedChain, Climbed,
      Shedding, Firm,
      Threads.RingsOk, Threads.Tidy, Threads.Cells, ThreadSpec.Detach, ThreadOf, Roots, Mergeable;
    ghost var e, m, s := t.f, article.msgid, article.subj.name;
    CellIs(t, article);
    TakenMergeable(e, g, m, d, s, had.name);
    JoinedRooted(e, g, m, d, s, had.name);
    DetachIs(e, m, had.name, s);
    JoinIfApart(t, had, article.subj);
    var stopper, path := FindStopper(t, article);
    CellIs(t, article);
    var ap := article.parent;
    LooseFree(Release(t.f, m), m);
    StartShedding(t.f, m, path, IdOf(stopper));
    ClimbedFrom(t.f, m, path, IdOf(stopper));
    LetGo(t, article);
    ShedLine(t, ap, stopper, m, path);
  }

  lemma ClimbedFrom(f: Forest, m: MsgId, path: seq<MsgId>, stop: Option<MsgId>)
    requires Climbed(f, m, path, stop)
    ensures Parent(f, m) == ThreadShed.FirstOf(path, stop)
  {
  }
}

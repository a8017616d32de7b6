// A real article takes the place of a fake: threads are joined, the place is left, and the fakes
// above that were there for it alone are forgotten.
module ThreadDetach {
  import opened Options
  import opened Paths
  import opened ThreadSpec
  import opened ThreadLists
  import opened ThreadSafety

  /** Two subjects have the same `thread` pointer exactly when they are in the same thread,
      provided the first thread has roots. */
  lemma HeadsTell(f: Forest, s1: SubjName, s2: SubjName)
    requires OneRootList(f) && Roots(f, ThreadOf(f, s1)) != []
    ensures Head(f, ThreadOf(f, s1)) != Head(f, ThreadOf(f, s2)) <==> ThreadOf(f, s1) != ThreadOf(f, s2)
  {
    var k1, k2 := ThreadOf(f, s1), ThreadOf(f, s2);
    if Head(f, k1) == Head(f, k2) {
      assert Roots(f, k1)[0] in Roots(f, k1) && Roots(f, k1)[0] in Roots(f, k2);
    }
  }

  /** `g` is `f` with thread `k2` made part of thread `k1`. */
  ghost predicate Renamed(f: Forest, g: Forest, k1: SubjName, k2: SubjName) {
    && g.nodes == f.nodes && g.thread.Keys == f.thread.Keys
    && (forall s {:trigger ThreadOf(g, s)} | s in f.thread ::
      ThreadOf(g, s) == if ThreadOf(f, s) == k2 then k1 else ThreadOf(f, s))
  }

  /** The roots of thread `k2` have become roots of thread `k1`. */
  ghost predicate RootsMoved(f: Forest, g: Forest, k1: SubjName, k2: SubjName) {
    && (forall x :: x in Roots(g, k1) <==> x in Roots(f, k1) || x in Roots(f, k2))
    && (forall k | k != k1 :: Roots(g, k) == if k == k2 then [] else Roots(f, k))
  }

  lemma JoinEffect(f: Forest, s1: SubjName, s2: SubjName)
    requires Lists(f)
    requires Head(f, ThreadOf(f, s1)) != Head(f, ThreadOf(f, s2)) <==> ThreadOf(f, s1) != ThreadOf(f, s2)
    ensures var g := JoinThreads(f, s1, s2);
            && Lists(g) && Renamed(f, g, ThreadOf(f, s1), ThreadOf(f, s2))
            && RootsMoved(f, g, ThreadOf(f, s1), ThreadOf(f, s2))
  {
    if ThreadOf(f, s1) != ThreadOf(f, s2) {
      MergeRenames(f, s1, s2);
      MergeRoots(f, s1, s2);
      MergeEffect(f, s1, s2);
    }
  }

  lemma JoinKeepsThreads(f: Forest, s1: SubjName, s2: SubjName)
    requires Threads(f) && s1 in f.thread
    ensures Threads(JoinThreads(f, s1, s2))
  {
    var g := JoinThreads(f, s1, s2);
    assert forall x :: Subj(g, x) == Subj(f, x);
  }

  /** A joined forest has the same fields, and each article's thread is renamed alike. */
  lemma RenamedFields(f: Forest, g: Forest, k1: SubjName, k2: SubjName)
    requires Renamed(f, g, k1, k2) && Threads(f)
    ensures forall x :: At(g, x) == At(f, x)
    ensures forall x :: Home(g, x) == if Home(f, x) == Some(k2) then Some(k1) else Home(f, x)
  {
    assert forall x :: At(g, x) == At(f, x);
    forall x ensures Home(g, x) == if Home(f, x) == Some(k2) then Some(k1) else Home(f, x) {
      assert Subj(g, x) == Subj(f, x);
      if Subj(f, x).Some? { assert Subj(f, x).value in f.thread; }
    }
  }

  /** `g` has the parents and child lists of `f`, and thread `k2` has become part of `k1`. */
  ghost predicate Regrouped(f: Forest, g: Forest, k1: SubjName, k2: SubjName) {
    && g.nodes.Keys == f.nodes.Keys
    && (forall x :: Parent(g, x) == Parent(f, x))
    && (forall x :: Kids(g, x) == Kids(f, x))
    && (forall x :: Home(g, x) == if Home(f, x) == Some(k2) then Some(k1) else Home(f, x))
    && RootsMoved(f, g, k1, k2)
  }

  lemma RegroupedPlacing(f: Forest, g: Forest, k1: SubjName, k2: SubjName, x: MsgId)
    requires Regrouped(f, g, k1, k2) && Placed(f, x)
    ensures Placed(g, x)
  {
    if Parent(f, x).None? { assert x in Roots(f, Home(f, x).value); }
  }

  lemma HomeSubj(f: Forest)
    ensures forall x :: Home(f, x).Some? <==> Subj(f, x).Some?
  {
  }

  lemma RegroupedWell(f: Forest, g: Forest, k1: SubjName, k2: SubjName)
    requires Regrouped(f, g, k1, k2)
    ensures Homes(f) ==> Homes(g)
    ensures Families(f) ==> Families(g)
    ensures Closed(f) ==> Closed(g)
    ensures Up(g) == Up(f)
  {
    HomeSubj(f);
    HomeSubj(g);
    SameUp(f, g);
    if Homes(f) {
      forall k, x | x in Roots(g, k) ensures Home(g, x) == Some(k) {
        if k != k1 { assert k != k2 && x in Roots(f, k); }
      }
    }
  }

  /** The article `m` with a fake's place, as valid_article leaves it. */
  function Taken(f: Forest, m: MsgId, d: int, s: SubjName): Forest {
    Put(f, m, At(f, m).(date := d, fake := false, subj := Some(s), threaded := true))
  }

  lemma TakenFields(f: Forest, m: MsgId, d: int, s: SubjName)
    requires m in f.nodes
    ensures var e := Taken(f, m, d, s);
            && e.nodes.Keys == f.nodes.Keys
            && (forall x :: Parent(e, x) == Parent(f, x)) && (forall x :: Kids(e, x) == Kids(f, x))
            && (forall k :: Roots(e, k) == Roots(f, k))
            && (forall x | x != m :: At(e, x) == At(f, x)) && Subj(e, m) == Some(s)
            && (forall t :: ThreadOf(e, t) == ThreadOf(f, t))
            && Threaded(e, m) && !Fake(e, m)
  {
    PutEffect(f, m, At(f, m).(date := d, fake := false, subj := Some(s), threaded := true));
  }

  lemma TakenLists(f: Forest, m: MsgId, d: int, s: SubjName)
    requires m in f.nodes && Lists(f)
    ensures Lists(Taken(f, m, d, s))
  {
    TakenFields(f, m, d, s);
    var e := Taken(f, m, d, s);
    assert KidsPoint(e);
    assert RootsPoint(e);
    assert OneRootList(e);
    assert NoRepeats(e);
  }

  lemma TakenThreads(f: Forest, m: MsgId, d: int, s: SubjName)
    requires m in f.nodes && Threads(f) && s in f.thread
    ensures Threads(Taken(f, m, d, s))
  {
    TakenFields(f, m, d, s);
    var e := Taken(f, m, d, s);
    assert forall x | x != m :: Subj(e, x) == Subj(f, x);
  }

  lemma TakenHome(f: Forest, g: Forest, m: MsgId, d: int, s: SubjName, had: SubjName, x: MsgId)
    requires m in f.nodes && Subj(f, m) == Some(had) && s in f.thread && Threads(f)
    requires Renamed(Taken(f, m, d, s), g, ThreadOf(f, had), ThreadOf(f, s))
    ensures var k1, k2 := ThreadOf(f, had), ThreadOf(f, s);
            Home(g, x) == if Home(f, x) == Some(k2) then Some(k1) else Home(f, x)
  {
    if Subj(f, x).Some? { assert Subj(f, x).value in f.thread; }
  }

  lemma TakenRegrouped(f: Forest, g: Forest, m: MsgId, d: int, s: SubjName, had: SubjName)
    requires m in f.nodes && Subj(f, m) == Some(had) && s in f.thread && Threads(f)
    requires var e := Taken(f, m, d, s); g.nodes == e.nodes
    requires var e := Taken(f, m, d, s);
             Renamed(e, g, ThreadOf(f, had), ThreadOf(f, s)) && RootsMoved(f, g, ThreadOf(f, had), ThreadOf(f, s))
    ensures Regrouped(f, g, ThreadOf(f, had), ThreadOf(f, s))
  {
    forall x ensures Parent(g, x) == Parent(f, x) && Kids(g, x) == Kids(f, x) {
    }
    var k1, k2 := ThreadOf(f, had), ThreadOf(f, s);
    forall x ensures Home(g, x) == if Home(f, x) == Some(k2) then Some(k1) else Home(f, x) {
      TakenHome(f, g, m, d, s, had, x);
    }
  }

  /** The join makes one thread of the fake's and the article's own. */
  lemma TakenJoins(f: Forest, m: MsgId, d: int, s: SubjName, had: SubjName)
    requires WellFormed(f) && m in f.nodes && Subj(f, m) == Some(had) && s in f.thread
    ensures var e, k1, k2 := Taken(f, m, d, s), ThreadOf(f, had), ThreadOf(f, s);
      var g := JoinThreads(e, had, s);
      Lists(g) && Renamed(e, g, k1, k2) && RootsMoved(f, g, k1, k2) && g.nodes == e.nodes && had in e.thread
  {
    hide MergeThreads, Roots, Head, NoRepeats, Grounded, Homes, Tops, Threaded, Subj, RootsPoint, Kids, Parent;
    var e := Taken(f, m, d, s);
    TakenFields(f, m, d, s);
    TakenLists(f, m, d, s);
    CutKeepsAcyclic(Up(f), {});
    GroundedInAcyclic(Up(f) - {}, m);
    ThreadHasRoots(f, m, {}, m);
    HeadsTell(e, had, s);
    JoinEffect(e, had, s);
  }

  /** After the threads of the fake's subject and of the article's own are joined, the article is
      properly placed where the fake was. */
  lemma TakenJoined(f: Forest, m: MsgId, d: int, s: SubjName, had: SubjName)
    requires WellFormed(f) && m in f.nodes && Subj(f, m) == Some(had) && s in f.thread
    ensures var e := Taken(f, m, d, s); var g := JoinThreads(e, had, s);
            && Well(g, {}) && Regrouped(f, g, ThreadOf(f, had), ThreadOf(f, s))
            && Up(g) == Up(f) && g.nodes == e.nodes
  {
    hide MergeThreads, Roots, Head, NoRepeats, Grounded, Homes, Tops, Threaded, ThreadOf, Subj, RootsPoint, Kids,
      Parent, Regrouped, Renamed, RootsMoved, Threads, Lists, Placing, Labels, JoinThreads;
    var e := Taken(f, m, d, s);
    var k1, k2 := ThreadOf(f, had), ThreadOf(f, s);
    var g := JoinThreads(e, had, s);
    TakenJoins(f, m, d, s, had);
    assert Threads(g) by {
      TakenThreads(f, m, d, s);
      JoinKeepsThreads(e, had, s);
    }
    TakenRegrouped(f, g, m, d, s, had);
    RegroupedWell(f, g, k1, k2);
    TakenPlacing(f, g, m, d, s, had);
  }

  lemma TakenPlacing(f: Forest, g: Forest, m: MsgId, d: int, s: SubjName, had: SubjName)
    requires m in f.nodes && Subj(f, m) == Some(had) && Placing(f, {}) && Labels(f, {})
    requires g.nodes == Taken(f, m, d, s).nodes
    requires Regrouped(f, g, ThreadOf(f, had), ThreadOf(f, s))
    ensures Placing(g, {}) && Labels(g, {})
  {
    var k1, k2 := ThreadOf(f, had), ThreadOf(f, s);
    forall x | x in g.nodes
      ensures At(g, x) == BLANK || (Subj(g, x).Some? && Placed(g, x))
      ensures Threaded(g, x) != Fake(g, x)
    {
      if x == m || At(f, x) != BLANK { RegroupedPlacing(f, g, k1, k2, x); }
    }
  }

  // ----- Forgetting spent fakes

  lemma ForgetIs(f: Forest, p: MsgId)
    requires Moved(f, Release(f, p), p) && Spent(f, Some(p)) && !Threaded(f, p) && Parent(Release(f, p), p).None?
    ensures Forget(f, p) == Put(Release(f, p), p, BLANK) && Kids(Release(f, p), p) == []
    ensures var g := Forget(f, p); At(g, p) == BLANK && g.nodes.Keys == f.nodes.Keys && g.thread == f.thread
    ensures forall x | x != p :: Untouched(f, Release(f, p), x)
  {
    var h := Release(f, p);
    ReleaseOthers(f, p);
    assert At(h, p).(date := 0, subj := None) == BLANK;
  }

  lemma ChildlessParent(f: Forest, h: Forest, m: MsgId, p: MsgId)
    requires Placing(f, {m}) && Kids(f, p) == [] && Parent(f, m).None? && Parent(h, p).None?
    requires forall x | x != p :: Parent(h, x) == Parent(f, x)
    ensures forall y :: Parent(h, y) != Some(p)
  {
    forall y ensures Parent(h, y) != Some(p) {
      assert y in f.nodes && y != m ==> At(f, y) == BLANK || Placed(f, y);
    }
  }

  lemma BlankedWell(h: Forest, m: MsgId, p: MsgId)
    requires Well(h, {m, p}) && Free(h, p) && Kids(h, p) == [] && Parent(h, p).None? && p in h.nodes
    requires forall y :: Parent(h, y) != Some(p)
    ensures var g := Put(h, p, BLANK); Well(g, {m}) && Up(g) == Up(h)
  {
    PutFree(h, p, BLANK, {m, p});
    assert {m, p} + {p} == {m, p};
    PutEffect(h, p, BLANK);
    LoosenBlank(Put(h, p, BLANK), m, p);
  }

  lemma BlankedFree(h: Forest, m: MsgId, p: MsgId)
    requires Free(h, m) && Kids(h, p) == []
    ensures Free(Put(h, p, BLANK), m)
  {
    PutEffect(h, p, BLANK);
    assert forall q :: Kids(Put(h, p, BLANK), q) == Kids(h, q);
  }

  lemma SpentPlaced(f: Forest, m: MsgId, p: MsgId)
    requires Placing(f, {m}) && Labels(f, {m}) && Spent(f, Some(p)) && p != m
    ensures p in f.nodes && Placed(f, p) && !Threaded(f, p)
  {
    assert p !in {m};
  }

  lemma ForgetWell(f: Forest, m: MsgId, p: MsgId)
    requires Well(f, {m}) && Acyclic(Up(f)) && Parent(f, m).None? && p != m
    requires Spent(f, Some(p))
    ensures Well(Forget(f, p), {m}) && Moved(f, Release(f, p), p) && Up(Forget(f, p)) == Up(f) - {p}
    ensures Parent(Release(f, p), p).None?
  {
    hide Threads, Moved, Placing, Labels;
    SpentPlaced(f, m, p);
    ReleaseWell(f, p, {m});
    ForgetIs(f, p);
    ChildlessParent(f, Release(f, p), m, p);
    assert {m} + {p} == {m, p};
    BlankedWell(Release(f, p), m, p);
  }

  lemma ForgetKeepsFree(f: Forest, m: MsgId, p: MsgId)
    requires Moved(f, Release(f, p), p) && Spent(f, Some(p)) && !Threaded(f, p) && Parent(Release(f, p), p).None?
    requires Free(f, m) && p != m
    ensures Free(Forget(f, p), m)
  {
    ForgetIs(f, p);
    MovedFree(f, Release(f, p), p, m);
    BlankedFree(Release(f, p), m, p);
  }

  lemma ForgetOthers(f: Forest, p: MsgId)
    requires Moved(f, Release(f, p), p) && Spent(f, Some(p)) && !Threaded(f, p) && Parent(Release(f, p), p).None?
    ensures forall x | x != p :: Untouched(f, Forget(f, p), x)
  {
    ForgetIs(f, p);
    PutEffect(Release(f, p), p, BLANK);
  }

  lemma LoosenBlank(g: Forest, m: MsgId, p: MsgId)
    requires Placing(g, {m, p}) && Labels(g, {m, p}) && At(g, p) == BLANK
    ensures Placing(g, {m}) && Labels(g, {m})
  {
    forall x | x in g.nodes && x !in {m}
      ensures At(g, x) == BLANK || (Subj(g, x).Some? && Placed(g, x))
      ensures Threaded(g, x) != Fake(g, x)
    {
      if x != p { assert x !in {m, p}; }
    }
  }

  /** `x` has the same fields in both forests, except for what is in its child list. */
  ghost predicate Untouched(f: Forest, g: Forest, x: MsgId) {
    && Parent(g, x) == Parent(f, x) && Subj(g, x) == Subj(f, x) && Date(g, x) == Date(f, x)
    && Fake(g, x) == Fake(f, x) && Threaded(g, x) == Threaded(f, x)
  }

  lemma ReleaseOthers(f: Forest, p: MsgId)
    requires Moved(f, Release(f, p), p) && Kids(f, p) == []
    ensures Kids(Release(f, p), p) == []
    ensures forall x | x != p :: Untouched(f, Release(f, p), x)
  {
    var g := Release(f, p);
    EmptyOrNot(Kids(g, p));
  }

  ghost predicate Forgotten(g: Forest, x: MsgId) {
    Subj(g, x).None? && Parent(g, x).None? && Date(g, x) == 0 && Fake(g, x) && !Threaded(g, x)
  }

  /** `x` is as it was, or is a fake that now knows nothing. */
  ghost predicate Kept(f: Forest, g: Forest, x: MsgId) {
    Untouched(f, g, x) || (Fake(f, x) && Forgotten(g, x))
  }

  ghost predicate AllKept(f: Forest, g: Forest, m: MsgId) {
    && g.nodes.Keys == f.nodes.Keys && g.thread == f.thread
    && Untouched(f, g, m) && forall x :: Kept(f, g, x)
  }

  ghost predicate Loose(f: Forest, m: MsgId) {
    Well(f, {m}) && Acyclic(Up(f)) && Free(f, m) && Parent(f, m).None? && !Fake(f, m)
  }

  lemma ForgetLoose(f: Forest, m: MsgId, q: MsgId)
    requires Loose(f, m) && Spent(f, Some(q))
    ensures Loose(Forget(f, q), m) && AllKept(f, Forget(f, q), m)
  {
    SpentPlaced(f, m, q);
    ForgetWell(f, m, q);
    ForgetKeepsFree(f, m, q);
    CutKeepsAcyclic(Up(f), {q});
    ForgetIs(f, q);
    ForgetOthers(f, q);
    assert Untouched(f, Forget(f, q), m);
  }

  lemma KeptTrans(f: Forest, h: Forest, g: Forest, m: MsgId)
    requires AllKept(f, h, m) && AllKept(h, g, m)
    ensures AllKept(f, g, m)
  {
    forall x ensures Kept(f, g, x) {
      assert Kept(f, h, x) && Kept(h, g, x);
    }
  }

  /** The shedding climb leaves everything but forgotten fakes as it was. */
  lemma {:induction false} ShedLoose(f: Forest, m: MsgId, p: Option<MsgId>)
    requires Loose(f, m)
    ensures Loose(ShedChain(f, p), m) && AllKept(f, ShedChain(f, p), m)
    decreases Known(f)
  {
    if Spent(f, p) {
      var h := Forget(f, p.value);
      ForgetLoose(f, m, p.value);
      ForgetKnown(f, p.value);
      ShedLoose(h, m, Parent(f, p.value));
      KeptTrans(f, h, ShedChain(f, p), m);
    }
  }

  // ----- Ready for the references

  /** `m` has the data of a real article and is either where it was threaded before or in no list. */
  ghost predicate Ready(f: Forest, m: MsgId, re: bool) {
    && m in f.nodes && Subj(f, m).Some? && !Fake(f, m) && Threaded(f, m) && Acyclic(Up(f))
    && (if re then Well(f, {}) else Well(f, {m}) && Free(f, m) && Parent(f, m).None?)
  }

  lemma ReadySubject(f: Forest, m: MsgId, re: bool)
    requires Ready(f, m, re)
    ensures m in f.nodes && Subj(f, m).Some?
  {
  }

  /** An article that no fake stood for. */
  lemma FreshReady(f: Forest, m: MsgId, d: int, s: SubjName)
    requires WellFormed(f) && At(f, m) == BLANK && s in f.thread
    ensures Ready(Put(f, m, Node(d, false, true, Some(s), None, [])), m, false)
  {
    var n := Node(d, false, true, Some(s), None, []);
    BlankAlone(f, m);
    PutFree(f, m, n, {});
    PutEffect(f, m, n);
    assert {} + {m} == {m};
  }

  lemma TakenReleased(f: Forest, m: MsgId, d: int, s: SubjName, had: SubjName)
    requires WellFormed(f) && m in f.nodes && Subj(f, m) == Some(had) && s in f.thread
    ensures var g := Release(JoinThreads(Taken(f, m, d, s), had, s), m);
            Loose(g, m) && Subj(g, m) == Some(s) && Threaded(g, m) && Date(g, m) == d && m in g.nodes
  {
    hide Threads, Up, Sound, Release, Regrouped, Lists, Kids, Homes, JoinThreads, Fake, Free, SameListsBut, Acyclic,
      Closed, Families, Grounded, Placed;
    TakenJoined(f, m, d, s, had);
    TakenFields(f, m, d, s);
    var e := Taken(f, m, d, s);
    var h := JoinThreads(e, had, s);
    assert At(h, m) == At(e, m);
    assert At(h, m) != BLANK;
    ReleaseWell(h, m, {});
    assert {} + {m} == {m};
  }

  /** An article that takes the place of a fake with a subject. */
  lemma DetachReady(f: Forest, m: MsgId, d: int, s: SubjName, had: SubjName)
    requires WellFormed(f) && m in f.nodes && Subj(f, m) == Some(had) && s in f.thread
    ensures Ready(Detach(Taken(f, m, d, s), m, had), m, false)
  {
    var e := Taken(f, m, d, s);
    TakenFields(f, m, d, s);
    var h := JoinThreads(e, had, s);
    TakenReleased(f, m, d, s, had);
    ShedLoose(Release(h, m), m, Parent(h, m));
  }
}

// Runs on the linked articles, and what is true of the objects after every run.
module ThreadObjects {
  import opened Options
  import opened Paths
  import opened ThreadSpec
  import opened ThreadLists
  import opened ThreadSafety
  import opened ThreadForest
  import opened ThreadCells
  import opened ThreadHeap
  import opened ThreadJoin
  import opened ThreadStep

  /** The headers of a group, one after the other. */
  method ReadHeaders(es: seq<Event>) returns (t: Threads)
    requires TraceableRun(EMPTY, es)
    ensures t.Repr() && WellFormed(t.f) && t.f == Run(EMPTY, es)
  {
    hide WellFormed, Step, Traceable, Represents, Threads.Repr;
    t := new Threads();
    EmptyWellFormed();
    var i := 0;
    assert es[0..] == es;
    while i < |es|
      invariant 0 <= i <= |es| && t.Repr() && WellFormed(t.f)
      invariant fresh(t) && fresh(t.hash.Values) && fresh(t.subjects.Values)
      invariant TraceableRun(t.f, es[i..]) && Run(t.f, es[i..]) == Run(EMPTY, es)
    {
      assert es[i..][0] == es[i] && es[i..][1..] == es[i + 1..];
      ReadHeader(t, es[i]);
      i := i + 1;
    }
    assert es[i..] == [];
  }

  // ----- what a reader of the objects may rely on

  /** `b` is reached from `a` through at most `n` sibling links. */
  ghost predicate Reaches(t: Threads, a: Article?, b: Article, n: nat)
    reads t`hash, t.hash.Values
  {
    a != null && t.Held(a) && (a == b || (n > 0 && Reaches(t, a.sibling, b, n - 1)))
  }

  lemma {:induction false} ListReaches(t: Threads, list: seq<MsgId>, i: nat, j: nat)
    requires t.Tidy() && Linked(t.Cells(), list) && Distinct(list) && i <= j < |list|
    ensures list[i] in t.hash && list[j] in t.hash && Reaches(t, t.hash[list[i]], t.hash[list[j]], j - i)
    decreases j - i
  {
    assert list[i] in t.Cells() && list[j] in t.Cells();
    t.NextOf(t.hash[list[i]], list, i);
    if i < j { ListReaches(t, list, i + 1, j); }
  }

  lemma RealPlaced(f: Forest, m: MsgId)
    requires WellFormed(f) && m in f.nodes && Threaded(f, m)
    ensures Placed(f, m) && m in ListOf(f, m) && Distinct(ListOf(f, m)) && (Parent(f, m).None? ==> Subj(f, m).Some?)
  {
    assert At(f, m) != BLANK;
  }

  lemma OwnListLinked(t: Threads, m: MsgId)
    requires Represents(t.Image(), t.f)
    ensures Linked(t.Cells(), ListOf(t.f, m))
  {
  }

  /** Every threaded article is reached from the first child of its parent or, without a parent, from
      where the subjects of its thread point. */
  lemma ThreadedReached(t: Threads, a: Article) returns (n: nat)
    requires t.Repr() && WellFormed(t.f) && t.Held(a) && a.threaded
    ensures a.parent != null ==> Reaches(t, a.parent.child1, a, n)
    ensures a.parent == null ==> a.subj != null && Reaches(t, a.subj.thread, a, n)
  {
    hide Represents, WellFormed, Threads.Tidy;
    t.Shown(a.msgid);
    RealPlaced(t.f, a.msgid);
    var list := ListOf(t.f, a.msgid);
    n := t.IndexOf(list, a.msgid);
    if a.parent != null { t.Shown(a.parent.msgid); } else { t.ShownTop(a.subj); }
    OwnListLinked(t, a.msgid);
    ListReaches(t, list, 0, n);
  }

  /** `b` is `n` parent links above `a`. */
  ghost predicate LiesAbove(t: Threads, a: Article, b: Article, n: nat)
    reads t`hash, t.hash.Values
  {
    t.Held(a) && if n == 0 then a == b else a.parent != null && LiesAbove(t, a.parent, b, n - 1)
  }

  lemma {:induction false} ClimbLowers(t: Threads, a: Article, b: Article, n: nat)
    requires t.Repr() && Acyclic(Up(t.f)) && LiesAbove(t, a, b, n)
    ensures Grounded(Up(t.f), a.msgid) && Grounded(Up(t.f), b.msgid)
    ensures Height(Up(t.f), b.msgid) + n <= Height(Up(t.f), a.msgid)
    decreases n
  {
    GroundedInAcyclic(Up(t.f), a.msgid);
    if n > 0 {
      t.Shown(a.msgid);
      UpMeans(t.f);
      GroundedStep(Up(t.f), a.msgid);
      ClimbLowers(t, a.parent, b, n - 1);
    }
  }

  /** No article is above itself. */
  lemma NeverAboveItself(t: Threads, a: Article, n: nat)
    requires t.Repr() && WellFormed(t.f) && n > 0
    ensures !LiesAbove(t, a, a, n)
  {
    if LiesAbove(t, a, a, n) {
      ClimbLowers(t, a, a, n);
      assert false;
    }
  }

  /** `b` is `n` thread links on from `a`. */
  ghost predicate FollowsTo(t: Threads, a: Subject, b: Subject, n: nat)
    reads t`subjects, t.subjects.Values
  {
    t.HeldSubject(a) && if n == 0 then a == b else FollowsTo(t, a.threadLink, b, n - 1)
  }

  lemma {:induction false} RingFollows(t: Threads, ring: seq<Subject>, i: nat, j: nat)
    requires Circle(ring) && i <= j < |ring| && forall x | x in ring :: t.HeldSubject(x)
    ensures FollowsTo(t, ring[i], ring[j], j - i)
    decreases j - i
  {
    hide Circle, Threads.HeldSubject;
    CircleNext(ring, i);
    assert ring[i] in ring && t.HeldSubject(ring[i]);
    if i < j {
      assert ring[i].threadLink == ring[i + 1];
      RingFollows(t, ring, i + 1, j);
    }
  }

  lemma CircleNext(ring: seq<Subject>, i: nat)
    requires Circle(ring) && i < |ring|
    ensures ring[i].threadLink == After(ring, i)
  {
  }

  /** Following thread_link from a subject comes to every subject of its thread, stays among them, and all
      of them point at the same root. */
  lemma CircleAgrees(t: Threads, s: Subject, x: Subject) returns (n: nat)
    requires t.Repr() && t.HeldSubject(s) && t.HeldSubject(x)
    ensures ThreadOf(t.f, s.name) == ThreadOf(t.f, x.name) ==> FollowsTo(t, s, x, n) && s.thread == x.thread
    ensures t.HeldSubject(s.threadLink) && ThreadOf(t.f, s.threadLink.name) == ThreadOf(t.f, s.name)
  {
    hide Represents, ThreadOf, Roots, FollowsTo, Circle, Threads.Tidy;
    t.ShownTop(s);
    t.ShownTop(x);
    var k := ThreadOf(t.f, s.name);
    assert t.RingOk(k);
    var j :| 0 <= j < |t.rings[k]| && t.rings[k][j] == s;
    RotatedCircle(t.rings[k], j);
    var ring := Rotated(t.rings[k], j);
    assert s.threadLink == After(ring, 0) && After(ring, 0) in ring;
    n := 0;
    if ThreadOf(t.f, s.name) == ThreadOf(t.f, x.name) {
      assert x in ring;
      n :| 0 <= n < |ring| && ring[n] == x;
      RingFollows(t, ring, 0, n);
      SameId(t, s.thread, x.thread);
    }
  }
}

// The walked chain put into a thread on the linked articles: threads joined, fakes named, and a loop
// cut where the article is above itself.
module ThreadRooting {
  import opened Options
  import opened Paths
  import opened ThreadSpec
  import opened ThreadLists
  import opened ThreadSafety
  import opened ThreadWalk
  import opened ThreadSettle
  import opened ThreadForest
  import opened ThreadCells
  import opened ThreadHeap
  import opened ThreadJoin
  import opened ThreadFields

  // ----- naming the fakes

  lemma NameOne(f: Forest, x: MsgId, s: SubjName)
    requires x in f.nodes && Subj(f, x).None?
    ensures var h := ThreadSpec.SetSubj(f, x, Some(s));
      && ThreadSpec.NameFakes(f, Some(x), s) == ThreadSpec.NameFakes(h, Parent(f, x), s)
      && NamedUpTo(f, Some(x), s) == NamedUpTo(h, Parent(f, x), s)
      && |Unknown(h)| < |Unknown(f)|
  {
    var h := ThreadSpec.SetSubj(f, x, Some(s));
    assert x in Unknown(f) && Unknown(h) == Unknown(f) - {x};
  }

  lemma NameStops(f: Forest, x: Option<MsgId>, s: SubjName)
    requires x.None? || Subj(f, x.value).Some?
    ensures ThreadSpec.NameFakes(f, x, s) == f && NamedUpTo(f, x, s) == x
  {
  }

  /** Gives the subject `s` to the articles from `first` upwards that have none. */
  method NameFakes(t: Threads, first: Article?, s: Subject) returns (ap: Article?)
    requires t.Repr() && t.Held(first) && t.HeldSubject(s)
    modifies t`f, t.hash.Values`subj
    ensures t.Repr() && t.Held(ap)
    ensures t.f == ThreadSpec.NameFakes(old(t.f), IdOf(first), s.name)
    ensures IdOf(ap) == NamedUpTo(old(t.f), IdOf(first), s.name)
  {
    hide Represents, ThreadSpec.NameFakes, NamedUpTo, Unknown, ThreadSpec.SetSubj, Threads.RingsOk, Threads.Tidy,
      Threads.Cells;
    ap := first;
    if ap != null { CellIs(t, ap); }
    while ap != null && ap.subj == null
      invariant t.Repr() && t.Held(ap)
      invariant ap != null ==> NameOf(ap.subj) == Subj(t.f, ap.msgid)
      invariant ThreadSpec.NameFakes(t.f, IdOf(ap), s.name) == ThreadSpec.NameFakes(old(t.f), IdOf(first), s.name)
      invariant NamedUpTo(t.f, IdOf(ap), s.name) == NamedUpTo(old(t.f), IdOf(first), s.name)
      decreases |Unknown(t.f)|
    {
      CellIs(t, ap);
      NameOne(t.f, ap.msgid, s.name);
      WriteSubj(t, ap, s);
      ap := ap.parent;
      if ap != null { CellIs(t, ap); }
    }
    NameStops(t.f, IdOf(ap), s.name);
  }

  // ----- the climb that finds a loop

  lemma ClimbStep(up: Links<MsgId>, x: MsgId, m: MsgId)
    requires x != m && Grounded(up - {m}, x)
    ensures x !in up ==> LinkTo(up, x, m) == None
    ensures x in up && up[x] == m ==> LinkTo(up, x, m) == Some(x)
    ensures x in up && up[x] != m ==>
      && Grounded(up - {m}, up[x]) && Height(up - {m}, up[x]) < Height(up - {m}, x)
        && LinkTo(up, x, m) == LinkTo(up, up[x], m)
  {
    if x in up && up[x] != m { GroundedStep(up - {m}, x); }
  }

  /** The child of `article` that a climb from `first` meets. */
  method FindLoop(t: Threads, article: Article, first: Article) returns (ap: Article?)
    requires t.Repr() && t.Held(article) && t.Held(first) && first.msgid != article.msgid
    requires Grounded(Up(t.f) - {article.msgid}, first.msgid)
    ensures t.Held(ap) && IdOf(ap) == LinkTo(Up(t.f), first.msgid, article.msgid)
  {
    hide Represents, LinkTo, Grounded, Height, Up, Threads.RingsOk, Threads.Tidy, Threads.Cells;
    ghost var m, up := article.msgid, Up(t.f);
    UpMeans(t.f);
    ap := first;
    while ap != null && ap.parent != article
      invariant t.Held(ap)
      invariant ap != null ==>
        ap.msgid != m && Grounded(up - {m}, ap.msgid) && LinkTo(up, ap.msgid, m) == LinkTo(up, first.msgid, m)
      invariant ap == null ==> LinkTo(up, first.msgid, m) == None
      decreases if ap == null then 0 else Height(up - {m}, ap.msgid) + 1
    {
      CellIs(t, ap);
      ParentId(t, ap, article);
      ClimbStep(up, ap.msgid, m);
      ap := ap.parent;
    }
    if ap != null {
      CellIs(t, ap);
      ParentId(t, ap, article);
      ClimbStep(up, ap.msgid, m);
    }
  }

  lemma ParentId(t: Threads, ap: Article, article: Article)
    requires t.Held(ap.parent) && t.Held(article)
    ensures ap.parent == article <==> IdOf(ap.parent) == Some(article.msgid)
  {
  }

  // ----- cutting the loop

  lemma CutReady(f: Forest, c: MsgId)
    requires Well(f, {}) && c in f.nodes && Parent(f, c).Some?
    ensures Lists(f) && Closed(f) && Placed(f, c)
    ensures var g := Release(f, c); Lists(g) && Free(g, c) && Subj(g, c).Some? && Parent(g, c).None?
  {
    hide Lists, Closed, ThreadSafety.Labels, ThreadLists.Threads, Homes, Families;
    assert At(f, c) != BLANK;
    ReleaseLoops(f, c);
    assert Subj(Release(f, c), c) == Subj(f, c);
  }

  /** Takes an article from its parent and makes it a root. */
  method CutOff(t: Threads, c: Article)
    requires t.Repr() && t.Held(c) && Well(t.f, {}) && c.parent != null
    modifies t`f, t.hash.Values`sibling, t.hash.Values`child1, t.hash.Values`parent, t.subjects.Values`thread
    ensures t.Repr() && t.f == ThreadSpec.LinkChild(Release(old(t.f), c.msgid), c.msgid)
  {
    hide Represents, Well, Lists, Closed, Placed, Free, UnlinkChild, LinkChild, Threads.RingsOk, Threads.Tidy,
      Threads.Cells;
    CellIs(t, c);
    CutReady(t.f, c.msgid);
    t.UnlinkChild(c);
    WriteParent(t, c, null);
    CellIs(t, c);
    t.LinkChild(c);
  }

  lemma LoopReady(f: Forest, m: MsgId, chain: seq<MsgId>, x: MsgId)
    requires Hung(f, m, chain, x) && Home(f, x) == Home(f, m)
    ensures var s := Subj(f, m).value;
            var g := ThreadSpec.NameFakes(f, Parent(f, m), s);
            Well(g, {}) && x != m && Grounded(Up(g) - {m}, x) && NamedUpTo(f, Parent(f, m), s) == Some(x)
  {
    NameHung(f, m, chain, x);
    HungHasLinks(f, m, chain, x);
    CutAtFootAcyclic(Up(f), chain, x);
    GroundedInAcyclic(Up(f) - {m}, x);
    assert m in chain;
  }

  /** What happens to a chain that hangs in the article's own thread. */
  ghost function Rooting(f: Forest, m: MsgId): Forest {
    match Subj(f, m)
    case None => f
    case Some(s) => CutLoop(ThreadSpec.NameFakes(f, Parent(f, m), s), m, NamedUpTo(f, Parent(f, m), s))
  }

  lemma CutLoopIs(g: Forest, m: MsgId, x: MsgId)
    requires x != m && Grounded(Up(g) - {m}, x)
    ensures CutLoop(g, m, Some(x)) == match LinkTo(Up(g), x, m)
                                      case None => g
                                      case Some(c) => ThreadSpec.LinkChild(Release(g, c), c)
    ensures LinkTo(Up(g), x, m).Some? ==> Parent(g, LinkTo(Up(g), x, m).value) == Some(m)
  {
    UpMeans(g);
  }

  method RootHung(t: Threads, article: Article, ghost chain: seq<MsgId>, ghost x: MsgId)
    requires t.Repr() && t.Held(article) && Hung(t.f, article.msgid, chain, x)
      && Home(t.f, x) == Home(t.f, article.msgid)
    requires article.subj != null
    modifies t`f, t.hash.Values`sibling, t.hash.Values`child1, t.hash.Values`parent, t.hash.Values`subj,
      t.subjects.Values`thread
    ensures t.Repr() && t.f == Rooting(old(t.f), article.msgid)
  {
    hide Represents, Hung, Well, LinkTo, CutLoop, ThreadSpec.NameFakes, NamedUpTo, Grounded, Up, Release, LinkChild,
      Home, Threads.RingsOk, Threads.Tidy, Threads.Cells;
    ghost var m := article.msgid;
    CellIs(t, article);
    LoopReady(t.f, m, chain, x);
    var ap := NameFakes(t, article.parent, article.subj);
    CutLoopIs(t.f, m, x);
    ap := FindLoop(t, article, ap);
    if ap != null {
      CellIs(t, ap);
      CutOff(t, ap);
    }
  }

  // ----- the chain's thread

  lemma SettleKnown(f: Forest, m: MsgId, x: MsgId, s: SubjName, k: SubjName)
    requires Subj(f, m) == Some(s) && Subj(f, x) == Some(k)
    ensures ThreadSpec.Settle(f, m, x) == Rooting(JoinThreads(f, k, s), m)
  {
    JoinKeepsSubj(f, k, s, m);
  }

  lemma SettleNew(f: Forest, m: MsgId, x: MsgId, s: SubjName)
    requires Subj(f, m) == Some(s) && Subj(f, x).None?
    ensures ThreadSpec.Settle(f, m, x) == Rooting(LinkChild(SetSubj(f, x, Some(s)), x), m)
  {
    RootKeepsSubj(f, x, Some(s), m);
  }

  lemma HungMergeable(f: Forest, m: MsgId, chain: seq<MsgId>, x: MsgId, k: SubjName)
    requires Hung(f, m, chain, x)
    ensures Mergeable(f, k)
  {
  }

  /** The walk met a known article. */
  method SettleBelow(t: Threads, article: Article, ap: Article, ghost chain: seq<MsgId>)
    requires t.Repr() && t.Held(article) && t.Held(ap) && Hung(t.f, article.msgid, chain, ap.msgid)
    requires article.subj != null && ap.subj != null
    modifies t`f, t`rings, t.hash.Values`sibling, t.hash.Values`child1, t.hash.Values`parent, t.hash.Values`subj,
      t.subjects.Values`thread, t.subjects.Values`threadLink
    ensures t.Repr() && t.f == ThreadSpec.Settle(old(t.f), article.msgid, ap.msgid)
  {
    hide Represents, Hung, Mergeable, Rooting, JoinThreads, ThreadSpec.Settle, Home, Threads.RingsOk, Threads.Tidy,
      Threads.Cells;
    ghost var f, m, x := t.f, article.msgid, ap.msgid;
    CellIs(t, article);
    CellIs(t, ap);
    HungMergeable(f, m, chain, x, ThreadOf(f, article.subj.name));
    JoinHung(f, m, chain, x);
    SettleKnown(f, m, x, article.subj.name, ap.subj.name);
    JoinIfApart(t, ap.subj, article.subj);
    RootHung(t, article, chain, x);
  }

  lemma NewRoot(f: Forest, m: MsgId, chain: seq<MsgId>, re: bool, s: SubjName)
    requires Walking(f, m, chain, re) && |chain| > 1 && Subj(f, m) == Some(s)
    ensures var x := chain[|chain| - 1]; var g := SetSubj(f, x, Some(s)); Lists(g) && Free(g, x)
  {
    WalkPrev(f, m, chain, re);
    SetSubjLists(f, chain[|chain| - 1], s);
  }

  /** The walk met nobody whose subject is known. */
  method SettleApart(t: Threads, article: Article, ap: Article, ghost chain: seq<MsgId>, ghost re: bool)
    requires t.Repr() && t.Held(article) && t.Held(ap) && Walking(t.f, article.msgid, chain, re)
    requires |chain| > 1 && ap.msgid == chain[|chain| - 1]
    requires article.subj != null && ap.subj == null
    modifies t`f, t.hash.Values`sibling, t.hash.Values`child1, t.hash.Values`parent, t.hash.Values`subj,
      t.subjects.Values`thread
    ensures t.Repr() && t.f == ThreadSpec.Settle(old(t.f), article.msgid, ap.msgid)
  {
    hide Represents, Hung, Walking, Rooting, LinkChild, Free, Lists, ThreadSpec.Settle, Home, Threads.RingsOk,
      Threads.Tidy, Threads.Cells;
    ghost var f, m, x := t.f, article.msgid, ap.msgid;
    CellIs(t, article);
    CellIs(t, ap);
    RootLast(f, m, chain, re);
    NewRoot(f, m, chain, re, article.subj.name);
    SettleNew(f, m, x, article.subj.name);
    WriteSubj(t, ap, article.subj);
    RootParent(f, m, chain, re);
    t.LinkChild(ap);
    RootHung(t, article, chain[..|chain| - 1], x);
  }

  lemma RootParent(f: Forest, m: MsgId, chain: seq<MsgId>, re: bool)
    requires Walking(f, m, chain, re) && |chain| > 1
    ensures Parent(f, chain[|chain| - 1]).None?
  {
    WalkPrev(f, m, chain, re);
  }

  /** Puts the walked chain into a thread. */
  method Settle(t: Threads, article: Article, ap: Article, ghost chain: seq<MsgId>, ghost re: bool)
    requires t.Repr() && t.Held(article) && t.Held(ap) && WalkEnd(Walked(t.f, Some(ap.msgid)), article.msgid, chain, re)
    requires article.subj != null
    modifies t`f, t`rings, t.hash.Values`sibling, t.hash.Values`child1, t.hash.Values`parent, t.hash.Values`subj,
      t.subjects.Values`thread, t.subjects.Values`threadLink
    ensures t.Repr() && t.f == ThreadSpec.Settle(old(t.f), article.msgid, ap.msgid)
  {
    hide Represents, Hung, Walking, ThreadSpec.Settle, Threads.RingsOk, Threads.Tidy, Threads.Cells;
    CellIs(t, ap);
    if ap.subj != null { SettleBelow(t, article, ap, chain); } else { SettleApart(t, article, ap, chain, re); }
  }
}

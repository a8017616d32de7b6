// The References line walked on the linked articles: ids looked up, fakes made, articles hung.
module ThreadHang {
  import opened Options
  import opened Paths
  import opened ThreadSpec
  import opened ThreadLists
  import opened ThreadDetach
  import opened ThreadWalk
  import opened ThreadForest
  import opened ThreadCells
  import opened ThreadHeap
  import opened ThreadJoin
  import opened ThreadFields

  /** Articles may have come, but none has gone; the subjects are the same. */
  twostate predicate Grown(t: Threads)
    reads t`hash, t`subjects
  {
    && t.subjects == old(t.subjects)
    && (forall m | m in old(t.hash) :: m in t.hash && t.hash[m] == old(t.hash[m]))
    && (forall m | m in t.hash && m !in old(t.hash) :: fresh(t.hash[m]))
  }

  // ----- get_article

  /** A new cell shows a new article without children. */
  lemma NewShown(st: Store, f: Forest, id: MsgId, cell: Cell, n: Node)
    requires Represents(st, f) && id !in st.cells && Shows(cell, n) && n.kids == []
    ensures Represents(st.(cells := st.cells[id := cell]), Put(f, id, n)) && Put(f, id, n).thread == f.thread
      && id !in f.nodes
  {
    hide First, Next, Home, Shows;
    var g, cells := Put(f, id, n), st.cells[id := cell];
    assert id !in f.nodes && Kids(f, id) == [];
    forall x | x != id ensures At(g, x) == At(f, x) {
    }
    forall p ensures Linked(cells, Kids(g, p)) { NewUnlisted(st.cells, cells, Kids(f, p), id); }
    forall k ensures Linked(cells, Roots(g, k)) { NewUnlisted(st.cells, cells, Roots(f, k), id); }
  }

  lemma NewUnlisted(cells: map<MsgId, Cell>, cells': map<MsgId, Cell>, list: seq<MsgId>, id: MsgId)
    requires Linked(cells, list) && id !in cells && id in cells' && cells' == cells[id := cells'[id]]
    ensures Linked(cells', list)
  {
  }

  /** All pointers lead to articles of `hash` and to subjects. */
  ghost predicate TidyWith(t: Threads, hash: map<MsgId, Article>)
    reads hash.Values, t`subjects, t.subjects.Values
  {
    && (forall m | m in hash :: hash[m].msgid == m && In(hash, hash[m].parent) && In(hash, hash[m].child1) &&
          (hash[m].sibling != null ==> hash[m].sibling.msgid in hash) && t.HeldSubject(hash[m].subj))
    && (forall s | s in t.subjects :: t.subjects[s].name == s && In(hash, t.subjects[s].thread))
  }

  ghost predicate In(hash: map<MsgId, Article>, a: Article?) {
    a != null ==> a.msgid in hash && hash[a.msgid] == a
  }

  lemma TidyIs(t: Threads)
    ensures t.Tidy() <==> TidyWith(t, t.hash)
  {
  }

  lemma TidyMore(t: Threads, was: map<MsgId, Article>, ap: Article)
    requires TidyWith(t, was) && ap.msgid !in was
    requires ap.parent == null && ap.child1 == null && ap.sibling == null && t.HeldSubject(ap.subj)
    ensures TidyWith(t, was[ap.msgid := ap])
  {
  }

  lemma SiblingsListed(t: Threads)
    requires t.Tidy()
    ensures forall m | m in t.hash :: t.Listed(t.hash[m].sibling)
  {
  }

  /** Puts a new article into the hash. */
  method AddArticle(t: Threads, ap: Article, ghost st: Store)
    requires st == t.Image() && t.Tidy() && t.RingsOk() && ap.msgid !in t.hash
    requires ap.parent == null && ap.child1 == null && ap.sibling == null && t.HeldSubject(ap.subj)
    modifies t`hash
    ensures t.Tidy() && t.RingsOk() && t.hash == old(t.hash)[ap.msgid := ap]
    ensures t.Image() == st.(cells := st.cells[ap.msgid := t.CellOf(ap)])
  {
    hide Threads.RingsOk, Threads.Tidy, TidyWith, In, At, Subj;
    ghost var was := t.hash;
    TidyIs(t);
    SiblingsListed(t);
    t.hash := t.hash[ap.msgid := ap];
    TidyMore(t, was, ap);
    TidyIs(t);
    t.RingsKept();
    assert t.Cells() == st.cells[ap.msgid := t.CellOf(ap)];
  }

  /** Finds the article of a message id, or makes a fake one. */
  method GetArticle(t: Threads, id: MsgId) returns (ap: Article)
    requires t.Repr()
    modifies t`f, t`hash
    ensures t.Repr() && t.f == ThreadSpec.GetArticle(old(t.f), id)
    ensures t.Held(ap) && ap.msgid == id && Grown(t)
  {
    hide Represents, Threads.RingsOk, TopsShow;
    if id in t.hash {
      ap := t.hash[id];
      t.Shown(id);
    } else {
      ap := NewFake(t, id);
    }
  }

  method NewFake(t: Threads, id: MsgId) returns (ap: Article)
    requires t.Repr() && id !in t.hash
    modifies t`f, t`hash
    ensures t.Repr() && t.f == ThreadSpec.GetArticle(old(t.f), id)
    ensures fresh(ap) && ap.msgid == id && t.hash == old(t.hash)[id := ap] && t.Held(ap)
  {
    hide Represents, Threads.RingsOk, TopsShow;
    ghost var st := t.Image();
    ap := new Article(id);
    AddArticle(t, ap, st);
    NewShown(st, t.f, id, t.CellOf(ap), BLANK);
    t.Follow(ThreadSpec.GetArticle(t.f, id));
  }

  // ----- hanging an article below another

  lemma UnlinkedFree(f: Forest, c: MsgId)
    requires Lists(f) && Closed(f) && c in f.nodes && Placed(f, c)
    ensures var g := UnlinkChild(f, c); Lists(g) && Closed(g) && Free(g, c) && g.nodes.Keys == f.nodes.Keys
  {
    UnlinkEffect(f, c);
  }

  lemma ParentFree(f: Forest, c: MsgId, p: Option<MsgId>)
    requires Lists(f) && c in f.nodes && Free(f, c)
    ensures var g := SetParent(f, c, p); Lists(g) && Free(g, c)
  {
    SetParentEffect(f, c, p);
  }

  method Hang(t: Threads, prev: Article, ap: Article)
    requires t.Repr() && t.Held(prev) && t.Held(ap) && prev != ap && Lists(t.f) && Free(t.f, prev.msgid)
    modifies t`f, t.hash.Values`sibling, t.hash.Values`child1, t.hash.Values`parent, t.subjects.Values`thread
    ensures t.Repr() && t.f == LinkChild(SetParent(old(t.f), prev.msgid, Some(ap.msgid)), prev.msgid)
  {
    hide Represents, Lists, Free, LinkChild, Threads.RingsOk, Threads.Tidy, Threads.Cells;
    CellIs(t, prev);
    ParentFree(t.f, prev.msgid, Some(ap.msgid));
    WriteParent(t, prev, ap);
    t.LinkChild(prev);
  }

  method Attach(t: Threads, prev: Article, ap: Article, rethreading: bool)
    requires t.Repr() && t.Held(prev) && t.Held(ap) && prev != ap && Lists(t.f) && Closed(t.f)
    requires if rethreading && Subj(t.f, prev.msgid).Some? then Placed(t.f, prev.msgid) else Free(t.f, prev.msgid)
    modifies t`f, t.hash.Values`sibling, t.hash.Values`child1, t.hash.Values`parent, t.subjects.Values`thread
    ensures t.Repr() && t.f == ThreadSpec.Attach(old(t.f), prev.msgid, ap.msgid, rethreading)
  {
    hide Represents, Lists, Closed, Placed, Free, LinkChild, UnlinkChild, Threads.RingsOk, Threads.Tidy, Threads.Cells;
    CellIs(t, prev);
    if rethreading && prev.subj != null {
      UnlinkedFree(t.f, prev.msgid);
      t.UnlinkChild(prev);
    }
    Hang(t, prev, ap);
  }

  // ----- the References line

  /** What the code asks of the article an id names. */
  lemma PassedShows(t: Threads, f: Forest, article: Article, ap: Article)
    requires t.Repr() && t.Held(article) && t.Held(ap) && t.f == ThreadSpec.GetArticle(f, ap.msgid)
    ensures Passed(f, article.msgid, ap.msgid) <==> (ap.date != 0 && ap.subj == null) || ap == article
    ensures Subj(f, ap.msgid).Some? <==> ap.subj != null
    ensures article.date == Date(f, article.msgid)
  {
    hide Represents, Threads.RingsOk;
    GetSame(f, ap.msgid);
    CellIs(t, article);
    CellIs(t, ap);
    SameId(t, ap, article);
    assert At(f, ap.msgid) == At(t.f, ap.msgid) && At(f, article.msgid) == At(t.f, article.msgid);
  }

  /** The top of the chain can be hung below the article an id names. */
  lemma Hangable(f: Forest, m: MsgId, chain: seq<MsgId>, refs: seq<MsgId>, re: bool)
    requires refs != [] && Walking(f, m, chain, re) && Unrepeated(f, m, refs, chain) && !Passed(f, m, refs[|refs| - 1])
    ensures var prev, g := chain[|chain| - 1], ThreadSpec.GetArticle(f, refs[|refs| - 1]);
      && prev != refs[|refs| - 1] && Lists(g) && Closed(g)
      && if re && Subj(g, prev).Some? then Placed(g, prev) else Free(g, prev)
  {
    var id := refs[|refs| - 1];
    NotInChain(f, m, chain, refs);
    GetKeeps(f, m, chain, re, id);
    WalkPrev(ThreadSpec.GetArticle(f, id), m, chain, re);
  }

  /** Hangs `prev` below `ap`; an article without a subject takes the date. */
  method HangBelow(t: Threads, prev: Article, ap: Article, date: int, rethreading: bool) returns (known: bool)
    requires t.Repr() && t.Held(prev) && t.Held(ap) && prev != ap && Lists(t.f) && Closed(t.f)
    requires if rethreading && Subj(t.f, prev.msgid).Some? then Placed(t.f, prev.msgid) else Free(t.f, prev.msgid)
    modifies t`f, t.hash.Values`sibling, t.hash.Values`child1, t.hash.Values`parent, ap`date, t.subjects.Values`thread
    ensures t.Repr() && known == (ap.subj != null) && (known ==> ap.date == old(ap.date))
    ensures var g := ThreadSpec.Attach(old(t.f), prev.msgid, ap.msgid, rethreading);
      t.f == if known then g else SetDate(g, ap.msgid, date)
  {
    hide Represents, Lists, Closed, Placed, Free, SetDate, ThreadSpec.Attach, Threads.RingsOk, Threads.Tidy,
      Threads.Cells;
    Attach(t, prev, ap, rethreading);
    known := ap.subj != null;
    if !known { WriteDate(t, ap, date); }
  }

  /** Takes the ids from the right until one names an article whose subject is known. */
  method WalkReferences(t: Threads, article: Article, refs: seq<MsgId>, rethreading: bool)
    returns (ap: Article?, ghost chain: seq<MsgId>)
    requires t.Repr() && t.Held(article) && Ready(t.f, article.msgid, rethreading) && Datable(t.f, article.msgid, refs)
    modifies t`f, t`hash, t.hash.Values`sibling, t.hash.Values`child1, t.hash.Values`parent, t.hash.Values`date,
      t.subjects.Values`thread
    ensures t.Repr() && t.Held(ap) && Grown(t)
    ensures Walked(t.f, IdOf(ap)) == Walk(old(t.f), article.msgid, refs, article.msgid, None, rethreading)
    ensures WalkEnd(Walked(t.f, IdOf(ap)), article.msgid, chain, rethreading)
  {
    hide Represents, Ready, Datable, Walking, Unrepeated, Hung, Walk, ThreadSpec.GetArticle, ThreadSpec.Attach, Passed,
      Subj, Date, SetDate,
      Lists, Closed, Placed, Free, Acyclic, Threads.RingsOk, Threads.Tidy, Threads.Cells;
    ghost var m := article.msgid;
    StartWalking(t.f, m, rethreading);
    StartsUnrepeated(t.f, m, refs);
    var prev: Article, i := article, |refs|;
    ap := null;
    chain := [m];
    ghost var found := false;
    assert refs[..i] == refs;
    while i > 0
      invariant 0 <= i <= |refs| && !found && t.Repr() && t.Held(article) && t.Held(prev) && t.Held(ap) && Grown(t)
      invariant Walking(t.f, m, chain, rethreading) && Unrepeated(t.f, m, refs[..i], chain)
      invariant |chain| > 0 && prev.msgid == chain[|chain| - 1] && IdOf(ap) == TopOf(chain)
      invariant prev == article <==> |chain| == 1
      invariant Walk(t.f, m, refs[..i], prev.msgid, IdOf(ap), rethreading) ==
        Walk(old(t.f), m, refs, m, None, rethreading)
    {
      ghost var f, line := t.f, refs[..i];
      i := i - 1;
      assert line[..|line| - 1] == refs[..i] && line[|line| - 1] == refs[i];
      ap := GetArticle(t, refs[i]);
      assert Grown(t);
      PassedShows(t, f, article, ap);
      if (ap.date != 0 && ap.subj == null) || ap == article {
        ghost var h := IterPassed(f, m, line, chain, rethreading);
        ap := prev;
        if ap == article { ap := null; }
      } else {
        Hangable(f, m, chain, line, rethreading);
        var known := HangBelow(t, prev, ap, article.date, rethreading);
        if known {
          ghost var h := IterKnown(f, m, line, chain, rethreading);
          found := true;
          break;
        }
        ghost var h := IterBlank(f, m, line, chain, rethreading);
        prev := ap;
        chain := chain + [ap.msgid];
      }
      assert i == 0 ==> refs[..i] == [];
    }
    if i == 0 && !found { WalkAtEnd(t.f, m, chain, rethreading); }
  }

  lemma WalkAtEnd(f: Forest, m: MsgId, chain: seq<MsgId>, re: bool)
    requires Walking(f, m, chain, re)
    ensures Walk(f, m, [], chain[|chain| - 1], TopOf(chain), re) == Walked(f, TopOf(chain))
    ensures WalkEnd(Walked(f, TopOf(chain)), m, chain, re)
  {
    WalkStops(f, m, chain, re);
  }
}

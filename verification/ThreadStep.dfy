// valid_article and thread_article on the linked articles: what one header does, and many.
module ThreadStep {
  import opened Options
  import opened ThreadSpec
  import opened ThreadLists
  import opened ThreadSafety
  import opened ThreadDetach
  import opened ThreadWalk
  import opened ThreadForest
  import opened ThreadCells
  import opened ThreadHeap
  import opened ThreadFields
  import opened ThreadHang
  import opened ThreadEnter
  import opened ThreadRooting
  import opened ThreadReplace
  import opened ThreadSubjects

  lemma NothingHung(f: Forest, m: MsgId, chain: seq<MsgId>, re: bool)
    requires WalkEnd(Walked(f, None), m, chain, re) && !re
    ensures Free(f, m) && Lists(f) && Parent(f, m).None?
  {
  }

  /** thread_article from the references on. */
  method Finish(t: Threads, article: Article, refs: seq<MsgId>, rethreading: bool)
    requires t.Repr() && t.Held(article) && Ready(t.f, article.msgid, rethreading) && Datable(t.f, article.msgid, refs)
    requires article.subj != null
    modifies t`f, t`rings, t`hash, t.hash.Values`sibling, t.hash.Values`child1, t.hash.Values`parent,
      t.hash.Values`date, t.hash.Values`subj,
      t.subjects.Values`thread, t.subjects.Values`threadLink
    ensures t.Repr() && t.f == ThreadForest.Finish(old(t.f), article.msgid, refs, rethreading) && Grown(t)
  {
    hide Represents, Ready, Datable, Walk, WalkEnd, Free, Lists, LinkChild, ThreadSpec.Settle, Threads.RingsOk,
      Threads.Tidy, Threads.Cells;
    var ap, chain := WalkReferences(t, article, refs, rethreading);
    CellIs(t, article);
    if ap != null {
      ThreadRooting.Settle(t, article, ap, chain, rethreading);
    } else if !rethreading {
      NothingHung(t.f, article.msgid, chain, rethreading);
      t.LinkChild(article);
    }
  }

  /** What is threaded: an article known already, or one that took the place of a fake of the forest `g`. */
  ghost predicate Threadable(e: Forest, g: Forest, m: MsgId, d: int, had: Option<SubjName>, refs: seq<MsgId>) {
    var h := Put(e, m, At(e, m).(fake := false, threaded := true));
    && m in e.nodes && Subj(e, m).Some?
    && match had
       case None => Ready(h, m, Threaded(e, m)) && Datable(h, m, refs)
       case Some(s) =>
         && !Threaded(e, m) && TookPlace(h, g, m, d, Subj(e, m).value, s)
         && Ready(ThreadSpec.Detach(h, m, s), m, false) && Datable(ThreadSpec.Detach(h, m, s), m, refs)
  }

  lemma ThreadableMeans(e: Forest, g: Forest, m: MsgId, d: int, had: Option<SubjName>, refs: seq<MsgId>, s: SubjName)
    requires Threadable(e, g, m, d, had, refs) && Subj(e, m) == Some(s)
    ensures var h := Put(e, m, At(e, m).(fake := false, threaded := true));
      && Subj(h, m) == Some(s)
      && (had == None ==>
            && Ready(h, m, Threaded(e, m)) && Datable(h, m, refs)
            && ThreadSpec.ThreadArticle(e, m, had, refs) == ThreadForest.Finish(h, m, refs, Threaded(e, m)))
      && (had.Some? ==>
            var i := ThreadSpec.Detach(h, m, had.value);
            && !Threaded(e, m) && TookPlace(h, g, m, d, s, had.value) && Ready(i, m, false) && Datable(i, m, refs)
              && Subj(i, m).Some?
            && ThreadSpec.ThreadArticle(e, m, had, refs) == ThreadForest.Finish(i, m, refs, false))
  {
    hide ThreadSpec.Detach, Walk, ThreadSpec.Settle, LinkChild;
  }

  /** thread_article. */
  method ThreadArticle(t: Threads, article: Article, had: Subject?, refs: seq<MsgId>, ghost g: Forest, ghost d: int)
    requires t.Repr() && t.Held(article) && t.HeldSubject(had) && article.subj != null
    requires Threadable(t.f, g, article.msgid, d, NameOf(had), refs)
    modifies t`f, t`rings, t`hash, t.hash.Values, t.subjects.Values
    ensures t.Repr() && t.f == ThreadSpec.ThreadArticle(old(t.f), article.msgid, NameOf(had), refs) && Grown(t)
  {
    hide Represents, Ready, Datable, Threadable, TookPlace, ThreadForest.Finish, ThreadSpec.Detach,
      ThreadSpec.ThreadArticle, Threads.RingsOk, Threads.Tidy, Threads.Cells;
    CellIs(t, article);
    ThreadableMeans(t.f, g, article.msgid, d, NameOf(had), refs, article.subj.name);
    var rethreading := article.threaded;
    WriteReal(t, article);
    if had != null { ThreadEnter.Detach(t, article, had, g, d); }
    CellIs(t, article);
    Finish(t, article, refs, rethreading);
  }

  // ----- valid_article

  lemma EnterNew(f: Forest, m: MsgId, d: int, s: SubjName)
    requires m !in f.nodes
    ensures Enter(f, m, d, s) == Put(f, m, BLANK.(date := d, fake := false, subj := Some(s))) && Subj(f, m) == None
  {
  }

  /** No article stands for the message id yet. */
  method EnterArticle(t: Threads, article: Article)
    requires t.Repr() && Incoming(t, article) && article.msgid !in t.hash
    modifies t`f, t`hash
    ensures t.Repr() && t.f == Enter(old(t.f), article.msgid, article.date, IncomingName(article))
    ensures t.hash == old(t.hash)[article.msgid := article] && Subj(old(t.f), article.msgid) == None
  {
    hide Represents, Threads.RingsOk, Threads.Tidy, Threads.Cells;
    ghost var st, n := t.Image(), BLANK.(date := article.date, fake := false, subj := Some(IncomingName(article)));
    CellKeys(t);
    IncomingMeans(t, article);
    AddArticle(t, article, st);
    NewShown(st, t.f, article.msgid, t.CellOf(article), n);
    EnterNew(t.f, article.msgid, article.date, IncomingName(article));
    t.Follow(Put(t.f, article.msgid, n));
  }

  lemma CellKeys(t: Threads)
    ensures t.Cells().Keys == t.hash.Keys
  {
  }

  /** The article is a real one of the table, or comes new. */
  ghost predicate Arrives(t: Threads, article: Article)
    reads t`hash, t`subjects, t.hash.Values`sibling, article
  {
    if t.Held(article) then !article.fake && article.subj != null else Incoming(t, article)
  }

  /** valid_article. */
  method ValidArticle(t: Threads, article: Article) returns (valid: bool, had: Subject?)
    requires t.Repr() && WellFormed(t.f) && Arrives(t, article)
    modifies t`f, t`hash, article`parent, article`child1, article`sibling,
      t.hash.Values`parent, t.hash.Values`child1, t.hash.Values`sibling, t.subjects.Values`thread
    ensures t.Repr() && t.HeldSubject(had)
    ensures valid == !Rejected(old(t.f), EventOf(article, [], !old(t.Held(article))))
    ensures !valid ==> t.f == old(t.f) && t.hash == old(t.hash)
    ensures valid ==> t.Held(article) && t.hash == old(t.hash)[article.msgid := article]
    ensures valid && old(t.Held(article)) ==> t.f == old(t.f) && had == null
    ensures valid && !old(t.Held(article)) ==>
      && t.f == Enter(old(t.f), article.msgid, article.date, IncomingName(article))
        && NameOf(had) == Subj(old(t.f), article.msgid)
      && (article.msgid in old(t.f).nodes ==> Fake(old(t.f), article.msgid))
  {
    hide Represents, WellFormed, Incoming, Enter, Threads.RingsOk, Threads.Tidy, Threads.Cells;
    HashShown(t);
    had := null;
    if article.msgid !in t.hash {
      EnterArticle(t, article);
      valid := true;
    } else {
      var fake := t.hash[article.msgid];
      if fake == article {
        valid := true;
        assert t.hash == t.hash[article.msgid := article];
      } else if fake.fake {
        had := ThreadReplace.TakePlace(t, article, fake);
        valid := true;
      } else {
        valid := false;
      }
    }
  }

  /** The header of an article as an event. */
  ghost function EventOf(article: Article, refs: seq<MsgId>, another: bool): Event
    reads article
  {
    Event(article.msgid, article.date, IncomingName(article), refs, another)
  }

  lemma HashShown(t: Threads)
    requires t.Tidy() && Represents(t.Image(), t.f)
    ensures forall m :: m in t.hash <==> m in t.f.nodes
    ensures forall m | m in t.hash :: t.hash[m].msgid == m && t.hash[m].fake == Fake(t.f, m)
  {
    forall m | m in t.hash || m in t.f.nodes
      ensures m in t.hash && m in t.f.nodes && t.hash[m].msgid == m && t.hash[m].fake == Fake(t.f, m) {
      t.Shown(m);
    }
  }

  // ----- one header

  lemma SubjectAdded(f: Forest, s: SubjName)
    requires s in f.thread
    ensures AddSubject(f, s) == f
  {
  }

  /** The article is threaded again. */
  lemma StepAgain(f: Forest, e: Event)
    requires WellFormed(f) && e.subj in f.thread && Again(f, e) && !e.another && Traceable(f, e)
    ensures Threadable(f, f, e.id, 0, None, e.refs) && Step(f, e) == ThreadSpec.ThreadArticle(f, e.id, None, e.refs)
  {
    hide WellFormed, Ready, Datable;
    TraceableIs(f, e);
    SubjectAdded(f, e.subj);
    AgainReady(f, e.id);
    MarkedAlready(f, e.id);
    ReadySubject(f, e.id, true);
  }

  /** The article is new, or takes the place of a fake. */
  lemma StepEnter(f: Forest, e: Event)
    requires WellFormed(f) && e.subj in f.thread && (e.id in f.nodes ==> Fake(f, e.id)) && Traceable(f, e)
    ensures Threadable(Enter(f, e.id, e.date, e.subj), f, e.id, e.date, Subj(f, e.id), e.refs)
    ensures Step(f, e) == ThreadSpec.ThreadArticle(Enter(f, e.id, e.date, e.subj), e.id, Subj(f, e.id), e.refs)
  {
    hide WellFormed, Ready, Datable, ThreadSpec.Detach, ThreadSpec.ThreadArticle;
    var m, d, s := e.id, e.date, e.subj;
    TraceableIs(f, e);
    SubjectAdded(f, s);
    EnteredReady(f, m, d, s);
    EnterIs(f, m, d, s);
    WellLabels(f);
    NotThreadedYet(f, m, d, s);
    assert Subj(f, m).Some? ==> m in f.nodes;
  }

  lemma WellLabels(f: Forest)
    requires WellFormed(f)
    ensures Labels(f, {})
  {
  }

  lemma ArrivesNamed(t: Threads, article: Article)
    requires t.Tidy() && Represents(t.Image(), t.f) && Arrives(t, article)
    ensures article.subj != null && IncomingName(article) in t.f.thread
    ensures t.Held(article) ==> Again(t.f, EventOf(article, [], false))
  {
    if t.Held(article) { t.Shown(article.msgid); }
    t.ShownTop(article.subj);
  }

  /** valid_article followed by thread_article: one step of the forest. */
  method Receive(t: Threads, article: Article, refs: seq<MsgId>)
    requires t.Repr() && WellFormed(t.f) && Arrives(t, article)
      && Traceable(t.f, EventOf(article, refs, !t.Held(article)))
    modifies t, article, t.hash.Values, t.subjects.Values
    ensures t.Repr() && WellFormed(t.f)
    ensures t.f == Step(old(t.f), old(EventOf(article, refs, !t.Held(article))))
    ensures t.subjects == old(t.subjects)
      && forall m | m in t.hash :: t.hash[m] in old(t.hash.Values) || fresh(t.hash[m]) || t.hash[m] == article
  {
    hide Represents, WellFormed, Arrives, Enter, Threadable, Traceable, Step, ThreadSpec.ThreadArticle,
      Threads.RingsOk, Threads.Tidy, Threads.Cells;
    ghost var f, e := t.f, EventOf(article, refs, !t.Held(article));
    ArrivesNamed(t, article);
    StepKeepsWellFormed(f, e);
    if t.Held(article) { StepAgain(f, e); } else if !Rejected(f, e) { StepEnter(f, e); }
    var valid, had := ValidArticle(t, article);
    if valid {
      ThreadArticle(t, article, had, refs, f, if old(t.Held(article)) then 0 else e.date);
    } else {
      StepRejected(f, e);
    }
  }

  lemma StepRejected(f: Forest, e: Event)
    requires Rejected(f, e) && e.subj in f.thread
    ensures Step(f, e) == f
  {
  }

  // ----- headers one after the other

  /** The subject of a header comes first; the step itself is then the same. */
  lemma AfterSubject(f: Forest, e: Event, e': Event)
    requires WellFormed(f) && e'.id == e.id && e'.refs == e.refs
    requires if Again(f, e) && !e.another then !e'.another && e'.subj in f.thread
               else e'.another && e'.date == e.date && e'.subj == e.subj
    ensures var g := AddSubject(f, e.subj);
      WellFormed(g) && Step(g, e') == Step(f, e) && (Traceable(f, e) ==> Traceable(g, e'))
  {
    hide WellFormed, Datable, Traceable, ThreadSpec.ThreadArticle, ThreadForest.TakePlace;
    AddSubjectKeeps(f, e.subj);
    var g := AddSubject(f, e.subj);
    SubjectAdded(g, e.subj);
    SubjectAdded(g, e'.subj);
    assert Fake(g, e.id) == Fake(f, e.id) && Subj(g, e.id) == Subj(f, e.id);
    if Rejected(f, e) {
      RejectedTraceable(g, e');
    } else {
      TraceableIs(f, e);
      TraceableIs(g, e');
    }
  }

  lemma RejectedTraceable(f: Forest, e: Event)
    requires Rejected(f, e)
    ensures Traceable(f, e)
  {
  }

  /** What one header does to the articles. */
  method ReadHeader(t: Threads, e: Event)
    requires t.Repr() && WellFormed(t.f) && Traceable(t.f, e)
    modifies t, t.hash.Values, t.subjects.Values
    ensures t.Repr() && WellFormed(t.f) && t.f == Step(old(t.f), e)
    ensures forall m | m in t.hash :: t.hash[m] in old(t.hash.Values) || fresh(t.hash[m])
    ensures forall s | s in t.subjects :: t.subjects[s] in old(t.subjects.Values) || fresh(t.subjects[s])
  {
    hide Represents, WellFormed, Traceable, Step, AddSubject, Threads.RingsOk, Threads.Tidy, Threads.Cells, Home;
    ghost var f := t.f;
    HashShown(t);
    var again := e.id in t.hash && !t.hash[e.id].fake && !e.another;
    if again {
      HeldNamed(t, t.hash[e.id]);
      AfterSubject(f, e, EventOf(t.hash[e.id], e.refs, false));
    } else {
      AfterSubject(f, e, e.(another := true));
    }
    var sp := FindSubject(t, e.subj);
    if again {
      HeldNamed(t, t.hash[e.id]);
      Receive(t, t.hash[e.id], e.refs);
    } else {
      ghost var siblings := set m | m in t.hash :: t.hash[m].sibling;
      var article := new Article.Real(e.id, e.date, sp);
      assert article !in siblings;
      assert forall m | m in t.hash :: t.hash[m].sibling in siblings;
      Receive(t, article, e.refs);
    }
  }

  lemma HeldNamed(t: Threads, article: Article)
    requires t.Tidy() && Represents(t.Image(), t.f) && WellFormed(t.f) && t.Held(article) && !article.fake
    ensures Arrives(t, article) && IncomingName(article) in t.f.thread
  {
    t.Shown(article.msgid);
    assert At(t.f, article.msgid) != BLANK;
    t.ShownTop(article.subj);
  }
}

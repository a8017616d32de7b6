// valid_article: a real article takes the place of the fake with its message id, and every pointer to
// the fake in use is led to it.
module ThreadReplace {
  import opened Options
  import opened Paths
  import opened ThreadSpec
  import opened ThreadLists
  import opened ThreadSafety
  import opened ThreadCells
  import opened ThreadHeap
  import opened ThreadJoin
  import opened ThreadFields
  import opened ThreadHang

  // ----- the pointers of all articles and subjects

  ghost function Parents(t: Threads): map<MsgId, Article?>
    reads t`hash, t.hash.Values`parent
  {
    map m | m in t.hash :: t.hash[m].parent
  }

  ghost function Firsts(t: Threads): map<MsgId, Article?>
    reads t`hash, t.hash.Values`child1
  {
    map m | m in t.hash :: t.hash[m].child1
  }

  ghost function Siblings(t: Threads): map<MsgId, Article?>
    reads t`hash, t.hash.Values`sibling
  {
    map m | m in t.hash :: t.hash[m].sibling
  }

  ghost function Heads(t: Threads): map<SubjName, Article?>
    reads t`subjects, t.subjects.Values`thread
  {
    map s | s in t.subjects :: t.subjects[s].thread
  }

  /** Pointers to `fake` lead to `real` now; the others are as they were. */
  ghost predicate Led<K(!new)>(was: map<K, Article?>, now: map<K, Article?>, fake: Article, article: Article) {
    && now.Keys == was.Keys
    && forall k | k in was :: now[k] == if was[k] == fake then article else was[k]
  }

  ghost predicate Named(t: Threads)
    reads t`hash
  {
    forall m | m in t.hash :: t.hash[m].msgid == m
  }

  /** The sibling links run through the articles of `list`. */
  ghost predicate Chained(t: Threads, list: seq<MsgId>)
    reads t`hash, t.hash.Values`sibling
  {
    forall i | 0 <= i < |list| :: ChainedAt(t, list, i)
  }

  ghost predicate ChainedAt(t: Threads, list: seq<MsgId>, i: int)
    requires 0 <= i < |list|
    reads t`hash, t.hash.Values`sibling
  {
    list[i] in t.hash && t.hash[list[i]].msgid == list[i] && t.hash[list[i]].sibling == ArticleAt(t, list, i + 1)
  }

  /** The article of a place of a list. */
  ghost function ArticleAt(t: Threads, list: seq<MsgId>, i: int): Article?
    requires 0 <= i
    reads t`hash
  {
    if i < |list| && list[i] in t.hash then t.hash[list[i]] else null
  }

  lemma ListChained(t: Threads, list: seq<MsgId>)
    requires t.Tidy() && Linked(t.Cells(), list) && Distinct(list)
    ensures Chained(t, list)
  {
    forall i | 0 <= i < |list| ensures ChainedAt(t, list, i) {
      assert list[i] in t.Cells();
      t.NextOf(t.hash[list[i]], list, i);
    }
  }

  /** The search for the elder sibling of the fake. */
  method LeadElder(t: Threads, first: Article?, fakeAp: Article, article: Article, ghost list: seq<MsgId>,
      ghost j: nat, ghost was: map<MsgId, Article?>)
    requires Chained(t, list) && Distinct(list) && j + 1 < |list| && ArticleAt(t, list, j + 1) == fakeAp
      && first == ArticleAt(t, list, 0)
    requires was == Siblings(t) && Named(t)
    modifies t.hash.Values`sibling
    ensures Siblings(t) == was[list[j] := article]
  {
    var ap := first;
    ghost var i := 0;
    assert ChainedAt(t, list, 0) && ChainedAt(t, list, 1) && ChainedAt(t, list, j) && ChainedAt(t, list, j + 1);
    while ap.sibling != null
      invariant i <= j && ap != null && ap == ArticleAt(t, list, i) && ap.sibling != null && Siblings(t) == was
      invariant forall m | m in t.hash :: t.hash[m].sibling == old(t.hash[m].sibling)
      decreases j - i
    {
      assert old(ChainedAt(t, list, i)) && old(ChainedAt(t, list, i + 1));
      if ap.sibling == fakeAp {
        assert i == j;
        ap.sibling := article;
        assert Siblings(t) == was[list[j] := article];
        break;
      }
      ap := ap.sibling;
      i := i + 1;
      assert old(ChainedAt(t, list, i)) && old(ChainedAt(t, list, i + 1));
    }
  }

  /** The parent pointers, once those of the articles of `kids` lead to `article`. */
  ghost function Adopted(was: map<MsgId, Article?>, kids: seq<MsgId>, article: Article): map<MsgId, Article?> {
    map x | x in was :: if x in kids then article else was[x]
  }

  /** The children of the fake become children of the real article. */
  method LeadKids(t: Threads, article: Article, ghost list: seq<MsgId>, ghost was: map<MsgId, Article?>)
    requires Chained(t, list) && Distinct(list) && article.child1 == ArticleAt(t, list, 0)
    requires was == Parents(t) && Named(t)
    modifies t.hash.Values`parent
    ensures Parents(t) == Adopted(was, list, article)
  {
    var ap := article.child1;
    ghost var i := 0;
    while ap != null
      invariant 0 <= i <= |list| && ap == ArticleAt(t, list, i)
      invariant forall m | m in t.hash :: t.hash[m].parent == if m in list[..i] then article else was[m]
      decreases |list| - i
    {
      assert ChainedAt(t, list, i);
      ap.parent := article;
      assert list[..i + 1] == list[..i] + [list[i]];
      ap := ap.sibling;
      i := i + 1;
    }
    ListDone(t, list, i);
  }

  lemma ListDone(t: Threads, list: seq<MsgId>, i: nat)
    requires Chained(t, list) && i <= |list| && ArticleAt(t, list, i) == null
    ensures list[..i] == list
  {
    forall k | 0 <= k < |list| ensures ArticleAt(t, list, k) != null { assert ChainedAt(t, list, k); }
  }

  // ----- who points at an article

  ghost predicate Standing(t: Threads, a: Article)
    reads t, t.hash.Values, t.subjects.Values
  {
    t.Tidy() && Represents(t.Image(), t.f) && WellFormed(t.f) && t.Held(a)
  }

  lemma StandingLists(t: Threads, a: Article)
    requires Standing(t, a)
    ensures t.Tidy() && Represents(t.Image(), t.f) && Lists(t.f) && t.Held(a) && a.msgid in t.f.nodes
    ensures IdOf(a.parent) == Parent(t.f, a.msgid) && NameOf(a.subj) == Subj(t.f, a.msgid)
      && IdOf(a.child1) == First(Kids(t.f, a.msgid))
    ensures t.Held(a.parent) && t.HeldSubject(a.subj) && a.fake == Fake(t.f, a.msgid)
    ensures Named(t)
  {
    t.Shown(a.msgid);
  }

  lemma ParentPoints(t: Threads, a: Article, x: MsgId)
    requires Standing(t, a) && x in t.hash
    ensures t.hash[x].parent == a <==> x in Kids(t.f, a.msgid)
  {
    t.Shown(x);
    assert t.hash[x].parent == a <==> Parent(t.f, x) == Some(a.msgid);
    if Parent(t.f, x) == Some(a.msgid) { assert At(t.f, x) != BLANK; }
  }

  lemma FirstPoints(t: Threads, a: Article, x: MsgId)
    requires Standing(t, a) && x in t.hash
    ensures t.hash[x].child1 == a <==> First(Kids(t.f, x)) == Some(a.msgid)
    ensures t.hash[x].child1 == a ==> Parent(t.f, a.msgid) == Some(x)
  {
    t.Shown(x);
    if t.hash[x].child1 == a { assert Kids(t.f, x)[0] in Kids(t.f, x); }
  }

  lemma RootHome(f: Forest, k: SubjName, m: MsgId)
    requires WellFormed(f) && First(Roots(f, k)) == Some(m)
    ensures Parent(f, m) == None && Home(f, m) == Some(k)
  {
    assert m in Roots(f, k);
  }

  lemma HeadPoints(t: Threads, a: Article, s: SubjName)
    requires Standing(t, a) && s in t.subjects
    ensures t.subjects[s].thread == a <==> First(Roots(t.f, ThreadOf(t.f, s))) == Some(a.msgid)
    ensures t.subjects[s].thread == a ==> Parent(t.f, a.msgid) == None && Home(t.f, a.msgid) == Some(ThreadOf(t.f, s))
  {
    hide First, Roots, ThreadOf, WellFormed, Represents, Home;
    assert t.HeldSubject(t.subjects[s]);
    t.ShownTop(t.subjects[s]);
    SameId(t, t.subjects[s].thread, a);
    if t.subjects[s].thread == a { RootHome(t.f, ThreadOf(t.f, s), a.msgid); }
  }

  /** `x` comes right before `m` in the list of `m`. */
  ghost predicate Elder(f: Forest, x: MsgId, m: MsgId) {
    exists i :: ElderAt(f, x, m, i)
  }

  ghost predicate ElderAt(f: Forest, x: MsgId, m: MsgId, i: int) {
    0 <= i < |ListOf(f, m)| - 1 && ListOf(f, m)[i] == x && ListOf(f, m)[i + 1] == m
  }

  lemma InListOf(f: Forest, list: seq<MsgId>, x: MsgId, m: MsgId, i: nat)
    requires WellFormed(f) && i + 1 < |list| && list[i] == x && list[i + 1] == m
    requires (exists q :: list == Kids(f, q)) || (exists k :: list == Roots(f, k))
    ensures Elder(f, x, m)
  {
    assert m in list;
    if q :| list == Kids(f, q) {
      assert Parent(f, m) == Some(q);
    } else {
      var k :| list == Roots(f, k);
      assert Parent(f, m) == None && Home(f, m) == Some(k);
    }
    assert ElderAt(f, x, m, i);
  }

  lemma NextPoints(t: Threads, a: Article, list: seq<MsgId>, x: MsgId) returns (i: nat)
    requires Standing(t, a) && x in list && Linked(t.Cells(), list) && x in t.hash && t.hash[x].sibling == a
    ensures i + 1 < |list| && list[i] == x && list[i + 1] == a.msgid
  {
    i :| 0 <= i < |list| && list[i] == x;
    assert t.Cells()[list[i]].sibling == Next(list, i);
    assert t.SiblingId(t.hash[x]) == Some(a.msgid);
  }

  lemma SiblingPoints(t: Threads, a: Article, x: MsgId)
    requires Standing(t, a) && x in t.hash && t.hash[x].sibling == a && !Free(t.f, x)
    ensures Elder(t.f, x, a.msgid)
  {
    hide WellFormed, Threads.Tidy, Represents;
    StandingLists(t, a);
    if p :| x in Kids(t.f, p) {
      ListsLinked(t, Kids(t.f, p));
      var i := NextPoints(t, a, Kids(t.f, p), x);
      InListOf(t.f, Kids(t.f, p), x, a.msgid, i);
    } else {
      var k :| x in Roots(t.f, k);
      ListsLinked(t, Roots(t.f, k));
      var i := NextPoints(t, a, Roots(t.f, k), x);
      InListOf(t.f, Roots(t.f, k), x, a.msgid, i);
    }
  }

  lemma ListsLinked(t: Threads, list: seq<MsgId>)
    requires Represents(t.Image(), t.f)
    requires (exists q :: list == Kids(t.f, q)) || (exists k :: list == Roots(t.f, k))
    ensures Linked(t.Cells(), list)
  {
  }

  // ----- the pointers led to the real article

  /** As `Led`, but the links of articles in no list may be left. */
  ghost predicate LedIfListed(f: Forest, was: map<MsgId, Article?>, now: map<MsgId, Article?>, fake: Article,
      article: Article) {
    && now.Keys == was.Keys
    && forall x | x in was :: now[x] == (if was[x] == fake then article else was[x]) || (now[x] == was[x] && Free(f, x))
  }

  lemma FirstLed(t: Threads, fake: Article, article: Article, p: MsgId)
    requires Standing(t, fake) && p in t.hash && t.hash[p].child1 == fake
    ensures Led(Firsts(t), Firsts(t)[p := article], fake, article)
  {
    hide Standing, Named, First, Kids;
    FirstPoints(t, fake, p);
    forall x | x in t.hash && t.hash[x].child1 == fake ensures x == p { FirstPoints(t, fake, x); }
  }

  lemma FirstsLed(t: Threads, fake: Article, article: Article)
    requires Standing(t, fake) && forall x | x in t.hash :: t.hash[x].child1 != fake
    ensures Led(Firsts(t), Firsts(t), fake, article)
  {
  }

  lemma NoFirst(t: Threads, fake: Article)
    requires Standing(t, fake) && (fake.parent == null || fake.parent.child1 != fake)
    ensures forall x | x in t.hash :: t.hash[x].child1 != fake
  {
    StandingLists(t, fake);
    forall x | x in t.hash ensures t.hash[x].child1 != fake { FirstPoints(t, fake, x); }
  }

  lemma NoHead(t: Threads, fake: Article, article: Article)
    requires Standing(t, fake) && (fake.parent != null || fake.subj == null || fake.subj.thread != fake)
    ensures Led(Heads(t), Heads(t), fake, article)
  {
    StandingLists(t, fake);
    forall s | s in t.subjects ensures t.subjects[s].thread != fake {
      HeadPoints(t, fake, s);
      if t.subjects[s].thread == fake {
        t.ShownTop(t.subjects[s]);
        t.ShownTop(fake.subj);
        assert false;
      }
    }
  }

  lemma FakeSubject(t: Threads, a: Article)
    requires Standing(t, a) && a.subj != null
    ensures a.subj.name in t.subjects && t.subjects[a.subj.name] == a.subj
      && Home(t.f, a.msgid) == Some(ThreadOf(t.f, a.subj.name))
  {
    StandingLists(t, a);
  }

  lemma HeadLed(t: Threads, fake: Article, article: Article, heads: map<SubjName, Article?>)
    requires Standing(t, fake) && fake.subj != null && fake.subj.thread == fake && fake.parent == null
    requires heads.Keys == t.subjects.Keys
    requires forall s | s in t.subjects ::
               heads[s] == if ThreadOf(t.f, s) == ThreadOf(t.f, fake.subj.name) then article else t.subjects[s].thread
    ensures Led(Heads(t), heads, fake, article)
  {
    hide Standing, Named, First, Roots, ThreadOf;
    FakeSubject(t, fake);
    HeadPoints(t, fake, fake.subj.name);
    forall s | s in t.subjects ensures t.subjects[s].thread == fake <==>
      ThreadOf(t.f, s) == ThreadOf(t.f, fake.subj.name) {
      HeadPoints(t, fake, s);
    }
  }

  lemma ElderLed(t: Threads, fake: Article, article: Article, j: nat)
    requires Standing(t, fake) && j + 1 < |ListOf(t.f, fake.msgid)| && ListOf(t.f, fake.msgid)[j + 1] == fake.msgid
    requires Distinct(ListOf(t.f, fake.msgid))
    requires ListOf(t.f, fake.msgid)[j] in t.hash && t.hash[ListOf(t.f, fake.msgid)[j]].sibling == fake
    ensures LedIfListed(t.f, Siblings(t), Siblings(t)[ListOf(t.f, fake.msgid)[j] := article], fake, article)
  {
    hide Represents, WellFormed, Threads.Tidy, Free;
    var list := ListOf(t.f, fake.msgid);
    forall x | x in t.hash && t.hash[x].sibling == fake && !Free(t.f, x) ensures x == list[j] {
      SiblingPoints(t, fake, x);
      var i :| ElderAt(t.f, x, fake.msgid, i);
    }
  }

  lemma NotElder(f: Forest, x: MsgId, m: MsgId)
    requires ListOf(f, m) == [] || (ListOf(f, m)[0] == m && Distinct(ListOf(f, m)))
    ensures !Elder(f, x, m)
  {
    forall i ensures !ElderAt(f, x, m, i) {
      assert 0 <= i < |ListOf(f, m)| - 1 ==> ListOf(f, m)[0] != ListOf(f, m)[i + 1];
    }
  }

  lemma NoElder(t: Threads, fake: Article, article: Article)
    requires Standing(t, fake)
    requires var list := ListOf(t.f, fake.msgid); list == [] || (list[0] == fake.msgid && Distinct(list))
    ensures LedIfListed(t.f, Siblings(t), Siblings(t), fake, article)
  {
    hide Represents, WellFormed, Threads.Tidy, Free;
    forall x | x in t.hash && t.hash[x].sibling == fake ensures Free(t.f, x) {
      NotElder(t.f, x, fake.msgid);
      if !Free(t.f, x) { SiblingPoints(t, fake, x); }
    }
  }

  /** The place of an article in its list, which is a list of linked articles. */
  lemma PlaceOf(t: Threads, a: Article) returns (j: nat)
    requires Standing(t, a) && (a.parent != null || a.subj != null)
    ensures var list := ListOf(t.f, a.msgid); j < |list| && list[j] == a.msgid && Chained(t, list) && Distinct(list)
    ensures var list := ListOf(t.f, a.msgid); ArticleAt(t, list, j) == a && (j > 0 ==> list[0] != a.msgid)
    ensures var list := ListOf(t.f, a.msgid);
      a.parent != null ==> a.parent.child1 == ArticleAt(t, list, 0) && (a.parent.child1 == a <==> j == 0)
    ensures var list := ListOf(t.f, a.msgid);
      a.parent == null ==> a.subj.thread == ArticleAt(t, list, 0) && (a.subj.thread == a <==> j == 0)
  {
    hide Represents, WellFormed, Threads.Tidy, Chained;
    StandingLists(t, a);
    var list := ListOf(t.f, a.msgid);
    StandingPlaced(t.f, a.msgid);
    j := t.IndexOf(list, a.msgid);
    if a.parent != null {
      ListsLinked(t, Kids(t.f, a.parent.msgid));
      t.Shown(a.parent.msgid);
      SameFirst(t, a.parent.child1, list);
    } else {
      ListsLinked(t, Roots(t.f, ThreadOf(t.f, a.subj.name)));
      t.ShownTop(a.subj);
      SameFirst(t, a.subj.thread, list);
    }
    ListChained(t, list);
  }

  lemma SameFirst(t: Threads, first: Article?, list: seq<MsgId>)
    requires t.Held(first) && IdOf(first) == First(list)
    ensures first == ArticleAt(t, list, 0)
  {
  }

  lemma StandingPlaced(f: Forest, m: MsgId)
    requires WellFormed(f) && m in f.nodes && (Parent(f, m).Some? || Subj(f, m).Some?)
    ensures Placed(f, m) && Distinct(ListOf(f, m)) && m in ListOf(f, m)
  {
    assert At(f, m) != BLANK;
  }

  lemma ElderPlace(t: Threads, a: Article, list: seq<MsgId>, j: nat)
    requires 0 < j < |list| && Chained(t, list) && ArticleAt(t, list, j) == a && list[j] == a.msgid
      && list[0] != a.msgid
    ensures list[j - 1] in t.hash && t.hash[list[j - 1]].sibling == a
  {
    assert ChainedAt(t, list, j - 1);
  }

  lemma NoList(t: Threads, a: Article)
    requires Standing(t, a) && a.parent == null && a.subj == null
    ensures ListOf(t.f, a.msgid) == []
  {
    StandingLists(t, a);
  }

  /** What `a` is first in: its parent's children or its thread's roots. */
  ghost function FirstBeside(a: Article): Article?
    reads a, a.parent, a.subj
  {
    if a.parent != null then a.parent.child1 else if a.subj != null then a.subj.thread else null
  }

  /** A fake that is not the first of its list has an elder sibling there. */
  lemma ElderFound(t: Threads, fake: Article, article: Article) returns (list: seq<MsgId>, j: nat)
    requires Standing(t, fake) && (fake.parent != null || fake.subj != null) && FirstBeside(fake) != fake
    ensures Chained(t, list) && Distinct(list) && j + 1 < |list| && ArticleAt(t, list, j + 1) == fake
    ensures FirstBeside(fake) == ArticleAt(t, list, 0)
      && LedIfListed(t.f, Siblings(t), Siblings(t)[list[j] := article], fake, article)
  {
    hide Standing, Named, Chained, ListOf, LedIfListed, ArticleAt, Siblings;
    var i := PlaceOf(t, fake);
    list, j := ListOf(t.f, fake.msgid), i - 1;
    ElderPlace(t, fake, list, i);
    ElderLed(t, fake, article, j);
  }

  /** A fake that is the first of its list, or in none, has no elder sibling. */
  lemma ElderNone(t: Threads, fake: Article, article: Article)
    requires Standing(t, fake) && (FirstBeside(fake) == fake || (fake.parent == null && fake.subj == null))
    ensures LedIfListed(t.f, Siblings(t), Siblings(t), fake, article)
  {
    hide Standing, Named, Chained, ListOf, LedIfListed, ArticleAt, Siblings;
    if fake.parent == null && fake.subj == null { NoList(t, fake); } else { var i := PlaceOf(t, fake); }
    NoElder(t, fake, article);
  }

  lemma StandingTidy(t: Threads, a: Article)
    requires Standing(t, a)
    ensures t.Tidy()
  {
  }

  lemma StandingNamed(t: Threads, a: Article)
    requires Standing(t, a)
    ensures Named(t) && t.Held(a)
  {
  }

  lemma StandingParent(t: Threads, a: Article)
    requires Standing(t, a)
    ensures t.Held(a.parent)
  {
    StandingLists(t, a);
  }

  /** The fake is the first of its siblings. */
  method LeadParent(t: Threads, fake: Article, article: Article, ap: Article)
    requires Standing(t, fake) && fake.parent == ap && ap.child1 == fake
    modifies t.hash.Values`child1
    ensures Led(old(Firsts(t)), Firsts(t), fake, article)
  {
    hide Standing, Led;
    ghost var firsts := Firsts(t);
    StandingNamed(t, fake);
    StandingParent(t, fake);
    FirstLed(t, fake, article, ap.msgid);
    ap.child1 := article;
    assert Firsts(t) == firsts[ap.msgid := article];
  }

  /** The fake is the first root of its thread. */
  method LeadThread(t: Threads, fake: Article, article: Article)
    requires Standing(t, fake) && t.RingsOk() && fake.parent == null && fake.subj != null && fake.subj.thread == fake
    modifies t.subjects.Values`thread
    ensures Led(old(Heads(t)), Heads(t), fake, article) && t.RingsOk()
  {
    hide Standing, Named, Led, Threads.RingsOk, Represents, WellFormed, ThreadOf, Threads.Tidy;
    FakeSubject(t, fake);
    StandingTidy(t, fake);
    ghost var heads := HeadsThen(t, fake, article);
    HeadLed(t, fake, article, heads);
    t.PointThread(fake.subj, article);
    assert Heads(t) == heads;
  }

  ghost function HeadsThen(t: Threads, fake: Article, article: Article): map<SubjName, Article?>
    requires fake.subj != null
    reads t`f, t`subjects, t.subjects.Values`thread, fake
  {
    map s | s in t.subjects :: if ThreadOf(t.f, s) == ThreadOf(t.f, fake.subj.name) then article
      else t.subjects[s].thread
  }

  /** The fake is behind others in its list. */
  method LeadBehind(t: Threads, fake: Article, article: Article, first: Article?, ghost sibs: map<MsgId, Article?>)
    requires Standing(t, fake) && sibs == Siblings(t) && (fake.parent != null || fake.subj != null)
      && FirstBeside(fake) == first != fake
    modifies t.hash.Values`sibling
    ensures LedIfListed(t.f, sibs, Siblings(t), fake, article)
  {
    hide Standing, Named, LedIfListed, ListOf, Chained, ArticleAt, Siblings;
    StandingNamed(t, fake);
    ghost var list, j := ElderFound(t, fake, article);
    LeadElder(t, first, fake, article, list, j, sibs);
  }

  /** The list of children that the fake is in leads to the real article. */
  method LeadFromParent(t: Threads, fake: Article, article: Article, ap: Article, ghost sibs: map<MsgId, Article?>)
    requires Standing(t, fake) && fake.parent == ap && sibs == Siblings(t)
    modifies t.hash.Values`child1, t.hash.Values`sibling
    ensures Led(old(Firsts(t)), Firsts(t), fake, article) && LedIfListed(t.f, sibs, Siblings(t), fake, article)
  {
    hide Standing, Named, Led, LedIfListed, Firsts, Siblings;
    if ap.child1 == fake {
      ElderNone(t, fake, article);
      LeadParent(t, fake, article, ap);
    } else {
      NoFirst(t, fake);
      FirstsLed(t, fake, article);
      LeadBehind(t, fake, article, ap.child1, sibs);
    }
  }

  /** The thread that the fake is a root of leads to the real article. */
  method LeadFromThread(t: Threads, fake: Article, article: Article, had: Subject, ghost sibs: map<MsgId, Article?>)
    requires Standing(t, fake) && t.RingsOk() && fake.parent == null && fake.subj == had && sibs == Siblings(t)
    modifies t.hash.Values`sibling, t.subjects.Values`thread
    ensures LedIfListed(t.f, sibs, Siblings(t), fake, article) && Led(old(Heads(t)), Heads(t), fake, article)
    ensures t.RingsOk()
  {
    hide Standing, Named, Led, LedIfListed, Threads.RingsOk, Heads, Siblings;
    var ap := had.thread;
    if ap == fake {
      ElderNone(t, fake, article);
      LeadThread(t, fake, article);
    } else {
      NoHead(t, fake, article);
      LeadBehind(t, fake, article, ap, sibs);
    }
  }

  /** Whatever the fake is in leads to the real article. */
  method LeadTo(t: Threads, fake: Article, article: Article, ghost sibs: map<MsgId, Article?>)
    requires Standing(t, fake) && t.RingsOk() && sibs == Siblings(t)
    modifies t.hash.Values`child1, t.hash.Values`sibling, t.subjects.Values`thread
    ensures Led(old(Firsts(t)), Firsts(t), fake, article) && Led(old(Heads(t)), Heads(t), fake, article)
    ensures LedIfListed(t.f, sibs, Siblings(t), fake, article) && t.RingsOk()
  {
    hide Standing, Named, Led, LedIfListed, Threads.RingsOk, ListOf, Firsts, Siblings, Heads;
    var ap := fake.parent;
    if ap != null {
      NoHead(t, fake, article);
      LeadFromParent(t, fake, article, ap, sibs);
    } else {
      NoFirst(t, fake);
      FirstsLed(t, fake, article);
      var had := fake.subj;
      if had != null {
        LeadFromThread(t, fake, article, had, sibs);
      } else {
        NoHead(t, fake, article);
        ElderNone(t, fake, article);
      }
    }
  }

  // ----- the real article in the table

  /** What a sibling link of `x` says, with the articles of `hash`. */
  ghost function SiblingIn(hash: map<MsgId, Article>, x: MsgId, sibling: Article?): Option<MsgId> {
    if sibling == null then None else if In(hash, sibling) then Some(sibling.msgid) else Some(x)
  }

  /** The pointers of the articles and subjects at one time. */
  datatype Pointers = Pointers(
    parents: map<MsgId, Article?>, firsts: map<MsgId, Article?>, siblings: map<MsgId, Article?>,
      heads: map<SubjName, Article?>)

  ghost function PointersOf(t: Threads): Pointers
    reads t`hash, t`subjects, t.hash.Values, t.subjects.Values
  {
    Pointers(Parents(t), Firsts(t), Siblings(t), Heads(t))
  }

  ghost predicate AllIn<K(!new)>(hash: map<MsgId, Article>, p: map<K, Article?>) {
    forall k | k in p :: In(hash, p[k])
  }

  ghost predicate AllListed(hash: map<MsgId, Article>, p: map<MsgId, Article?>) {
    forall x | x in p && p[x] != null :: p[x].msgid in hash
  }

  ghost predicate HashNamed(hash: map<MsgId, Article>) {
    forall x | x in hash :: hash[x].msgid == x
  }

  /** The pointers lead to articles of `hash`. */
  ghost predicate Whole(hash: map<MsgId, Article>, p: Pointers) {
    && p.parents.Keys == hash.Keys && p.firsts.Keys == hash.Keys && p.siblings.Keys == hash.Keys
    && HashNamed(hash) && AllIn(hash, p.parents) && AllIn(hash, p.firsts) && AllIn(hash, p.heads)
      && AllListed(hash, p.siblings)
  }

  /** The fields of the articles that valid_article does not touch, with the pointers. */
  ghost predicate CellsFrom(hash: map<MsgId, Article>, cells: map<MsgId, Cell>, p: Pointers)
    requires Whole(hash, p)
    reads hash.Values`date, hash.Values`fake, hash.Values`threaded, hash.Values`subj
  {
    && cells.Keys == hash.Keys
    && forall x | x in hash :: cells[x] ==
         Cell(hash[x].date, hash[x].fake, hash[x].threaded, NameOf(hash[x].subj), IdOf(p.parents[x]), IdOf(p.firsts[x]),
              SiblingIn(hash, x, p.siblings[x]))
  }

  lemma PointersWhole(t: Threads)
    requires t.Tidy()
    ensures Whole(t.hash, PointersOf(t))
  {
    assert HashNamed(t.hash);
    assert AllIn(t.hash, Parents(t));
    assert AllIn(t.hash, Firsts(t));
    assert AllIn(t.hash, Heads(t));
    assert AllListed(t.hash, Siblings(t));
  }

  lemma PointersBefore(t: Threads)
    requires Whole(t.hash, PointersOf(t))
    ensures CellsFrom(t.hash, t.Cells(), PointersOf(t))
  {
  }

  /** The pointers to the fake are led to `article`. */
  ghost predicate AllLed(f: Forest, p: Pointers, q: Pointers, fake: Article, article: Article) {
    && Led(p.parents, q.parents, fake, article) && Led(p.firsts, q.firsts, fake, article)
      && Led(p.heads, q.heads, fake, article)
    && LedIfListed(f, p.siblings, q.siblings, fake, article)
  }

  /** `article` has taken over the pointers of the fake, and no sibling link led to it before. */
  ghost predicate TookOver(hash: map<MsgId, Article>, p: Pointers, fake: Article, article: Article) {
    var m := fake.msgid;
    && article.msgid == m && m in hash && hash[m] == fake && article != fake
    && m in p.parents && m in p.firsts && p.parents[m] != fake && p.firsts[m] != fake
    && forall x | x in p.siblings :: p.siblings[x] != article
  }

  /** All pointers with the real article in the table. */
  ghost function Finally(p: Pointers, q: Pointers, m: MsgId): Pointers
    requires m in p.parents && m in p.firsts && m in p.siblings
  {
    q.(parents := q.parents[m := p.parents[m]], firsts := q.firsts[m := p.firsts[m]],
      siblings := q.siblings[m := p.siblings[m]])
  }

  ghost predicate SameIds<K(!new)>(p: map<K, Article?>, q: map<K, Article?>) {
    p.Keys == q.Keys && forall k | k in p :: IdOf(p[k]) == IdOf(q[k])
  }

  lemma LedIn<K(!new)>(hash: map<MsgId, Article>, was: map<K, Article?>, now: map<K, Article?>, fake: Article,
      article: Article)
    requires Led(was, now, fake, article) && AllIn(hash, was) && In(hash, fake) && fake.msgid == article.msgid
    ensures AllIn(hash[fake.msgid := article], now) && SameIds(was, now)
  {
  }

  lemma OwnIn(hash: map<MsgId, Article>, was: map<MsgId, Article?>, now: map<MsgId, Article?>, fake: Article,
      article: Article)
    requires AllIn(hash[fake.msgid := article], now) && AllIn(hash, was) && In(hash, fake)
      && fake.msgid == article.msgid && SameIds(was, now)
    requires fake.msgid in was && was[fake.msgid] != fake
    ensures AllIn(hash[fake.msgid := article], now[fake.msgid := was[fake.msgid]])
      && SameIds(was, now[fake.msgid := was[fake.msgid]])
  {
  }

  lemma LedListed(f: Forest, hash: map<MsgId, Article>, was: map<MsgId, Article?>, now: map<MsgId, Article?>,
      fake: Article, article: Article)
    requires LedIfListed(f, was, now, fake, article) && AllListed(hash, was) && fake.msgid in hash
      && fake.msgid == article.msgid && fake.msgid in was
    ensures AllListed(hash[fake.msgid := article], now[fake.msgid := was[fake.msgid]]) && now.Keys == was.Keys
  {
  }

  lemma FinallyWhole(f: Forest, hash: map<MsgId, Article>, p: Pointers, q: Pointers, fake: Article, article: Article)
    requires Whole(hash, p) && AllLed(f, p, q, fake, article) && TookOver(hash, p, fake, article)
    ensures Whole(hash[fake.msgid := article], Finally(p, q, fake.msgid))
    ensures var r := Finally(p, q, fake.msgid);
      SameIds(p.parents, r.parents) && SameIds(p.firsts, r.firsts) && SameIds(p.heads, r.heads)
  {
    assert In(hash, fake);
    assert HashNamed(hash[fake.msgid := article]);
    hide Led, LedIfListed, In, AllIn, AllListed, HashNamed;
    LedIn(hash, p.parents, q.parents, fake, article);
    OwnIn(hash, p.parents, q.parents, fake, article);
    LedIn(hash, p.firsts, q.firsts, fake, article);
    OwnIn(hash, p.firsts, q.firsts, fake, article);
    LedIn(hash, p.heads, q.heads, fake, article);
    LedListed(f, hash, p.siblings, q.siblings, fake, article);
    IdKeys(p.parents, Finally(p, q, fake.msgid).parents);
    IdKeys(p.firsts, Finally(p, q, fake.msgid).firsts);
    hide SameIds;
  }

  lemma IdKeys<K(!new)>(p: map<K, Article?>, q: map<K, Article?>)
    requires SameIds(p, q)
    ensures p.Keys == q.Keys
  {
  }

  /** Sibling links of listed articles say what they said. */
  lemma SiblingSays(f: Forest, hash: map<MsgId, Article>, p: Pointers, q: Pointers, fake: Article, article: Article,
      x: MsgId)
    requires Whole(hash, p) && LedIfListed(f, p.siblings, q.siblings, fake, article) && TookOver(hash, p, fake, article)
    requires x in hash && !Free(f, x)
    ensures x in q.siblings && SiblingIn(hash[fake.msgid := article], x, q.siblings[x]) ==
      SiblingIn(hash, x, p.siblings[x])
  {
    hide Free;
  }

  lemma FinallySiblings(f: Forest, hash: map<MsgId, Article>, p: Pointers, q: Pointers, fake: Article,
      article: Article, x: MsgId)
    requires Whole(hash, p) && AllLed(f, p, q, fake, article) && TookOver(hash, p, fake, article)
    requires Free(f, fake.msgid) || p.siblings[fake.msgid] != fake
    requires x in hash && !Free(f, x)
    ensures x in Finally(p, q, fake.msgid).siblings
    ensures SiblingIn(hash[fake.msgid := article], x, Finally(p, q, fake.msgid).siblings[x]) ==
      SiblingIn(hash, x, p.siblings[x])
  {
    hide Free, Led, LedIfListed;
    if x != fake.msgid { SiblingSays(f, hash, p, q, fake, article, x); }
  }

  /** The cells after the change, but for the data of the real article. */
  lemma FinallyCells(f: Forest, hash: map<MsgId, Article>, cells: map<MsgId, Cell>, cells': map<MsgId, Cell>,
      p: Pointers, q: Pointers,
                     fake: Article, article: Article)
    requires Whole(hash, p) && AllLed(f, p, q, fake, article) && TookOver(hash, p, fake, article)
    requires Free(f, fake.msgid) || p.siblings[fake.msgid] != fake
    requires CellsFrom(hash, cells, p)
    requires Whole(hash[fake.msgid := article], Finally(p, q, fake.msgid))
      && CellsFrom(hash[fake.msgid := article], cells', Finally(p, q, fake.msgid))
    ensures var m := fake.msgid;
      && cells'.Keys == cells.Keys && m in cells
      && (forall x | x in cells && x != m :: cells'[x].(sibling := None) == cells[x].(sibling := None))
      && (forall x | x in cells && !Free(f, x) :: cells'[x].sibling == cells[x].sibling)
      && cells'[m].parent == cells[m].parent && cells'[m].child1 == cells[m].child1
  {
    hide Free, Led, LedIfListed, In, AllIn, AllListed, HashNamed, AllLed, SiblingIn, TookOver, Finally, At;
    FinallyWhole(f, hash, p, q, fake, article);
    forall x | x in cells && !Free(f, x) ensures cells'[x].sibling == cells[x].sibling {
      FinallySiblings(f, hash, p, q, fake, article, x);
    }
  }

  // ----- valid_article

  /** Sibling links of articles in no list say nothing. */
  lemma LooseSiblings(st: Store, cells: map<MsgId, Cell>, f: Forest)
    requires Represents(st, f) && cells.Keys == st.cells.Keys
    requires forall x | x in cells :: cells[x].(sibling := None) == st.cells[x].(sibling := None)
    requires forall x | x in cells && !Free(f, x) :: cells[x].sibling == st.cells[x].sibling
    ensures Represents(st.(cells := cells), f)
  {
    hide First, Next;
    forall x | x in cells ensures Shows(cells[x], At(f, x)) {
      ShownBut(st.cells[x], cells[x], false, [], At(f, x), At(f, x));
    }
    forall p ensures Linked(cells, Kids(f, p)) { StillLinked(st.cells, cells, Kids(f, p)); }
    forall k ensures Linked(cells, Roots(f, k)) { StillLinked(st.cells, cells, Roots(f, k)); }
  }

  /** The cells of the fake's article change in the data that the real article brings. */
  lemma EnterShows(st: Store, cells: map<MsgId, Cell>, f: Forest, m: MsgId, d: int, s: SubjName)
    requires Represents(st, f) && cells.Keys == st.cells.Keys && m in cells && !Threaded(f, m)
    requires forall x | x in cells && x != m :: cells[x].(sibling := None) == st.cells[x].(sibling := None)
    requires forall x | x in cells && !Free(f, x) :: cells[x].sibling == st.cells[x].sibling
    requires cells[m].(sibling := None) == st.cells[m].(sibling := None, date := d, fake := false, subj := Some(s))
    ensures Represents(st.(cells := cells), Enter(f, m, d, s)) && Enter(f, m, d, s).thread == f.thread
  {
    hide Represents, Free;
    var cells2 := cells[m := st.cells[m].(sibling := cells[m].sibling)];
    assert Shows(st.cells[m], At(f, m)) by { CellShows(st, f, m); }
    LooseSiblings(st, cells2, f);
    CellFields(cells[m], st.cells[m], d, s);
    FieldShows(st.(cells := cells2), f, m, cells[m], At(f, m).(date := d, fake := false, subj := Some(s)));
    assert cells2[m := cells[m]] == cells;
  }

  lemma CellShows(st: Store, f: Forest, m: MsgId)
    requires Represents(st, f) && m in st.cells
    ensures Shows(st.cells[m], At(f, m))
  {
  }

  lemma CellFields(c: Cell, was: Cell, d: int, s: SubjName)
    requires c.(sibling := None) == was.(sibling := None, date := d, fake := false, subj := Some(s))
    ensures c.date == d && !c.fake && c.subj == Some(s) && c.threaded == was.threaded && c.parent == was.parent
      && c.child1 == was.child1
  {
    var b := c.(sibling := None);
    assert b.date == c.date && b.fake == c.fake && b.subj == c.subj && b.threaded == c.threaded && b.parent == c.parent
      && b.child1 == c.child1;
  }

  lemma SameTops(p: Pointers, q: Pointers, tops: map<SubjName, Option<MsgId>>, tops': map<SubjName, Option<MsgId>>)
    requires SameIds(p.heads, q.heads) && tops.Keys == p.heads.Keys && tops'.Keys == q.heads.Keys
    requires forall s | s in tops :: tops[s] == IdOf(p.heads[s])
    requires forall s | s in tops' :: tops'[s] == IdOf(q.heads[s])
    ensures tops' == tops
  {
  }

  lemma NotOwnChild(f: Forest, m: MsgId)
    requires WellFormed(f)
    ensures Parent(f, m) != Some(m) && m !in Kids(f, m)
  {
    if m in Kids(f, m) || Parent(f, m) == Some(m) {
      assert Parent(f, m) == Some(m);
      UpMeans(f);
      GroundedStep(Up(f), m);
      assert false;
    }
  }

  ghost predicate ChainedBy(hash: map<MsgId, Article>, sibs: map<MsgId, Article?>, list: seq<MsgId>) {
    forall i | 0 <= i < |list| ::
      list[i] in hash && list[i] in sibs && sibs[list[i]] == if i + 1 < |list| && list[i + 1] in hash
        then hash[list[i + 1]] else null
  }

  lemma ChainMaps(t: Threads, list: seq<MsgId>)
    requires Named(t)
    ensures Chained(t, list) <==> ChainedBy(t.hash, Siblings(t), list)
  {
    if Chained(t, list) {
      forall i | 0 <= i < |list| ensures list[i] in t.hash
        && t.hash[list[i]].sibling == ArticleAt(t, list, i + 1) { assert ChainedAt(t, list, i); }
    }
    if ChainedBy(t.hash, Siblings(t), list) {
      forall i | 0 <= i < |list| ensures ChainedAt(t, list, i) {
        assert list[i] in t.hash;
      }
    }
  }

  lemma LedChain(f: Forest, hash: map<MsgId, Article>, sibs: map<MsgId, Article?>, now: map<MsgId, Article?>,
      list: seq<MsgId>,
                 fake: Article, article: Article)
    requires HashNamed(hash) && ChainedBy(hash, sibs, list) && LedIfListed(f, sibs, now, fake, article)
      && fake.msgid !in list
    ensures ChainedBy(hash, now, list)
  {
    hide Free;
  }

  /** The children of the fake, before and after the pointers to it have been led elsewhere. */
  lemma KidsChained(t: Threads, fake: Article)
    requires Standing(t, fake)
    ensures var kids := Kids(t.f, fake.msgid);
      && Distinct(kids) && fake.msgid !in kids && ChainedBy(t.hash, Siblings(t), kids)
        && fake.child1 == ArticleAt(t, kids, 0)
      && HashNamed(t.hash)
  {
    hide WellFormed;
    StandingLists(t, fake);
    ListsLinked(t, Kids(t.f, fake.msgid));
    ListChained(t, Kids(t.f, fake.msgid));
    ChainMaps(t, Kids(t.f, fake.msgid));
    NotOwnChild(t.f, fake.msgid);
    SameFirst(t, fake.child1, Kids(t.f, fake.msgid));
  }

  lemma ParentsLed(t: Threads, fake: Article, article: Article)
    requires Standing(t, fake)
    ensures Led(Parents(t), Adopted(Parents(t), Kids(t.f, fake.msgid), article), fake, article)
  {
    hide Standing, Kids;
    forall x | x in t.hash ensures x in Kids(t.f, fake.msgid) <==> t.hash[x].parent == fake {
      ParentPoints(t, fake, x);
    }
  }

  /** A real article that is not in the table and that no article there leads to. */
  ghost predicate Incoming(t: Threads, article: Article)
    reads t`hash, t`subjects, t.hash.Values`sibling, article
  {
    && article.subj != null && t.HeldSubject(article.subj) && !article.fake && !article.threaded
    && article.parent == null && article.child1 == null && article.sibling == null
    && (article.msgid in t.hash ==> t.hash[article.msgid] != article)
    && forall x | x in t.hash :: t.hash[x].sibling != article
  }

  lemma IncomingTakes(t: Threads, fake: Article, article: Article)
    requires Standing(t, fake) && Incoming(t, article) && article.msgid == fake.msgid
    ensures TookOver(t.hash, PointersOf(t), fake, article) && (Free(t.f, fake.msgid) || fake.sibling != fake)
    ensures article !in t.hash.Values
  {
    hide WellFormed, Free;
    StandingLists(t, fake);
    NotOwnChild(t.f, fake.msgid);
    FirstIn(Kids(t.f, fake.msgid));
    if !Free(t.f, fake.msgid) && fake.sibling == fake {
      SiblingPoints(t, fake, fake.msgid);
      NotTwice(t.f, fake.msgid);
    }
  }

  lemma FirstIn(list: seq<MsgId>)
    ensures First(list).Some? ==> First(list).value in list
  {
  }

  lemma NotTwice(f: Forest, m: MsgId)
    requires WellFormed(f)
    ensures !Elder(f, m, m)
  {
    assert Distinct(ListOf(f, m));
  }

  lemma WholeTidy(t: Threads)
    requires Whole(t.hash, PointersOf(t)) && SubjectsHeld(t, t.hash)
    ensures t.Tidy()
  {
    forall m | m in t.hash
      ensures t.hash[m].msgid == m && t.Held(t.hash[m].parent) && t.Held(t.hash[m].child1)
        && t.Listed(t.hash[m].sibling)
    {
      assert In(t.hash, Parents(t)[m]) && In(t.hash, Firsts(t)[m]);
      assert Siblings(t)[m] == t.hash[m].sibling;
    }
    forall s | s in t.subjects ensures t.Held(t.subjects[s].thread) { assert In(t.hash, Heads(t)[s]); }
  }

  ghost predicate SubjectsHeld(t: Threads, hash: map<MsgId, Article>)
    reads t`subjects, hash.Values`subj
  {
    (forall m | m in hash :: t.HeldSubject(hash[m].subj)) && (forall s | s in t.subjects :: t.subjects[s].name == s)
  }

  lemma TidySubjects(t: Threads)
    requires t.Tidy()
    ensures SubjectsHeld(t, t.hash)
  {
  }

  lemma OneMoreSubject(t: Threads, hash: map<MsgId, Article>, article: Article)
    requires SubjectsHeld(t, hash) && t.HeldSubject(article.subj)
    ensures SubjectsHeld(t, hash[article.msgid := article])
  {
  }

  /** The pointers of the fake copied to the article, and all pointers to the fake led to it. */
  method LeadAll(t: Threads, fake: Article, article: Article)
    requires Standing(t, fake) && t.RingsOk() && Incoming(t, article) && article.msgid == fake.msgid
      && article !in t.hash.Values
    modifies article`parent, article`child1, article`sibling, t.hash.Values`parent, t.hash.Values`child1,
      t.hash.Values`sibling, t.subjects.Values`thread
    ensures t.RingsOk() && AllLed(t.f, old(PointersOf(t)), PointersOf(t), fake, article)
    ensures Copied(old(PointersOf(t)), article)
  {
    hide Standing, Led, LedIfListed, Threads.RingsOk, ChainedBy, HashNamed, ArticleAt, Chained, Incoming, Copied,
      Adopted, Parents, Firsts, Siblings, Heads;
    ghost var kids, sibs := Kids(t.f, fake.msgid), Siblings(t);
    KidsChained(t, fake);
    StandingNamed(t, fake);
    ParentsLed(t, fake, article);
    CopyLinks(t, fake, article, PointersOf(t));
    LeadTo(t, fake, article, sibs);
    LedChain(t.f, t.hash, sibs, Siblings(t), kids, fake, article);
    ChainMaps(t, kids);
    LeadKids(t, article, kids, Parents(t));
  }

  /** The pointers of the fake copied to the article. */
  method CopyLinks(t: Threads, fake: Article, article: Article, ghost p: Pointers)
    requires article !in t.hash.Values && fake.msgid in t.hash && t.hash[fake.msgid] == fake
      && article.msgid == fake.msgid && p == PointersOf(t)
    modifies article`parent, article`child1, article`sibling
    ensures Copied(p, article) && article.child1 == fake.child1
  {
    hide Heads;
    article.parent := fake.parent;
    article.child1 := fake.child1;
    article.sibling := fake.sibling;
  }

  /** A pointer map after `article` has taken the place `m` in the table. */
  lemma PlacedIn(hash: map<MsgId, Article>, was: map<MsgId, Article?>, now: map<MsgId, Article?>, m: MsgId, a: Article?)
    requires m in hash && was.Keys == hash.Keys && now.Keys == hash.Keys && now[m] == a
    requires forall x | x in hash && x != m :: now[x] == was[x]
    ensures now == was[m := a]
  {
  }

  /** `q` has the links of the articles of `hash`. */
  ghost predicate PointersIn(hash: map<MsgId, Article>, q: Pointers)
    reads hash.Values`parent, hash.Values`child1, hash.Values`sibling
  {
    && q.parents.Keys == hash.Keys && q.firsts.Keys == hash.Keys && q.siblings.Keys == hash.Keys
    && forall x | x in hash :: q.parents[x] == hash[x].parent && q.firsts[x] == hash[x].child1
         && q.siblings[x] == hash[x].sibling
  }

  /** `article` has the pointers that the fake had. */
  ghost predicate Copied(p: Pointers, article: Article)
    reads article`parent, article`child1, article`sibling
  {
    var m := article.msgid;
    && m in p.parents && m in p.firsts && m in p.siblings
    && p.parents[m] == article.parent && p.firsts[m] == article.child1 && p.siblings[m] == article.sibling
  }

  /** All pointers, once the table has the real article. */
  lemma FinallyPointers(t: Threads, p: Pointers, q: Pointers, hash: map<MsgId, Article>, article: Article)
    requires article.msgid in hash && t.hash == hash[article.msgid := article] && Copied(p, article)
    requires PointersIn(hash, q) && q.heads == Heads(t)
    ensures PointersOf(t) == Finally(p, q, article.msgid)
  {
    hide Heads;
    var m := article.msgid;
    PlacedIn(hash, q.parents, Parents(t), m, p.parents[m]);
    PlacedIn(hash, q.firsts, Firsts(t), m, p.firsts[m]);
    PlacedIn(hash, q.siblings, Siblings(t), m, p.siblings[m]);
  }

  /** The data of the real article. */
  lemma RealCell(hash: map<MsgId, Article>, hash': map<MsgId, Article>, cells: map<MsgId, Cell>,
      cells': map<MsgId, Cell>, p: Pointers, r: Pointers,
                 m: MsgId, article: Article, fake: Article, s: SubjName)
    requires Whole(hash, p) && CellsFrom(hash, cells, p) && Whole(hash', r) && CellsFrom(hash', cells', r)
    requires m in hash && hash[m] == fake && m in hash' && hash'[m] == article
      && IdOf(r.parents[m]) == IdOf(p.parents[m]) && IdOf(r.firsts[m]) == IdOf(p.firsts[m])
    requires NameOf(article.subj) == Some(s) && !article.fake && article.threaded == fake.threaded
    ensures m in cells && m in cells'
      && cells'[m].(sibling := None) == cells[m].(sibling := None, date := article.date, fake := false, subj := Some(s))
  {
  }

  lemma PointersNow(t: Threads)
    ensures PointersIn(t.hash, PointersOf(t)) && PointersOf(t).heads == Heads(t)
  {
  }

  lemma HeadsNow(t: Threads)
    ensures HeadsOf(t.Image(), PointersOf(t))
  {
  }

  lemma TopsOf(t: Threads, st: Store, p: Pointers)
    requires SameIds(p.heads, PointersOf(t).heads) && HeadsOf(st, p)
    ensures t.Tops() == st.tops
  {
  }

  ghost predicate HeadsOf(st: Store, p: Pointers) {
    st.tops.Keys == p.heads.Keys && forall s | s in st.tops :: st.tops[s] == IdOf(p.heads[s])
  }

  /** The store before the exchange, with the pointers `p` of the articles of `hash`. */
  ghost predicate Before(st: Store, f: Forest, hash: map<MsgId, Article>, p: Pointers)
    reads hash.Values`date, hash.Values`fake, hash.Values`threaded, hash.Values`subj
  {
    Represents(st, f) && Whole(hash, p) && CellsFrom(hash, st.cells, p) && HeadsOf(st, p)
  }

  lemma BeforeNow(t: Threads)
    requires t.Tidy() && Represents(t.Image(), t.f)
    ensures Before(t.Image(), t.f, t.hash, PointersOf(t))
  {
    hide Represents, Whole, CellsFrom;
    PointersWhole(t);
    PointersBefore(t);
    HeadsNow(t);
  }

  /** After the exchange the store shows the forest with the article entered. */
  lemma AfterShows(t: Threads, st: Store, f: Forest, hash: map<MsgId, Article>, p: Pointers, q: Pointers,
      fake: Article, article: Article, s: SubjName)
    requires Before(st, f, hash, p) && AllLed(f, p, q, fake, article) && TookOver(hash, p, fake, article)
    requires fake.msgid in p.siblings && (Free(f, fake.msgid) || p.siblings[fake.msgid] != fake)
    requires t.hash == hash[fake.msgid := article] && PointersOf(t) == Finally(p, q, fake.msgid)
    requires NameOf(article.subj) == Some(s) && !article.fake && !article.threaded && !fake.threaded
    ensures Represents(t.Image(), Enter(f, fake.msgid, article.date, s)) && Whole(t.hash, PointersOf(t))
  {
    hide Represents, Whole, CellsFrom, AllLed, Finally, PointersOf, Enter, SameIds, Free, HeadsOf, Threads.Cells,
      Threads.Tops;
    FinallyWhole(f, hash, p, q, fake, article);
    PointersBefore(t);
    OwnIds(p, PointersOf(t), fake.msgid);
    RealCell(hash, t.hash, st.cells, t.Cells(), p, PointersOf(t), fake.msgid, article, fake, s);
    FinallyCells(f, hash, st.cells, t.Cells(), p, q, fake, article);
    TopsOf(t, st, p);
    NotThreaded(st, f, hash, p, fake.msgid);
    EnterShows(st, t.Cells(), f, fake.msgid, article.date, s);
    assert t.Image() == st.(cells := t.Cells());
  }

  lemma OwnIds(p: Pointers, q: Pointers, m: MsgId)
    requires SameIds(p.parents, q.parents) && SameIds(p.firsts, q.firsts) && m in p.parents && m in p.firsts
    ensures m in q.parents && m in q.firsts && IdOf(q.parents[m]) == IdOf(p.parents[m])
      && IdOf(q.firsts[m]) == IdOf(p.firsts[m])
  {
  }

  lemma NotThreaded(st: Store, f: Forest, hash: map<MsgId, Article>, p: Pointers, m: MsgId)
    requires Before(st, f, hash, p) && m in hash && !hash[m].threaded
    ensures !Threaded(f, m)
  {
    CellShows(st, f, m);
  }

  lemma OwnPointers(hash: map<MsgId, Article>, p: Pointers, a: Article)
    requires PointersIn(hash, p) && a.msgid in hash && hash[a.msgid] == a
    ensures var m := a.msgid;
      && m in p.parents && m in p.firsts && m in p.siblings
      && p.parents[m] == a.parent && p.firsts[m] == a.child1 && p.siblings[m] == a.sibling
  {
  }

  /** The article in the table. */
  method PutIn(t: Threads, article: Article, ghost p: Pointers, ghost q: Pointers)
    requires article.msgid in t.hash && Copied(p, article) && PointersIn(t.hash, q) && q.heads == Heads(t)
    modifies t`hash
    ensures t.hash == old(t.hash)[article.msgid := article] && PointersOf(t) == Finally(p, q, article.msgid)
  {
    hide Copied, PointersIn, Heads, Finally, PointersOf;
    ghost var hash := t.hash;
    t.hash := t.hash[article.msgid := article];
    FinallyPointers(t, p, q, hash, article);
  }

  /** The pointers to the fake are led to the article, which takes its place in the table. */
  method Exchange(t: Threads, article: Article, fake: Article, ghost hash: map<MsgId, Article>, ghost p: Pointers)
      returns (ghost q: Pointers)
    requires Standing(t, fake) && t.RingsOk() && Incoming(t, article) && article.msgid == fake.msgid
      && article !in t.hash.Values
    requires hash == t.hash && p == PointersOf(t) && fake.msgid in hash && hash[fake.msgid] == fake
    requires fake.msgid in p.parents && fake.msgid in p.firsts && fake.msgid in p.siblings
    modifies t`hash, article`parent, article`child1, article`sibling,
      t.hash.Values`parent, t.hash.Values`child1, t.hash.Values`sibling, t.subjects.Values`thread
    ensures t.hash == hash[fake.msgid := article] && t.RingsOk()
    ensures AllLed(t.f, p, q, fake, article) && PointersOf(t) == Finally(p, q, fake.msgid)
  {
    hide Standing, Incoming, AllLed, Finally, PointersOf, Threads.RingsOk, PointersIn, Heads, Copied, Threads.Tidy,
      Represents, WellFormed;
    LeadAll(t, fake, article);
    q := PointersOf(t);
    PointersNow(t);
    PutIn(t, article, p, q);
  }

  /** valid_article, when a fake stands for the message id. */
  method TakePlace(t: Threads, article: Article, fake: Article) returns (had: Subject?)
    requires t.Repr() && WellFormed(t.f) && Incoming(t, article) && t.Held(fake) && fake.fake
      && article.msgid == fake.msgid
    modifies t`f, t`hash, article`parent, article`child1, article`sibling,
      t.hash.Values`parent, t.hash.Values`child1, t.hash.Values`sibling, t.subjects.Values`thread
    ensures t.Repr() && t.f == Enter(old(t.f), article.msgid, article.date, IncomingName(article))
    ensures t.hash == old(t.hash)[article.msgid := article]
    ensures t.HeldSubject(had) && NameOf(had) == Subj(old(t.f), article.msgid)
  {
    hide Represents, WellFormed, Whole, CellsFrom, AllLed, TookOver, Finally, PointersOf, SubjectsHeld, Standing,
      Enter, SameIds, Free, Heads, Before,
      Threads.Tidy, Threads.RingsOk, Threads.Cells, Threads.Tops, Incoming;
    ghost var f, st, hash, p, s := t.f, t.Image(), t.hash, PointersOf(t), IncomingName(article);
    StandingNow(t, fake);
    IncomingTakes(t, fake, article);
    BeforeNow(t);
    TidySubjects(t);
    IncomingMeans(t, article);
    OwnPointers(hash, p, fake) by { PointersNow(t); }
    had := fake.subj;
    ghost var q := Exchange(t, article, fake, hash, p);
    AfterShows(t, st, f, hash, p, q, fake, article, s);
    OneMoreSubject(t, hash, article);
    WholeTidy(t);
    EnterThreads(f, article.msgid, article.date, s);
    t.Follow(Enter(f, article.msgid, article.date, s));
  }

  lemma IncomingMeans(t: Threads, article: Article)
    requires Incoming(t, article)
    ensures article.subj != null && t.HeldSubject(article.subj) && !article.fake && !article.threaded
      && NameOf(article.subj) == Some(IncomingName(article))
  {
  }

  lemma EnterThreads(f: Forest, m: MsgId, d: int, s: SubjName)
    ensures Enter(f, m, d, s).thread == f.thread
  {
  }

  ghost function IncomingName(article: Article): SubjName
    reads article
  {
    if article.subj == null then SubjName("") else article.subj.name
  }

  lemma StandingNow(t: Threads, fake: Article)
    requires t.Repr() && WellFormed(t.f) && t.Held(fake) && fake.fake
    ensures Standing(t, fake) && !fake.threaded
    ensures t.HeldSubject(fake.subj) && NameOf(fake.subj) == Subj(t.f, fake.msgid)
  {
    t.Shown(fake.msgid);
  }
}

// The articles and subjects as linked objects, and the threading code that relinks them.  Every
// method is proved to do to the objects what ThreadSpec says it does to the forest.
module ThreadHeap {
  import opened Options
  import opened ThreadSpec
  import opened ThreadLists
  import opened ThreadCells

  class Article {
    const msgid: MsgId
    var date: int
    var fake: bool
    var threaded: bool
    var subj: Subject?
    var parent: Article?
    var child1: Article?
    var sibling: Article?

    constructor (id: MsgId)
      ensures msgid == id && date == 0 && fake && !threaded
      ensures subj == null && parent == null && child1 == null && sibling == null
    {
      msgid := id;
      date, fake, threaded := 0, true, false;
      subj, parent, child1, sibling := null, null, null, null;
    }

    /** An article whose header has been read. */
    constructor Real(id: MsgId, when: int, s: Subject)
      ensures msgid == id && date == when && !fake && !threaded && subj == s
      ensures parent == null && child1 == null && sibling == null
    {
      msgid := id;
      date, fake, threaded := when, false, false;
      subj, parent, child1, sibling := s, null, null, null;
    }
  }

  class Subject {
    const name: SubjName
    var thread: Article?
    var threadLink: Subject

    constructor (s: SubjName)
      ensures name == s && thread == null && threadLink == this
    {
      name := s;
      thread, threadLink := null, this;
    }
  }

  // ----- Circles of subjects

  ghost function After(ring: seq<Subject>, i: int): Subject
    requires 0 <= i < |ring|
  {
    if i + 1 < |ring| then ring[i + 1] else ring[0]
  }

  ghost predicate Circle(ring: seq<Subject>)
    reads set t | t in ring
  {
    && ring != [] && Distinct(ring)
    && forall i | 0 <= i < |ring| :: ring[i].threadLink == After(ring, i)
  }

  ghost function Rotated(ring: seq<Subject>, j: nat): seq<Subject>
    requires j < |ring|
  {
    ring[j..] + ring[..j]
  }

  lemma RotatedCircle(ring: seq<Subject>, j: nat)
    requires j < |ring| && Circle(ring)
    ensures Circle(Rotated(ring, j)) && Rotated(ring, j)[0] == ring[j]
    ensures forall t :: t in Rotated(ring, j) <==> t in ring
  {
    var r := Rotated(ring, j);
    assert forall i | 0 <= i < |r| :: r[i] == ring[if i + j < |ring| then i + j else i + j - |ring|];
    assert forall i | 0 <= i < |r| :: After(r, i) == After(ring, if i + j < |ring| then i + j else i + j - |ring|);
    forall t ensures t in r <==> t in ring {
      assert ring == ring[..j] + ring[j..];
    }
  }

  /** Two circles become one when their last subjects swap links. */
  method JoinCircles(s1: Subject, s2: Subject, ghost r1: seq<Subject>, ghost r2: seq<Subject>)
    requires Circle(r1) && Circle(r2) && r1[|r1| - 1] == s1 && r2[|r2| - 1] == s2
    requires forall t | t in r1 :: t !in r2
    modifies s1`threadLink, s2`threadLink
    ensures Circle(r1 + r2)
  {
    assert s1 in r1 && s2 in r2;
    assert s1.threadLink == After(r1, |r1| - 1) && s2.threadLink == After(r2, |r2| - 1);
    var sp := s2.threadLink;
    s2.threadLink := s1.threadLink;
    s1.threadLink := sp;
    var r := r1 + r2;
    assert Distinct(r) by {
      forall i, j | 0 <= i < j < |r| ensures r[i] != r[j] {
        if i < |r1| <= j { assert r1[i] in r1 && r2[j - |r1|] in r2; }
      }
    }
    forall i | 0 <= i < |r| ensures r[i].threadLink == After(r, i) {
      if i < |r1| - 1 {
        assert r1[i] in r1 && r1[i] != s1 && r1[i] != s2;
        assert old(r1[i].threadLink) == After(r1, i);
      } else if |r1| <= i < |r| - 1 {
        assert r2[i - |r1|] in r2 && r2[i - |r1|] != s2 && r2[i - |r1|] != s1;
        assert old(r2[i - |r1|].threadLink) == After(r2, i - |r1|);
      }
    }
  }

  /** Points the `thread` of every subject in the circle of `s` at `a`. */
  method PointRing(s: Subject, a: Article?, ghost ring: seq<Subject>)
    requires Circle(ring) && ring[0] == s
    modifies (set t | t in ring)`thread
    ensures forall t | t in ring :: t.thread == a
  {
    var sp := s;
    sp.thread := a;
    assert Circle(ring) && sp == ring[0];
    sp := sp.threadLink;
    ghost var i := 1;
    while sp != s
      invariant Circle(ring)
      invariant 1 <= i <= |ring|
      invariant sp == if i < |ring| then ring[i] else s
      invariant forall q: nat | q < i :: ring[q].thread == a
      decreases |ring| - i
    {
      sp.thread := a;
      sp := sp.threadLink;
      i := i + 1;
    }
  }

  ghost function IdOf(a: Article?): Option<MsgId> {
    if a == null then None else Some(a.msgid)
  }

  ghost function NameOf(s: Subject?): Option<SubjName> {
    if s == null then None else Some(s.name)
  }

  class Threads {
    var hash: map<MsgId, Article>
    var subjects: map<SubjName, Subject>
    ghost var f: Forest
    // For each thread, its subjects in the order of their `threadLink`s.
    ghost var rings: map<SubjName, seq<Subject>>

    constructor ()
      ensures Repr() && f == EMPTY && hash == map[] && subjects == map[]
    {
      hash, subjects := map[], map[];
      f, rings := EMPTY, map[];
    }

    // ----- How the objects represent the forest

    ghost predicate Held(a: Article?)
      reads this`hash
    {
      a != null ==> a.msgid in hash && hash[a.msgid] == a
    }

    ghost predicate HeldSubject(s: Subject?)
      reads this`subjects
    {
      s != null ==> s.name in subjects && subjects[s.name] == s
    }

    /** What the sibling link of an article says.  A link to an object that another has replaced in the
        table reads as a link of the article to itself, which no list has. */
    ghost function SiblingId(a: Article): Option<MsgId>
      reads this`hash, a`sibling
    {
      if a.sibling == null then None else if Held(a.sibling) then Some(a.sibling.msgid) else Some(a.msgid)
    }

    /** The fields of an article, with keys for pointers. */
    ghost function CellOf(a: Article): Cell
      reads this`hash, a
    {
      Cell(a.date, a.fake, a.threaded, NameOf(a.subj), IdOf(a.parent), IdOf(a.child1), SiblingId(a))
    }

    ghost predicate Listed(a: Article?)
      reads this`hash
    {
      a != null ==> a.msgid in hash
    }

    /** All pointers, except for sibling links that are out of use, lead to objects of the two tables. */
    ghost predicate Tidy()
      reads this`hash, this`subjects, hash.Values, subjects.Values
    {
      && (forall m | m in hash :: hash[m].msgid == m && Held(hash[m].parent) && Held(hash[m].child1) &&
            Listed(hash[m].sibling) && HeldSubject(hash[m].subj))
      && (forall s | s in subjects :: subjects[s].name == s && Held(subjects[s].thread))
    }

    ghost function Cells(): map<MsgId, Cell>
      reads this`hash, hash.Values
    {
      map m | m in hash :: CellOf(hash[m])
    }

    ghost function Tops(): map<SubjName, Option<MsgId>>
      reads this`subjects, subjects.Values
    {
      map s | s in subjects :: IdOf(subjects[s].thread)
    }

    ghost function Image(): Store
      reads this`hash, this`subjects, hash.Values, subjects.Values
    {
      Store(Cells(), Tops())
    }

    /** The `threadLink`s of a thread's subjects form one circle. */
    ghost predicate RingOk(k: SubjName)
      reads this`subjects, this`rings, this`f, subjects.Values
    {
      && k in rings && (forall t | t in rings[k] :: t.name in subjects && subjects[t.name] == t)
      && Circle(rings[k])
      && (forall s | s in subjects :: ThreadOf(f, s) == k <==> subjects[s] in rings[k])
    }

    ghost predicate RingsOk()
      reads this`subjects, this`rings, this`f, subjects.Values
    {
      forall s | s in subjects :: RingOk(ThreadOf(f, s))
    }

    ghost predicate Repr()
      reads this, hash.Values, subjects.Values
    {
      Tidy() && Represents(Image(), f) && RingsOk()
    }

    // ----- link_child

    /** The siblings of `list` are linked, and dated as in the forest. */
    ghost predicate Dated(list: seq<MsgId>)
      reads this, hash.Values
    {
      Linked(Cells(), list) && forall m | m in list :: Cells()[m].date == Date(f, m)
    }

    /** The last of the siblings from `first` on that are dated no later than `date`. */
    method LastNotLater(date: int, first: Article, ghost list: seq<MsgId>) returns (ap: Article)
      requires Tidy() && list != [] && Dated(list) && Distinct(list) && Held(first) && first.msgid == list[0]
      ensures Held(ap) && Held(ap.sibling) && ap.msgid == list[ScanPast(f, list, date, 0)]
      ensures Cells() == old(Cells()) && Tops() == old(Tops())
    {
      ap := first;
      ghost var j := 0;
      NextOf(ap, list, j);
      while ap.sibling != null && ap.sibling.date <= date
        invariant j < |list| && Held(ap) && ap.msgid == list[j]
        invariant Held(ap.sibling) && IdOf(ap.sibling) == Next(list, j)
        invariant ScanPast(f, list, date, j) == ScanPast(f, list, date, 0)
        decreases |list| - j
      {
        ap := ap.sibling;
        j := j + 1;
        NextOf(ap, list, j);
      }
    }

    /** The sibling link of an article in a list. */
    lemma NextOf(a: Article, list: seq<MsgId>, j: nat)
      requires Linked(Cells(), list) && Distinct(list) && j < |list| && Held(a) && a.msgid == list[j]
      ensures Held(a.sibling) && IdOf(a.sibling) == Next(list, j)
    {
      assert Cells()[list[j]].sibling == Next(list, j);
    }

    // ----- Single writes, seen through the image

    twostate predicate OnlyArticle(c: Article)
      reads this, hash.Values, subjects.Values
    {
      && hash == old(hash) && subjects == old(subjects) && f == old(f) && rings == old(rings)
      && (forall m | m in hash && hash[m] != c :: unchanged(hash[m]))
      && (forall s | s in subjects :: unchanged(subjects[s]))
    }

    twostate lemma Wrote(c: Article)
      requires old(Tidy()) && old(RingsOk()) && OnlyArticle(c) && Held(c)
      requires Listed(c.sibling) && Held(c.child1) && Held(c.parent) && HeldSubject(c.subj)
      ensures Tidy() && RingsOk() && Tops() == old(Tops())
      ensures Cells() == old(Cells())[c.msgid := CellOf(c)]
    {
      hide Tops;
      RingsKept();
    }

    twostate lemma WroteSibling(c: Article)
      requires old(Tidy()) && old(RingsOk()) && OnlyArticle(c) && Held(c) && Held(c.sibling)
      requires unchanged(c`date, c`fake, c`threaded, c`subj, c`parent, c`child1)
      ensures Tidy() && RingsOk() && Tops() == old(Tops()) && c.msgid in old(Cells())
      ensures Cells() == old(Cells())[c.msgid := old(Cells())[c.msgid].(sibling := IdOf(c.sibling))]
    {
      Wrote(c);
    }

    twostate lemma WroteChild1(c: Article)
      requires old(Tidy()) && old(RingsOk()) && OnlyArticle(c) && Held(c) && Held(c.child1)
      requires unchanged(c`date, c`fake, c`threaded, c`subj, c`parent, c`sibling)
      ensures Tidy() && RingsOk() && Tops() == old(Tops()) && c.msgid in old(Cells())
      ensures Cells() == old(Cells())[c.msgid := old(Cells())[c.msgid].(child1 := IdOf(c.child1))]
    {
      Wrote(c);
    }

    /** The circle that `s` is in, starting with it. */
    ghost method CircleOf(s: Subject) returns (ring: seq<Subject>)
      requires RingsOk() && HeldSubject(s)
      ensures Circle(ring) && ring[0] == s
      ensures forall t | t in ring :: t.name in subjects && subjects[t.name] == t
      ensures forall t | t in subjects :: ThreadOf(f, t) == ThreadOf(f, s.name) <==> subjects[t] in ring
    {
      var k := ThreadOf(f, s.name);
      assert RingOk(k);
      var j :| 0 <= j < |rings[k]| && rings[k][j] == s;
      RotatedCircle(rings[k], j);
      ring := Rotated(rings[k], j);
    }

    twostate lemma RingsKept()
      requires old(RingsOk()) && subjects == old(subjects) && rings == old(rings) && f.thread == old(f).thread
      requires forall s | s in subjects :: subjects[s].threadLink == old(subjects[s].threadLink)
      ensures RingsOk()
    {
      forall s | s in subjects ensures RingOk(ThreadOf(f, s)) {
        var k := ThreadOf(f, s);
        assert old(RingOk(k));
        assert forall t | t in rings[k] :: t.threadLink == old(t.threadLink);
      }
    }

    twostate lemma CellsKept()
      requires hash == old(hash) && forall m | m in hash :: unchanged(hash[m])
      ensures Cells() == old(Cells())
    {
    }

    lemma TopsNow(was: map<SubjName, Option<MsgId>>, k: SubjName, a: Option<MsgId>)
      requires was.Keys == subjects.Keys
      requires forall t | t in subjects :: IdOf(subjects[t].thread) == if ThreadOf(f, t) == k then a else was[t]
      ensures TopsMoved(f, was, Tops(), k, a)
    {
    }

    twostate lemma TopsTidy(a: Article?)
      requires old(Tidy()) && hash == old(hash) && subjects == old(subjects) && Held(a)
      requires forall m | m in hash :: unchanged(hash[m])
      requires forall t | t in subjects :: subjects[t].thread == a || subjects[t].thread == old(subjects[t].thread)
      ensures Tidy()
    {
      forall m | m in hash ensures hash[m].msgid == m && Held(hash[m].parent) && Held(hash[m].child1)
      ensures Listed(hash[m].sibling) && HeldSubject(hash[m].subj) {
        assert unchanged(hash[m]);
      }
    }

    /** Points the `thread` of all subjects of the thread of `s` at `a`. */
    method PointThread(s: Subject, a: Article?)
      requires Tidy() && RingsOk() && HeldSubject(s)
      modifies subjects.Values`thread
      ensures forall t | t in subjects ::
                subjects[t].thread == if ThreadOf(f, t) == ThreadOf(f, s.name) then a else old(subjects[t].thread)
      ensures RingsOk() && Cells() == old(Cells())
    {
      ghost var ring := CircleOf(s);
      PointRing(s, a, ring);
      RingsKept();
      CellsKept();
    }

    /** The same, seen through the image. */
    method SetThread(s: Subject, a: Article?)
      requires Tidy() && RingsOk() && HeldSubject(s) && Held(a)
      modifies subjects.Values`thread
      ensures Tidy() && RingsOk() && Cells() == old(Cells())
      ensures TopsMoved(f, old(Tops()), Tops(), ThreadOf(f, s.name), IdOf(a))
    {
      ghost var was := Tops();
      PointThread(s, a);
      TopsTidy(a);
      TopsNow(was, ThreadOf(f, s.name), IdOf(a));
    }

    lemma FirstDate(ap: Article?, list: seq<MsgId>)
      requires Dated(list) && Held(ap) && IdOf(ap) == First(list)
      ensures ap == null <==> list == []
      ensures ap != null ==> ap.msgid == list[0] && Held(ap) && ap.date == Date(f, list[0])
    {
      assert ap != null ==> Cells()[list[0]].date == ap.date;
    }

    /** Puts `child` behind its new elder sibling. */
    method PutBehind(child: Article, elder: Article)
      requires Tidy() && RingsOk() && Held(child) && Held(elder) && Held(elder.sibling) && child != elder
      modifies hash.Values`sibling
      ensures Tidy() && RingsOk() && Tops() == old(Tops())
      ensures child.msgid in old(Cells()) && elder.msgid in old(Cells())
      ensures Cells() == SpliceCells(old(Cells()), child.msgid, elder.msgid)
    {
      child.sibling := elder.sibling;
      WroteSibling(child);
      label before:
      elder.sibling := child;
      WroteSibling@before(elder);
    }

    /** Puts `child` in front of the children of its parent. */
    method PutFirstKid(child: Article, parent: Article)
      requires Tidy() && RingsOk() && Held(child) && Held(parent) && child != parent
      modifies hash.Values`sibling, hash.Values`child1
      ensures Tidy() && RingsOk() && Tops() == old(Tops())
      ensures child.msgid in old(Cells()) && parent.msgid in old(Cells())
      ensures var cells := old(Cells())[child.msgid :=
                old(Cells())[child.msgid].(sibling := old(Cells())[parent.msgid].child1)];
              Cells() == cells[parent.msgid := cells[parent.msgid].(child1 := Some(child.msgid))]
    {
      child.sibling := parent.child1;
      WroteSibling(child);
      label before:
      parent.child1 := child;
      WroteChild1@before(parent);
    }

    /** Links a child of `parent` into the list of its siblings. */
    method LinkKid(child: Article, parent: Article, ghost list: seq<MsgId>)
      requires Tidy() && RingsOk() && Held(child) && Held(parent) && child != parent
      requires Dated(list) && Distinct(list) && IdOf(parent.child1) == First(list)
        && child.date == Date(f, child.msgid) && child.msgid !in list
      modifies hash.Values`sibling, hash.Values`child1
      ensures Tidy() && RingsOk() && Tops() == old(Tops())
      ensures Cells() == LinkedKid(f, old(Cells()), child.msgid, parent.msgid, list)
    {
      var ap := parent.child1;
      FirstDate(ap, list);
      if ap == null || child.date < ap.date {
        assert Foremost(f, child.msgid, list);
        PutFirstKid(child, parent);
      } else {
        assert !Foremost(f, child.msgid, list);
        ap := LastNotLater(child.date, ap, list);
        PutBehind(child, ap);
      }
    }

    /** Puts `child` in front of the roots of the thread of `sp`. */
    method PutFirstRoot(child: Article, sp: Subject)
      requires Tidy() && RingsOk() && Held(child) && HeldSubject(sp)
      modifies hash.Values`sibling, subjects.Values`thread
      ensures Tidy() && RingsOk() && child.msgid in old(Cells())
      ensures Cells() == old(Cells())[child.msgid := old(Cells())[child.msgid].(sibling := old(IdOf(sp.thread)))]
      ensures TopsMoved(f, old(Tops()), Tops(), ThreadOf(f, sp.name), Some(child.msgid))
    {
      hide ThreadOf, Tops, TopsMoved;
      var ap := sp.thread;
      SetThread(sp, child);
      label before:
      child.sibling := ap;
      WroteSibling@before(child);
    }

    // ----- unlink_child

    /** The sibling in front of `child`. */
    method ElderOf(child: Article, first: Article, ghost list: seq<MsgId>, ghost j: nat) returns (last: Article?)
      requires Tidy() && Held(child) && Held(first)
      requires Linked(Cells(), list) && Distinct(list) && j + 1 < |list| && list[j + 1] == child.msgid
        && list[0] == first.msgid
      ensures last != null && Held(last) && last.msgid == list[j]
      ensures Cells() == old(Cells()) && Tops() == old(Tops())
    {
      hide Linked, Tops;
      last := first;
      ghost var i := 0;
      NextOf(last, list, i);
      while last != null && last.sibling != child
        invariant i <= j && last != null && Held(last) && last.msgid == list[i]
        invariant Held(last.sibling) && IdOf(last.sibling) == Next(list, i)
        decreases j - i
      {
        last := last.sibling;
        i := i + 1;
        NextOf(last, list, i);
      }
    }

    /** Takes `child`, which is not the first of its siblings, out of their list. */
    method SearchOut(child: Article, first: Article, ghost list: seq<MsgId>, ghost j: nat)
      requires Tidy() && RingsOk() && Held(child) && Held(first)
      requires Linked(Cells(), list) && Distinct(list) && j + 1 < |list| && list[j + 1] == child.msgid
        && list[0] == first.msgid
      modifies hash.Values`sibling
      ensures Tidy() && RingsOk() && Tops() == old(Tops())
      ensures child.msgid in old(Cells()) && list[j] in old(Cells())
      ensures Cells() == SkipCells(old(Cells()), list[j], child.msgid)
    {
      hide Distinct, Tops, Next, Linked;
      var last := ElderOf(child, first, list, j);
      NextOf(child, list, j + 1);
      if last != null {
        label before:
        last.sibling := child.sibling;
        WroteSibling@before(last);
      }
    }

    method UnlinkFirstKid(child: Article, parent: Article)
      requires Tidy() && RingsOk() && Held(child) && Held(parent) && Held(child.sibling)
      modifies hash.Values`child1
      ensures Tidy() && RingsOk() && Tops() == old(Tops()) && child.msgid in old(Cells())
        && parent.msgid in old(Cells())
      ensures Cells() == old(Cells())[parent.msgid :=
                old(Cells())[parent.msgid].(child1 := old(Cells())[child.msgid].sibling)]
    {
      parent.child1 := child.sibling;
      WroteChild1(parent);
    }

    // ----- The operations on the forest

    /** The object of a represented article. */
    lemma Shown(m: MsgId)
      requires Tidy() && Represents(Image(), f) && (m in f.nodes || m in hash)
      ensures m in f.nodes && m in hash && hash[m].msgid == m && Held(hash[m])
      ensures hash[m].date == Date(f, m) && hash[m].fake == Fake(f, m) && hash[m].threaded == Threaded(f, m)
      ensures IdOf(hash[m].parent) == Parent(f, m) && NameOf(hash[m].subj) == Subj(f, m)
        && IdOf(hash[m].child1) == First(Kids(f, m))
      ensures Held(hash[m].parent) && Held(hash[m].child1) && HeldSubject(hash[m].subj)
    {
      assert m in Cells();
      assert Shows(Cells()[m], At(f, m));
    }

    /** The subject of a thread points at its first root. */
    lemma ShownTop(s: Subject)
      requires Tidy() && Represents(Image(), f) && HeldSubject(s)
      ensures s.name in f.thread && IdOf(s.thread) == First(Roots(f, ThreadOf(f, s.name))) && Held(s.thread)
    {
      assert s.name in Tops();
    }

    lemma ShownList(list: seq<MsgId>)
      requires Tidy() && Represents(Image(), f) && Linked(Cells(), list)
      ensures Dated(list) && forall m | m in list :: m in hash
    {
      forall m | m in list ensures m in hash && Cells()[m].date == Date(f, m) {
        assert m in Cells();
        assert Shows(Cells()[m], At(f, m));
      }
    }

    lemma ShownRoots(k: SubjName)
      requires Tidy() && Represents(Image(), f) && Lists(f)
      ensures Dated(Roots(f, k)) && Linked(Cells(), Roots(f, k)) && Distinct(Roots(f, k))
      ensures forall m | m in Roots(f, k) :: m in hash
      ensures forall x | Free(f, x) :: x !in Roots(f, k)
    {
      ShownList(Roots(f, k));
    }

    lemma ShownKids(p: MsgId)
      requires Tidy() && Represents(Image(), f) && Lists(f)
      ensures Dated(Kids(f, p)) && Linked(Cells(), Kids(f, p)) && Distinct(Kids(f, p))
      ensures forall m | m in Kids(f, p) :: m in hash
      ensures forall x | Free(f, x) :: x !in Kids(f, p)
    {
      ShownList(Kids(f, p));
    }

    /** Relinks a child of a parent. */
    method RelinkKid(child: Article)
      requires Repr() && Lists(f) && Held(child) && Free(f, child.msgid)
      requires child.parent != null && child.parent != child
      modifies hash.Values`sibling, hash.Values`child1
      ensures Tidy() && RingsOk() && Tops() == old(Tops())
      ensures child.msgid in old(Cells()) && old(child.parent).msgid in old(Cells())
      ensures forall m | m in Kids(f, old(child.parent).msgid) :: m in old(Cells())
      ensures Cells() == LinkedKid(f, old(Cells()), child.msgid, old(child.parent).msgid,
        Kids(f, old(child.parent).msgid))
    {
      ghost var c := child.msgid;
      Shown(c);
      ghost var p := child.parent.msgid;
      Shown(p);
      ShownKids(p);
      LinkKid(child, child.parent, Kids(f, p));
    }

    /** The ghost forest follows the pointers. */
    ghost method Follow(g: Forest)
      requires Tidy() && RingsOk() && g.thread == f.thread
      modifies this`f
      ensures f == g && Tidy() && RingsOk() && Image() == old(Image())
    {
      f := g;
      RingsKept();
    }

    method LinkUnderParent(child: Article)
      requires Repr() && Lists(f) && Held(child) && Free(f, child.msgid)
      requires child.parent != null && child.parent != child
      modifies this`f, hash.Values`sibling, hash.Values`child1
      ensures Repr() && f == ThreadSpec.LinkChild(old(f), child.msgid)
      ensures LinksWithin(old(Cells()), Cells(), child.msgid, ListOf(old(f), child.msgid))
    {
      hide Represents, Lists, Free, LinksWithin;
      ghost var st, c, p := Image(), child.msgid, child.parent.msgid;
      Shown(c);
      Shown(p);
      RelinkKid(child);
      LinkedKidShows(st, f, c, p);
      LinkedKidWithin(f, st.cells, c, p, Kids(f, p));
      assert Image() == st.(cells := LinkedKid(f, st.cells, c, p, Kids(f, p)));
      SameThreadMap(f, c);
      Follow(ThreadSpec.LinkChild(f, c));
    }

    /** A root that is earlier than all roots of its thread. */
    method LinkFirstRoot(child: Article, sp: Subject)
      requires Repr() && Lists(f) && Held(child) && Free(f, child.msgid) && child.parent == null && child.subj == sp
      requires Foremost(f, child.msgid, Roots(f, ThreadOf(f, sp.name)))
      modifies this`f, hash.Values`sibling, subjects.Values`thread
      ensures Repr() && f == ThreadSpec.LinkChild(old(f), child.msgid)
      ensures LinksWithin(old(Cells()), Cells(), child.msgid, Roots(old(f), ThreadOf(old(f), sp.name)))
    {
      hide Represents, Lists, Free, LinksWithin;
      ghost var st, c, k := Image(), child.msgid, ThreadOf(f, sp.name);
      Shown(c);
      ShownTop(sp);
      PutFirstRoot(child, sp);
      RootFirst(st, Tops(), f, c, k);
      SiblingWithin(st.cells, c, First(Roots(f, k)), Roots(f, k));
      assert Image() == Store(Cells(), Tops());
      SameThreadMap(f, c);
      Follow(ThreadSpec.LinkChild(f, c));
    }

    /** A root that goes behind another. */
    method LinkLaterRoot(child: Article, sp: Subject)
      requires Repr() && Lists(f) && Held(child) && Free(f, child.msgid) && child.parent == null && child.subj == sp
      requires sp.thread != null && !Foremost(f, child.msgid, Roots(f, ThreadOf(f, sp.name)))
      modifies this`f, hash.Values`sibling
      ensures Repr() && f == ThreadSpec.LinkChild(old(f), child.msgid)
      ensures LinksWithin(old(Cells()), Cells(), child.msgid, Roots(old(f), ThreadOf(old(f), sp.name)))
    {
      hide Represents, Lists, Free, LinksWithin, Subj, Parent, Kids, ThreadOf, Roots, SetRoots, ScanPast, InsertByDate,
        Drop, KidsPoint, NoRepeats, Next, AllLinked, TopsShow, SpliceCells;
      ghost var st, c, k := Image(), child.msgid, ThreadOf(f, sp.name);
      Shown(c);
      ShownTop(sp);
      ShownRoots(k);
      var ap := LastNotLater(child.date, sp.thread, Roots(f, k));
      PutBehind(child, ap);
      RootLater(st, f, c, k);
      SpliceWithin(st.cells, c, ap.msgid, Roots(f, k));
      assert Image() == st.(cells := Cells());
      SameThreadMap(f, c);
      Follow(ThreadSpec.LinkChild(f, c));
    }

    method LinkInThread(child: Article)
      requires Repr() && Lists(f) && Held(child) && Free(f, child.msgid) && child.parent == null && child.subj != null
      modifies this`f, hash.Values`sibling, subjects.Values`thread
      ensures Repr() && f == ThreadSpec.LinkChild(old(f), child.msgid)
      ensures LinksWithin(old(Cells()), Cells(), child.msgid, ListOf(old(f), child.msgid))
    {
      hide Represents, Lists, Free, LinksWithin, At, Kids, ThreadOf, Roots, First, Linked, InsertByDate, SetRoots;
      var sp := child.subj;
      var ap := sp.thread;
      Shown(child.msgid);
      ShownTop(sp);
      ShownRoots(ThreadOf(f, sp.name));
      FirstDate(ap, Roots(f, ThreadOf(f, sp.name)));
      if ap == null || child.date < ap.date { LinkFirstRoot(child, sp); } else { LinkLaterRoot(child, sp); }
    }

    /** link_child. */
    method LinkChild(child: Article)
      requires Repr() && Lists(f) && Held(child) && Free(f, child.msgid)
      requires child.parent != child && (child.parent == null ==> child.subj != null)
      modifies this`f, hash.Values`sibling, hash.Values`child1, subjects.Values`thread
      ensures Repr() && f == ThreadSpec.LinkChild(old(f), child.msgid)
      ensures LinksWithin(old(Cells()), Cells(), child.msgid, ListOf(old(f), child.msgid))
    {
      hide Represents, Lists, Free, LinksWithin;
      if child.parent == null { LinkInThread(child); } else { LinkUnderParent(child); }
    }

    // ----- unlink_child on the forest

    /** The place of `x` in a list without repeats. */
    lemma IndexOf(list: seq<MsgId>, x: MsgId) returns (j: nat)
      requires x in list
      ensures j < |list| && list[j] == x
    {
      j :| j < |list| && list[j] == x;
    }

    method UnlinkFirstOf(child: Article, parent: Article)
      requires Repr() && Lists(f) && Closed(f) && Held(child) && Placed(f, child.msgid) && child.parent == parent
      requires parent.child1 == child
      modifies this`f, hash.Values`child1
      ensures Repr() && f == ThreadSpec.UnlinkChild(old(f), child.msgid)
    {
      hide Represents, Lists, Closed;
      ghost var st, c, p := Image(), child.msgid, parent.msgid;
      Shown(c);
      Shown(p);
      ShownKids(p);
      NextOf(child, Kids(f, p), 0);
      UnlinkFirstKid(child, parent);
      KidFirstOut(st, f, c, p);
      assert Image() == st.(cells := Cells());
      SameThreadMap(f, c);
      Follow(ThreadSpec.UnlinkChild(f, c));
    }

    method UnlinkLaterOf(child: Article, parent: Article)
      requires Repr() && Lists(f) && Closed(f) && Held(child) && Placed(f, child.msgid) && child.parent == parent
      requires parent.child1 != child
      modifies this`f, hash.Values`sibling
      ensures Repr() && f == ThreadSpec.UnlinkChild(old(f), child.msgid)
    {
      hide Represents, Lists, Closed, LinksWithin;
      ghost var st, c, p := Image(), child.msgid, parent.msgid;
      Shown(c);
      Shown(p);
      ShownKids(p);
      ghost var j := IndexOf(Kids(f, p), c);
      SearchOut(child, parent.child1, Kids(f, p), j - 1);
      KidLaterOut(st, f, c, p, j - 1);
      assert Image() == st.(cells := Cells());
      SameThreadMap(f, c);
      Follow(ThreadSpec.UnlinkChild(f, c));
    }

    method UnlinkFromParent(child: Article)
      requires Repr() && Lists(f) && Closed(f) && Held(child) && Placed(f, child.msgid) && child.parent != null
      modifies this`f, hash.Values`sibling, hash.Values`child1
      ensures Repr() && f == ThreadSpec.UnlinkChild(old(f), child.msgid)
    {
      hide Represents, Lists, Closed;
      Shown(child.msgid);
      var last := child.parent;
      if last.child1 == child { UnlinkFirstOf(child, last); } else { UnlinkLaterOf(child, last); }
    }

    method UnlinkFirstRoot(child: Article, sp: Subject)
      requires Repr() && Lists(f) && Held(child) && Placed(f, child.msgid) && child.parent == null && child.subj == sp
      requires sp.thread == child
      modifies this`f, subjects.Values`thread
      ensures Repr() && f == ThreadSpec.UnlinkChild(old(f), child.msgid)
    {
      hide Represents, Lists;
      ghost var st, c, k := Image(), child.msgid, ThreadOf(f, sp.name);
      Shown(c);
      ShownTop(sp);
      ShownRoots(k);
      NextOf(child, Roots(f, k), 0);
      SetThread(sp, child.sibling);
      RootFirstOut(st, Tops(), f, c, k);
      assert Image() == st.(tops := Tops());
      SameThreadMap(f, c);
      Follow(ThreadSpec.UnlinkChild(f, c));
    }

    /** The place of a root that is not its thread's first. */
    lemma LaterRoot(child: Article, sp: Subject) returns (j: nat)
      requires Tidy() && Represents(Image(), f) && Held(child) && Placed(f, child.msgid) && child.parent == null
        && child.subj == sp
      requires sp.thread != child && child.msgid in f.nodes && HeldSubject(sp)
      ensures var k := ThreadOf(f, sp.name);
              Parent(f, child.msgid) == None && Home(f, child.msgid) == Some(k) && sp.thread != null
                && Held(sp.thread) &&
              j + 1 < |Roots(f, k)| && Roots(f, k)[j + 1] == child.msgid && Roots(f, k)[0] == sp.thread.msgid
    {
      hide Represents;
      Shown(child.msgid);
      ShownTop(sp);
      var i := IndexOf(Roots(f, ThreadOf(f, sp.name)), child.msgid);
      j := i - 1;
    }

    method UnlinkLaterRoot(child: Article, sp: Subject)
      requires Repr() && Lists(f) && Held(child) && Placed(f, child.msgid) && child.parent == null && child.subj == sp
      requires sp.thread != child
      modifies this`f, hash.Values`sibling
      ensures Repr() && f == ThreadSpec.UnlinkChild(old(f), child.msgid)
    {
      hide Represents, Lists, Placed;
      ghost var st, c, k := Image(), child.msgid, ThreadOf(f, sp.name);
      Shown(c);
      ShownRoots(k);
      ghost var j := LaterRoot(child, sp);
      SearchOut(child, sp.thread, Roots(f, k), j);
      RootLaterOut(st, f, c, k, j);
      assert Image() == st.(cells := Cells());
      SameThreadMap(f, c);
      Follow(ThreadSpec.UnlinkChild(f, c));
    }

    method UnlinkFromThread(child: Article)
      requires Repr() && Lists(f) && Held(child) && Placed(f, child.msgid) && child.parent == null
      modifies this`f, hash.Values`sibling, subjects.Values`thread
      ensures Repr() && f == ThreadSpec.UnlinkChild(old(f), child.msgid)
    {
      hide Represents, Lists;
      Shown(child.msgid);
      var sp := child.subj;
      if sp.thread == child { UnlinkFirstRoot(child, sp); } else { UnlinkLaterRoot(child, sp); }
    }

    /** unlink_child; the parent pointer stays. */
    method UnlinkChild(child: Article)
      requires Repr() && Lists(f) && Closed(f) && Held(child) && Placed(f, child.msgid)
      modifies this`f, hash.Values`sibling, hash.Values`child1, subjects.Values`thread
      ensures Repr() && f == ThreadSpec.UnlinkChild(old(f), child.msgid)
    {
      hide Represents, Lists, Closed;
      if child.parent == null { UnlinkFromThread(child); } else { UnlinkFromParent(child); }
    }
  }
}

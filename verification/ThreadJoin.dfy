// merge_threads on the linked articles and subjects.
module ThreadJoin {
  import opened Options
  import opened ThreadSpec
  import opened ThreadLists
  import opened ThreadCells
  import opened ThreadHeap

  /** The circle that `s` is in, ending with it. */
  ghost method CircleEnding(t: Threads, s: Subject) returns (ring: seq<Subject>)
    requires t.RingsOk() && t.HeldSubject(s)
    ensures Circle(ring) && ring[|ring| - 1] == s
    ensures forall x | x in ring :: x.name in t.subjects && t.subjects[x.name] == x
    ensures forall n | n in t.subjects :: ThreadOf(t.f, n) == ThreadOf(t.f, s.name) <==> t.subjects[n] in ring
  {
    var k := ThreadOf(t.f, s.name);
    assert t.RingOk(k);
    var j :| 0 <= j < |t.rings[k]| && t.rings[k][j] == s;
    var i := if j + 1 < |t.rings[k]| then j + 1 else 0;
    RotatedCircle(t.rings[k], i);
    ring := Rotated(t.rings[k], i);
  }

  /** Two circles of different threads joined; nothing else is different. */
  method JoinLinks(t: Threads, s1: Subject, s2: Subject, ghost r1: seq<Subject>, ghost r2: seq<Subject>)
    requires t.Tidy() && t.HeldSubject(s1) && t.HeldSubject(s2)
    requires Circle(r1) && Circle(r2) && r1[|r1| - 1] == s1 && r2[|r2| - 1] == s2
    requires forall x | x in r1 :: x !in r2
    modifies s1`threadLink, s2`threadLink
    ensures Circle(r1 + r2)
    ensures t.Tidy() && t.Cells() == old(t.Cells()) && t.Tops() == old(t.Tops())
    ensures forall n | n in t.subjects && t.subjects[n] != s1 && t.subjects[n] != s2 ::
              t.subjects[n].threadLink == old(t.subjects[n].threadLink)
  {
    hide Circle;
    JoinCircles(s1, s2, r1, r2);
    forall m | m in t.hash ensures unchanged(t.hash[m]) {
    }
    t.CellsKept();
    LinksTidy(t);
  }

  twostate lemma LinksTidy(t: Threads)
    requires old(t.Tidy()) && t.hash == old(t.hash) && t.subjects == old(t.subjects)
    requires forall m | m in t.hash :: unchanged(t.hash[m])
    requires forall n | n in t.subjects :: t.subjects[n].thread == old(t.subjects[n].thread)
    ensures t.Tidy() && t.Tops() == old(t.Tops())
  {
    forall m | m in t.hash ensures t.hash[m].msgid == m && t.Held(t.hash[m].parent) && t.Held(t.hash[m].child1)
    ensures t.Listed(t.hash[m].sibling) && t.HeldSubject(t.hash[m].subj) {
      assert unchanged(t.hash[m]);
    }
  }

  ghost function Links(t: Threads): map<SubjName, Subject>
    reads t`subjects, t.subjects.Values
  {
    map n | n in t.subjects :: t.subjects[n].threadLink
  }

  /** The circle of thread `k`, with these links. */
  ghost predicate RingBy(t: Threads, links: map<SubjName, Subject>, k: SubjName)
    reads t`subjects, t`rings, t`f
  {
    && k in t.rings && t.rings[k] != [] && Distinct(t.rings[k])
    && (forall i | 0 <= i < |t.rings[k]| :: var x := t.rings[k][i];
          x.name in t.subjects && t.subjects[x.name] == x && x.name in links && links[x.name] == After(t.rings[k], i))
    && (forall n | n in t.subjects :: ThreadOf(t.f, n) == k <==> t.subjects[n] in t.rings[k])
  }

  lemma RingByLinks(t: Threads, k: SubjName)
    requires t.RingOk(k)
    ensures RingBy(t, Links(t), k)
  {
  }

  lemma RingByOthers(t: Threads, links: map<SubjName, Subject>, k: SubjName, s1: Subject, s2: Subject)
    requires RingBy(t, links, k) && t.HeldSubject(s1) && t.HeldSubject(s2) && k != ThreadOf(t.f, s1.name)
      && k != ThreadOf(t.f, s2.name)
    requires forall n | n in t.subjects && t.subjects[n] != s1 && t.subjects[n] != s2 ::
               n in links && t.subjects[n].threadLink == links[n]
    ensures t.RingOk(k)
  {
    forall x | x in t.rings[k] ensures x.name in t.subjects && t.subjects[x.name] == x && x != s1 && x != s2 {
      var i :| 0 <= i < |t.rings[k]| && t.rings[k][i] == x;
    }
    forall i | 0 <= i < |t.rings[k]| ensures t.rings[k][i].threadLink == After(t.rings[k], i) {
      assert t.rings[k][i] in t.rings[k];
    }
  }

  /** The circles of all threads but two. */
  ghost predicate OtherRings(t: Threads, k1: SubjName, k2: SubjName)
    reads t`subjects, t`rings, t`f, t.subjects.Values
  {
    forall n | n in t.subjects && ThreadOf(t.f, n) != k1 && ThreadOf(t.f, n) != k2 :: t.RingOk(ThreadOf(t.f, n))
  }

  lemma OtherRingsKept(t: Threads, links: map<SubjName, Subject>, s1: Subject, s2: Subject)
    requires forall n | n in t.subjects :: RingBy(t, links, ThreadOf(t.f, n))
    requires t.HeldSubject(s1) && t.HeldSubject(s2)
    requires forall n | n in t.subjects && t.subjects[n] != s1 && t.subjects[n] != s2 ::
               n in links && t.subjects[n].threadLink == links[n]
    ensures OtherRings(t, ThreadOf(t.f, s1.name), ThreadOf(t.f, s2.name))
  {
    hide RingBy;
    forall n | n in t.subjects && ThreadOf(t.f, n) != ThreadOf(t.f, s1.name)
      && ThreadOf(t.f, n) != ThreadOf(t.f, s2.name)
      ensures t.RingOk(ThreadOf(t.f, n))
    {
      RingByOthers(t, links, ThreadOf(t.f, n), s1, s2);
    }
  }

  /** The subjects of a circle are those of two threads. */
  ghost predicate RingOfBoth(t: Threads, ring: seq<Subject>, k1: SubjName, k2: SubjName)
    reads t`subjects, t`f
  {
    && (forall x | x in ring :: x.name in t.subjects && t.subjects[x.name] == x)
    && forall n | n in t.subjects :: t.subjects[n] in ring <==> ThreadOf(t.f, n) == k1 || ThreadOf(t.f, n) == k2
  }

  /** One circle for the two threads. */
  ghost method NameRings(t: Threads, g: Forest, k1: SubjName, k2: SubjName, ring: seq<Subject>)
    requires OtherRings(t, k1, k2) && k1 != k2 && Circle(ring)
    requires RingOfBoth(t, ring, k1, k2)
    requires forall n {:trigger ThreadOf(g, n)} | n in t.subjects ::
               ThreadOf(g, n) == if ThreadOf(t.f, n) == k2 then k1 else ThreadOf(t.f, n)
    requires t.Tidy()
    modifies t`f, t`rings
    ensures t.f == g && t.RingsOk() && t.Tidy() && t.Cells() == old(t.Cells()) && t.Tops() == old(t.Tops())
  {
    hide Distinct, At, Subj, ThreadOf, After, Circle;
    ghost var f0, rings0 := t.f, t.rings;
    t.rings := t.rings[k1 := ring];
    t.f := g;
    forall n | n in t.subjects ensures t.RingOk(ThreadOf(t.f, n)) {
      if ThreadOf(t.f, n) != k1 {
        assert old(t.RingOk(ThreadOf(f0, n)));
      }
    }
  }

  /** The circles of two subjects of different threads. */
  ghost method TwoCircles(t: Threads, s1: Subject, s2: Subject) returns (r1: seq<Subject>, r2: seq<Subject>)
    requires t.RingsOk() && t.HeldSubject(s1) && t.HeldSubject(s2) && ThreadOf(t.f, s1.name) != ThreadOf(t.f, s2.name)
    ensures Circle(r1) && r1[|r1| - 1] == s1 && Circle(r2) && r2[|r2| - 1] == s2 && forall x | x in r1 :: x !in r2
    ensures RingOfBoth(t, r1 + r2, ThreadOf(t.f, s1.name), ThreadOf(t.f, s2.name))
  {
    hide Circle;
    r1 := CircleEnding(t, s1);
    r2 := CircleEnding(t, s2);
    forall x | x in r1 ensures x !in r2 {
      assert ThreadOf(t.f, x.name) == ThreadOf(t.f, s1.name);
    }
  }

  lemma RingsByLinks(t: Threads)
    requires t.RingsOk()
    ensures forall n | n in t.subjects :: RingBy(t, Links(t), ThreadOf(t.f, n))
  {
    forall n | n in t.subjects ensures RingBy(t, Links(t), ThreadOf(t.f, n)) {
      RingByLinks(t, ThreadOf(t.f, n));
    }
  }

  /** The circles of two threads become that of one; the pointers to roots are as they were. */
  method JoinRings(t: Threads, s1: Subject, s2: Subject, ghost acc: seq<MsgId>)
    requires t.Tidy() && t.RingsOk() && t.HeldSubject(s1) && t.HeldSubject(s2)
      && ThreadOf(t.f, s1.name) != ThreadOf(t.f, s2.name)
    requires t.subjects.Keys == t.f.thread.Keys
    modifies t`f, t`rings, s1`threadLink, s2`threadLink
    ensures t.Tidy() && t.RingsOk() && t.Cells() == old(t.Cells()) && t.Tops() == old(t.Tops())
    ensures t.f == Merging(old(t.f), ThreadOf(old(t.f), s1.name), ThreadOf(old(t.f), s2.name), acc)
  {
    hide Merging, Circle, RingBy, RingOfBoth, ThreadOf, Threads.Tidy, Threads.Cells, Threads.Tops, Threads.RingOk,
      Threads.RingsOk, OtherRings;
    ghost var k1, k2 := ThreadOf(t.f, s1.name), ThreadOf(t.f, s2.name);
    ghost var r1, r2 := TwoCircles(t, s1, s2);
    ghost var links := Links(t);
    RingsByLinks(t);
    JoinLinks(t, s1, s2, r1, r2);
    forall n | n in t.subjects ensures RingBy(t, links, ThreadOf(t.f, n)) {
      assert old(RingBy(t, Links(t), ThreadOf(t.f, n)));
    }
    OtherRingsKept(t, links, s1, s2);
    MergingRoots(t.f, k1, k2, acc);
    NameRings(t, Merging(t.f, k1, k2, acc), k1, k2, r1 + r2);
  }

  // ----- the roots of one thread linked into the other

  /** `rest` are the roots of `k2` still to be linked, and `acc` what the roots of `k1` have become. */
  ghost predicate MergedTo(f: Forest, k1: SubjName, k2: SubjName, acc: seq<MsgId>, rest: seq<MsgId>) {
    && Distinct(acc) && Distinct(rest) && (forall x | x in acc :: x in Roots(f, k1) || x in Roots(f, k2))
    && (forall x | x in rest :: x in Roots(f, k2) && x !in acc)
    && InsertAll(f, acc, rest) == InsertAll(f, Roots(f, k1), Roots(f, k2))
  }

  lemma MergedFrom(f: Forest, k1: SubjName, k2: SubjName)
    requires Lists(f) && k1 != k2
    ensures MergedTo(f, k1, k2, Roots(f, k1), Roots(f, k2))
  {
  }

  lemma MergedOne(f: Forest, k1: SubjName, k2: SubjName, acc: seq<MsgId>, rest: seq<MsgId>)
    requires MergedTo(f, k1, k2, acc, rest) && rest != []
    ensures MergedTo(f, k1, k2, InsertByDate(f, acc, rest[0]), rest[1..])
  {
    InsertMembers(f, acc, rest[0]);
    var now := InsertByDate(f, acc, rest[0]);
    assert rest[0] in rest && rest[0] !in acc;
    forall x | x in rest[1..] ensures x in rest && x != rest[0] {
      var i :| 0 <= i < |rest[1..]| && rest[1..][i] == x;
      assert rest[i + 1] == x;
    }
  }

  /** What merging needs of the forest: the roots that move are in the thread of their subject. */
  ghost predicate Mergeable(f: Forest, k2: SubjName) {
    Lists(f) && ThreadLists.Threads(f) && forall x :: x in Roots(f, k2) ==> Home(f, x) == Some(k2)
  }

  lemma RootToLink(f: Forest, k1: SubjName, k2: SubjName, acc: seq<MsgId>, rest: seq<MsgId>)
    requires Mergeable(f, k2) && k1 != k2 && MergedTo(f, k1, k2, acc, rest) && rest != []
    ensures var g, c := Merging(f, k1, k2, acc), rest[0];
      && Lists(g) && Free(g, c) && Parent(g, c).None? && Subj(g, c).Some?
      && LinkChild(g, c) == Merging(f, k1, k2, InsertByDate(f, acc, c)) && ListOf(g, c) == acc
  {
    var c := rest[0];
    assert c in rest;
    MergingLists(f, k1, k2, acc);
    MergingRoots(f, k1, k2, acc);
    assert Home(f, c) == Some(k2);
    assert Parent(f, c) == None;
    MergeLinks(f, k1, k2, acc, c);
  }

  lemma RestLinked(cells: map<MsgId, Cell>, cells': map<MsgId, Cell>, acc: seq<MsgId>, rest: seq<MsgId>)
    requires Linked(cells, rest) && rest != [] && Distinct(rest) && (forall x | x in rest :: x !in acc)
    requires LinksWithin(cells, cells', rest[0], acc)
    ensures Linked(cells', rest[1..])
  {
    Tail(cells, rest);
    forall x | x in rest[1..] ensures x in rest && x != rest[0] {
      var i :| 0 <= i < |rest[1..]| && rest[1..][i] == x;
      assert rest[i + 1] == x;
    }
    StillLinked(cells, cells', rest[1..]);
  }

  /** Links one more root. */
  method LinkOne(t: Threads, t1: Article, ghost f0: Forest, ghost k1: SubjName, ghost k2: SubjName,
      ghost acc: seq<MsgId>, ghost rest: seq<MsgId>)
    requires t.Repr() && t.f == Merging(f0, k1, k2, acc) && Mergeable(f0, k2) && k1 != k2
      && MergedTo(f0, k1, k2, acc, rest)
    requires rest != [] && t.Held(t1) && t1.msgid == rest[0] && Linked(t.Cells(), rest)
    modifies t`f, t.hash.Values`sibling, t.hash.Values`child1, t.subjects.Values`thread
    ensures t.Repr() && t.f == Merging(f0, k1, k2, InsertByDate(f0, acc, rest[0]))
    ensures Linked(t.Cells(), rest[1..])
  {
    hide Merging, MergedTo, Mergeable, Lists, Free, LinksWithin, Linked, InsertByDate, Represents, ListOf;
    RootToLink(f0, k1, k2, acc, rest);
    t.Shown(t1.msgid);
    ghost var cells := t.Cells();
    t.LinkChild(t1);
    assert Distinct(rest) && forall x | x in rest :: x !in acc by { MergedDistinct(f0, k1, k2, acc, rest); }
    RestLinked(cells, t.Cells(), acc, rest);
  }

  lemma MergedDistinct(f: Forest, k1: SubjName, k2: SubjName, acc: seq<MsgId>, rest: seq<MsgId>)
    requires MergedTo(f, k1, k2, acc, rest)
    ensures Distinct(rest) && forall x | x in rest :: x !in acc
    ensures rest == [] ==> acc == InsertAll(f, Roots(f, k1), Roots(f, k2))
  {
  }

  /** The subjects of `s2`'s thread in `s1`'s circle, pointing at its first root; the roots are not linked yet. */
  method JoinThreadsOnly(t: Threads, s1: Subject, s2: Subject)
    requires t.Repr() && t.HeldSubject(s1) && t.HeldSubject(s2) && ThreadOf(t.f, s1.name) != ThreadOf(t.f, s2.name)
    modifies t`f, t`rings, t.subjects.Values`thread, s1`threadLink, s2`threadLink
    ensures t.Repr() && t.Cells() == old(t.Cells())
    ensures var k1, k2 := ThreadOf(old(t.f), s1.name), ThreadOf(old(t.f), s2.name);
            t.f == Merging(old(t.f), k1, k2, Roots(old(t.f), k1))
  {
    hide Merging, Represents, ThreadOf, Roots, Threads.RingOk, Threads.RingsOk, Threads.Tidy, Threads.Cells,
      Threads.Tops;
    ghost var st, f := t.Image(), t.f;
    ghost var k1, k2 := ThreadOf(f, s1.name), ThreadOf(f, s2.name);
    t.ShownTop(s1);
    SubjectKeys(t);
    t.SetThread(s2, s1.thread);
    ghost var tops := t.Tops();
    JoinRings(t, s1, s2, Roots(f, k1));
    MergeStarts(st, tops, f, k1, k2);
    assert t.Image() == st.(tops := tops);
  }

  lemma SubjectKeys(t: Threads)
    requires Represents(t.Image(), t.f)
    ensures t.subjects.Keys == t.f.thread.Keys
  {
    assert t.Tops().Keys == t.subjects.Keys;
  }

  /** merge_threads. */
  method MergeThreads(t: Threads, s1: Subject, s2: Subject)
    requires t.Repr() && Mergeable(t.f, ThreadOf(t.f, s2.name)) && t.HeldSubject(s1) && t.HeldSubject(s2)
    requires ThreadOf(t.f, s1.name) != ThreadOf(t.f, s2.name)
    modifies t`f, t`rings, t.hash.Values`sibling, t.hash.Values`child1, t.subjects.Values`thread, s1`threadLink,
      s2`threadLink
    ensures t.Repr() && t.f == ThreadSpec.MergeThreads(old(t.f), s1.name, s2.name)
  {
    hide Merging, MergedTo, Mergeable, Lists, Linked, InsertByDate, Represents, ThreadOf, Roots, InsertAll,
      Threads.Tidy, Threads.RingsOk,
      Threads.Cells, ThreadSpec.MergeThreads, First;
    ghost var f := t.f;
    ghost var k1, k2 := ThreadOf(f, s1.name), ThreadOf(f, s2.name);
    var t2 := s2.thread;
    t.ShownTop(s2);
    RootsLinkedNow(t, k2);
    JoinThreadsOnly(t, s1, s2);
    MergedFrom(f, k1, k2) by { MergeableLists(f, k2); }
    ghost var acc, rest := Roots(f, k1), Roots(f, k2);
    var t1 := t2;
    FirstIs(rest);
    while t1 != null
      invariant t.Repr() && t.f == Merging(f, k1, k2, acc) && MergedTo(f, k1, k2, acc, rest)
      invariant t.Held(t1) && IdOf(t1) == First(rest) && Linked(t.Cells(), rest) && t2 == t1
      decreases |rest|
    {
      FirstIs(rest);
      MergedDistinct(f, k1, k2, acc, rest);
      SiblingIs(t, t1, rest);
      t2 := t2.sibling;
      LinkOne(t, t1, f, k1, k2, acc, rest);
      MergedOne(f, k1, k2, acc, rest);
      acc, rest := InsertByDate(f, acc, rest[0]), rest[1..];
      t1 := t2;
    }
    FirstIs(rest);
    MergedDistinct(f, k1, k2, acc, rest);
    MergeEnds(f, s1.name, s2.name);
  }

  lemma MergeableLists(f: Forest, k2: SubjName)
    requires Mergeable(f, k2)
    ensures Lists(f)
  {
  }

  lemma FirstIs(list: seq<MsgId>)
    ensures First(list) == None <==> list == []
    ensures list != [] ==> First(list) == Some(list[0])
  {
  }

  lemma RootsLinkedNow(t: Threads, k: SubjName)
    requires Represents(t.Image(), t.f)
    ensures Linked(t.Cells(), Roots(t.f, k))
  {
  }

  lemma SiblingIs(t: Threads, a: Article, rest: seq<MsgId>)
    requires t.Tidy() && t.Held(a) && rest != [] && a.msgid == rest[0] && Linked(t.Cells(), rest) && Distinct(rest)
    ensures t.Held(a.sibling) && IdOf(a.sibling) == First(rest[1..])
  {
    t.NextOf(a, rest, 0);
    Tail(t.Cells(), rest);
  }

  /** Merges the threads of two subjects unless they point at the same article. */
  method JoinIfApart(t: Threads, s1: Subject, s2: Subject)
    requires t.Repr() && Mergeable(t.f, ThreadOf(t.f, s2.name)) && t.HeldSubject(s1) && t.HeldSubject(s2)
    modifies t`f, t`rings, t.hash.Values`sibling, t.hash.Values`child1, t.subjects.Values`thread, s1`threadLink,
      s2`threadLink
    ensures t.Repr() && t.f == ThreadSpec.JoinThreads(old(t.f), s1.name, s2.name)
  {
    hide Mergeable, Represents, ThreadOf, Roots, ThreadSpec.MergeThreads, Threads.Tidy, Threads.RingsOk, Threads.Cells;
    t.ShownTop(s1);
    t.ShownTop(s2);
    HeadIs(t.f, ThreadOf(t.f, s1.name));
    HeadIs(t.f, ThreadOf(t.f, s2.name));
    SameId(t, s1.thread, s2.thread);
    if s1.thread != s2.thread { MergeThreads(t, s1, s2); }
  }

  lemma HeadIs(f: Forest, k: SubjName)
    ensures Head(f, k) == First(Roots(f, k))
  {
  }

  lemma SameId(t: Threads, a: Article?, b: Article?)
    requires t.Held(a) && t.Held(b)
    ensures a == b <==> IdOf(a) == IdOf(b)
  {
  }
}

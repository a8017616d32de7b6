// The subject of a header: found, or made with a circle of its own.
module ThreadSubjects {
  import opened Options
  import opened ThreadSpec
  import opened ThreadSafety
  import opened ThreadCells
  import opened ThreadHeap

  lemma NewSubjectShown(st: Store, f: Forest, s: SubjName)
    requires Represents(st, f) && WellFormed(f) && s !in f.thread
    ensures Represents(st.(tops := st.tops[s := None]), AddSubject(f, s))
  {
    hide WellFormed, Linked, First;
    var g, tops := AddSubject(f, s), st.tops[s := None];
    AddSubjectKeeps(f, s);
    assert forall x :: At(g, x) == At(f, x);
    assert forall p :: Kids(g, p) == Kids(f, p);
    assert Roots(g, s) == [];
    forall n | n in tops ensures tops[n] == First(Roots(g, ThreadOf(g, n))) {
      if n != s { assert n in f.thread && tops[n] == st.tops[n]; } else { FirstOfNone(); }
    }
  }

  lemma FirstOfNone()
    ensures First([]) == None
  {
  }

  lemma OldThread(f: Forest, n: SubjName, s: SubjName)
    requires WellFormed(f) && n in f.thread && s !in f.thread
    ensures ThreadOf(AddSubject(f, s), n) == ThreadOf(f, n) != s && ThreadOf(AddSubject(f, s), s) == s
  {
  }

  /** `ring` is the circle of the subjects in thread `k`. */
  ghost predicate RingIn(subjects: map<SubjName, Subject>, ring: seq<Subject>, f: Forest, k: SubjName)
    reads set x | x in ring
  {
    && (forall x | x in ring :: x.name in subjects && subjects[x.name] == x) && Circle(ring)
    && (forall n | n in subjects :: ThreadOf(f, n) == k <==> subjects[n] in ring)
  }

  ghost predicate AllRings(subjects: map<SubjName, Subject>, rings: map<SubjName, seq<Subject>>, f: Forest)
    reads set k, x | k in rings && x in rings[k] :: x
  {
    forall n | n in subjects :: ThreadOf(f, n) in rings && RingIn(subjects, rings[ThreadOf(f, n)], f, ThreadOf(f, n))
  }

  lemma RingsAre(t: Threads)
    ensures t.RingsOk() <==> AllRings(t.subjects, t.rings, t.f)
  {
    if t.RingsOk() {
      forall n | n in t.subjects ensures ThreadOf(t.f, n) in t.rings
        && RingIn(t.subjects, t.rings[ThreadOf(t.f, n)], t.f, ThreadOf(t.f, n)) {
        assert t.RingOk(ThreadOf(t.f, n));
      }
    }
    if AllRings(t.subjects, t.rings, t.f) {
      forall n | n in t.subjects ensures t.RingOk(ThreadOf(t.f, n)) {
        assert RingIn(t.subjects, t.rings[ThreadOf(t.f, n)], t.f, ThreadOf(t.f, n));
      }
    }
  }

  lemma RingGrows(subjects: map<SubjName, Subject>, ring: seq<Subject>, f: Forest, g: Forest, k: SubjName, sp: Subject)
    requires RingIn(subjects, ring, f, k) && sp.name !in subjects && ThreadOf(g, sp.name) != k
    requires forall n | n in subjects :: ThreadOf(g, n) == ThreadOf(f, n)
    ensures RingIn(subjects[sp.name := sp], ring, g, k)
  {
  }

  lemma OwnRing(subjects: map<SubjName, Subject>, g: Forest, sp: Subject)
    requires sp.threadLink == sp && ThreadOf(g, sp.name) == sp.name && sp.name !in subjects
    requires forall n | n in subjects :: ThreadOf(g, n) != sp.name && subjects[n].name == n
    ensures RingIn(subjects[sp.name := sp], [sp], g, sp.name)
  {
  }

  /** A new subject makes a circle of its own. */
  lemma RingsGrow(subjects: map<SubjName, Subject>, rings: map<SubjName, seq<Subject>>, f: Forest, sp: Subject)
    requires AllRings(subjects, rings, f) && WellFormed(f) && (forall n :: n in subjects <==> n in f.thread)
    requires sp.threadLink == sp && sp.name !in subjects && forall n | n in subjects :: subjects[n].name == n
    ensures AllRings(subjects[sp.name := sp], rings[sp.name := [sp]], AddSubject(f, sp.name))
  {
    hide WellFormed, RingIn, AddSubject;
    var g := AddSubject(f, sp.name);
    forall n | n in subjects ensures ThreadOf(g, n) == ThreadOf(f, n) != sp.name { OldThread(f, n, sp.name); }
    OwnThread(f, sp.name);
    OwnRing(subjects, g, sp);
    forall n | n in subjects ensures RingIn(subjects[sp.name := sp], rings[ThreadOf(f, n)], g, ThreadOf(f, n)) {
      RingGrows(subjects, rings[ThreadOf(f, n)], f, g, ThreadOf(f, n), sp);
    }
  }

  lemma OwnThread(f: Forest, s: SubjName)
    requires s !in f.thread
    ensures ThreadOf(AddSubject(f, s), s) == s
  {
  }

  ghost predicate SubjectIn(subjects: map<SubjName, Subject>, s: Subject?) {
    s != null ==> s.name in subjects && subjects[s.name] == s
  }

  /** All pointers in use lead to articles and to subjects of `subjects`. */
  ghost predicate TidyFor(t: Threads, subjects: map<SubjName, Subject>)
    reads t`hash, t.hash.Values, subjects.Values
  {
    && (forall m | m in t.hash ::
          && t.hash[m].msgid == m && t.Held(t.hash[m].parent) && t.Held(t.hash[m].child1) && t.Listed(t.hash[m].sibling)
          && SubjectIn(subjects, t.hash[m].subj))
    && (forall s | s in subjects :: subjects[s].name == s && t.Held(subjects[s].thread))
  }

  lemma TidyIsFor(t: Threads)
    ensures t.Tidy() <==> TidyFor(t, t.subjects)
  {
  }

  lemma TidyGrows(t: Threads, subjects: map<SubjName, Subject>, sp: Subject)
    requires TidyFor(t, subjects) && sp.name !in subjects && sp.thread == null
    ensures TidyFor(t, subjects[sp.name := sp]) && forall n | n in subjects :: subjects[n].name == n
  {
    hide Threads.Listed;
    var more := subjects[sp.name := sp];
    forall m | m in t.hash ensures SubjectIn(more, t.hash[m].subj) {
      assert SubjectIn(subjects, t.hash[m].subj);
    }
    forall s | s in more ensures more[s].name == s && t.Held(more[s].thread) {
      if s != sp.name { assert more[s] == subjects[s]; }
    }
  }

  ghost function TopsFor(subjects: map<SubjName, Subject>): map<SubjName, Option<MsgId>>
    reads subjects.Values
  {
    map s | s in subjects :: IdOf(subjects[s].thread)
  }

  lemma TopsAreFor(t: Threads)
    ensures t.Tops() == TopsFor(t.subjects)
  {
  }

  lemma TopsGrow(subjects: map<SubjName, Subject>, sp: Subject)
    requires sp.name !in subjects && sp.thread == null
    ensures TopsFor(subjects[sp.name := sp]) == TopsFor(subjects)[sp.name := None]
  {
  }

  /** A new subject in the table. */
  method PutSubject(t: Threads, sp: Subject, ghost st: Store)
    requires t.Repr() && WellFormed(t.f) && sp.name !in t.subjects && sp.thread == null && sp.threadLink == sp
      && st == t.Image()
    modifies t`f, t`subjects, t`rings
    ensures t.Repr() && t.f == AddSubject(old(t.f), sp.name) && t.subjects == old(t.subjects)[sp.name := sp]
  {
    hide Represents, WellFormed, AllRings, AddSubject, TidyFor, TopsFor, Threads.RingsOk, Threads.Tidy, Threads.Cells,
      Threads.Tops, Kids, ThreadOf, Roots, First, Linked, AllLinked, TopsShow, Circle;
    ghost var f := t.f;
    KnownSubjects(t);
    TidyIsFor(t);
    TidyGrows(t, t.subjects, sp);
    TopsAreFor(t);
    TopsGrow(t.subjects, sp);
    RingsAre(t);
    RingsGrow(t.subjects, t.rings, t.f, sp);
    t.subjects := t.subjects[sp.name := sp];
    t.rings := t.rings[sp.name := [sp]];
    t.f := AddSubject(f, sp.name);
    RingsAre(t);
    TidyIsFor(t);
    TopsAreFor(t);
    NewSubjectShown(st, f, sp.name);
  }

  /** set_subj_line, from the lookup of the subject's text on. */
  method FindSubject(t: Threads, name: SubjName) returns (sp: Subject)
    requires t.Repr() && WellFormed(t.f)
    modifies t`f, t`subjects, t`rings
    ensures t.Repr() && t.f == AddSubject(old(t.f), name)
    ensures t.HeldSubject(sp) && sp.name == name
    ensures forall n | n in t.subjects :: t.subjects[n] in old(t.subjects.Values) || fresh(t.subjects[n])
  {
    hide Represents, WellFormed, Threads.RingsOk;
    KnownSubjects(t);
    if name in t.subjects {
      sp := t.subjects[name];
    } else {
      sp := new Subject(name);
      PutSubject(t, sp, t.Image());
    }
  }

  lemma KnownSubjects(t: Threads)
    requires Represents(t.Image(), t.f)
    ensures forall n :: n in t.subjects <==> n in t.f.thread
  {
    assert t.Tops().Keys == t.subjects.Keys;
  }
}

// Threading one article keeps the forest well formed, whatever its References line says.
module ThreadSafety {
  import opened Options
  import opened Paths
  import opened ThreadSpec
  import opened ThreadLists

  /** An article either knows nothing or has a subject and is in its list; those of `loose` are
      in the middle of being threaded. */
  ghost predicate Placing(f: Forest, loose: set<MsgId>) {
    forall x | x in f.nodes && x !in loose :: At(f, x) == BLANK || (Subj(f, x).Some? && Placed(f, x))
  }

  /** Exactly the real articles are threaded. */
  ghost predicate Labels(f: Forest, loose: set<MsgId>) {
    forall x | x in f.nodes && x !in loose :: Threaded(f, x) != Fake(f, x)
  }

  ghost predicate Sound(f: Forest) {
    Lists(f) && Closed(f) && Threads(f) && Homes(f)
  }

  ghost predicate Well(f: Forest, loose: set<MsgId>) {
    Sound(f) && Families(f) && Placing(f, loose) && Labels(f, loose)
  }

  /** What holds between steps. */
  ghost predicate WellFormed(f: Forest) {
    Well(f, {}) && Acyclic(Up(f))
  }

  lemma EmptyWellFormed()
    ensures WellFormed(EMPTY)
  {
  }

  lemma BlankFree(f: Forest, x: MsgId)
    requires Sound(f) && At(f, x) == BLANK
    ensures Free(f, x)
  {
    assert Parent(f, x) == None && Home(f, x) == None;
  }

  function Elems(s: seq<MsgId>): set<MsgId> {
    set x | x in s
  }

  /** Climbing from `x` ends in the root list of its thread, unless it ends in the articles of
      `stop`, which are entered through `m` only. */
  lemma {:induction false} ThreadHasRoots(f: Forest, x: MsgId, stop: set<MsgId>, m: MsgId)
    requires Closed(f) && KidsPoint(f) && Placing(f, stop)
    requires forall y | y !in stop && Parent(f, y).Some? && Subj(f, y).Some? && Subj(f, Parent(f, y).value).Some? ::
               Home(f, y) == Home(f, Parent(f, y).value)
    requires x in f.nodes && x !in stop && Subj(f, x).Some?
    requires forall y | Parent(f, y).Some? && Parent(f, y).value in stop && y !in stop :: Parent(f, y).value == m
    requires stop != {} ==> Subj(f, m).Some?
    requires Grounded(Up(f) - stop, x)
    ensures Roots(f, Home(f, x).value) != [] || (stop != {} && Home(f, x) == Home(f, m))
    decreases Height(Up(f) - stop, x)
  {
    match Parent(f, x)
    case None => assert x in Roots(f, Home(f, x).value);
    case Some(p) =>
      assert x in Kids(f, p);
      if p in stop {
      } else {
        assert At(f, p) != BLANK;
        UpMeans(f);
        GroundedStep(Up(f) - stop, x);
        ThreadHasRoots(f, p, stop, m);
      }
  }

  // ----- New subjects and new ids

  lemma AddSubjectKeeps(f: Forest, s: SubjName)
    requires WellFormed(f)
    ensures var g := AddSubject(f, s);
            WellFormed(g) && s in g.thread && g.nodes == f.nodes && f.thread.Keys <= g.thread.Keys
    ensures var g := AddSubject(f, s);
            (forall k :: Roots(g, k) == Roots(f, k)) && (forall t | t in f.thread :: ThreadOf(g, t) == ThreadOf(f, t))
  {
    if s !in f.thread { NewThread(f, s); }
  }

  lemma NewThread(f: Forest, s: SubjName)
    requires WellFormed(f) && s !in f.thread
    ensures var g := f.(thread := f.thread[s := s], roots := f.roots[s := []]);
            WellFormed(g)
              && (forall k :: Roots(g, k) == Roots(f, k))
              && (forall t | t in f.thread :: ThreadOf(g, t) == ThreadOf(f, t))
  {
    hide Up, Lists, Closed, Homes, Families, Placed, NoRepeats;
    var g := f.(thread := f.thread[s := s], roots := f.roots[s := []]);
    assert forall x :: At(g, x) == At(f, x);
    assert forall p :: Kids(g, p) == Kids(f, p);
    assert forall x :: Parent(g, x) == Parent(f, x);
    SameUp(f, g);
    assert s !in f.roots;
    assert forall k :: Roots(g, k) == Roots(f, k);
    forall x ensures Home(g, x) == Home(f, x) {
      if Subj(f, x).Some? { assert Subj(f, x).value in f.thread; }
    }
    SameListsWell(f, g, {});
  }

  /** Being well kept depends on the lists, the fields and the threads only. */
  lemma SameListsWell(f: Forest, g: Forest, loose: set<MsgId>)
    requires Well(f, loose) && g.nodes == f.nodes
    requires forall k :: Roots(g, k) == Roots(f, k)
    requires forall x :: Home(g, x) == Home(f, x)
    requires Threads(g)
    ensures Well(g, loose)
  {
    assert forall x :: At(g, x) == At(f, x);
    assert forall p :: Kids(g, p) == Kids(f, p);
    assert forall x :: Parent(g, x) == Parent(f, x);
    assert forall x :: Subj(g, x) == Subj(f, x);
    assert Lists(g);
    assert Closed(g);
    assert Homes(g);
    assert Families(g);
    assert Placing(g, loose);
  }

  lemma PutFreeLists(f: Forest, x: MsgId, n: Node)
    requires Lists(f) && Free(f, x) && Kids(f, x) == [] && n.kids == []
    ensures var g := Put(f, x, n); Lists(g) && Free(g, x) && forall p :: Kids(g, p) == Kids(f, p)
  {
    var g := Put(f, x, n);
    PutEffect(f, x, n);
    assert forall p :: Kids(g, p) == Kids(f, p);
    assert forall y | y != x :: Parent(g, y) == Parent(f, y);
    assert KidsPoint(g);
    assert RootsPoint(g);
    assert OneRootList(g);
    assert NoRepeats(g);
  }

  lemma PutFreePlacing(f: Forest, x: MsgId, n: Node, loose: set<MsgId>)
    requires Placing(f, loose) && Labels(f, loose) && Kids(f, x) == [] && n.kids == []
    ensures var g := Put(f, x, n); Placing(g, loose + {x}) && Labels(g, loose + {x})
  {
    var g := Put(f, x, n);
    PutEffect(f, x, n);
    assert forall p :: Kids(g, p) == Kids(f, p);
    forall y | y in g.nodes && y !in loose + {x}
      ensures At(g, y) == BLANK || (Subj(g, y).Some? && Placed(g, y))
      ensures Threaded(g, y) != Fake(g, y)
    {
      assert At(g, y) == At(f, y) && y in f.nodes;
    }
  }

  /** Changing a free, childless article that has no parent, and gets none, keeps the rest. */
  lemma PutFree(f: Forest, x: MsgId, n: Node, loose: set<MsgId>)
    requires Well(f, loose) && Free(f, x) && Kids(f, x) == [] && Parent(f, x).None?
    requires forall y :: Parent(f, y) != Some(x)
    requires n.kids == [] && n.parent.None? && (n.subj.Some? ==> n.subj.value in f.thread)
    ensures var g := Put(f, x, n); Well(g, loose + {x}) && Free(g, x) && Up(g) == Up(f)
  {
    hide Distinct, At, Fake, Threaded, Kids, Roots, Up, KidsPoint, RootsPoint, OneRootList, NoRepeats, Lists, Placed,
      Free;
    var g := Put(f, x, n);
    PutEffect(f, x, n);
    PutFreeLists(f, x, n);
    PutFreePlacing(f, x, n, loose);
    assert forall y :: Parent(g, y) == Parent(f, y);
    assert forall y | y != x :: Subj(g, y) == Subj(f, y);
    assert forall y | y != x :: Home(g, y) == Home(f, y);
    assert Closed(g);
    assert Threads(g);
    assert Homes(g);
    assert Families(g);
    UpMeans(f);
    UpMeans(g);
  }

  /** In a well formed forest an article that knows nothing has no ties. */
  lemma BlankAlone(f: Forest, x: MsgId)
    requires WellFormed(f) && At(f, x) == BLANK
    ensures Free(f, x) && forall y :: Parent(f, y) != Some(x)
  {
    BlankFree(f, x);
    forall y ensures Parent(f, y) != Some(x) {
      assert y in f.nodes ==> At(f, y) == BLANK || Placed(f, y);
    }
  }

  // ----- Moving one article

  lemma MovedPlacing(f: Forest, g: Forest, c: MsgId, loose: set<MsgId>)
    requires Moved(f, g, c) && Placing(f, loose) && Labels(f, loose)
    requires forall x | x in f.nodes && x !in loose && At(f, x) == BLANK :: c !in Kids(g, x)
    ensures Placing(g, loose + {c}) && Labels(g, loose + {c})
  {
    forall x | x in g.nodes && x !in loose + {c}
      ensures At(g, x) == BLANK || (Subj(g, x).Some? && Placed(g, x))
      ensures Threaded(g, x) != Fake(g, x)
    {
      if At(f, x) == BLANK {
        MovedBlank(f, g, c, x);
      } else {
        assert Placed(f, x);
        MovedPlaced(f, g, c, x);
      }
    }
  }

  lemma MovedBlank(f: Forest, g: Forest, c: MsgId, x: MsgId)
    requires Moved(f, g, c) && x != c && At(f, x) == BLANK && c !in Kids(g, x)
    ensures At(g, x) == BLANK
  {
    EmptyOrNot(Kids(g, x));
    assert Parent(g, x) == Parent(f, x) && Subj(g, x) == Subj(f, x);
    assert Date(g, x) == Date(f, x) && Fake(g, x) == Fake(f, x) && Threaded(g, x) == Threaded(f, x);
  }

  lemma MovedPlaced(f: Forest, g: Forest, c: MsgId, x: MsgId)
    requires Moved(f, g, c) && x != c && Placed(f, x)
    ensures Placed(g, x)
  {
    assert Parent(g, x) == Parent(f, x) && Subj(g, x) == Subj(f, x);
    assert Home(g, x) == Home(f, x);
  }

  lemma MovedFree(f: Forest, g: Forest, c: MsgId, x: MsgId)
    requires Moved(f, g, c) && x != c && Free(f, x)
    ensures Free(g, x)
  {
  }

  lemma MovedHomes(f: Forest, g: Forest, c: MsgId)
    requires Moved(f, g, c) && Homes(f)
    requires forall k | c in Roots(g, k) :: Home(f, c) == Some(k)
    ensures Homes(g)
  {
    assert forall x :: Home(g, x) == Home(f, x) by { SameThreadHomes(f, g); }
  }

  lemma SameThreadHomes(f: Forest, g: Forest)
    requires g.thread == f.thread && forall x :: Subj(g, x) == Subj(f, x)
    ensures forall x :: Home(g, x) == Home(f, x)
  {
  }

  lemma MovedFamilies(f: Forest, g: Forest, c: MsgId)
    requires Moved(f, g, c) && Families(f)
    requires Parent(g, c).Some? && Subj(f, c).Some? && Subj(f, Parent(g, c).value).Some? ==>
               Home(f, c) == Home(f, Parent(g, c).value)
    ensures Families(g)
  {
    SameThreadHomes(f, g);
    forall x | Parent(g, x).Some? && Subj(g, x).Some? && Subj(g, Parent(g, x).value).Some?
      ensures Home(g, x) == Home(g, Parent(g, x).value)
    {
      if x != c { assert Parent(f, x) == Parent(g, x); }
    }
  }

  lemma MovedThreads(f: Forest, g: Forest, c: MsgId)
    requires Moved(f, g, c) && Threads(f)
    ensures Threads(g)
  {
    assert Subj(f, c).Some? ==> Subj(f, c).value in f.thread;
  }

  lemma MovedClosed(f: Forest, g: Forest, c: MsgId)
    requires Moved(f, g, c) && Closed(f)
    requires Parent(g, c).Some? ==> Parent(g, c).value in f.nodes
    ensures Closed(g)
  {
  }

  /** Taking an article out leaves the others well kept. */
  lemma ReleaseWell(f: Forest, c: MsgId, loose: set<MsgId>)
    requires Well(f, loose) && Acyclic(Up(f)) && c in f.nodes && (Placed(f, c) || Free(f, c))
    ensures var g := Release(f, c);
            && Moved(f, g, c) && Well(g, loose + {c}) && Acyclic(Up(g)) && Free(g, c) && Parent(g, c) == None
            && Up(g) == Up(f) - {c}
  {
    var g := Release(f, c);
    ReleaseEffect(f, c);
    MovedPlacing(f, g, c, loose);
    MovedHomes(f, g, c);
    MovedFamilies(f, g, c);
    MovedThreads(f, g, c);
    MovedClosed(f, g, c);
    CutKeepsAcyclic(Up(f), {c});
  }
}

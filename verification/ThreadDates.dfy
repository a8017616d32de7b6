// Date order over whole steps.
module ThreadDates {
  import opened Options
  import opened Paths
  import opened ThreadSpec
  import opened ThreadLists
  import opened ThreadSafety
  import opened ThreadDetach
  import opened ThreadWalk
  import opened ThreadSettle
  import opened ThreadForest
  import opened ThreadOrder

  ghost predicate KidsSorted(f: Forest, p: MsgId) {
    ByDate(f, Kids(f, p))
  }

  ghost predicate RootsSorted(f: Forest, k: SubjName) {
    ByDate(f, Roots(f, k))
  }

  ghost predicate AllKidsSorted(f: Forest) {
    forall p :: KidsSorted(f, p)
  }

  ghost predicate AllRootsSorted(f: Forest) {
    forall k :: RootsSorted(f, k)
  }

  /** Sorted lists stay sorted; with `both`, root lists that are not sorted stay so too. */
  ghost predicate SameOrder(f: Forest, g: Forest, both: bool) {
    && (forall p :: KidsSorted(f, p) ==> KidsSorted(g, p))
    && (forall k :: RootsSorted(f, k) ==> RootsSorted(g, k))
    && (both ==> forall k :: RootsSorted(g, k) ==> RootsSorted(f, k))
  }

  lemma SameOrderTrans(f: Forest, h: Forest, g: Forest, both: bool)
    requires SameOrder(f, h, both) && SameOrder(h, g, both)
    ensures SameOrder(f, g, both)
  {
  }

  lemma DatesOnly(f: Forest, g: Forest, list: seq<MsgId>)
    requires forall x | x in list :: Date(g, x) == Date(f, x)
    ensures ByDate(g, list) <==> ByDate(f, list)
  {
  }

  /** Only dates of articles in no list may differ. */
  lemma FieldOrder(f: Forest, g: Forest)
    requires (forall p :: Kids(g, p) == Kids(f, p)) && (forall k :: Roots(g, k) == Roots(f, k))
    requires forall x :: Date(g, x) == Date(f, x) || Free(f, x)
    ensures SameOrder(f, g, true)
  {
    hide ByDate, Date;
    forall p ensures KidsSorted(g, p) <==> KidsSorted(f, p) { DatesOnly(f, g, Kids(f, p)); }
    forall k ensures RootsSorted(g, k) <==> RootsSorted(f, k) { DatesOnly(f, g, Roots(f, k)); }
  }

  lemma PutOrder(f: Forest, x: MsgId, n: Node)
    requires n.kids == Kids(f, x) && (n.date == Date(f, x) || Free(f, x))
    ensures SameOrder(f, Put(f, x, n), true)
  {
    PutEffect(f, x, n);
    FieldOrder(f, Put(f, x, n));
  }

  /** One child list changes. */
  lemma SetKidsOrder(f: Forest, p: MsgId, kids: seq<MsgId>)
    requires ByDate(f, Kids(f, p)) ==> ByDate(f, kids)
    ensures SameOrder(f, SetKids(f, p, kids), true)
  {
    hide ByDate;
    var g := SetKids(f, p, kids);
    PutEffect(f, p, At(f, p).(kids := kids));
    forall q ensures KidsSorted(f, q) ==> KidsSorted(g, q) {
      DatesOnly(f, g, if q == p then kids else Kids(f, q));
    }
    forall k ensures RootsSorted(g, k) <==> RootsSorted(f, k) { DatesOnly(f, g, Roots(f, k)); }
  }

  /** One root list changes. */
  lemma SetRootsOrder(f: Forest, k: SubjName, roots: seq<MsgId>, both: bool)
    requires ByDate(f, Roots(f, k)) ==> ByDate(f, roots)
    requires both ==> (ByDate(f, roots) ==> ByDate(f, Roots(f, k)))
    ensures SameOrder(f, SetRoots(f, k, roots), both)
  {
    hide ByDate;
    var g := SetRoots(f, k, roots);
    SetRootsEffect(f, k, roots);
    forall q ensures KidsSorted(f, q) ==> KidsSorted(g, q) { DatesOnly(f, g, Kids(f, q)); }
    forall j ensures RootsSorted(f, j) ==> RootsSorted(g, j)
      ensures both ==> RootsSorted(g, j) ==> RootsSorted(f, j)
    {
      DatesOnly(f, g, if j == k then roots else Roots(f, j));
    }
  }

  lemma LinkOrder(f: Forest, c: MsgId)
    ensures SameOrder(f, LinkChild(f, c), true)
  {
    match Parent(f, c)
    case Some(p) =>
      InsertOrder(f, Kids(f, p), c);
      SetKidsOrder(f, p, InsertByDate(f, Kids(f, p), c));
    case None =>
      if Home(f, c).Some? {
        var k := Home(f, c).value;
        InsertOrder(f, Roots(f, k), c);
        SetRootsOrder(f, k, InsertByDate(f, Roots(f, k), c), true);
      }
  }

  lemma UnlinkOrder(f: Forest, c: MsgId)
    ensures SameOrder(f, UnlinkChild(f, c), Parent(f, c).Some?)
  {
    match Parent(f, c)
    case Some(p) =>
      if ByDate(f, Kids(f, p)) { DropKeepsOrder(f, Kids(f, p), c); }
      SetKidsOrder(f, p, Drop(Kids(f, p), c));
    case None =>
      if Home(f, c).Some? {
        var k := Home(f, c).value;
        if ByDate(f, Roots(f, k)) { DropKeepsOrder(f, Roots(f, k), c); }
        SetRootsOrder(f, k, Drop(Roots(f, k), c), false);
      }
  }

  lemma ParentOrder(f: Forest, c: MsgId, p: Option<MsgId>)
    ensures SameOrder(f, SetParent(f, c, p), true)
  {
    PutOrder(f, c, At(f, c).(parent := p));
  }

  lemma SubjOrder(f: Forest, c: MsgId, s: Option<SubjName>)
    ensures SameOrder(f, SetSubj(f, c, s), true)
  {
    PutOrder(f, c, At(f, c).(subj := s));
  }

  lemma ReleaseOrder(f: Forest, c: MsgId)
    ensures SameOrder(f, Release(f, c), Parent(f, c).Some?)
  {
    UnlinkOrder(f, c);
    ParentOrder(UnlinkChild(f, c), c, None);
  }

  lemma AttachOrder(f: Forest, prev: MsgId, id: MsgId, re: bool)
    ensures SameOrder(f, Attach(f, prev, id, re), !re)
  {
    var f1 := if re && Subj(f, prev).Some? then UnlinkChild(f, prev) else f;
    if re && Subj(f, prev).Some? { UnlinkOrder(f, prev); }
    ParentOrder(f1, prev, Some(id));
    LinkOrder(SetParent(f1, prev, Some(id)), prev);
  }

  lemma GetOrder(f: Forest, id: MsgId)
    ensures SameOrder(f, GetArticle(f, id), true)
  {
    GetSame(f, id);
    FieldOrder(f, GetArticle(f, id));
  }

  // ----- the walk

  lemma BlankOrder(f: Forest, m: MsgId, chain: seq<MsgId>, re: bool, id: MsgId, d: int)
    requires Walking(SetDate(f, id, d), m, chain, re) && |chain| > 1 && chain[|chain| - 1] == id
    ensures SameOrder(f, SetDate(f, id, d), true)
  {
    var g := SetDate(f, id, d);
    PutEffect(f, id, At(f, id).(date := d));
    WalkPrev(g, m, chain, re);
    assert forall p :: Kids(g, p) == Kids(f, p);
    PutOrder(f, id, At(f, id).(date := d));
  }

  lemma {:induction false} WalkOrder(f: Forest, m: MsgId, refs: seq<MsgId>, chain: seq<MsgId>, re: bool)
    requires |chain| > 0 && Walking(f, m, chain, re) && Unrepeated(f, m, refs, chain)
    ensures SameOrder(f, Walk(f, m, refs, chain[|chain| - 1], TopOf(chain), re).forest, !re)
    decreases |refs|
  {
    hide Walking, Unrepeated, Hung, Walk, Attach, GetArticle, SetDate, SameOrder;
    if refs == [] {
      WalkNone(f, m, chain[|chain| - 1], TopOf(chain), re);
    } else {
      var id, rest, prev := refs[|refs| - 1], refs[..|refs| - 1], chain[|chain| - 1];
      var f1 := GetArticle(f, id);
      GetOrder(f, id);
      OneWay(f, f1, !re);
      if Passed(f, m, id) {
        var h := IterPassed(f, m, refs, chain, re);
        WalkOrder(h, m, rest, chain, re);
        SameOrderTrans(f, h, Walk(h, m, rest, prev, TopOf(chain), re).forest, !re);
      } else {
        AttachOrder(f1, prev, id, re);
        SameOrderTrans(f, f1, Attach(f1, prev, id, re), !re);
        if Subj(f, id).Some? {
          var h := IterKnown(f, m, refs, chain, re);
        } else {
          var h := IterBlank(f, m, refs, chain, re);
          BlankOrder(Attach(f1, prev, id, re), m, chain + [id], re, id, Date(f, m));
          OneWay(Attach(f1, prev, id, re), h, !re);
          SameOrderTrans(f, Attach(f1, prev, id, re), h, !re);
          WalkOrder(h, m, rest, chain + [id], re);
          SameOrderTrans(f, h, Walk(h, m, rest, id, Some(id), re).forest, !re);
        }
      }
    }
  }

  lemma WalkNone(f: Forest, m: MsgId, prev: MsgId, last: Option<MsgId>, re: bool)
    ensures Walk(f, m, [], prev, last, re) == Walked(f, last) && SameOrder(f, f, !re)
  {
  }

  lemma OneWay(f: Forest, g: Forest, both: bool)
    requires SameOrder(f, g, true)
    ensures SameOrder(f, g, both)
  {
  }

  // ----- the chain's thread

  lemma {:induction false} NameOrder(f: Forest, x: Option<MsgId>, s: SubjName)
    ensures SameOrder(f, NameFakes(f, x, s), true)
    decreases Unknown(f)
  {
    if x.Some? && x.value in f.nodes && Subj(f, x.value).None? {
      var h := SetSubj(f, x.value, Some(s));
      SubjOrder(f, x.value, Some(s));
      assert x.value in Unknown(f) && Unknown(h) == Unknown(f) - {x.value};
      NameOrder(h, Parent(f, x.value), s);
      SameOrderTrans(f, h, NameFakes(f, x, s), true);
    }
  }

  lemma CutOrder(f: Forest, m: MsgId, x: Option<MsgId>)
    ensures SameOrder(f, CutLoop(f, m, x), true)
  {
    if x.Some? && x.value != m && Grounded(Up(f) - {m}, x.value) {
      match LinkTo(Up(f), x.value, m)
      case None =>
      case Some(c) =>
        UpMeans(f);
        ReleaseOrder(f, c);
        LinkOrder(Release(f, c), c);
    }
  }

  lemma RootingOrder(f: Forest, m: MsgId, s: SubjName)
    ensures SameOrder(f, CutLoop(NameFakes(f, Parent(f, m), s), m, NamedUpTo(f, Parent(f, m), s)), true)
  {
    NameOrder(f, Parent(f, m), s);
    CutOrder(NameFakes(f, Parent(f, m), s), m, NamedUpTo(f, Parent(f, m), s));
  }

  /** Root lists other than that of `k2` are sorted as before; that one is gone when the threads were two. */
  lemma JoinOrder(f: Forest, s1: SubjName, s2: SubjName)
    ensures var g, k1, k2 := JoinThreads(f, s1, s2), ThreadOf(f, s1), ThreadOf(f, s2);
      && (forall p :: KidsSorted(g, p) <==> KidsSorted(f, p))
        && (forall k | k != k2 :: RootsSorted(g, k) <==> RootsSorted(f, k))
      && (RootsSorted(g, k2) <==> RootsSorted(f, k2) || Head(f, k1) != Head(f, k2))
  {
    hide ByDate;
    var g, k1, k2 := JoinThreads(f, s1, s2), ThreadOf(f, s1), ThreadOf(f, s2);
    if Head(f, k1) != Head(f, k2) {
      MergeSorts(f, s1, s2);
      assert forall x :: Date(g, x) == Date(f, x);
      forall p ensures KidsSorted(g, p) <==> KidsSorted(f, p) {
        assert Kids(g, p) == Kids(f, p);
        DatesOnly(f, g, Kids(f, p));
      }
      forall k | k != k2 ensures RootsSorted(g, k) <==> RootsSorted(f, k) {
        if k != k1 { DatesOnly(f, g, Roots(f, k)); }
      }
      assert RootsSorted(g, k2) by { EmptySorted(g); }
    }
  }

  lemma EmptySorted(f: Forest)
    ensures ByDate(f, [])
  {
  }

  // ----- the first known article of the line

  /** The first article from the right, other than the line's own, whose subject is known. */
  function KnownRef(f: Forest, m: MsgId, refs: seq<MsgId>): Option<MsgId>
    decreases |refs|
  {
    if refs == [] then None
    else
      var id, rest := refs[|refs| - 1], refs[..|refs| - 1];
      if id != m && Subj(f, id).Some? then Some(id) else KnownRef(f, m, rest)
  }

  lemma {:induction false} KnownSame(f: Forest, g: Forest, m: MsgId, refs: seq<MsgId>)
    requires forall x | x != m :: Subj(g, x) == Subj(f, x)
    ensures KnownRef(g, m, refs) == KnownRef(f, m, refs)
    decreases |refs|
  {
    if refs != [] { KnownSame(f, g, m, refs[..|refs| - 1]); }
  }

  /** The walk ends at the first known article, if there is one. */
  ghost predicate EndsAt(w: Walked, known: Option<MsgId>) {
    known == if w.last.Some? && Subj(w.forest, w.last.value).Some? then w.last else None
  }

  lemma {:induction false} WalkKnown(f: Forest, m: MsgId, refs: seq<MsgId>, prev: MsgId, last: Option<MsgId>, re: bool)
    requires (last.Some? ==> Subj(f, last.value).None?) && (prev == m || Subj(f, prev).None?)
    ensures EndsAt(Walk(f, m, refs, prev, last, re), KnownRef(f, m, refs))
    ensures forall x :: Home(Walk(f, m, refs, prev, last, re).forest, x) == Home(f, x)
    decreases |refs|
  {
    hide Attach, LinkChild, UnlinkChild, Date, SetDate;
    if refs != [] {
      var id, rest := refs[|refs| - 1], refs[..|refs| - 1];
      var f1 := GetArticle(f, id);
      GetSame(f, id);
      assert Subj(f1, id) == Subj(f, id);
      SameThreadHomes(f, f1) by { assert forall x :: Subj(f1, x) == Subj(f, x); }
      if Passed(f1, m, id) {
        KnownSame(f, f1, m, rest);
        WalkKnown(f1, m, rest, prev, if prev == m then None else Some(prev), re);
      } else {
        var f2 := Attach(f1, prev, id, re);
        AttachSubjects(f1, prev, id, re);
        AttachThreads(f1, prev, id, re);
        SameThreadHomes(f1, f2);
        if Subj(f1, id).None? {
          var f3 := SetDate(f2, id, Date(f2, m));
          DateSubjects(f2, id, Date(f2, m));
          KnownSame(f, f3, m, rest);
          SameThreadHomes(f2, f3);
          WalkKnown(f3, m, rest, id, Some(id), re);
        }
      }
    }
  }

  lemma AttachThreads(f: Forest, prev: MsgId, id: MsgId, re: bool)
    ensures Attach(f, prev, id, re).thread == f.thread
  {
  }

  lemma DateSubjects(f: Forest, x: MsgId, d: int)
    ensures (forall y :: Subj(SetDate(f, x, d), y) == Subj(f, y)) && SetDate(f, x, d).thread == f.thread
  {
    PutEffect(f, x, At(f, x).(date := d));
  }

  /** The article ends up below a known one of another thread, whose root list takes in its own. */
  ghost predicate Absorbed(f: Forest, m: MsgId, refs: seq<MsgId>) {
    KnownRef(f, m, refs).Some? && Home(f, KnownRef(f, m, refs).value) != Home(f, m)
  }

  /** Root lists are sorted as before, but that of the article's thread `k` also when it was taken in. */
  ghost predicate Sorts(f: Forest, g: Forest, k: SubjName, absorbed: bool, both: bool) {
    && (forall p :: KidsSorted(f, p) ==> KidsSorted(g, p))
    && (forall j :: RootsSorted(f, j) ==> RootsSorted(g, j))
    && (absorbed ==> RootsSorted(g, k))
    && (both ==> forall j | j != k || !absorbed :: RootsSorted(g, j) ==> RootsSorted(f, j))
  }

  lemma SortsThen(f: Forest, h: Forest, g: Forest, k: SubjName, absorbed: bool, both: bool)
    requires SameOrder(f, h, both) && Sorts(h, g, k, absorbed, both)
    ensures Sorts(f, g, k, absorbed, both)
  {
  }

  lemma ThenSame(f: Forest, h: Forest, g: Forest, k: SubjName, absorbed: bool, both: bool)
    requires Sorts(f, h, k, absorbed, both) && SameOrder(h, g, both)
    ensures Sorts(f, g, k, absorbed, both)
  {
  }

  lemma SameSorts(f: Forest, g: Forest, k: SubjName, both: bool)
    requires SameOrder(f, g, both)
    ensures Sorts(f, g, k, false, both)
  {
  }

  /** Settling below a known article. */
  lemma SettleKnownOrder(f: Forest, m: MsgId, chain: seq<MsgId>, x: MsgId, both: bool)
    requires Hung(f, m, chain, x)
    ensures Sorts(f, Settle(f, m, x), Home(f, m).value, Home(f, x) != Home(f, m), both)
  {
    hide KidsSorted, RootsSorted, Roots, ByDate;
    var s, t := Subj(f, m).value, Subj(f, x).value;
    var g := JoinThreads(f, t, s);
    HungHeads(f, m, chain, x);
    if Home(f, x) != Home(f, m) { HeadsTell(f, t, s); }
    JoinOrder(f, t, s);
    JoinKeepsSubj(f, t, s, m);
    RootingOrder(g, m, s);
    OneWay(g, Settle(f, m, x), both);
    assert Sorts(f, g, Home(f, m).value, Home(f, x) != Home(f, m), both);
    ThenSame(f, g, Settle(f, m, x), Home(f, m).value, Home(f, x) != Home(f, m), both);
  }

  /** Settling as a thread of its own. */
  lemma SettleNewOrder(f: Forest, m: MsgId, x: MsgId, both: bool)
    requires Subj(f, m).Some? && Subj(f, x).None?
    ensures SameOrder(f, Settle(f, m, x), both)
  {
    hide SameOrder, LinkChild;
    var s := Subj(f, m).value;
    var h := SetSubj(f, x, Some(s));
    SubjOrder(f, x, Some(s));
    LinkOrder(h, x);
    RootKeepsSubj(f, x, Some(s), m);
    RootingOrder(LinkChild(h, x), m, s);
    SameOrderTrans(f, h, LinkChild(h, x), true);
    SameOrderTrans(f, LinkChild(h, x), Settle(f, m, x), true);
    OneWay(f, Settle(f, m, x), both);
  }

  lemma EndSubject(w: Walked, m: MsgId, chain: seq<MsgId>, re: bool)
    requires WalkEnd(w, m, chain, re)
    ensures Subj(w.forest, m).Some?
  {
  }

  /** From the references on. */
  lemma FinishOrder(f: Forest, m: MsgId, refs: seq<MsgId>, re: bool)
    requires Ready(f, m, re) && Datable(f, m, refs)
    ensures Subj(f, m).Some? && Sorts(f, Finish(f, m, refs, re), Home(f, m).value, Absorbed(f, m, refs), !re)
  {
    hide SameOrder, Sorts, Hung, Walking, Settle, Walk, KnownRef;
    StartWalking(f, m, re);
    FreshNotOwn(f, m, refs);
    var chain := WalkEnds(f, m, refs, [m], re);
    var w := Walk(f, m, refs, m, None, re);
    WalkOrder(f, m, refs, [m], re);
    WalkKnown(f, m, refs, m, None, re);
    EndSubject(w, m, chain, re);
    var k, g := Home(f, m).value, Finish(f, m, refs, re);
    match w.last
    case Some(x) =>
      if Subj(w.forest, x).Some? {
        SettleKnownOrder(w.forest, m, chain, x, !re);
        SortsThen(f, w.forest, g, k, Absorbed(f, m, refs), !re);
      } else {
        SettleNewOrder(w.forest, m, x, !re);
        SameOrderTrans(f, w.forest, g, !re);
        SameSorts(f, g, k, !re);
      }
    case None =>
      if !re {
        LinkOrder(w.forest, m);
        SameOrderTrans(f, w.forest, g, !re);
      }
      SameSorts(f, g, k, !re);
  }

  // ----- a fake's place given up

  lemma ForgetOrder(f: Forest, m: MsgId, p: MsgId)
    requires Loose(f, m) && Spent(f, Some(p))
    ensures SameOrder(f, Forget(f, p), false)
  {
    hide SameOrder;
    SpentPlaced(f, m, p);
    ReleaseEffect(f, p);
    var h := Release(f, p);
    ReleaseOrder(f, p);
    OneWayOnly(f, h);
    PutOrder(h, p, At(h, p).(date := 0));
    SubjOrder(SetDate(h, p, 0), p, None);
    OneWay(h, SetDate(h, p, 0), false);
    OneWay(SetDate(h, p, 0), Forget(f, p), false);
    SameOrderTrans(f, h, SetDate(h, p, 0), false);
    SameOrderTrans(f, SetDate(h, p, 0), Forget(f, p), false);
  }

  lemma OneWayOnly(f: Forest, g: Forest)
    requires SameOrder(f, g, false) || SameOrder(f, g, true)
    ensures SameOrder(f, g, false)
  {
  }

  lemma {:induction false} ShedOrder(f: Forest, m: MsgId, p: Option<MsgId>)
    requires Loose(f, m)
    ensures SameOrder(f, ShedChain(f, p), false)
    decreases Known(f)
  {
    if Spent(f, p) {
      var h := Forget(f, p.value);
      ForgetOrder(f, m, p.value);
      ForgetLoose(f, m, p.value);
      ForgetKnown(f, p.value);
      ShedOrder(h, m, Parent(f, p.value));
      SameOrderTrans(f, h, ShedChain(f, p), false);
    }
  }

  /** Without `m` the lists of a sorted forest are sorted whatever date `m` has got. */
  lemma WithoutSorted(f: Forest, e: Forest, list: seq<MsgId>, m: MsgId)
    requires ByDate(f, list) && Distinct(list) && forall x | x != m :: Date(e, x) == Date(f, x)
    ensures ByDate(e, Drop(list, m)) && (m !in list ==> ByDate(e, list))
  {
    DropKeepsOrder(f, list, m);
    DropMembers(list, m);
    DatesOnly(f, e, Drop(list, m));
  }

  /** The child lists of a released article's forest. */
  lemma ReleasedKids(h: Forest, m: MsgId, p: MsgId)
    requires Lists(h) && Placed(h, m)
    ensures Kids(Release(h, m), p) == Drop(Kids(h, p), m)
  {
    UnlinkedKids(h, m, p);
    PutEffect(UnlinkChild(h, m), m, At(UnlinkChild(h, m), m).(parent := None));
    DropMembers(Kids(h, p), m);
  }

  lemma UnlinkedKids(h: Forest, m: MsgId, p: MsgId)
    requires Lists(h) && Placed(h, m)
    ensures Kids(UnlinkChild(h, m), p) == if Parent(h, m) == Some(p) then Drop(Kids(h, p), m) else Kids(h, p)
    ensures Parent(h, m) != Some(p) ==> m !in Kids(h, p)
  {
    PlacedOnce(h, m);
  }

  lemma ReleasedRoots(h: Forest, m: MsgId, k: SubjName)
    requires Lists(h) && Placed(h, m)
    ensures Roots(Release(h, m), k) == Drop(Roots(h, k), m)
  {
    PlacedOnce(h, m);
    DropMembers(Roots(h, k), m);
    PutEffect(UnlinkChild(h, m), m, At(UnlinkChild(h, m), m).(parent := None));
  }

  /** What is true once the article has taken the fake's place and the threads are joined. */
  lemma JoinedFacts(f: Forest, m: MsgId, d: int, s: SubjName, had: SubjName)
    requires WellFormed(f) && m in f.nodes && Subj(f, m) == Some(had) && s in f.thread
    ensures var h := JoinThreads(Taken(f, m, d, s), had, s);
      && Lists(h) && Placed(h, m)
        && (forall p :: Kids(h, p) == Kids(f, p)) && (forall x | x != m :: Date(h, x) == Date(f, x)) && Date(h, m) == d
      && Parent(h, m) == Parent(f, m) && (forall p :: Distinct(Kids(f, p))) && (forall k :: Distinct(Roots(f, k)))
  {
    hide JoinThreads;
    TakenJoined(f, m, d, s, had);
    TakenFields(f, m, d, s);
    var h := JoinThreads(Taken(f, m, d, s), had, s);
    assert forall x :: At(h, x) == At(Taken(f, m, d, s), x);
    assert At(h, m) != BLANK;
  }

  lemma TakenKidsSorted(f: Forest, m: MsgId, d: int, s: SubjName, had: SubjName)
    requires WellFormed(f) && m in f.nodes && Subj(f, m) == Some(had) && s in f.thread && AllKidsSorted(f)
    ensures AllKidsSorted(Detach(Taken(f, m, d, s), m, had))
  {
    hide WellFormed, JoinThreads, Release, ShedChain, SameOrder, ByDate, Lists, Placed;
    var h := JoinThreads(Taken(f, m, d, s), had, s);
    var r := Release(h, m);
    JoinedFacts(f, m, d, s, had);
    TakenReleased(f, m, d, s, had);
    ReleasedDates(h, m);
    forall p ensures KidsSorted(r, p) {
      assert KidsSorted(f, p);
      WithoutSorted(f, r, Kids(f, p), m);
      ReleasedKids(h, m, p);
    }
    ShedOrder(r, m, Parent(h, m));
    SortedThrough(r, ShedChain(r, Parent(h, m)));
    TakenSubject(f, m, d, s);
  }

  lemma TakenSubject(f: Forest, m: MsgId, d: int, s: SubjName)
    ensures Subj(Taken(f, m, d, s), m) == Some(s) && Date(Taken(f, m, d, s), m) == d
  {
    PutEffect(f, m, At(f, m).(date := d, fake := false, subj := Some(s), threaded := true));
  }

  lemma SortedThrough(f: Forest, g: Forest)
    requires SameOrder(f, g, false)
    ensures AllKidsSorted(f) ==> AllKidsSorted(g)
    ensures AllRootsSorted(f) ==> AllRootsSorted(g)
  {
  }

  lemma ReleasedDates(h: Forest, m: MsgId)
    ensures forall x :: Date(Release(h, m), x) == Date(h, x)
  {
    var u := UnlinkChild(h, m);
    assert forall x :: Date(u, x) == Date(h, x);
    PutEffect(u, m, At(u, m).(parent := None));
  }

  ghost predicate Behind(list: seq<MsgId>, m: MsgId, y: MsgId) {
    exists i, j | 0 <= i < j < |list| :: list[i] == m && list[j] == y
  }

  /** A root of thread `k2` is dated between one behind the root `m` of thread `k1` and the new date of `m`. */
  ghost predicate Misfit(f: Forest, m: MsgId, d: int, k1: SubjName, k2: SubjName) {
    && Parent(f, m).None? && k1 != k2
    && exists x, y | x in Roots(f, k2) && Behind(Roots(f, k1), m, y) :: Date(f, y) < Date(f, x) < d
  }

  lemma BehindSlice(list: seq<MsgId>, i: nat, y: MsgId)
    requires i < |list| && Distinct(list)
    ensures Behind(list, list[i], y) <==> y in list[i + 1..]
  {
    if y in list[i + 1..] {
      var j :| 0 <= j < |list[i + 1..]| && list[i + 1..][j] == y;
      assert list[i + 1 + j] == y;
    }
    if Behind(list, list[i], y) {
      var p, q :| 0 <= p < q < |list| && list[p] == list[i] && list[q] == y;
      assert list[i + 1..][q - i - 1] == y;
    }
  }

  lemma MisfitIs(f: Forest, e: Forest, m: MsgId, d: int, k1: SubjName, k2: SubjName, i: nat)
    requires i < |Roots(f, k1)| && Roots(f, k1)[i] == m && Distinct(Roots(f, k1)) && Parent(f, m).None? && k1 != k2
      && m !in Roots(f, k2)
    requires (forall x | x != m :: Date(e, x) == Date(f, x)) && Date(e, m) == d
    ensures Misfit(f, m, d, k1, k2) <==> SomeBetween(e, Roots(f, k2), m, Roots(f, k1)[i + 1..])
  {
    hide Date, Roots, Behind;
    var behind := Roots(f, k1)[i + 1..];
    forall y ensures Behind(Roots(f, k1), m, y) <==> y in behind { BehindSlice(Roots(f, k1), i, y); }
    forall j | 0 <= j < |behind| ensures behind[j] != m {
      assert behind[j] == Roots(f, k1)[i + 1 + j];
    }
    if Misfit(f, m, d, k1, k2) {
      var x, y :| x in Roots(f, k2) && Behind(Roots(f, k1), m, y) && Date(f, y) < Date(f, x) < d;
      assert Between(e, x, m, behind);
    }
  }

  /** The roots of two threads in one list, and the article that was out of place gone. */
  lemma MergedAround(f: Forest, e: Forest, m: MsgId, d: int, k1: SubjName, k2: SubjName, i: nat)
    requires i < |Roots(f, k1)| && Roots(f, k1)[i] == m && Distinct(Roots(f, k1)) && Parent(f, m).None? && k1 != k2
      && m !in Roots(f, k2)
    requires (forall x | x != m :: Date(e, x) == Date(f, x)) && Date(e, m) == d && ByDate(f, Roots(f, k1))
    ensures ByDate(e, Drop(InsertAll(e, Roots(f, k1), Roots(f, k2)), m)) <==> !Misfit(f, m, d, k1, k2)
  {
    hide ByDate, Misfit, SomeBetween, Roots, Date, InsertAll;
    var list := Roots(f, k1);
    var a, b := list[..i], list[i + 1..];
    assert list == a + [m] + b;
    assert m !in a && m !in b;
    OrderWithout(f, a, m, b);
    DatesOnly(f, e, a + b);
    InsertAllAround(e, a, m, b, Roots(f, k2));
    MisfitIs(f, e, m, d, k1, k2, i);
  }

  lemma RootsApart(f: Forest, m: MsgId, k: SubjName)
    requires WellFormed(f) && m in f.nodes && Subj(f, m).Some?
    ensures Distinct(Roots(f, k)) && (m in Roots(f, k) <==> Parent(f, m).None? && Home(f, m) == Some(k))
  {
    assert Placed(f, m);
    PlacedOnce(f, m);
  }

  /** The root lists after the join and the release. */
  lemma RootsThen(f: Forest, m: MsgId, d: int, s: SubjName, had: SubjName, k: SubjName)
    requires WellFormed(f) && m in f.nodes && Subj(f, m) == Some(had) && s in f.thread
    ensures var e := Taken(f, m, d, s); var h := JoinThreads(e, had, s); var k1, k2 := ThreadOf(f, had), ThreadOf(f, s);
      Roots(Release(h, m), k) == Drop(if Head(e, k1) == Head(e, k2) then Roots(f, k) else if k == k1
        then InsertAll(e, Roots(f, k1), Roots(f, k2))
                                      else if k == k2 then [] else Roots(f, k), m)
  {
    hide Release, WellFormed, Placed, Lists;
    var e := Taken(f, m, d, s);
    TakenFields(f, m, d, s);
    JoinedFacts(f, m, d, s, had);
    ReleasedRoots(JoinThreads(e, had, s), m, k);
  }

  /** Which root lists are sorted once a root has taken the fake's place and left it. */
  lemma RootTakenSorted(f: Forest, m: MsgId, d: int, s: SubjName, had: SubjName, k: SubjName)
    requires WellFormed(f) && m in f.nodes && Subj(f, m) == Some(had) && s in f.thread && AllRootsSorted(f)
      && Parent(f, m).None?
    ensures var r, k1, k2 := Release(JoinThreads(Taken(f, m, d, s), had, s), m), ThreadOf(f, had), ThreadOf(f, s);
      RootsSorted(r, k) <==> k != k1 || !Misfit(f, m, d, k1, k2)
  {
    hide Release, WellFormed, JoinThreads, Misfit, ByDate, InsertAll, Taken;
    var e := Taken(f, m, d, s);
    var h := JoinThreads(e, had, s);
    var r, k1, k2 := Release(h, m), ThreadOf(f, had), ThreadOf(f, s);
    TakenFields(f, m, d, s);
    TakenSubject(f, m, d, s);
    JoinedFacts(f, m, d, s, had);
    ReleasedDates(h, m);
    RootsThen(f, m, d, s, had, k);
    RootsApart(f, m, k);
    RootsApart(f, m, k1);
    RootsApart(f, m, k2);
    assert RootsSorted(f, k) && RootsSorted(f, k1);
    WithoutSorted(f, r, Roots(f, k), m);
    HeadsOfTwo(f, e, m, k1, k2);
    if k == k1 && k1 != k2 {
      var i :| 0 <= i < |Roots(f, k1)| && Roots(f, k1)[i] == m;
      MergedAround(f, e, m, d, k1, k2, i);
      DatesOnly(e, r, Drop(InsertAll(e, Roots(f, k1), Roots(f, k2)), m));
    } else if k == k2 && k1 != k2 {
      EmptySorted(r);
    } else if k1 == k2 {
      NoMisfit(f, m, d, k1);
    }
  }

  lemma NoMisfit(f: Forest, m: MsgId, d: int, k: SubjName)
    ensures !Misfit(f, m, d, k, k)
  {
  }

  lemma HeadsOfTwo(f: Forest, e: Forest, m: MsgId, k1: SubjName, k2: SubjName)
    requires WellFormed(f) && m in Roots(f, k1) && (forall k :: Roots(e, k) == Roots(f, k))
    ensures Head(e, k1) == Head(e, k2) <==> k1 == k2
  {
    if k1 != k2 && Roots(f, k2) != [] {
      assert Roots(f, k1)[0] in Roots(f, k1) && Roots(f, k2)[0] in Roots(f, k2);
    }
  }

  /** Which root lists are sorted once an article has taken the fake's place and given it up. */
  lemma TakenRootsSorted(f: Forest, m: MsgId, d: int, s: SubjName, had: SubjName)
    requires WellFormed(f) && m in f.nodes && Subj(f, m) == Some(had) && s in f.thread && AllRootsSorted(f)
    ensures var g, k1, k2 := Detach(Taken(f, m, d, s), m, had), ThreadOf(f, had), ThreadOf(f, s);
      forall k :: RootsSorted(g, k) <==> k != k1 || !Misfit(f, m, d, k1, k2)
  {
    hide WellFormed, JoinThreads, Release, ShedChain, SameOrder, ByDate, Lists, Placed, Misfit, Taken;
    var e := Taken(f, m, d, s);
    var h := JoinThreads(e, had, s);
    JoinedFacts(f, m, d, s, had);
    TakenSubject(f, m, d, s);
    if Parent(f, m).None? {
      ShedNothing(Release(h, m));
      forall k ensures RootsSorted(Release(h, m), k) <==>
        k != ThreadOf(f, had) || !Misfit(f, m, d, ThreadOf(f, had), ThreadOf(f, s)) {
        RootTakenSorted(f, m, d, s, had, k);
      }
    } else {
      ChildFits(f, m, d, ThreadOf(f, had), ThreadOf(f, s));
      ChildTakenSorted(f, m, d, s, had);
      TakenReleased(f, m, d, s, had);
      ShedOrder(Release(h, m), m, Parent(h, m));
      SortedThrough(Release(h, m), ShedChain(Release(h, m), Parent(h, m)));
    }
  }

  lemma ShedNothing(f: Forest)
    ensures ShedChain(f, None) == f
  {
  }

  lemma ChildFits(f: Forest, m: MsgId, d: int, k1: SubjName, k2: SubjName)
    requires Parent(f, m).Some?
    ensures !Misfit(f, m, d, k1, k2)
  {
  }

  /** A child in the fake's place disturbs no root list. */
  lemma ChildTakenSorted(f: Forest, m: MsgId, d: int, s: SubjName, had: SubjName)
    requires WellFormed(f) && m in f.nodes && Subj(f, m) == Some(had) && s in f.thread && AllRootsSorted(f)
      && Parent(f, m).Some?
    ensures AllRootsSorted(Release(JoinThreads(Taken(f, m, d, s), had, s), m))
  {
    hide WellFormed, JoinThreads, Release, SameOrder, ByDate, Taken, UnlinkChild;
    var e := Taken(f, m, d, s);
    var h := JoinThreads(e, had, s);
    TakenFields(f, m, d, s);
    forall k ensures RootsSorted(e, k) {
      assert RootsSorted(f, k);
      RootsApart(f, m, k);
      WithoutSorted(f, e, Roots(f, k), m);
    }
    JoinOrder(e, had, s);
    forall k ensures RootsSorted(h, k) { assert RootsSorted(e, k); }
    ReleaseOrder(h, m);
    OneWayOrBoth(h, Release(h, m), Parent(h, m).Some?);
    SortedThrough(h, Release(h, m));
  }

  lemma OneWayOrBoth(f: Forest, g: Forest, both: bool)
    requires SameOrder(f, g, both)
    ensures SameOrder(f, g, false)
  {
  }

  // ----- whole steps

  /** Every list of siblings is in date order. */
  ghost predicate Ordered(f: Forest) {
    AllKidsSorted(f) && AllRootsSorted(f)
  }

  /** The article replaces the fake root of a thread that its subject does not belong to, and a root of
      its subject's thread is dated between one behind the fake and the article. */
  ghost predicate Disturbs(f: Forest, e: Event) {
    && !Rejected(f, e) && !Again(f, e) && Subj(f, e.id).Some?
    && Misfit(f, e.id, e.date, ThreadOf(f, Subj(f, e.id).value), ThreadOf(f, e.subj))
  }

  /** The article's References line names a known article of a third thread first. */
  ghost predicate Mends(f: Forest, e: Event) {
    var known := KnownRef(f, e.id, e.refs);
    known.Some? && Home(f, known.value) != Home(f, e.id) && Home(f, known.value) != Some(ThreadOf(f, e.subj))
  }

  lemma AddedOrder(f: Forest, s: SubjName)
    requires WellFormed(f)
    ensures var g := AddSubject(f, s); SameOrder(f, g, true) && (forall x :: Home(g, x) == Home(f, x))
    ensures var g := AddSubject(f, s); ThreadOf(g, s) == ThreadOf(f, s)
  {
    AddSubjectKeeps(f, s);
    var g := AddSubject(f, s);
    assert forall x :: At(g, x) == At(f, x);
    FieldOrder(f, g);
    forall x ensures Home(g, x) == Home(f, x) {
      if Subj(f, x).Some? { assert Subj(f, x).value in f.thread; }
    }
  }

  lemma SortsOrdered(f: Forest, g: Forest, k: SubjName, absorbed: bool, both: bool)
    requires Sorts(f, g, k, absorbed, both) && AllKidsSorted(f)
    ensures AllKidsSorted(g)
    ensures AllRootsSorted(f) ==> AllRootsSorted(g)
    ensures absorbed && (forall j | j != k :: RootsSorted(f, j)) ==> AllRootsSorted(g)
    ensures both && !absorbed && !RootsSorted(f, k) ==> !AllRootsSorted(g)
  {
  }

  /** An article that no known fake stood for. */
  lemma FreshOrder(f: Forest, m: MsgId, d: int, s: SubjName)
    requires WellFormed(f) && (m in f.nodes ==> Fake(f, m)) && Subj(f, m).None?
    ensures SameOrder(f, Taken(f, m, d, s), true)
  {
    assert At(f, m) == BLANK;
    BlankFree(f, m);
    PutOrder(f, m, At(f, m).(date := d, fake := false, subj := Some(s), threaded := true));
  }

  /** The step of an article that takes the place of a fake with a subject. */
  lemma TakenOrder(f: Forest, m: MsgId, d: int, s: SubjName, had: SubjName, refs: seq<MsgId>)
    requires WellFormed(f) && m in f.nodes && Subj(f, m) == Some(had) && s in f.thread && Ordered(f)
    requires var e := Detach(Taken(f, m, d, s), m, had); Ready(e, m, false) && Datable(e, m, refs)
    ensures var e := Detach(Taken(f, m, d, s), m, had);
      var g, misfit := Finish(e, m, refs, false), Misfit(f, m, d, ThreadOf(f, had), ThreadOf(f, s));
      AllKidsSorted(g) && (AllRootsSorted(g) <==> !(misfit && !Absorbed(e, m, refs)))
  {
    hide WellFormed, Misfit, Detach, Taken, Ready, Datable, Finish, Absorbed, KidsSorted, RootsSorted, Sorts;
    var e := Detach(Taken(f, m, d, s), m, had);
    var k1 := ThreadOf(f, had);
    TakenKidsSorted(f, m, d, s, had);
    TakenRootsSorted(f, m, d, s, had);
    FinishOrder(e, m, refs, false);
    TakenHomeIs(f, m, d, s, had);
    SortsOrdered(e, Finish(e, m, refs, false), k1, Absorbed(e, m, refs), true);
  }

  lemma TakenHomeIs(f: Forest, m: MsgId, d: int, s: SubjName, had: SubjName)
    requires WellFormed(f) && m in f.nodes && Subj(f, m) == Some(had) && s in f.thread
    ensures Home(Detach(Taken(f, m, d, s), m, had), m) == Some(ThreadOf(f, had))
  {
    hide WellFormed, Release, ShedChain;
    var h := JoinThreads(Taken(f, m, d, s), had, s);
    TakenJoined(f, m, d, s, had);
    TakenReleased(f, m, d, s, had);
    TakenSubject(f, m, d, s);
    ShedLoose(Release(h, m), m, Parent(h, m));
    ReleasedThreads(h, m);
    assert Home(h, m) == Some(ThreadOf(f, had));
  }

  lemma ReleasedThreads(h: Forest, m: MsgId)
    ensures Release(h, m).thread == h.thread && forall x :: Subj(Release(h, m), x) == Subj(h, x)
  {
    var u := UnlinkChild(h, m);
    assert forall x :: Subj(u, x) == Subj(h, x);
    PutEffect(u, m, At(u, m).(parent := None));
  }

  /** Being taken in by a third thread, seen before the step. */
  lemma MendsIs(f: Forest, m: MsgId, d: int, s: SubjName, had: SubjName, refs: seq<MsgId>)
    requires WellFormed(f) && m in f.nodes && Subj(f, m) == Some(had) && s in f.thread && Parent(f, m).None?
    ensures var e, known := Detach(Taken(f, m, d, s), m, had), KnownRef(f, m, refs);
      Absorbed(e, m, refs) <==>
        known.Some? && Home(f, known.value) != Home(f, m) && Home(f, known.value) != Some(ThreadOf(f, s))
  {
    hide WellFormed, Release, ShedChain, JoinThreads, Taken;
    var h := JoinThreads(Taken(f, m, d, s), had, s);
    var e := Release(h, m);
    TakenJoined(f, m, d, s, had);
    TakenFields(f, m, d, s);
    TakenSubject(f, m, d, s);
    ReleasedThreads(h, m);
    JoinedFacts(f, m, d, s, had);
    ShedNothing(e);
    JoinedSubjects(f, m, d, s, had);
    SameThreadHomes(h, e);
    KnownSame(f, e, m, refs);
    KnownOther(f, m, refs);
  }

  lemma JoinedSubjects(f: Forest, m: MsgId, d: int, s: SubjName, had: SubjName)
    ensures forall x | x != m :: Subj(JoinThreads(Taken(f, m, d, s), had, s), x) == Subj(f, x)
  {
    PutEffect(f, m, At(f, m).(date := d, fake := false, subj := Some(s), threaded := true));
    var e := Taken(f, m, d, s);
    assert forall x :: At(JoinThreads(e, had, s), x) == At(e, x);
  }

  lemma {:induction false} KnownOther(f: Forest, m: MsgId, refs: seq<MsgId>)
    ensures KnownRef(f, m, refs) != Some(m)
    decreases |refs|
  {
    if refs != [] { KnownOther(f, m, refs[..|refs| - 1]); }
  }

  /** A step keeps every list of siblings in date order, except when the article disturbs the roots of
      its thread and no third thread takes them in. */
  lemma StepOrder(f: Forest, e: Event)
    requires WellFormed(f) && Traceable(f, e) && Ordered(f)
    ensures AllKidsSorted(Step(f, e))
    ensures Ordered(Step(f, e)) <==> !(Disturbs(f, e) && !Mends(f, e))
  {
    hide WellFormed, Datable, Finish, Misfit, Detach, Taken, SameOrder, KidsSorted, RootsSorted, Ready, Absorbed,
      KnownRef, Sorts;
    var g, m := AddSubject(f, e.subj), e.id;
    AddSubjectKeeps(f, e.subj);
    AddedOrder(f, e.subj);
    KeepsOrdered(f, g);
    if !Rejected(f, e) {
      StepFinishes(f, e);
      TraceableIs(f, e);
      assert At(g, m) == At(f, m);
      if !Again(f, e) && Subj(f, m).Some? {
        var had := Subj(f, m).value;
        TakenOrder(g, m, e.date, e.subj, had, e.refs);
        SameMisfit(f, g, m, e.date, had, e.subj);
        if Misfit(g, m, e.date, ThreadOf(g, had), ThreadOf(g, e.subj)) {
          MisfitRoot(g, m, e.date, ThreadOf(g, had), ThreadOf(g, e.subj));
          MendsIs(g, m, e.date, e.subj, had, e.refs);
          KnownSame(f, g, m, e.refs) by { assert forall x :: At(g, x) == At(f, x); }
        }
      } else {
        EnteredOrder(f, e);
        FinishOrder(Entered(f, e), m, e.refs, Again(f, e));
        SortsOrdered(Entered(f, e), Step(f, e), Home(Entered(f, e), m).value, Absorbed(Entered(f, e), m, e.refs),
          !Again(f, e));
      }
    }
  }

  lemma KeepsOrdered(f: Forest, g: Forest)
    requires SameOrder(f, g, true) && Ordered(f)
    ensures Ordered(g)
  {
  }

  lemma EnteredOrder(f: Forest, e: Event)
    requires WellFormed(f) && Ordered(f) && !Rejected(f, e) && (Again(f, e) || Subj(f, e.id).None?)
    ensures Ordered(Entered(f, e))
  {
    var g := AddSubject(f, e.subj);
    AddSubjectKeeps(f, e.subj);
    AddedOrder(f, e.subj);
    KeepsOrdered(f, g);
    assert At(g, e.id) == At(f, e.id);
    if !Again(f, e) {
      FreshOrder(g, e.id, e.date, e.subj);
      KeepsOrdered(g, Taken(g, e.id, e.date, e.subj));
    }
  }

  lemma MisfitRoot(f: Forest, m: MsgId, d: int, k1: SubjName, k2: SubjName)
    requires Misfit(f, m, d, k1, k2)
    ensures Parent(f, m).None?
  {
  }

  lemma SameMisfit(f: Forest, g: Forest, m: MsgId, d: int, had: SubjName, s: SubjName)
    requires WellFormed(f) && g == AddSubject(f, s) && Subj(f, m) == Some(had)
    ensures Misfit(g, m, d, ThreadOf(g, had), ThreadOf(g, s)) <==> Misfit(f, m, d, ThreadOf(f, had), ThreadOf(f, s))
  {
    hide Misfit, Roots, Date, Parent, AddSubject, WellFormed;
    AddSubjectKeeps(f, s);
    AddedOrder(f, s);
    SubjectInThread(f, m, had);
    assert forall x :: At(g, x) == At(f, x);
    MisfitSame(f, g, m, d, ThreadOf(f, had), ThreadOf(f, s)) by { SameAt(f, g); }
  }

  lemma SubjectInThread(f: Forest, m: MsgId, had: SubjName)
    requires WellFormed(f) && Subj(f, m) == Some(had)
    ensures had in f.thread
  {
  }

  lemma SameAt(f: Forest, g: Forest)
    requires forall x :: At(g, x) == At(f, x)
    ensures forall x :: Date(g, x) == Date(f, x)
    ensures forall x :: Parent(g, x) == Parent(f, x)
  {
  }

  lemma MisfitSame(f: Forest, g: Forest, m: MsgId, d: int, k1: SubjName, k2: SubjName)
    requires Roots(g, k1) == Roots(f, k1) && Roots(g, k2) == Roots(f, k2)
      && (forall x :: Date(g, x) == Date(f, x)) && Parent(g, m) == Parent(f, m)
    ensures Misfit(g, m, d, k1, k2) <==> Misfit(f, m, d, k1, k2)
  {
    hide Roots, Date, Parent, Behind;
  }

  /** A step keeps the child lists in date order, whatever becomes of the root lists. */
  lemma StepKidsOrder(f: Forest, e: Event)
    requires WellFormed(f) && Traceable(f, e) && AllKidsSorted(f)
    ensures AllKidsSorted(Step(f, e))
  {
    hide WellFormed, Datable, Finish, Detach, Taken, SameOrder, KidsSorted, RootsSorted, Ready, Absorbed, Sorts;
    var g, m := AddSubject(f, e.subj), e.id;
    AddSubjectKeeps(f, e.subj);
    AddedOrder(f, e.subj);
    KeepsKids(f, g);
    if !Rejected(f, e) {
      StepFinishes(f, e);
      TraceableIs(f, e);
      assert At(g, m) == At(f, m);
      if !Again(f, e) {
        if Subj(f, m).Some? {
          TakenKidsSorted(g, m, e.date, e.subj, Subj(f, m).value);
        } else {
          FreshOrder(g, m, e.date, e.subj);
          KeepsKids(g, Taken(g, m, e.date, e.subj));
        }
      }
      FinishOrder(Entered(f, e), m, e.refs, Again(f, e));
      SortsOrdered(Entered(f, e), Step(f, e), Home(Entered(f, e), m).value, Absorbed(Entered(f, e), m, e.refs),
        !Again(f, e));
    }
  }

  lemma KeepsKids(f: Forest, g: Forest)
    requires SameOrder(f, g, true) && AllKidsSorted(f)
    ensures AllKidsSorted(g)
  {
  }

  /** Every step of the run keeps the root lists in order. */
  ghost predicate Undisturbed(f: Forest, es: seq<Event>)
    decreases |es|
  {
    es == [] || (!(Disturbs(f, es[0]) && !Mends(f, es[0])) && Undisturbed(Step(f, es[0]), es[1..]))
  }

  /** A run of which no step disturbs a root list for good keeps every list of siblings in date order. */
  lemma {:induction false} RunOrder(f: Forest, es: seq<Event>)
    requires WellFormed(f) && Ordered(f) && TraceableRun(f, es) && Undisturbed(f, es)
    ensures Ordered(Run(f, es))
    decreases |es|
  {
    hide WellFormed, Ordered, Step, Disturbs, Mends, Traceable;
    if es != [] {
      StepOrder(f, es[0]);
      StepKeepsWellFormed(f, es[0]);
      RunOrder(Step(f, es[0]), es[1..]);
    }
  }

  /** In every run the children of every article are in date order. */
  lemma {:induction false} RunKidsOrder(f: Forest, es: seq<Event>)
    requires WellFormed(f) && AllKidsSorted(f) && TraceableRun(f, es)
    ensures AllKidsSorted(Run(f, es))
    decreases |es|
  {
    if es != [] {
      StepKidsOrder(f, es[0]);
      StepKeepsWellFormed(f, es[0]);
      RunKidsOrder(Step(f, es[0]), es[1..]);
    }
  }
}

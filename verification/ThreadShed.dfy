// The fakes above a replaced fake that were there for it alone: found in one climb, forgotten in a second.
module ThreadShed {
  import opened Options
  import opened Paths
  import opened ThreadSpec
  import opened ThreadLists
  import opened ThreadSafety
  import opened ThreadDetach

  /** What taking an article out of its list changes. */
  lemma UnlinkChanges(f: Forest, c: MsgId)
    requires Closed(f)
    ensures var h := UnlinkChild(f, c);
      SameFields(f, h) && forall q :: Kids(h, q) == if Parent(f, c) == Some(q) then Drop(Kids(f, q), c) else Kids(f, q)
  {
    match Parent(f, c)
    case Some(p) => SetKidsEffect(f, p, Drop(Kids(f, p), c));
    case None =>
      match Home(f, c)
      case None =>
      case Some(k) => SetRootsEffect(f, k, Drop(Roots(f, k), c));
  }

  /** What releasing an article changes. */
  lemma ReleaseFields(f: Forest, c: MsgId)
    requires Closed(f) && c in f.nodes
    ensures var g := Release(f, c);
      && g.nodes.Keys == f.nodes.Keys && Parent(g, c) == None
      && (forall x | x != c :: Parent(g, x) == Parent(f, x))
      && (forall x :: Fake(g, x) == Fake(f, x) && Subj(g, x) == Subj(f, x))
      && (forall q :: Kids(g, q) == if Parent(f, c) == Some(q) then Drop(Kids(f, q), c) else Kids(f, q))
  {
    hide UnlinkChild, Drop;
    UnlinkChanges(f, c);
    PutEffect(UnlinkChild(f, c), c, At(UnlinkChild(f, c), c).(parent := None));
  }

  lemma ForgetFields(f: Forest, c: MsgId)
    requires Closed(f) && c in f.nodes
    ensures var g := Forget(f, c);
      && g.nodes.Keys == f.nodes.Keys
      && (forall x | x != c :: Parent(g, x) == Parent(f, x) && Fake(g, x) == Fake(f, x) && Subj(g, x) == Subj(f, x))
      && (forall q :: Kids(g, q) == if Parent(f, c) == Some(q) then Drop(Kids(f, q), c) else Kids(f, q))
  {
    hide UnlinkChild, Drop;
    ReleaseFields(f, c);
    var h := Release(f, c);
    PutEffect(h, c, At(h, c).(date := 0));
    PutEffect(SetDate(h, c, 0), c, At(SetDate(h, c, 0), c).(subj := None));
  }

  /** A fake of the line, with the parent and the children it must have. */
  predicate LineAt(f: Forest, path: seq<MsgId>, kids: seq<MsgId>, stop: Option<MsgId>, i: nat)
    requires i < |path|
  {
    && path[i] in f.nodes && Fake(f, path[i]) && Subj(f, path[i]).Some?
    && Kids(f, path[i]) == (if i == 0 then kids else [path[i - 1]])
    && Parent(f, path[i]) == if i + 1 < |path| then Some(path[i + 1]) else stop
  }

  /** A line of fakes upwards, each the parent of the one before it and of no other; `kids` are the children of the
      first. */
  predicate Line(f: Forest, path: seq<MsgId>, kids: seq<MsgId>, stop: Option<MsgId>) {
    forall i :: 0 <= i < |path| ==> LineAt(f, path, kids, stop, i)
  }

  /** The line ends at `stop`: it is no fake, or has that many children. */
  predicate Firm(f: Forest, stop: Option<MsgId>, n: nat) {
    stop.Some? ==> stop.value in f.nodes && (!Fake(f, stop.value) || n <= |Kids(f, stop.value)|)
  }

  function FirstOf(path: seq<MsgId>, stop: Option<MsgId>): Option<MsgId> {
    if path == [] then stop else Some(path[0])
  }

  lemma {:induction false} DropLength(list: seq<MsgId>, c: MsgId)
    ensures |list| <= |Drop(list, c)| + 1
  {
    if list != [] && list[0] != c { DropLength(list[1..], c); }
  }

  lemma DropOnly(c: MsgId)
    ensures Drop([c], c) == []
  {
  }

  /** One child fewer for the parent of what is taken off below the line. */
  lemma LineShortens(f: Forest, g: Forest, c: MsgId, path: seq<MsgId>, stop: Option<MsgId>)
    requires path != [] && Line(f, path, [c], stop) && c !in path && Parent(f, c) == Some(path[0])
    requires g.nodes.Keys == f.nodes.Keys
    requires forall x | x != c :: Parent(g, x) == Parent(f, x) && Fake(g, x) == Fake(f, x) && Subj(g, x) == Subj(f, x)
    requires forall q :: Kids(g, q) == if Parent(f, c) == Some(q) then Drop(Kids(f, q), c) else Kids(f, q)
    ensures Line(g, path, [], stop)
  {
    hide Drop;
    assert LineAt(f, path, [c], stop, 0);
    DropOnly(c);
    forall i | 0 <= i < |path| ensures LineAt(g, path, [], stop, i) {
      assert LineAt(f, path, [c], stop, i);
      assert path[i] in path;
      if i > 0 { assert path[i - 1] in path; }
    }
  }

  lemma StaysFirm(f: Forest, g: Forest, c: MsgId, stop: Option<MsgId>, n: nat)
    requires Firm(f, stop, n) && 0 < n && (stop.Some? ==> stop.value != c) && g.nodes.Keys == f.nodes.Keys
    requires forall x | x != c :: Fake(g, x) == Fake(f, x)
    requires forall q :: Kids(g, q) == if Parent(f, c) == Some(q) then Drop(Kids(f, q), c) else Kids(f, q)
    ensures Firm(g, stop, if Parent(f, c) == stop then n - 1 else n)
  {
    hide Drop;
    if stop.Some? { DropLength(Kids(f, stop.value), c); }
  }

  // ----- from one fake of the line to the next

  /** `m` has been let go and the fakes below the line have been forgotten. */
  ghost predicate Shedding(f: Forest, m: MsgId, path: seq<MsgId>, stop: Option<MsgId>) {
    Loose(f, m) && Line(f, path, [], stop) && Firm(f, stop, if path == [] then 1 else 2) && m !in path
      && stop != Some(m)
  }

  lemma LineSpent(f: Forest, m: MsgId, path: seq<MsgId>, stop: Option<MsgId>)
    requires Shedding(f, m, path, stop) && path != []
    ensures Spent(f, Some(path[0])) && path[0] in f.nodes && path[0] != m && Some(path[0]) != stop
    ensures Parent(f, path[0]) == FirstOf(path[1..], stop)
    ensures Placed(f, path[0])
  {
    assert LineAt(f, path, [], stop, 0);
    assert path[0] in path;
    SpentPlaced(f, m, path[0]);
  }

  lemma LineTail(f: Forest, path: seq<MsgId>, stop: Option<MsgId>)
    requires Line(f, path, [], stop) && path != []
    ensures Line(f, path[1..], [path[0]], stop) && path[0] !in path[1..]
  {
    forall i | 0 <= i < |path| - 1 ensures LineAt(f, path[1..], [path[0]], stop, i) {
      assert LineAt(f, path, [], stop, i + 1);
    }
    assert LineAt(f, path, [], stop, 0);
    forall x | x in path[1..] ensures x != path[0] {
      var i :| 0 <= i < |path| - 1 && path[1..][i] == x;
      assert LineAt(f, path, [], stop, i + 1);
    }
  }

  /** Forgetting the first fake of the line leaves the rest a line to shed. */
  lemma ShedOne(f: Forest, m: MsgId, path: seq<MsgId>, stop: Option<MsgId>)
    requires Shedding(f, m, path, stop) && path != []
    ensures Shedding(Forget(f, path[0]), m, path[1..], stop)
    ensures ShedChain(f, Some(path[0])) == ShedChain(Forget(f, path[0]), FirstOf(path[1..], stop))
  {
    hide Loose, Line, Firm, Forget, Placed, LineAt, Drop;
    var c, g := path[0], Forget(f, path[0]);
    LineSpent(f, m, path, stop);
    ForgetLoose(f, m, c);
    assert Closed(f) by { LooseClosed(f, m); }
    ForgetFields(f, c);
    ForgetKnown(f, c);
    LineTail(f, path, stop);
    StaysFirm(f, g, c, stop, 2);
    if |path| > 1 {
      LineShortens(f, g, c, path[1..], stop);
      assert Firm(g, stop, 2) by { NotTheStop(f, path, stop); }
    } else {
      LineOver(g, path[1..], stop);
    }
    RestOf(m, path);
  }

  lemma LooseClosed(f: Forest, m: MsgId)
    requires Loose(f, m)
    ensures Closed(f) && Lists(f)
  {
  }

  lemma RestOf(m: MsgId, path: seq<MsgId>)
    requires path != [] && m !in path
    ensures m !in path[1..]
  {
  }

  lemma LineOver(g: Forest, path: seq<MsgId>, stop: Option<MsgId>)
    requires path == []
    ensures Line(g, path, [], stop)
  {
  }

  /** The line's second fake is not where it ends. */
  lemma NotTheStop(f: Forest, path: seq<MsgId>, stop: Option<MsgId>)
    requires Line(f, path, [], stop) && Firm(f, stop, 2) && |path| > 1
    ensures Parent(f, path[0]) == Some(path[1]) && Some(path[1]) != stop
  {
    assert LineAt(f, path, [], stop, 0) && LineAt(f, path, [], stop, 1);
  }

  /** At the end of the line nothing more is spent. */
  lemma ShedDone(f: Forest, m: MsgId, stop: Option<MsgId>)
    requires Shedding(f, m, [], stop)
    ensures ShedChain(f, stop) == f
  {
  }

  // ----- the climb that finds the line

  /** The line found so far above `m`, ending below `stop`. */
  ghost predicate Climbed(f: Forest, m: MsgId, path: seq<MsgId>, stop: Option<MsgId>) {
    && Line(f, path, [m], stop) && Parent(f, m) == FirstOf(path, stop) && m !in path && stop != Some(m)
    && (stop.Some? ==> stop.value in f.nodes && AtOrAbove(Up(f), Parent(f, m).value, stop.value))
  }

  ghost predicate Rooted(f: Forest, m: MsgId) {
    Well(f, {}) && Acyclic(Up(f)) && m in f.nodes && At(f, m) != BLANK
  }

  lemma StartClimb(f: Forest, m: MsgId)
    requires Rooted(f, m)
    ensures Climbed(f, m, [], Parent(f, m))
  {
    UpMeans(f);
    if Parent(f, m).Some? {
      AboveEnds(Up(f), Parent(f, m).value, m);
      NotAboveItself(Up(f), m);
    }
  }

  /** The article that is the only child of a parent is there alone. */
  lemma OnlyChild(f: Forest, x: MsgId, c: MsgId)
    requires Placed(f, c) && Parent(f, c) == Some(x) && |Kids(f, x)| == 1
    ensures Kids(f, x) == [c]
  {
    assert c in Kids(f, x);
  }

  lemma PlacedIn(f: Forest, x: MsgId)
    requires Well(f, {}) && x in f.nodes && At(f, x) != BLANK
    ensures Placed(f, x) && Subj(f, x).Some?
  {
    assert x !in {};
  }

  /** What is directly below the end of the line. */
  function Lowest(m: MsgId, path: seq<MsgId>): MsgId {
    if path == [] then m else path[|path| - 1]
  }

  lemma LowestBelow(f: Forest, m: MsgId, path: seq<MsgId>, stop: Option<MsgId>)
    requires Rooted(f, m) && Climbed(f, m, path, stop)
    ensures var c := Lowest(m, path); c in f.nodes && At(f, c) != BLANK && Parent(f, c) == stop
  {
    if path != [] { assert LineAt(f, path, [m], stop, |path| - 1); }
  }

  lemma LineGrows(f: Forest, m: MsgId, path: seq<MsgId>, x: MsgId)
    requires Line(f, path, [m], Some(x)) && x in f.nodes && Fake(f, x) && Subj(f, x).Some?
      && Kids(f, x) == [Lowest(m, path)]
    ensures Line(f, path + [x], [m], Parent(f, x))
  {
    forall i | 0 <= i < |path| + 1 ensures LineAt(f, path + [x], [m], Parent(f, x), i) {
      if i < |path| { assert LineAt(f, path, [m], Some(x), i); }
    }
  }

  /** One step up past a fake with one child. */
  lemma ClimbOne(f: Forest, m: MsgId, path: seq<MsgId>, x: MsgId)
    requires Rooted(f, m) && Climbed(f, m, path, Some(x)) && Fake(f, x) && |Kids(f, x)| == 1
    ensures Climbed(f, m, path + [x], Parent(f, x))
    ensures Grounded(Up(f), x) && (Parent(f, x).Some? ==>
      Grounded(Up(f), Parent(f, x).value) && Height(Up(f), Parent(f, x).value) < Height(Up(f), x))
  {
    hide Line, Placed, Acyclic;
    LowestBelow(f, m, path, Some(x));
    PlacedIn(f, Lowest(m, path));
    OnlyChild(f, x, Lowest(m, path));
    assert At(f, x) != BLANK;
    PlacedIn(f, x);
    LineGrows(f, m, path, x);
    ClimbAbove(f, m, x);
  }

  lemma ClimbAbove(f: Forest, m: MsgId, x: MsgId)
    requires Acyclic(Up(f)) && Closed(f) && Parent(f, m).Some? && AtOrAbove(Up(f), Parent(f, m).value, x) && x != m
    ensures Grounded(Up(f), x)
    ensures Parent(f, x).Some? ==>
      var p := Parent(f, x).value;
      p in f.nodes && p != m && AtOrAbove(Up(f), Parent(f, m).value, p) && Grounded(Up(f), p)
        && Height(Up(f), p) < Height(Up(f), x)
  {
    UpMeans(f);
    CutKeepsAcyclic(Up(f), {});
    assert Up(f) - {} == Up(f);
    GroundedInAcyclic(Up(f), x);
    if Parent(f, x).Some? {
      var p := Parent(f, x).value;
      GroundedStep(Up(f), x);
      AboveEnds(Up(f), p, p);
      AboveEnds(Up(f), x, p);
      if x == p { NotAboveItself(Up(f), x); }
      AboveStep(Up(f), x, p);
      AboveTrans(Up(f), Parent(f, m).value, x, p);
      NotAboveItself(Up(f), m);
    }
  }

  /** Once the article is let go the line found is the line to shed. */
  lemma StartShedding(h: Forest, m: MsgId, path: seq<MsgId>, stop: Option<MsgId>)
    requires Rooted(h, m) && Climbed(h, m, path, stop) && Firm(h, stop, 2) && Loose(Release(h, m), m)
    ensures Shedding(Release(h, m), m, path, stop)
  {
    hide Line, Loose, Firm, Release, AtOrAbove, Drop, Rooted;
    var f := Release(h, m);
    RootedClosed(h, m);
    ReleaseFields(h, m);
    StaysFirm(h, f, m, stop, 2);
    if path == [] {
      LineOver(f, path, stop);
      FirmLess(f, stop);
    } else {
      LineShortens(h, f, m, path, stop);
      FirmStop(h, m, path, stop);
    }
  }

  lemma RootedClosed(h: Forest, m: MsgId)
    requires Rooted(h, m)
    ensures Closed(h) && Lists(h) && m in h.nodes
  {
  }

  lemma FirmLess(f: Forest, stop: Option<MsgId>)
    requires Firm(f, stop, 1) || Firm(f, stop, 2)
    ensures Firm(f, stop, 1)
  {
  }

  lemma FirmStop(h: Forest, m: MsgId, path: seq<MsgId>, stop: Option<MsgId>)
    requires path != [] && Line(h, path, [m], stop) && Firm(h, stop, 2)
    ensures Some(path[0]) != stop
  {
    assert LineAt(h, path, [m], stop, 0);
  }
}

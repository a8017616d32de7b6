// Exactly which fakes go when a real article takes the place of a fake: those above it that were there
// for it alone.
module ThreadGone {
  import opened Options
  import opened Paths
  import opened ThreadSpec
  import opened ThreadLists
  import opened ThreadSafety
  import opened ThreadDetach
  import opened ThreadShed

  /** Climbing from `c` one meets `x` within `n` links, passing fakes only that have no other child. */
  predicate SoleWithin(f: Forest, c: MsgId, x: MsgId, n: nat)
    decreases n
  {
    && n > 0 && Parent(f, c).Some?
    && var p := Parent(f, c).value;
       Fake(f, p) && |Kids(f, p)| == 1 && (p == x || SoleWithin(f, p, x, n - 1))
  }

  /** `x` is a fake above `m` that is there for it alone. */
  ghost predicate Sole(f: Forest, m: MsgId, x: MsgId) {
    exists n: nat :: SoleWithin(f, m, x, n)
  }

  // ----- the line of such fakes

  /** The climb past fakes with one child ends somewhere. */
  lemma {:induction false} FindLine(f: Forest, m: MsgId, path: seq<MsgId>, stop: Option<MsgId>)
    returns (line: seq<MsgId>, end: Option<MsgId>)
    requires Rooted(f, m) && Climbed(f, m, path, stop)
    ensures Climbed(f, m, line, end) && Firm(f, end, 2)
    decreases if stop.Some? && Grounded(Up(f), stop.value) then Height(Up(f), stop.value) + 1 else 0
  {
    hide Rooted, Climbed, Height, Grounded, Up;
    if stop.Some? && Fake(f, stop.value) && |Kids(f, stop.value)| == 1 {
      ClimbOne(f, m, path, stop.value);
      line, end := FindLine(f, m, path + [stop.value], Parent(f, stop.value));
    } else {
      ClimbStops(f, m, path, stop);
      line, end := path, stop;
    }
  }

  lemma ClimbStops(f: Forest, m: MsgId, path: seq<MsgId>, stop: Option<MsgId>)
    requires Rooted(f, m) && Climbed(f, m, path, stop)
    requires stop.Some? ==> !Fake(f, stop.value) || |Kids(f, stop.value)| != 1
    ensures Firm(f, stop, 2)
  {
    if stop.Some? {
      LowestBelow(f, m, path, stop);
      PlacedIn(f, Lowest(m, path));
    }
  }

  lemma {:induction false} LineIsSole(f: Forest, path: seq<MsgId>, kids: seq<MsgId>, stop: Option<MsgId>, c: MsgId,
      i: nat)
    requires Line(f, path, kids, stop) && |kids| == 1 && Parent(f, c) == FirstOf(path, stop) && i < |path|
    ensures SoleWithin(f, c, path[i], i + 1)
    decreases |path|
  {
    assert LineAt(f, path, kids, stop, 0);
    if i > 0 {
      LineRest(f, path, kids, stop);
      LineIsSole(f, path[1..], [path[0]], stop, path[0], i - 1);
    }
  }

  lemma LineRest(f: Forest, path: seq<MsgId>, kids: seq<MsgId>, stop: Option<MsgId>)
    requires Line(f, path, kids, stop) && path != []
    ensures Line(f, path[1..], [path[0]], stop) && Parent(f, path[0]) == FirstOf(path[1..], stop)
  {
    assert LineAt(f, path, kids, stop, 0);
    forall i | 0 <= i < |path| - 1 ensures LineAt(f, path[1..], [path[0]], stop, i) {
      assert LineAt(f, path, kids, stop, i + 1);
    }
  }

  lemma {:induction false} SoleInLine(f: Forest, path: seq<MsgId>, kids: seq<MsgId>, stop: Option<MsgId>, c: MsgId,
      x: MsgId, n: nat)
    requires Line(f, path, kids, stop) && Firm(f, stop, 2) && Parent(f, c) == FirstOf(path, stop)
      && SoleWithin(f, c, x, n)
    ensures x in path
    decreases n
  {
    if path != [] && x != path[0] {
      LineRest(f, path, kids, stop);
      SoleInLine(f, path[1..], [path[0]], stop, path[0], x, n - 1);
    }
  }

  // ----- shedding it

  /** Shedding a line blanks its fakes and leaves the fields of the others. */
  lemma {:induction false} ShedExactly(f: Forest, m: MsgId, path: seq<MsgId>, stop: Option<MsgId>)
    requires Shedding(f, m, path, stop)
    ensures var g := ShedChain(f, FirstOf(path, stop));
      && Loose(g, m) && g.nodes.Keys == f.nodes.Keys
        && (forall x | x in path :: Subj(g, x).None? && x in g.nodes) && (forall x | x !in path :: Untouched(f, g, x))
    decreases |path|
  {
    hide Loose, Line, Firm, ShedChain, Forget, Untouched;
    if path == [] {
      ShedDone(f, m, stop);
      SelfUntouched(f);
      ShedLooseIs(f, m, stop);
    } else {
      var h := Forget(f, path[0]);
      LineSpent(f, m, path, stop);
      ShedOne(f, m, path, stop);
      ForgetOne(f, m, path[0]);
      ShedExactly(h, m, path[1..], stop);
      ThenUntouched(f, h, ShedChain(h, FirstOf(path[1..], stop)), path);
    }
  }

  lemma ShedLooseIs(f: Forest, m: MsgId, stop: Option<MsgId>)
    requires Shedding(f, m, [], stop)
    ensures Loose(f, m)
  {
  }

  lemma SelfUntouched(f: Forest)
    ensures forall x :: Untouched(f, f, x)
  {
  }

  lemma ForgetOne(f: Forest, m: MsgId, p: MsgId)
    requires Loose(f, m) && Spent(f, Some(p))
    ensures var g := Forget(f, p);
      At(g, p) == BLANK && p in g.nodes && g.nodes.Keys == f.nodes.Keys && forall x | x != p :: Untouched(f, g, x)
  {
    hide Forget;
    SpentPlaced(f, m, p);
    ForgetWell(f, m, p);
    ForgetIs(f, p);
    ForgetOthers(f, p);
  }

  lemma ThenUntouched(f: Forest, h: Forest, g: Forest, path: seq<MsgId>)
    requires path != [] && path[0] in h.nodes && At(h, path[0]) == BLANK
      && forall x | x != path[0] :: Untouched(f, h, x)
    requires forall x | x in path[1..] :: Subj(g, x).None? && x in g.nodes
    requires (forall x | x !in path[1..] :: Untouched(h, g, x)) && h.nodes.Keys <= g.nodes.Keys
    ensures (forall x | x in path :: Subj(g, x).None? && x in g.nodes) && forall x | x !in path :: Untouched(f, g, x)
  {
    assert path == [path[0]] + path[1..];
    forall x | x in path ensures Subj(g, x).None? && x in g.nodes {
      if x !in path[1..] { assert x == path[0] && Untouched(h, g, x); }
    }
    forall x | x !in path ensures Untouched(f, g, x) {
      assert Untouched(f, h, x) && Untouched(h, g, x);
    }
  }

  // ----- the place of a fake

  /** What the line above the fake looks like once the article is there. */
  lemma JoinedLine(f: Forest, h: Forest, m: MsgId, path: seq<MsgId>, stop: Option<MsgId>)
    requires Line(h, path, [m], stop) && Firm(h, stop, 2) && m !in path && stop != Some(m)
      && h.nodes.Keys == f.nodes.Keys
    requires forall x | x != m :: At(h, x) == At(f, x)
    ensures Line(f, path, [m], stop) && Firm(f, stop, 2)
  {
    forall i | 0 <= i < |path| ensures LineAt(f, path, [m], stop, i) {
      assert LineAt(h, path, [m], stop, i);
      assert path[i] in path;
    }
  }

  lemma JoinedRooted(f: Forest, m: MsgId, d: int, s: SubjName, had: SubjName)
    requires WellFormed(f) && m in f.nodes && Subj(f, m) == Some(had) && s in f.thread
    ensures var h := JoinThreads(Taken(f, m, d, s), had, s);
      && Rooted(h, m) && Loose(Release(h, m), m) && h.nodes.Keys == f.nodes.Keys && Parent(h, m) == Parent(f, m)
      && forall x | x != m :: At(h, x) == At(f, x)
  {
    hide JoinThreads, Release, Loose;
    var h := JoinThreads(Taken(f, m, d, s), had, s);
    TakenJoined(f, m, d, s, had);
    TakenReleased(f, m, d, s, had);
    TakenFields(f, m, d, s);
    assert forall x :: At(h, x) == At(Taken(f, m, d, s), x);
  }

  /** Exactly the fakes above the place that were there for it alone lose their subject, and with it
      everything; the others keep their fields. */
  lemma DisplacedExactly(f: Forest, m: MsgId, d: int, s: SubjName, had: SubjName, x: MsgId)
    requires WellFormed(f) && m in f.nodes && Subj(f, m) == Some(had) && s in f.thread && x != m
    ensures var g := Detach(Taken(f, m, d, s), m, had);
      if Sole(f, m, x) then Fake(f, x) && At(g, x) == BLANK else Untouched(f, g, x)
  {
    hide WellFormed, JoinThreads, Release, Loose, Line, Firm, ShedChain, Untouched, Climbed, Rooted, LineAt;
    var h := JoinThreads(Taken(f, m, d, s), had, s);
    JoinedRooted(f, m, d, s, had);
    StartClimb(h, m);
    var path, stop := FindLine(h, m, [], Parent(h, m));
    StartShedding(h, m, path, stop);
    ShedExactly(Release(h, m), m, path, stop);
    ClimbedParts(h, m, path, stop);
    JoinedLine(f, h, m, path, stop);
    if x in path {
      var i :| 0 <= i < |path| && path[i] == x;
      LineIsSole(f, path, [m], stop, m, i);
      assert Sole(f, m, x);
      FakeInLine(f, path, [m], stop, i);
      LooseBlank(ShedChain(Release(h, m), Parent(h, m)), m, x);
    } else if Sole(f, m, x) {
      var n: nat :| SoleWithin(f, m, x, n);
      SoleInLine(f, path, [m], stop, m, x, n);
    } else {
      ReleasedFields(h, m, x);
      StillUntouched(f, h, Release(h, m), ShedChain(Release(h, m), Parent(h, m)), x);
    }
  }

  lemma ClimbedParts(h: Forest, m: MsgId, path: seq<MsgId>, stop: Option<MsgId>)
    requires Climbed(h, m, path, stop)
    ensures Line(h, path, [m], stop) && Parent(h, m) == FirstOf(path, stop) && m !in path && stop != Some(m)
  {
  }

  lemma FakeInLine(f: Forest, path: seq<MsgId>, kids: seq<MsgId>, stop: Option<MsgId>, i: nat)
    requires Line(f, path, kids, stop) && i < |path|
    ensures Fake(f, path[i])
  {
    assert LineAt(f, path, kids, stop, i);
  }

  lemma LooseBlank(g: Forest, m: MsgId, x: MsgId)
    requires Loose(g, m) && x in g.nodes && x != m && Subj(g, x).None?
    ensures At(g, x) == BLANK
  {
    assert x !in {m};
  }

  lemma ReleasedFields(h: Forest, m: MsgId, x: MsgId)
    requires x != m
    ensures Untouched(h, Release(h, m), x)
  {
    var u := UnlinkChild(h, m);
    PutEffect(u, m, At(u, m).(parent := None));
  }

  lemma StillUntouched(f: Forest, h: Forest, r: Forest, g: Forest, x: MsgId)
    requires At(h, x) == At(f, x) && Untouched(h, r, x) && Untouched(r, g, x)
    ensures Untouched(f, g, x)
  {
  }
}

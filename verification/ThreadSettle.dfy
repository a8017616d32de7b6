// The walked chain becomes part of a thread, and a child of the article that turned out to be
// above it is cut off.
module ThreadSettle {
  import opened Options
  import opened Paths
  import opened ThreadSpec
  import opened ThreadLists
  import opened ThreadSafety
  import opened ThreadDetach
  import opened ThreadWalk

  // ----- One thread for the article and the one it hangs below

  /** Only the article itself has children outside the chain. */
  lemma EnteredAtFoot(f: Forest, m: MsgId, chain: seq<MsgId>, top: Option<MsgId>, y: MsgId)
    requires Chain(f, m, chain, top) && KidsPoint(f) && Closed(f) && Placing(f, Elems(chain))
    requires Parent(f, y).Some? && Parent(f, y).value in chain && y !in chain
    ensures Parent(f, y).value == m
  {
    var p := Parent(f, y).value;
    assert y in f.nodes && y !in Elems(chain);
    assert y in Kids(f, p);
    ChainKids(f, m, chain, top);
  }

  lemma ChainKids(f: Forest, m: MsgId, chain: seq<MsgId>, top: Option<MsgId>)
    requires Chain(f, m, chain, top)
    ensures forall i | 1 <= i < |chain| :: Kids(f, chain[i]) == [chain[i - 1]]
  {
    forall i | 1 <= i < |chain| ensures Kids(f, chain[i]) == [chain[i - 1]] {
      assert At(f, chain[i]) == ChainNode(f, m, chain, top, i);
    }
  }

  lemma HungHeads(f: Forest, m: MsgId, chain: seq<MsgId>, x: MsgId)
    requires Hung(f, m, chain, x)
    ensures Roots(f, Home(f, x).value) != [] || Home(f, x) == Home(f, m)
  {
    var stop := Elems(chain);
    var prev := chain[|chain| - 1];
    assert m in stop;
    forall y | Parent(f, y).Some? && Parent(f, y).value in stop && y !in stop ensures Parent(f, y).value == m {
      EnteredAtFoot(f, m, chain, Some(x), y);
    }
    assert (Up(f) - {prev}) - stop == Up(f) - stop;
    CutKeepsAcyclic(Up(f) - {prev}, stop);
    GroundedInAcyclic(Up(f) - stop, x);
    ThreadHasRoots(f, x, stop, m);
  }

  lemma JoinRegroups(f: Forest, s1: SubjName, s2: SubjName)
    requires Lists(f) && Threads(f) && s1 in f.thread
    requires Roots(f, ThreadOf(f, s1)) != [] || ThreadOf(f, s1) == ThreadOf(f, s2)
    ensures var g := JoinThreads(f, s1, s2);
            g.nodes == f.nodes && Lists(g) && Threads(g) && Regrouped(f, g, ThreadOf(f, s1), ThreadOf(f, s2))
  {
    var g := JoinThreads(f, s1, s2);
    if Roots(f, ThreadOf(f, s1)) != [] { HeadsTell(f, s1, s2); }
    JoinEffect(f, s1, s2);
    JoinKeepsThreads(f, s1, s2);
    RenamedRegroups(f, g, ThreadOf(f, s1), ThreadOf(f, s2));
  }

  lemma JoinRenames(f: Forest, s1: SubjName, s2: SubjName)
    requires Lists(f) && Threads(f) && s1 in f.thread
    requires Roots(f, ThreadOf(f, s1)) != [] || ThreadOf(f, s1) == ThreadOf(f, s2)
    ensures Renamed(f, JoinThreads(f, s1, s2), ThreadOf(f, s1), ThreadOf(f, s2))
  {
    if Roots(f, ThreadOf(f, s1)) != [] { HeadsTell(f, s1, s2); }
    JoinEffect(f, s1, s2);
  }

  lemma RenamedRegroups(f: Forest, g: Forest, k1: SubjName, k2: SubjName)
    requires Renamed(f, g, k1, k2) && RootsMoved(f, g, k1, k2) && Threads(f)
    ensures Regrouped(f, g, k1, k2)
  {
    RenamedFields(f, g, k1, k2);
    assert forall y :: Parent(g, y) == Parent(f, y);
    assert forall y :: Kids(g, y) == Kids(f, y);
  }

  /** After the join the chain still hangs where it did, in one thread. */
  lemma JoinHung(f: Forest, m: MsgId, chain: seq<MsgId>, x: MsgId)
    requires Hung(f, m, chain, x)
    ensures var g := JoinThreads(f, Subj(f, x).value, Subj(f, m).value);
            Hung(g, m, chain, x) && Home(g, x) == Home(g, m)
  {
    var g := JoinThreads(f, Subj(f, x).value, Subj(f, m).value);
    var k1, k2 := Home(f, x).value, Home(f, m).value;
    var prev := chain[|chain| - 1];
    HungHeads(f, m, chain, x);
    JoinRegroups(f, Subj(f, x).value, Subj(f, m).value);
    RegroupedWell(f, g, k1, k2);
    ChainSame(f, g, m, chain, Some(x));
    JoinHungPlacing(f, g, k1, k2, Elems(chain));
    assert Parent(g, prev) == Some(x);
    RegroupedPlacing(f, g, k1, k2, prev);
    JoinFamiliesBut(f, g, k1, k2, prev);
    assert Subj(g, x) == Subj(f, x);
  }

  lemma JoinHungPlacing(f: Forest, g: Forest, k1: SubjName, k2: SubjName, loose: set<MsgId>)
    requires Regrouped(f, g, k1, k2) && g.nodes == f.nodes && Placing(f, loose) && Labels(f, loose)
    ensures Placing(g, loose) && Labels(g, loose)
  {
    forall y | y in g.nodes && y !in loose
      ensures At(g, y) == BLANK || (Subj(g, y).Some? && Placed(g, y))
      ensures Threaded(g, y) != Fake(g, y)
    {
      assert At(g, y) == At(f, y);
      if At(f, y) != BLANK { RegroupedPlacing(f, g, k1, k2, y); }
    }
  }

  lemma JoinFamiliesBut(f: Forest, g: Forest, k1: SubjName, k2: SubjName, c: MsgId)
    requires Regrouped(f, g, k1, k2) && FamiliesBut(f, c)
    ensures FamiliesBut(g, c)
  {
    HomeSubj(f);
    HomeSubj(g);
  }

  // ----- A chain of new fakes becomes a thread of its own

  lemma RootFields(f: Forest, last: MsgId, s: SubjName)
    requires Sound(f) && last in f.nodes && Free(f, last) && Parent(f, last).None? && s in f.thread
    ensures var g := LinkChild(SetSubj(f, last, Some(s)), last);
            && (forall x | x != last :: At(g, x) == At(f, x)) && At(g, last) == At(f, last).(subj := Some(s))
            && g.nodes.Keys == f.nodes.Keys && g.thread == f.thread
            && Sound(g) && Placed(g, last) && Up(g) == Up(f)
            && SameListsBut(f, g, last)
  {
    hide Roots, Up, InsertByDate, KidsPoint, Homes, Placed, Free, SameFields;
    var h := SetSubj(f, last, Some(s));
    PutEffect(f, last, At(f, last).(subj := Some(s)));
    SetSubjLists(f, last, s);
    LinkEffect(h, last);
    var g := LinkChild(h, last);
    assert forall x :: Kids(h, x) == Kids(f, x);
    assert forall x :: Parent(h, x) == Parent(f, x);
    assert g.nodes == h.nodes;
    assert forall x :: At(g, x) == At(h, x);
    SameUp(f, g);
    SameThreadHomes(h, g);
    assert Homes(g) by { RootHomes(f, h, g, last); }
  }

  lemma RootHomes(f: Forest, h: Forest, g: Forest, last: MsgId)
    requires Homes(f) && SameListsBut(h, g, last) && (forall k :: Roots(h, k) == Roots(f, k))
    requires forall x | x != last :: Home(g, x) == Home(f, x)
    requires forall k | last in Roots(g, k) :: Home(g, last) == Some(k)
    ensures Homes(g)
  {
  }

  lemma SetSubjLists(f: Forest, x: MsgId, s: SubjName)
    requires Lists(f) && Closed(f) && Threads(f) && x in f.nodes && Free(f, x) && s in f.thread
    ensures var g := SetSubj(f, x, Some(s)); Lists(g) && Closed(g) && Threads(g) && Free(g, x)
  {
    var g := SetSubj(f, x, Some(s));
    PutEffect(f, x, At(f, x).(subj := Some(s)));
    assert forall y :: Kids(g, y) == Kids(f, y);
    assert forall y :: Parent(g, y) == Parent(f, y);
    assert forall y | y != x :: Subj(g, y) == Subj(f, y);
    assert KidsPoint(g);
    assert RootsPoint(g);
    assert OneRootList(g);
    assert NoRepeats(g);
  }

  lemma AllButLast(chain: seq<MsgId>)
    requires Distinct(chain) && |chain| > 1
    ensures var last, less := chain[|chain| - 1], chain[..|chain| - 1];
      Distinct(less) && last !in less && forall i :: 0 <= i < |less| ==> less[i] == chain[i] != last
  {
  }

  lemma ShorterChain(f: Forest, g: Forest, m: MsgId, chain: seq<MsgId>)
    requires Chain(f, m, chain, None) && |chain| > 1 && g.nodes.Keys == f.nodes.Keys
    requires forall x | x != chain[|chain| - 1] :: At(g, x) == At(f, x)
    ensures Chain(g, m, chain[..|chain| - 1], Some(chain[|chain| - 1]))
    ensures Parent(g, chain[|chain| - 2]) == Some(chain[|chain| - 1])
    ensures chain[|chain| - 1] !in chain[..|chain| - 1]
  {
    hide At, Distinct;
    var last, less := chain[|chain| - 1], chain[..|chain| - 1];
    AllButLast(chain);
    assert less[0] == m != last;
    assert At(g, m) == At(f, m);
    forall i | 1 <= i < |less| ensures At(g, less[i]) == ChainNode(g, m, less, Some(last), i) {
      assert At(f, chain[i]) == ChainNode(f, m, chain, None, i);
    }
    if |less| > 1 {
      assert At(f, chain[|chain| - 2]) == ChainNode(f, m, chain, None, |chain| - 2);
      assert less[|less| - 1] == chain[|chain| - 2];
    }
  }

  /** The last fake of a chain has one child, the article before it. */
  lemma LastHasOneChild(f: Forest, m: MsgId, chain: seq<MsgId>, re: bool)
    requires Walking(f, m, chain, re) && |chain| > 1
    ensures forall x | Parent(f, x) == Some(chain[|chain| - 1]) :: x == chain[|chain| - 2]
    ensures Kids(f, chain[|chain| - 1]) == [chain[|chain| - 2]]
  {
    ChainKids(f, m, chain, None);
    forall x | Parent(f, x) == Some(chain[|chain| - 1]) ensures x == chain[|chain| - 2] {
      OnlyChildOf(f, m, chain, None, |chain| - 1, x);
    }
  }

  /** A fake of the chain is the parent of the article before it only. */
  lemma OnlyChildOf(f: Forest, m: MsgId, chain: seq<MsgId>, top: Option<MsgId>, j: nat, y: MsgId)
    requires Chain(f, m, chain, top) && Placing(f, Elems(chain)) && (top.Some? ==> top.value !in chain)
    requires |chain| > 1 ==> Parent(f, chain[|chain| - 1]) == top
    requires 1 <= j < |chain| && Parent(f, y) == Some(chain[j])
    ensures y == chain[j - 1]
  {
    hide Chain, ChainNode, Kids, Roots;
    ChainDistinct(f, m, chain, top);
    ChainParents(f, m, chain, top);
    if y in chain {
      var i :| 0 <= i < |chain| && chain[i] == y;
      assert i < |chain| - 1;
      assert chain[i + 1] == chain[j];
    } else {
      assert y !in Elems(chain) && y in f.nodes;
      assert At(f, y) != BLANK && Placed(f, y);
    }
    ChainKids(f, m, chain, top);
  }

  lemma ChainDistinct(f: Forest, m: MsgId, chain: seq<MsgId>, top: Option<MsgId>)
    requires Chain(f, m, chain, top)
    ensures |chain| > 0 && Distinct(chain)
  {
  }

  lemma ChainParents(f: Forest, m: MsgId, chain: seq<MsgId>, top: Option<MsgId>)
    requires Chain(f, m, chain, top)
    ensures forall i | 0 <= i < |chain| - 1 :: Parent(f, chain[i]) == Some(chain[i + 1])
    ensures |chain| > 1 ==> Parent(f, chain[|chain| - 1]) == top
  {
    forall i | 0 <= i < |chain| - 1 ensures Parent(f, chain[i]) == Some(chain[i + 1]) {
      if i > 0 { assert At(f, chain[i]) == ChainNode(f, m, chain, top, i); }
    }
    if |chain| > 1 { assert At(f, chain[|chain| - 1]) == ChainNode(f, m, chain, top, |chain| - 1); }
  }

  lemma ElemsLast(chain: seq<MsgId>)
    requires |chain| > 1
    ensures Elems(chain) == Elems(chain[..|chain| - 1]) + {chain[|chain| - 1]}
  {
    assert chain == chain[..|chain| - 1] + [chain[|chain| - 1]];
  }

  /** The last fake of a chain that met nobody known becomes a root of the article's thread. */
  lemma RootLast(f: Forest, m: MsgId, chain: seq<MsgId>, re: bool)
    requires Walking(f, m, chain, re) && |chain| > 1
    ensures var last := chain[|chain| - 1];
            var g := LinkChild(SetSubj(f, last, Subj(f, m)), last);
            Hung(g, m, chain[..|chain| - 1], last) && Home(g, last) == Home(g, m)
  {
    var last, less := chain[|chain| - 1], chain[..|chain| - 1];
    var prev := less[|less| - 1];
    assert prev == chain[|chain| - 2];
    var s := Subj(f, m).value;
    var g := LinkChild(SetSubj(f, last, Some(s)), last);
    WalkPrev(f, m, chain, re);
    RootFields(f, last, s);
    ShorterChain(f, g, m, chain);
    CutKeepsAcyclic(Up(f), {prev});
    LastHasOneChild(f, m, chain, re);
    ElemsLast(chain);
    RootPlacing(f, g, Elems(chain), last, Elems(less));
    RootFamilies(f, g, last, prev);
  }

  lemma RootPlacing(f: Forest, g: Forest, loose: set<MsgId>, last: MsgId, less: set<MsgId>)
    requires Placing(f, loose) && Labels(f, loose) && loose == less + {last} && f.nodes.Keys == g.nodes.Keys
    requires forall x | x != last :: At(g, x) == At(f, x)
    requires SameListsBut(f, g, last) && g.thread == f.thread
    requires Placed(g, last) && Subj(g, last).Some? && !Threaded(g, last) && Fake(g, last)
    ensures Placing(g, less) && Labels(g, less)
  {
    forall y | y in g.nodes && y !in less
      ensures At(g, y) == BLANK || (Subj(g, y).Some? && Placed(g, y))
      ensures Threaded(g, y) != Fake(g, y)
    {
      if y != last {
        assert At(g, y) == At(f, y) && y !in loose;
        if At(f, y) != BLANK {
          assert Placed(f, y);
          assert Home(g, y) == Home(f, y);
        }
      }
    }
  }

  lemma RootFamilies(f: Forest, g: Forest, last: MsgId, prev: MsgId)
    requires Families(f) && g.thread == f.thread && Parent(g, last).None? && Parent(f, last).None?
    requires forall x | x != last :: At(g, x) == At(f, x)
    requires forall x | Parent(f, x) == Some(last) :: x == prev
    ensures FamiliesBut(g, prev)
  {
    forall x | x != prev && Parent(g, x).Some? && Subj(g, x).Some? && Subj(g, Parent(g, x).value).Some?
      ensures Home(g, x) == Home(g, Parent(g, x).value)
    {
      assert x != last && Parent(f, x) == Parent(g, x);
      assert At(g, x) == At(f, x) && At(g, Parent(g, x).value) == At(f, Parent(f, x).value);
    }
  }

  // ----- Naming the fakes

  /** `g` is `f` with the subject `s` given to the articles of `path`. */
  ghost predicate Named(f: Forest, g: Forest, path: seq<MsgId>, s: SubjName) {
    && g.nodes.Keys == f.nodes.Keys && g.thread == f.thread && g.roots == f.roots
    && (forall x :: At(g, x) == if x in path then At(f, x).(subj := Some(s)) else At(f, x))
  }

  /** `path` is a climb through articles without a subject that ends below `next`. */
  ghost predicate NamelessPath(f: Forest, path: seq<MsgId>, next: MsgId) {
    && Distinct(path) && next !in path
    && (forall i | 0 <= i < |path| :: Nameless(f, path, next, i))
    && Subj(f, next).Some?
  }

  ghost predicate Nameless(f: Forest, path: seq<MsgId>, next: MsgId, i: nat)
    requires i < |path|
  {
    && path[i] in f.nodes && Subj(f, path[i]).None?
    && Parent(f, path[i]) == Some(if i + 1 < |path| then path[i + 1] else next)
  }

  lemma PathRest(f: Forest, h: Forest, path: seq<MsgId>, next: MsgId, s: SubjName)
    requires NamelessPath(f, path, next) && path != [] && h == SetSubj(f, path[0], Some(s))
    ensures NamelessPath(h, path[1..], next)
    ensures Parent(f, path[0]) == Some(if |path| == 1 then next else path[1..][0])
  {
    var x, rest := path[0], path[1..];
    PutEffect(f, x, At(f, x).(subj := Some(s)));
    assert Distinct(rest) by {
      forall i, j | 0 <= i < j < |rest| ensures rest[i] != rest[j] { assert path[i + 1] != path[j + 1]; }
    }
    assert next != x by { assert x in path; }
    assert next !in rest by { assert forall y | y in rest :: y in path; }
    forall i: nat | i < |rest| ensures Nameless(h, rest, next, i) {
      assert Nameless(f, path, next, i + 1);
      assert rest[i] == path[i + 1] && path[i + 1] != path[0];
      assert At(h, path[i + 1]) == At(f, path[i + 1]);
    }
    assert Nameless(f, path, next, 0);
  }

  lemma {:induction false} NamePath(f: Forest, path: seq<MsgId>, next: MsgId, s: SubjName)
    requires NamelessPath(f, path, next)
    ensures var start := if path == [] then next else path[0];
            Named(f, NameFakes(f, Some(start), s), path, s) && NamedUpTo(f, Some(start), s) == Some(next)
    decreases |path|
  {
    if path != [] {
      var x, rest := path[0], path[1..];
      var h := SetSubj(f, x, Some(s));
      PutEffect(f, x, At(f, x).(subj := Some(s)));
      assert Nameless(f, path, next, 0);
      PathRest(f, h, path, next, s);
      NamePath(h, rest, next, s);
      var g := NameFakes(f, Some(x), s);
      assert x in Unknown(f) && Unknown(h) == Unknown(f) - {x};
      forall y ensures At(g, y) == if y in path then At(f, y).(subj := Some(s)) else At(f, y) {
        assert y in path <==> y == x || y in rest;
      }
    }
  }

  lemma NamedLists(f: Forest, g: Forest, path: seq<MsgId>, s: SubjName)
    requires Named(f, g, path, s) && Sound(f) && s in f.thread
    requires forall x | x in path :: Parent(f, x).Some?
    ensures Sound(g) && Up(g) == Up(f)
      && (forall x :: Kids(g, x) == Kids(f, x)) && (forall x :: Parent(g, x) == Parent(f, x))
    ensures forall k :: Roots(g, k) == Roots(f, k)
  {
    assert forall x :: Kids(g, x) == Kids(f, x);
    assert forall x :: Parent(g, x) == Parent(f, x);
    assert forall k :: Roots(g, k) == Roots(f, k);
    assert forall x | x !in path :: Home(g, x) == Home(f, x);
    SameUp(f, g);
    assert Lists(g);
    assert Closed(g);
    assert Threads(g);
    assert Homes(g);
  }

  /** An article of the chain is properly placed once it has a subject. */
  lemma ChainPlaced(f: Forest, g: Forest, m: MsgId, chain: seq<MsgId>, x: MsgId, s: SubjName, i: nat)
    requires Hung(f, m, chain, x) && Named(f, g, chain[1..], s) && Subj(f, m) == Some(s) && i < |chain|
    requires forall y :: Kids(g, y) == Kids(f, y)
    ensures Subj(g, chain[i]).Some? && Placed(g, chain[i]) && Threaded(g, chain[i]) != Fake(g, chain[i])
  {
    hide Distinct, Acyclic, Sound, Placing, Labels, FamiliesBut, Up;
    ChainKids(f, m, chain, Some(x));
    ChainParents(f, m, chain, Some(x));
    var y := chain[i];
    if i > 0 {
      assert y == chain[1..][i - 1];
      assert At(f, y) == ChainNode(f, m, chain, Some(x), i);
    }
    if i + 1 < |chain| { assert Parent(f, y) == Some(chain[i + 1]) && y in Kids(f, chain[i + 1]); }
  }

  /** An article outside the chain is as it was. */
  lemma OthersPlaced(f: Forest, g: Forest, chain: seq<MsgId>, s: SubjName, y: MsgId)
    requires Placing(f, Elems(chain)) && Labels(f, Elems(chain)) && |chain| > 0 && Named(f, g, chain[1..], s)
      && y in f.nodes && y !in chain
    requires (forall p :: Kids(g, p) == Kids(f, p)) && (forall k :: Roots(g, k) == Roots(f, k))
    ensures At(g, y) == BLANK || (Subj(g, y).Some? && Placed(g, y))
    ensures Threaded(g, y) != Fake(g, y)
  {
    assert y !in Elems(chain) && y !in chain[1..];
    assert At(g, y) == At(f, y) && Home(g, y) == Home(f, y);
  }

  /** Once its fakes have a subject a hung chain is properly placed. */
  lemma NamedPlacing(f: Forest, g: Forest, m: MsgId, chain: seq<MsgId>, x: MsgId, s: SubjName)
    requires Hung(f, m, chain, x) && Named(f, g, chain[1..], s) && Subj(f, m) == Some(s)
    requires (forall y :: Kids(g, y) == Kids(f, y)) && (forall k :: Roots(g, k) == Roots(f, k))
    ensures Placing(g, {}) && Labels(g, {})
  {
    hide Chain, Placed, Kids, Roots;
    ChainDistinct(f, m, chain, Some(x));
    forall y | y in g.nodes
      ensures At(g, y) == BLANK || (Subj(g, y).Some? && Placed(g, y))
      ensures Threaded(g, y) != Fake(g, y)
    {
      if y in chain {
        var i :| 0 <= i < |chain| && chain[i] == y;
        ChainPlaced(f, g, m, chain, x, s, i);
      } else {
        OthersPlaced(f, g, chain, s, y);
      }
    }
  }

  lemma NamedHomes(f: Forest, g: Forest, m: MsgId, chain: seq<MsgId>, x: MsgId, s: SubjName)
    requires Chain(f, m, chain, Some(x)) && Named(f, g, chain[1..], s) && Subj(f, m) == Some(s)
    ensures forall y :: Home(g, y) == if y in chain then Some(ThreadOf(f, s)) else Home(f, y)
  {
    assert chain == [m] + chain[1..];
    forall y ensures Home(g, y) == if y in chain then Some(ThreadOf(f, s)) else Home(f, y) {
      assert y in chain <==> y == m || y in chain[1..];
    }
  }

  lemma NamedFamilies(f: Forest, g: Forest, m: MsgId, chain: seq<MsgId>, x: MsgId, s: SubjName)
    requires Hung(f, m, chain, x) && Home(f, x) == Home(f, m) && Named(f, g, chain[1..], s) && Subj(f, m) == Some(s)
    requires forall y :: Parent(g, y) == Parent(f, y)
    ensures Families(g)
  {
    ChainParents(f, m, chain, Some(x));
    NamedHomes(f, g, m, chain, x, s);
    HomeSubj(f);
    HomeSubj(g);
    forall y | Parent(g, y).Some? && Subj(g, y).Some? && Subj(g, Parent(g, y).value).Some?
      ensures Home(g, y) == Home(g, Parent(g, y).value)
    {
      var p := Parent(f, y).value;
      assert Parent(g, y) == Some(p);
      if y in chain {
        var i :| 0 <= i < |chain| && chain[i] == y;
        assert p in chain || p == x;
      } else if p in chain {
        EnteredAtFoot(f, m, chain, Some(x), y);
        assert Home(f, y) == Home(f, m);
      } else {
        assert Home(f, y) == Home(f, p);
      }
    }
  }

  lemma ChainNameless(f: Forest, m: MsgId, chain: seq<MsgId>, x: MsgId)
    requires Hung(f, m, chain, x)
    ensures NamelessPath(f, chain[1..], x)
    ensures Parent(f, m) == Some(if |chain| > 1 then chain[1..][0] else x)
    ensures forall y | y in chain[1..] :: Parent(f, y).Some?
  {
    var path := chain[1..];
    ChainParents(f, m, chain, Some(x));
    forall i: nat | i < |path| ensures Nameless(f, path, x, i) && Parent(f, path[i]).Some? {
      assert At(f, chain[i + 1]) == ChainNode(f, m, chain, Some(x), i + 1);
    }
    assert Distinct(path) by {
      forall i, j | 0 <= i < j < |path| ensures path[i] != path[j] { assert chain[i + 1] != chain[j + 1]; }
    }
    assert x !in path;
  }

  /** Naming the fakes leaves every article placed in one thread. */
  lemma NameHung(f: Forest, m: MsgId, chain: seq<MsgId>, x: MsgId)
    requires Hung(f, m, chain, x) && Home(f, x) == Home(f, m)
    ensures var s := Subj(f, m).value;
            var g := NameFakes(f, Parent(f, m), s);
            Well(g, {}) && Named(f, g, chain[1..], s) && Up(g) == Up(f) && NamedUpTo(f, Parent(f, m), s) == Some(x)
  {
    var s := Subj(f, m).value;
    ChainNameless(f, m, chain, x);
    NamePath(f, chain[1..], x, s);
    var g := NameFakes(f, Parent(f, m), s);
    NamedLists(f, g, chain[1..], s);
    NamedPlacing(f, g, m, chain, x, s);
    NamedFamilies(f, g, m, chain, x, s);
  }

  // ----- Cutting the loop

  /** The links of a hung chain. */
  ghost predicate HungLinks(up: Links<MsgId>, chain: seq<MsgId>, x: MsgId) {
    && |chain| > 0 && Distinct(chain) && x !in chain
    && (forall i | 0 <= i < |chain| - 1 :: chain[i] in up && up[chain[i]] == chain[i + 1])
    && chain[|chain| - 1] in up && up[chain[|chain| - 1]] == x
    && OneChildLinks(up, chain) && Acyclic(up - {chain[|chain| - 1]})
  }

  ghost predicate OneChildLinks(up: Links<MsgId>, chain: seq<MsgId>) {
    forall j, y | 1 <= j < |chain| && y in up && up[y] == chain[j] :: y == chain[j - 1]
  }

  lemma OneChildEach(f: Forest, m: MsgId, chain: seq<MsgId>, x: MsgId, j: nat, y: MsgId)
    requires Hung(f, m, chain, x) && 1 <= j < |chain| && Parent(f, y) == Some(chain[j])
    ensures y == chain[j - 1]
  {
    OnlyChildOf(f, m, chain, Some(x), j, y);
  }

  lemma HungHasLinks(f: Forest, m: MsgId, chain: seq<MsgId>, x: MsgId)
    requires Hung(f, m, chain, x)
    ensures HungLinks(Up(f), chain, x)
  {
    ChainLinks(f, m, chain, x);
    HungOneChild(f, m, chain, x);
  }

  lemma ChainLinks(f: Forest, m: MsgId, chain: seq<MsgId>, x: MsgId)
    requires Chain(f, m, chain, Some(x)) && Parent(f, chain[|chain| - 1]) == Some(x)
    ensures var up := Up(f);
            && (forall i | 0 <= i < |chain| - 1 :: chain[i] in up && up[chain[i]] == chain[i + 1])
            && chain[|chain| - 1] in up && up[chain[|chain| - 1]] == x
  {
    ChainParents(f, m, chain, Some(x));
    UpMeans(f);
    forall i | 0 <= i < |chain| - 1 ensures chain[i] in Up(f) && Up(f)[chain[i]] == chain[i + 1] {
      assert Parent(f, chain[i]) == Some(chain[i + 1]);
    }
  }

  lemma HungOneChild(f: Forest, m: MsgId, chain: seq<MsgId>, x: MsgId)
    requires Hung(f, m, chain, x)
    ensures OneChildLinks(Up(f), chain)
  {
    UpMeans(f);
    forall j, y | 1 <= j < |chain| && y in Up(f) && Up(f)[y] == chain[j] ensures y == chain[j - 1] {
      OneChildEach(f, m, chain, x, j, y);
    }
  }

  /** With the link of `m` cut, the climb from `x` does not meet the chain. */
  lemma ClimbMissesChain(up: Links<MsgId>, chain: seq<MsgId>, x: MsgId, i: nat)
    requires HungLinks(up, chain, x) && i < |chain|
    ensures i > 0 ==> !AtOrAbove(up - {chain[0]}, x, chain[i])
  {
    var cut := up - {chain[0]};
    if i > 0 && AtOrAbove(cut, x, chain[i]) {
      assert forall j | 1 <= j < |chain| :: x != chain[j];
      ChainEntry(cut, chain, x, i);
      assert false;
    }
  }

  lemma CutAtFootAcyclic(up: Links<MsgId>, chain: seq<MsgId>, x: MsgId)
    requires HungLinks(up, chain, x)
    ensures Acyclic(up - {chain[0]})
  {
    var m, prev := chain[0], chain[|chain| - 1];
    if |chain| > 1 {
      var base := (up - {prev}) - {m};
      CutKeepsAcyclic(up - {prev}, {m});
      assert base[prev := x] == up - {m};
      assert !AtOrAbove(base, x, prev) by {
        ClimbMissesChain(up, chain, x, |chain| - 1);
        if AtOrAbove(base, x, prev) {
          var n: nat :| Meets(base, x, prev, n);
          assert base == (up - {m}) - {prev};
          CutAbove(up - {m}, {prev}, x, prev, n);
        }
      }
      LinkKeepsAcyclic(base, prev, x);
    }
  }

  /** Without a child of `m` on the climb from `x` there is no loop. */
  lemma NoLoop(up: Links<MsgId>, chain: seq<MsgId>, x: MsgId)
    requires HungLinks(up, chain, x) && !AtOrAbove(up, x, chain[0])
    ensures Acyclic(up)
  {
    var prev := chain[|chain| - 1];
    var base := up - {prev};
    if AtOrAbove(base, x, prev) {
      ChainEntry(base, chain, x, |chain| - 1);
      var n: nat :| Meets(base, x, chain[0], n);
      CutAbove(up, {prev}, x, chain[0], n);
      assert false;
    }
    LinkKeepsAcyclic(base, prev, x);
    assert base[prev := x] == up;
  }

  /** The child `c` of `m` that the climb met is met without the last link of the chain too. */
  lemma MetBelow(up: Links<MsgId>, chain: seq<MsgId>, x: MsgId, c: MsgId)
    requires HungLinks(up, chain, x) && AtOrAbove(up - {chain[0]}, x, c)
    ensures AtOrAbove(up - {chain[|chain| - 1]}, x, c)
  {
    var m, prev := chain[0], chain[|chain| - 1];
    if |chain| > 1 {
      ClimbMissesChain(up, chain, x, |chain| - 1);
      var n: nat :| Meets(up - {m}, x, c, n);
      AvoidAbove(up, m, prev, x, c, n);
    }
  }

  /** Cutting the child of `m` above which the article was hung removes the loop. */
  lemma LoopCut(up: Links<MsgId>, chain: seq<MsgId>, x: MsgId, c: MsgId)
    requires HungLinks(up, chain, x)
    requires c in up && up[c] == chain[0] && AtOrAbove(up - {chain[0]}, x, c)
    ensures Acyclic(up - {c})
  {
    var m, prev := chain[0], chain[|chain| - 1];
    var base := up - {prev};
    var less := base - {c};
    MetBelow(up, chain, x, c);
    CutKeepsAcyclic(base, {c});
    if prev != c {
      if AtOrAbove(less, x, prev) {
        SecondChild(base, chain, x, c);
        assert false;
      }
      LinkKeepsAcyclic(less, prev, x);
      assert less[prev := x] == up - {c};
    }
  }

  /** A climb meets one child of `m` only. */
  lemma SecondChild(base: Links<MsgId>, chain: seq<MsgId>, x: MsgId, c: MsgId)
    requires |chain| > 0 && Acyclic(base) && c in base && base[c] == chain[0] && x !in chain
    requires OneChildLinks(base, chain)
    requires AtOrAbove(base, x, c)
    ensures !AtOrAbove(base - {c}, x, chain[|chain| - 1])
  {
    var m := chain[0];
    var less := base - {c};
    if AtOrAbove(less, x, chain[|chain| - 1]) {
      ChainEntry(less, chain, x, |chain| - 1);
      var n: nat :| Meets(less, x, m, n);
      var y := LastLink(less, x, m, n);
      var i: nat :| Meets(less, x, y, i);
      CutAbove(base, {c}, x, y, i);
      OneClimb(base, x, y, c, i);
      if AtOrAbove(base, y, c) { AboveStep(base, y, c); NotAboveItself(base, c); }
        else { AboveStep(base, c, y); NotAboveItself(base, y); }
      assert false;
    }
  }

  // ----- Settled

  lemma CutWell(f: Forest, m: MsgId, c: MsgId)
    requires Well(f, {}) && c in f.nodes && Parent(f, c) == Some(m) && Acyclic(Up(f) - {c})
    ensures WellFormed(LinkChild(Release(f, c), c)) && Parent(LinkChild(Release(f, c), c), c).None?
  {
    assert At(f, c) != BLANK;
    ReleaseLoops(f, c);
    var h := Release(f, c);
    var g := LinkChild(h, c);
    assert Subj(h, c).Some? by { assert Subj(h, c) == Subj(f, c); }
    LinkEffect(h, c);
    SameUp(h, g);
    LinkedRootWell(h, g, c);
  }

  lemma ReleaseLoops(f: Forest, c: MsgId)
    requires Well(f, {}) && c in f.nodes && Placed(f, c)
    ensures var g := Release(f, c);
            Moved(f, g, c) && Well(g, {c}) && Free(g, c) && Parent(g, c) == None && Up(g) == Up(f) - {c}
  {
    var g := Release(f, c);
    ReleaseEffect(f, c);
    MovedPlacing(f, g, c, {});
    assert {} + {c} == {c};
    MovedHomes(f, g, c);
    MovedFamilies(f, g, c);
    MovedThreads(f, g, c);
    MovedClosed(f, g, c);
  }

  /** A loose article that has been linked as a root is loose no more. */
  lemma LinkedRootWell(h: Forest, g: Forest, c: MsgId)
    requires Well(h, {c}) && Free(h, c) && Parent(h, c).None? && Subj(h, c).Some? && c in h.nodes
    requires g == LinkChild(h, c) && SameFields(h, g) && SameListsBut(h, g, c) && Placed(g, c) && Lists(g)
    requires forall k :: k in g.roots ==> k in h.roots || Home(h, c) == Some(k)
    requires Threaded(h, c) != Fake(h, c)
    ensures Well(g, {})
  {
    SameThreadHomes(h, g);
    assert g.nodes == h.nodes;
    assert forall x :: At(g, x) == At(h, x);
    assert Threads(g) by { assert Subj(h, c).value in h.thread; }
    forall x | x in g.nodes
      ensures At(g, x) == BLANK || (Subj(g, x).Some? && Placed(g, x))
      ensures Threaded(g, x) != Fake(g, x)
    {
      if x != c {
        assert x !in {c};
        if At(h, x) != BLANK { assert Placed(h, x); }
      }
    }
    PlacedOnce(g, c);
    assert Homes(g);
  }
}

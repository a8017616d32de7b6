// Walking the References line hangs the article below a chain of new fakes, and the chain below
// the first article that is already known.
module ThreadWalk {
  import opened Options
  import opened Paths
  import opened ThreadSpec
  import opened ThreadLists
  import opened ThreadSafety
  import opened ThreadDetach

  /** `chain` starts with the article `m`; the others are fakes made for this References line, each
      the only child of the next.  `top` is the parent of the last. */
  ghost predicate Chain(f: Forest, m: MsgId, chain: seq<MsgId>, top: Option<MsgId>) {
    && |chain| > 0 && chain[0] == m && Distinct(chain) && (forall i | 0 <= i < |chain| :: chain[i] in f.nodes)
    && Subj(f, m).Some? && !Fake(f, m) && Threaded(f, m)
    && (forall i | 1 <= i < |chain| :: At(f, chain[i]) == ChainNode(f, m, chain, top, i))
    && (|chain| > 1 ==> Parent(f, m) == Some(chain[1]))
  }

  ghost function ChainNode(f: Forest, m: MsgId, chain: seq<MsgId>, top: Option<MsgId>, i: int): Node
    requires 1 <= i < |chain|
  {
    Node(Date(f, m), true, false, None, if i + 1 < |chain| then Some(chain[i + 1]) else top, [chain[i - 1]])
  }

  ghost predicate Walking(f: Forest, m: MsgId, chain: seq<MsgId>, re: bool) {
    && Chain(f, m, chain, None) && Well(f, Elems(chain)) && Acyclic(Up(f))
    && (|chain| == 1 ==> if re then Placed(f, m) else Free(f, m) && Parent(f, m).None?)
  }

  /** The chain hangs below the known article `x`. */
  ghost predicate Hung(f: Forest, m: MsgId, chain: seq<MsgId>, x: MsgId) {
    && Chain(f, m, chain, Some(x)) && Sound(f) && Placing(f, Elems(chain)) && Labels(f, Elems(chain))
    && FamiliesBut(f, chain[|chain| - 1])
    && x in f.nodes && x !in chain && Subj(f, x).Some?
    && Parent(f, chain[|chain| - 1]) == Some(x) && Placed(f, chain[|chain| - 1])
    && Acyclic(Up(f) - {chain[|chain| - 1]})
  }

  ghost predicate FamiliesBut(f: Forest, c: MsgId) {
    forall x | x != c && Parent(f, x).Some? && Subj(f, x).Some? && Subj(f, Parent(f, x).value).Some? ::
      Home(f, x) == Home(f, Parent(f, x).value)
  }

  lemma StartWalking(f: Forest, m: MsgId, re: bool)
    requires Ready(f, m, re)
    ensures Walking(f, m, [m], re)
  {
    assert Elems([m]) == {m};
    assert At(f, m) != BLANK;
  }

  // ----- One id of the line

  lemma GetSame(f: Forest, id: MsgId)
    ensures var g := GetArticle(f, id);
            && (forall x :: At(g, x) == At(f, x)) && (forall k :: Roots(g, k) == Roots(f, k))
            && id in g.nodes && f.nodes.Keys <= g.nodes.Keys && g.thread == f.thread && Up(g) == Up(f)
  {
    var g := GetArticle(f, id);
    assert At(f, id) == At(g, id);
    assert forall x :: At(g, x) == At(f, x);
    assert forall x :: Parent(g, x) == Parent(f, x);
    UpMeans(f);
    UpMeans(g);
  }

  lemma GetKeeps(f: Forest, m: MsgId, chain: seq<MsgId>, re: bool, id: MsgId)
    requires Walking(f, m, chain, re)
    ensures Walking(GetArticle(f, id), m, chain, re)
  {
    if id !in f.nodes {
      var g := GetArticle(f, id);
      GetSame(f, id);
      NewBlank(f, g, Elems(chain), id);
      assert Parent(g, m) == Parent(f, m);
      assert Placed(f, m) ==> Placed(g, m) by { assert Home(g, m) == Home(f, m); }
      assert Free(f, m) ==> Free(g, m) by { assert forall x :: Kids(g, x) == Kids(f, x); }
      ChainSame(f, g, m, chain, None);
    }
  }

  lemma ChainSame(f: Forest, g: Forest, m: MsgId, chain: seq<MsgId>, top: Option<MsgId>)
    requires Chain(f, m, chain, top) && f.nodes.Keys <= g.nodes.Keys
    requires forall x | x in chain :: At(g, x) == At(f, x)
    ensures Chain(g, m, chain, top)
  {
    assert m in chain;
    forall i | 1 <= i < |chain| ensures At(g, chain[i]) == ChainNode(g, m, chain, top, i) {
      assert chain[i] in chain;
    }
  }

  lemma NewBlank(f: Forest, g: Forest, loose: set<MsgId>, id: MsgId)
    requires Well(f, loose) && id !in f.nodes && g == Put(f, id, BLANK)
    requires forall x :: At(g, x) == At(f, x)
    ensures Well(g, loose)
  {
    assert forall x :: Kids(g, x) == Kids(f, x);
    assert forall x :: Parent(g, x) == Parent(f, x);
    assert forall x :: Subj(g, x) == Subj(f, x);
    assert forall x :: Home(g, x) == Home(f, x);
    assert forall k :: Roots(g, k) == Roots(f, k);
    assert Lists(g);
    assert Closed(g);
    assert Threads(g);
    assert Homes(g);
    assert Families(g);
    forall x | x in g.nodes && x !in loose
      ensures At(g, x) == BLANK || (Subj(g, x).Some? && Placed(g, x))
      ensures Threaded(g, x) != Fake(g, x)
    {
      if x != id { assert x in f.nodes; }
    }
  }

  /** What hanging `prev` below `id` does. */
  ghost predicate Attached(f: Forest, g: Forest, prev: MsgId, id: MsgId) {
    && Moved(f, g, prev) && Parent(g, prev) == Some(id) && Placed(g, prev)
    && Up(g) == Up(f)[prev := id]
    && (forall x | x != id && Parent(f, prev) != Some(x) :: Kids(g, x) == Kids(f, x))
    && (Kids(f, id) == [] ==> Kids(g, id) == [prev])
  }

  lemma UnlinkKids(f: Forest, c: MsgId)
    ensures forall x | Parent(f, c) != Some(x) :: Kids(UnlinkChild(f, c), x) == Kids(f, x)
  {
  }

  lemma LinkKids(f: Forest, c: MsgId)
    ensures forall x | Parent(f, c) != Some(x) :: Kids(LinkChild(f, c), x) == Kids(f, x)
    ensures Parent(f, c).Some? && Kids(f, Parent(f, c).value) == [] ==> Kids(LinkChild(f, c), Parent(f, c).value) == [c]
  {
  }

  lemma HangFree(f: Forest, prev: MsgId, id: MsgId)
    requires Lists(f) && Closed(f) && prev in f.nodes && id in f.nodes && prev != id && Free(f, prev)
    ensures var g := LinkChild(SetParent(f, prev, Some(id)), prev);
            && Moved(f, g, prev) && Parent(g, prev) == Some(id) && Placed(g, prev) && Up(g) == Up(f)[prev := id]
            && (forall x | x != id :: Kids(g, x) == Kids(f, x))
            && (Kids(f, id) == [] ==> Kids(g, id) == [prev])
  {
    hide Parent, Kids, ThreadOf, Roots, Home, Up, LinkChild, KidsPoint, RootsPoint, OneRootList, NoRepeats, Lists,
      Placed, Free;
    var h := SetParent(f, prev, Some(id));
    SetParentEffect(f, prev, Some(id));
    LinkEffect(h, prev);
    LinkKids(h, prev);
    var g := LinkChild(h, prev);
    UpMeans(f);
    UpMeans(g);
    assert Up(g) == Up(f)[prev := id];
    assert SameListsBut(f, g, prev);
  }

  lemma AttachEffect(f: Forest, prev: MsgId, id: MsgId, re: bool)
    requires Lists(f) && Closed(f) && prev in f.nodes && id in f.nodes && prev != id
    requires if re && Subj(f, prev).Some? then Placed(f, prev) else Free(f, prev)
    requires Kids(f, id) == [] ==> Parent(f, prev) != Some(id)
    ensures Attached(f, Attach(f, prev, id, re), prev, id)
  {
    hide Up, UnlinkChild, NoRepeats, SameFields, Placed, InsertByDate, OneRootList, Distinct, Kids, RootsPoint, Home,
      Subj, Roots, SetRoots, Date, Free, Threaded, Fake, KidsPoint;
    if re && Subj(f, prev).Some? {
      var h := UnlinkChild(f, prev);
      UnlinkEffect(f, prev);
      UnlinkKids(f, prev);
      HangFree(h, prev, id);
      SameUp(f, h);
      var g := Attach(f, prev, id, re);
      assert SameListsBut(f, g, prev);
    } else {
      HangFree(f, prev, id);
    }
  }

  lemma WalkPrev(f: Forest, m: MsgId, chain: seq<MsgId>, re: bool)
    requires Walking(f, m, chain, re)
    ensures var prev := chain[|chain| - 1];
            && prev in f.nodes && (|chain| > 1 ==> Subj(f, prev).None? && Parent(f, prev).None? && Fake(f, prev))
            && (if re && Subj(f, prev).Some? then Placed(f, prev) else Free(f, prev))
            && (forall x :: Kids(f, x) == [] ==> Parent(f, prev) != Some(x))
  {
    var prev := chain[|chain| - 1];
    if |chain| > 1 {
      var i := |chain| - 1;
      assert At(f, chain[i]) == ChainNode(f, m, chain, None, i);
      assert Home(f, prev).None?;
      assert Free(f, prev) by { UnhomedFree(f, prev); }
    }
  }

  lemma UnhomedFree(f: Forest, x: MsgId)
    requires Sound(f) && Parent(f, x).None? && Home(f, x).None?
    ensures Free(f, x)
  {
  }

  lemma LooseMore(f: Forest, loose: set<MsgId>, more: set<MsgId>)
    requires Placing(f, loose) && Labels(f, loose) && loose <= more
    ensures Placing(f, more) && Labels(f, more)
  {
  }

  /** Hanging `prev` below a known article or a blank one keeps the rest. */
  lemma AttachedSound(f: Forest, g: Forest, prev: MsgId, id: MsgId, loose: set<MsgId>)
    requires Sound(f) && Placing(f, loose) && Labels(f, loose) && prev in loose && id in f.nodes
    requires Attached(f, g, prev, id)
    ensures Sound(g) && Placing(g, loose + {id}) && Labels(g, loose + {id})
    ensures At(f, id) != BLANK ==> Placing(g, loose) && Labels(g, loose)
  {
    MovedHomes(f, g, prev);
    MovedThreads(f, g, prev);
    MovedClosed(f, g, prev);
    LooseMore(f, loose, loose + {id});
    assert prev in loose + {id};
    assert loose + {id} + {prev} == loose + {id} && loose + {prev} == loose;
    forall x | prev in Kids(g, x) ensures x == id {
      assert Parent(g, prev) == Some(x);
    }
    MovedPlacing(f, g, prev, loose + {id});
    if At(f, id) != BLANK { MovedPlacing(f, g, prev, loose); }
  }

  lemma SetDateWell(f: Forest, x: MsgId, d: int, loose: set<MsgId>)
    requires Well(f, loose) && x in loose && x in f.nodes
    ensures var g := SetDate(f, x, d); Well(g, loose) && Up(g) == Up(f)
  {
    var g := SetDate(f, x, d);
    PutEffect(f, x, At(f, x).(date := d));
    assert forall y :: Kids(g, y) == Kids(f, y);
    assert forall y :: Parent(g, y) == Parent(f, y);
    assert forall y :: Subj(g, y) == Subj(f, y);
    assert forall y :: Home(g, y) == Home(f, y);
    SameUp(f, g);
    assert Lists(g);
    assert Closed(g);
    assert Threads(g);
    assert Homes(g);
    assert Families(g);
    forall y | y in g.nodes && y !in loose
      ensures At(g, y) == BLANK || (Subj(g, y).Some? && Placed(g, y))
      ensures Threaded(g, y) != Fake(g, y)
    {
      assert At(g, y) == At(f, y);
    }
  }

  /** Links stay acyclic when the top `prev` gets a parent that is not below it. */
  lemma RelinkAcyclic(up: Links<MsgId>, prev: MsgId, id: MsgId)
    requires Acyclic(up) && !AtOrAbove(up - {prev}, id, prev)
    ensures Acyclic(up[prev := id])
  {
    CutKeepsAcyclic(up, {prev});
    LinkKeepsAcyclic(up - {prev}, prev, id);
    assert (up - {prev})[prev := id] == up[prev := id];
  }

  lemma RelinkCut(up: Links<MsgId>, prev: MsgId, id: MsgId)
    requires Acyclic(up)
    ensures Acyclic(up[prev := id] - {prev})
  {
    assert up[prev := id] - {prev} == up - {prev};
    CutKeepsAcyclic(up, {prev});
  }

  /** The chain grows by one new fake. */
  lemma ChainGrows(f: Forest, g: Forest, m: MsgId, chain: seq<MsgId>, id: MsgId)
    requires Chain(f, m, chain, None) && At(f, id) == BLANK && id in f.nodes && id !in chain
    requires Attached(f, g, chain[|chain| - 1], id)
    requires |chain| > 1 ==> Parent(f, chain[|chain| - 1]).None?
    ensures Chain(SetDate(g, id, Date(f, m)), m, chain + [id], None)
  {
    var prev := chain[|chain| - 1];
    var h := SetDate(g, id, Date(f, m));
    PutEffect(g, id, At(g, id).(date := Date(f, m)));
    var next := chain + [id];
    assert m == chain[0] && m != id;
    assert Date(h, m) == Date(g, m) == Date(f, m) && Subj(h, m) == Subj(g, m) && Fake(h, m) == Fake(g, m);
    assert Threaded(h, m) == Threaded(g, m);
    forall i | 1 <= i < |next| ensures At(h, next[i]) == ChainNode(h, m, next, None, i) {
      if i < |chain| {
        var c := chain[i];
        assert c != id;
        assert Kids(g, c) == Kids(f, c);
        assert At(f, c) == ChainNode(f, m, chain, None, i);
        assert Subj(g, c) == Subj(f, c) && Date(g, c) == Date(f, c) && Fake(g, c) == Fake(f, c);
        assert Threaded(g, c) == Threaded(f, c);
        if i < |chain| - 1 { assert Parent(g, c) == Parent(f, c); }
      } else {
        assert Kids(g, id) == [prev];
        assert Subj(g, id) == Subj(f, id) && Fake(g, id) == Fake(f, id) && Threaded(g, id) == Threaded(f, id);
        assert Parent(g, id) == Parent(f, id);
      }
    }
  }

  /** The chain gets a known parent. */
  lemma ChainTopped(f: Forest, g: Forest, m: MsgId, chain: seq<MsgId>, id: MsgId)
    requires Chain(f, m, chain, None) && id !in chain
    requires Attached(f, g, chain[|chain| - 1], id)
    requires |chain| > 1 ==> Parent(f, chain[|chain| - 1]).None?
    ensures Chain(g, m, chain, Some(id))
  {
    assert Date(g, m) == Date(f, m) && Subj(g, m) == Subj(f, m) && Fake(g, m) == Fake(f, m);
    assert Threaded(g, m) == Threaded(f, m);
    forall i | 1 <= i < |chain| ensures At(g, chain[i]) == ChainNode(g, m, chain, Some(id), i) {
      var c := chain[i];
      assert c != id;
      assert Kids(g, c) == Kids(f, c);
      assert At(f, c) == ChainNode(f, m, chain, None, i);
      assert Subj(g, c) == Subj(f, c) && Date(g, c) == Date(f, c) && Fake(g, c) == Fake(f, c);
      assert Threaded(g, c) == Threaded(f, c);
      if i < |chain| - 1 { assert Parent(g, c) == Parent(f, c); }
    }
  }

  lemma BlankStep(f: Forest, m: MsgId, chain: seq<MsgId>, re: bool, id: MsgId)
    requires Walking(f, m, chain, re) && At(f, id) == BLANK && id in f.nodes && id !in chain
    ensures var g := Attach(f, chain[|chain| - 1], id, re);
            Walking(SetDate(g, id, Date(f, m)), m, chain + [id], re) && Date(g, m) == Date(f, m)
  {
    hide Threads, Up, Lists, SetDate, Placed, Labels, RootsPoint, Free, Placing, ChainNode, Grounded, At, AtOrAbove,
      UnlinkChild, SameListsBut, Home, OneRootList, Meets, Roots, Closed, Put, Date, Kids, Fake, LinkChild;
    var prev := chain[|chain| - 1];
    var g := Attach(f, prev, id, re);
    var loose := Elems(chain);
    WalkPrev(f, m, chain, re);
    AttachEffect(f, prev, id, re);
    ChainGrows(f, g, m, chain, id);
    assert Acyclic(Up(g)) by {
      UpMeans(f);
      AboveEnds(Up(f) - {prev}, id, prev);
      RelinkAcyclic(Up(f), prev, id);
    }
    assert Elems(chain + [id]) == loose + {id};
    assert Well(g, loose + {id}) by {
      AttachedSound(f, g, prev, id, loose);
      MovedFamilies(f, g, prev);
    }
    SetDateWell(g, id, Date(f, m), loose + {id});
  }

  lemma MovedFamiliesBut(f: Forest, g: Forest, c: MsgId)
    requires Moved(f, g, c) && Families(f)
    ensures FamiliesBut(g, c)
  {
    SameThreadHomes(f, g);
    forall x | x != c && Parent(g, x).Some? && Subj(g, x).Some? && Subj(g, Parent(g, x).value).Some?
      ensures Home(g, x) == Home(g, Parent(g, x).value)
    {
      assert Parent(f, x) == Parent(g, x);
    }
  }

  lemma KnownStep(f: Forest, m: MsgId, chain: seq<MsgId>, re: bool, id: MsgId)
    requires Walking(f, m, chain, re) && Subj(f, id).Some? && id in f.nodes && id !in chain
    ensures Hung(Attach(f, chain[|chain| - 1], id, re), m, chain, id)
  {
    var prev := chain[|chain| - 1];
    var g := Attach(f, prev, id, re);
    WalkPrev(f, m, chain, re);
    AttachEffect(f, prev, id, re);
    ChainTopped(f, g, m, chain, id);
    assert Subj(g, id) == Subj(f, id);
    assert Sound(g) && Placing(g, Elems(chain)) && Labels(g, Elems(chain)) by {
      AttachedSound(f, g, prev, id, Elems(chain));
    }
    MovedFamiliesBut(f, g, prev);
    RelinkCut(Up(f), prev, id);
  }

  /** The ids that the walk over `refs` takes new fakes for, in that order: those it reaches, other
      than the article's own, that name no article with a subject. */
  function Fresh(f: Forest, m: MsgId, refs: seq<MsgId>): seq<MsgId>
    decreases |refs|
  {
    if refs == [] then []
    else
      var id, rest := refs[|refs| - 1], refs[..|refs| - 1];
      if id == m then Fresh(f, m, rest)
      else if Subj(f, id).Some? then []
      else [id] + Fresh(f, m, rest)
  }

  lemma {:induction false} FreshSame(f: Forest, g: Forest, m: MsgId, refs: seq<MsgId>)
    requires forall x :: Subj(g, x) == Subj(f, x)
    ensures Fresh(g, m, refs) == Fresh(f, m, refs)
    decreases |refs|
  {
    if refs != [] { FreshSame(f, g, m, refs[..|refs| - 1]); }
  }

  /** No id is taken twice: either the article has a date, which marks the fakes made for this
      line, or the line does not repeat one of them. */
  predicate Datable(f: Forest, m: MsgId, refs: seq<MsgId>) {
    Date(f, m) != 0 || Distinct(Fresh(f, m, refs))
  }

  /** Where the walk ends: nothing was attached, or the whole chain consists of new fakes, or it
      hangs below a known article. */
  ghost predicate WalkEnd(w: Walked, m: MsgId, chain: seq<MsgId>, re: bool) {
    match w.last
    case None => chain == [m] && Walking(w.forest, m, chain, re)
    case Some(x) =>
      if Subj(w.forest, x).Some? then Hung(w.forest, m, chain, x)
      else Walking(w.forest, m, chain, re) && |chain| > 1 && x == chain[|chain| - 1]
  }

  /** The fakes of the chain are recognized by their date. */
  lemma ChainDated(f: Forest, m: MsgId, chain: seq<MsgId>, top: Option<MsgId>, x: MsgId)
    requires Chain(f, m, chain, top) && x in chain && x != m
    ensures Subj(f, x).None? && Date(f, x) == Date(f, m)
  {
    var i :| 0 <= i < |chain| && chain[i] == x;
    assert At(f, chain[i]) == ChainNode(f, m, chain, top, i);
  }

  /** The rest of the line can be walked without taking an article of the chain again. */
  ghost predicate Unrepeated(f: Forest, m: MsgId, refs: seq<MsgId>, chain: seq<MsgId>) {
    Date(f, m) != 0 || (Distinct(Fresh(f, m, refs)) && forall x | x in Fresh(f, m, refs) :: x !in chain)
  }

  function Passed(f: Forest, m: MsgId, id: MsgId): bool {
    (Date(f, id) != 0 && Subj(f, id).None?) || id == m
  }

  lemma NotInChain(f: Forest, m: MsgId, chain: seq<MsgId>, refs: seq<MsgId>)
    requires Chain(f, m, chain, None) && Unrepeated(f, m, refs, chain) && refs != []
    requires !Passed(f, m, refs[|refs| - 1])
    ensures refs[|refs| - 1] !in chain
  {
    var id := refs[|refs| - 1];
    assert Subj(f, id).None? ==> id in Fresh(f, m, refs);
    if id in chain { ChainDated(f, m, chain, None, id); }
  }

  /** Without a date only the article's own id is passed over. */
  lemma PassedOwn(f: Forest, m: MsgId, chain: seq<MsgId>, id: MsgId)
    requires Chain(f, m, chain, None) && Placing(f, Elems(chain)) && Date(f, m) == 0
    requires Passed(f, m, id)
    ensures id == m
  {
    assert id in Elems(chain) || At(f, id) == BLANK || Subj(f, id).Some?;
    if id in chain && id != m { ChainDated(f, m, chain, None, id); }
  }

  lemma DateElsewhere(f: Forest, x: MsgId, d: int, m: MsgId)
    requires x != m
    ensures Date(SetDate(f, x, d), m) == Date(f, m)
  {
  }

  /** The last article of the chain, once there is one above the article itself. */
  function TopOf(chain: seq<MsgId>): Option<MsgId>
    requires |chain| > 0
  {
    if |chain| == 1 then None else Some(chain[|chain| - 1])
  }

  lemma IterBlank(f: Forest, m: MsgId, refs: seq<MsgId>, chain: seq<MsgId>, re: bool)
    returns (h: Forest)
    requires refs != [] && Walking(f, m, chain, re) && Unrepeated(f, m, refs, chain)
    requires var id := refs[|refs| - 1]; !Passed(f, m, id) && Subj(f, id).None?
    ensures var id, rest := refs[|refs| - 1], refs[..|refs| - 1];
            && h == SetDate(Attach(GetArticle(f, id), chain[|chain| - 1], id, re), id, Date(f, m)) && id !in chain
            && Walking(h, m, chain + [id], re) && Unrepeated(h, m, rest, chain + [id])
            && Walk(f, m, refs, chain[|chain| - 1], TopOf(chain), re) == Walk(h, m, rest, id, Some(id), re)
  {
    hide ChainNode, Distinct, Acyclic, Parent, Up, GetArticle, Attach, Lists, Families, Placed, Labels, Sound;
    var id, rest := refs[|refs| - 1], refs[..|refs| - 1];
    var f1 := GetArticle(f, id);
    GetKeeps(f, m, chain, re, id);
    GetSame(f, id);
    assert At(f1, m) == At(f, m) && At(f1, id) == At(f, id);
    NotInChain(f, m, chain, refs);
    assert At(f1, id) == BLANK by { assert id !in Elems(chain); }
    BlankStep(f1, m, chain, re, id);
    h := SetDate(Attach(f1, chain[|chain| - 1], id, re), id, Date(f1, m));
    BlankUnrepeated(f, h, m, refs, chain, re);
  }

  lemma BlankUnrepeated(f: Forest, h: Forest, m: MsgId, refs: seq<MsgId>, chain: seq<MsgId>, re: bool)
    requires refs != [] && Unrepeated(f, m, refs, chain) && |chain| > 0
    requires var id := refs[|refs| - 1];
             var f1 := GetArticle(f, id);
             && !Passed(f, m, id) && Subj(f, id).None?
             && h == SetDate(Attach(f1, chain[|chain| - 1], id, re), id, Date(f1, m)) && Date(h, m) == Date(f, m)
    ensures Unrepeated(h, m, refs[..|refs| - 1], chain + [refs[|refs| - 1]])
  {
    var id, rest := refs[|refs| - 1], refs[..|refs| - 1];
    var f1 := GetArticle(f, id);
    AttachSubjects(f1, chain[|chain| - 1], id, re);
    assert forall x :: Subj(f1, x) == Subj(f, x);
    assert forall x :: Subj(h, x) == Subj(f, x);
    FreshSame(f, h, m, rest);
    FreshRest(Fresh(f, m, refs), Fresh(f, m, rest), id);
  }

  /** Hanging an article somewhere changes nobody's subject. */
  lemma AttachSubjects(f: Forest, prev: MsgId, id: MsgId, re: bool)
    ensures forall x :: Subj(Attach(f, prev, id, re), x) == Subj(f, x)
  {
    var f1 := if re && Subj(f, prev).Some? then UnlinkChild(f, prev) else f;
    assert forall x :: Subj(f1, x) == Subj(f, x);
    var f2 := SetParent(f1, prev, Some(id));
    assert forall x :: Subj(f2, x) == Subj(f1, x);
    assert forall x :: Subj(LinkChild(f2, prev), x) == Subj(f2, x);
  }

  lemma FreshRest(all: seq<MsgId>, rest: seq<MsgId>, id: MsgId)
    requires all == [id] + rest
    ensures Distinct(all) ==> Distinct(rest) && id !in rest
    ensures forall x | x in rest :: x in all
  {
    assert rest == all[1..];
    if Distinct(all) {
      forall i, j | 0 <= i < j < |rest| ensures rest[i] != rest[j] { assert all[i + 1] != all[j + 1]; }
      forall i | 0 <= i < |rest| ensures rest[i] != id { assert all[i + 1] != all[0]; }
    }
  }

  lemma IterKnown(f: Forest, m: MsgId, refs: seq<MsgId>, chain: seq<MsgId>, re: bool)
    returns (h: Forest)
    requires refs != [] && Walking(f, m, chain, re) && Unrepeated(f, m, refs, chain)
    requires var id := refs[|refs| - 1]; !Passed(f, m, id) && Subj(f, id).Some?
    ensures var id := refs[|refs| - 1];
            && h == Attach(GetArticle(f, id), chain[|chain| - 1], id, re)
            && Hung(h, m, chain, id) && id !in chain && Subj(h, id).Some?
            && Walk(f, m, refs, chain[|chain| - 1], TopOf(chain), re) == Walked(h, Some(id))
  {
    var id := refs[|refs| - 1];
    var f1 := GetArticle(f, id);
    GetKeeps(f, m, chain, re, id);
    GetSame(f, id);
    assert At(f1, m) == At(f, m) && At(f1, id) == At(f, id);
    NotInChain(f, m, chain, refs);
    KnownStep(f1, m, chain, re, id);
    h := Attach(f1, chain[|chain| - 1], id, re);
  }

  lemma IterPassed(f: Forest, m: MsgId, refs: seq<MsgId>, chain: seq<MsgId>, re: bool)
    returns (h: Forest)
    requires refs != [] && Walking(f, m, chain, re) && Unrepeated(f, m, refs, chain)
    requires Passed(f, m, refs[|refs| - 1])
    ensures var rest := refs[..|refs| - 1];
            && h == GetArticle(f, refs[|refs| - 1])
            && Walking(h, m, chain, re) && Unrepeated(h, m, rest, chain)
            && Walk(f, m, refs, chain[|chain| - 1], TopOf(chain), re) ==
              Walk(h, m, rest, chain[|chain| - 1], TopOf(chain), re)
  {
    var id, rest := refs[|refs| - 1], refs[..|refs| - 1];
    h := GetArticle(f, id);
    GetKeeps(f, m, chain, re, id);
    GetSame(f, id);
    assert At(h, m) == At(f, m) && At(h, id) == At(f, id);
    FreshSame(f, h, m, rest);
    if Date(f, m) == 0 { PassedOwn(f, m, chain, id); }
    assert chain[|chain| - 1] == m <==> |chain| == 1;
  }

  /** The article, then each new id of the line from the right, up to the first known article. */
  function Lineage(f: Forest, refs: seq<MsgId>, chain: seq<MsgId>): seq<MsgId>
    decreases |refs|
  {
    if refs == [] then chain
    else
      var id, rest := refs[|refs| - 1], refs[..|refs| - 1];
      if id in chain then Lineage(f, rest, chain)
      else if Subj(f, id).Some? then chain + [id]
      else Lineage(f, rest, chain + [id])
  }

  lemma {:induction false} LineageSame(f: Forest, g: Forest, refs: seq<MsgId>, chain: seq<MsgId>)
    requires forall x :: Subj(g, x) == Subj(f, x)
    ensures Lineage(g, refs, chain) == Lineage(f, refs, chain)
    decreases |refs|
  {
    if refs != [] {
      var id, rest := refs[|refs| - 1], refs[..|refs| - 1];
      LineageSame(f, g, rest, chain);
      LineageSame(f, g, rest, chain + [id]);
    }
  }

  ghost function WholeLine(w: Walked, chain: seq<MsgId>): seq<MsgId> {
    if w.last.Some? && Subj(w.forest, w.last.value).Some? then chain + [w.last.value] else chain
  }

  lemma PassedTaken(f: Forest, m: MsgId, chain: seq<MsgId>, re: bool, id: MsgId)
    requires Walking(f, m, chain, re) && Passed(f, m, id)
    ensures id in chain
  {
    assert m in chain;
    assert id in Elems(chain) || At(f, id) == BLANK || Subj(f, id).Some?;
  }

  lemma BlankSubjects(f: Forest, prev: MsgId, id: MsgId, re: bool, d: int)
    ensures forall x :: Subj(SetDate(Attach(GetArticle(f, id), prev, id, re), id, d), x) == Subj(f, x)
  {
    GetSame(f, id);
    AttachSubjects(GetArticle(f, id), prev, id, re);
    var g := Attach(GetArticle(f, id), prev, id, re);
    assert forall x :: Subj(GetArticle(f, id), x) == Subj(f, x);
    assert forall x :: Subj(SetDate(g, id, d), x) == Subj(g, x);
  }

  lemma {:induction false} WalkEnds(f: Forest, m: MsgId, refs: seq<MsgId>, chain: seq<MsgId>, re: bool)
    returns (end: seq<MsgId>)
    requires Walking(f, m, chain, re) && Unrepeated(f, m, refs, chain)
    ensures WalkEnd(Walk(f, m, refs, chain[|chain| - 1], TopOf(chain), re), m, end, re)
    ensures Lineage(f, refs, chain) == WholeLine(Walk(f, m, refs, chain[|chain| - 1], TopOf(chain), re), end)
    decreases |refs|
  {
    hide SetParent, Sound, Subj, Families, Placing, ChainNode, Hung, At, NoRepeats, KidsPoint, Labels, Up;
    if refs == [] {
      WalkStops(f, m, chain, re);
      if |chain| > 1 { ChainDated(f, m, chain, None, chain[|chain| - 1]); }
      end := chain;
    } else {
      var id, rest := refs[|refs| - 1], refs[..|refs| - 1];
      if Passed(f, m, id) {
        var h := IterPassed(f, m, refs, chain, re);
        PassedTaken(f, m, chain, re, id);
        GetSame(f, id);
        assert forall x :: Subj(h, x) == Subj(f, x);
        LineageSame(f, h, rest, chain);
        end := WalkEnds(h, m, rest, chain, re);
      } else if Subj(f, id).Some? {
        var h := IterKnown(f, m, refs, chain, re);
        end := chain;
      } else {
        var h := IterBlank(f, m, refs, chain, re);
        BlankSubjects(f, chain[|chain| - 1], id, re, Date(f, m));
        LineageSame(f, h, rest, chain + [id]);
        end := WalkEnds(h, m, rest, chain + [id], re);
      }
    }
  }

  lemma WalkStops(f: Forest, m: MsgId, chain: seq<MsgId>, re: bool)
    requires Walking(f, m, chain, re)
    ensures WalkEnd(Walked(f, TopOf(chain)), m, chain, re)
  {
    if |chain| > 1 { ChainDated(f, m, chain, None, chain[|chain| - 1]); } else { assert chain == [m]; }
  }
}

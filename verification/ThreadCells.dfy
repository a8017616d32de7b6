// How pointers represent the forest: each article's links, and each subject's `thread`, as keys.
module ThreadCells {
  import opened Options
  import opened ThreadSpec
  import opened ThreadLists

  /** The fields of one article object, with message ids for its pointers. */
  datatype Cell = Cell(
    date: int,
    fake: bool,
    threaded: bool,
    subj: Option<SubjName>,
    parent: Option<MsgId>,
    child1: Option<MsgId>,
    sibling: Option<MsgId>)

  /** The article objects and the `thread` pointers of the subjects. */
  datatype Store = Store(cells: map<MsgId, Cell>, tops: map<SubjName, Option<MsgId>>)

  function First(list: seq<MsgId>): Option<MsgId> {
    if list == [] then None else Some(list[0])
  }

  function Next(list: seq<MsgId>, i: int): Option<MsgId>
    requires 0 <= i < |list|
  {
    if i + 1 < |list| then Some(list[i + 1]) else None
  }

  /** The sibling links run through `list`. */
  ghost predicate Linked(cells: map<MsgId, Cell>, list: seq<MsgId>) {
    forall i | 0 <= i < |list| :: list[i] in cells && cells[list[i]].sibling == Next(list, i)
  }

  /** The fields of a cell other than its sibling link are those of the node. */
  ghost predicate Shows(c: Cell, n: Node) {
    && c.date == n.date && c.fake == n.fake && c.threaded == n.threaded
    && c.subj == n.subj && c.parent == n.parent && c.child1 == First(n.kids)
  }

  ghost predicate CellsShow(cells: map<MsgId, Cell>, f: Forest) {
    && cells.Keys == f.nodes.Keys
    && (forall m | m in cells :: Shows(cells[m], At(f, m)))
  }

  ghost predicate AllLinked(cells: map<MsgId, Cell>, f: Forest) {
    && (forall p :: Linked(cells, Kids(f, p)))
    && (forall k :: Linked(cells, Roots(f, k)))
  }

  ghost predicate TopsShow(tops: map<SubjName, Option<MsgId>>, f: Forest) {
    && tops.Keys == f.thread.Keys
    && (forall s | s in tops :: tops[s] == First(Roots(f, ThreadOf(f, s))))
  }

  /** The store represents the forest. */
  ghost predicate Represents(st: Store, f: Forest) {
    CellsShow(st.cells, f) && AllLinked(st.cells, f) && TopsShow(st.tops, f)
  }

  // ----- One list changes

  lemma StillLinked(cells: map<MsgId, Cell>, cells': map<MsgId, Cell>, list: seq<MsgId>)
    requires Linked(cells, list) && cells.Keys <= cells'.Keys
    requires forall m | m in list && m in cells :: cells'[m].sibling == cells[m].sibling
    ensures Linked(cells', list)
  {
  }

  lemma Prepended(cells: map<MsgId, Cell>, list: seq<MsgId>, c: MsgId)
    requires Linked(cells, list) && c in cells && cells[c].sibling == First(list)
    ensures Linked(cells, [c] + list)
  {
    var r := [c] + list;
    forall i | 0 <= i < |r| ensures r[i] in cells && cells[r[i]].sibling == Next(r, i) {
      if i > 0 { assert cells[list[i - 1]].sibling == Next(list, i - 1); }
    }
  }

  lemma Spliced(cells: map<MsgId, Cell>, list: seq<MsgId>, c: MsgId, j: nat)
    requires c in cells && j < |list| && Linked(cells, list) && Distinct(list) && c !in list
    ensures var cells' := cells[c := cells[c].(sibling := cells[list[j]].sibling)]
              [list[j] := cells[list[j]].(sibling := Some(c))];
            Linked(cells', list[..j + 1] + [c] + list[j + 1..])
  {
    var cells' := cells[c := cells[c].(sibling := cells[list[j]].sibling)]
      [list[j] := cells[list[j]].(sibling := Some(c))];
    var r := list[..j + 1] + [c] + list[j + 1..];
    assert c != list[j];
    forall i | 0 <= i < |r| ensures r[i] in cells' && cells'[r[i]].sibling == Next(r, i) {
      if i < j {
        assert r[i] == list[i] && r[i + 1] == list[i + 1] && list[i] != list[j];
      } else if i == j {
        assert r[i] == list[j] && r[i + 1] == c;
      } else if i == j + 1 {
        assert r[i] == c && cells[list[j]].sibling == Next(list, j);
        assert i + 1 < |r| ==> r[i + 1] == list[j + 1];
      } else {
        assert r[i] == list[i - 1] && list[i - 1] != list[j];
        assert cells[list[i - 1]].sibling == Next(list, i - 1);
        assert i + 1 < |r| ==> r[i + 1] == list[i];
      }
    }
  }

  lemma Unspliced(cells: map<MsgId, Cell>, list: seq<MsgId>, j: nat)
    requires j + 1 < |list| && Linked(cells, list) && Distinct(list)
    ensures var cells' := cells[list[j] := cells[list[j]].(sibling := cells[list[j + 1]].sibling)];
            Linked(cells', list[..j + 1] + list[j + 2..])
  {
    var cells' := cells[list[j] := cells[list[j]].(sibling := cells[list[j + 1]].sibling)];
    var r := list[..j + 1] + list[j + 2..];
    forall i | 0 <= i < |r| ensures r[i] in cells' && cells'[r[i]].sibling == Next(r, i) {
      if i < j {
        assert r[i] == list[i] && r[i + 1] == list[i + 1] && list[i] != list[j];
      } else if i == j {
        assert r[i] == list[j] && cells[list[j + 1]].sibling == Next(list, j + 1);
        assert i + 1 < |r| ==> r[i + 1] == list[j + 2];
      } else {
        assert r[i] == list[i + 1] && list[i + 1] != list[j];
        assert cells[list[i + 1]].sibling == Next(list, i + 1);
        assert i + 1 < |r| ==> r[i + 1] == list[i + 2];
      }
    }
  }

  lemma Tail(cells: map<MsgId, Cell>, list: seq<MsgId>)
    requires Linked(cells, list) && list != []
    ensures Linked(cells, list[1..]) && cells[list[0]].sibling == First(list[1..])
  {
    assert forall i | 0 <= i < |list| - 1 :: list[1..][i] == list[i + 1];
    forall i | 0 <= i < |list| - 1 ensures cells[list[1..][i]].sibling == Next(list[1..], i) {
      assert cells[list[i + 1]].sibling == Next(list, i + 1);
    }
  }

  // ----- A child list

  /** Only `c` and members of `list` may have other sibling links in `cells'`. */
  ghost predicate LinksWithin(cells: map<MsgId, Cell>, cells': map<MsgId, Cell>, c: MsgId, list: seq<MsgId>) {
    && cells'.Keys == cells.Keys
    && forall m | m in cells && m != c && m !in list :: cells'[m].sibling == cells[m].sibling
  }

  /** The fields other than the sibling links are the same, and so is the first child, except that of
      `p` is now `head`. */
  ghost predicate FieldsBut(cells: map<MsgId, Cell>, cells': map<MsgId, Cell>, p: Option<MsgId>, head: Option<MsgId>) {
    && cells'.Keys == cells.Keys
    && forall m | m in cells ::
      cells'[m].(sibling := None) == if Some(m) == p then cells[m].(sibling := None, child1 := head)
        else cells[m].(sibling := None)
  }

  ghost predicate Apart(list: seq<MsgId>, other: seq<MsgId>, c: MsgId) {
    c !in other && forall m | m in other :: m !in list
  }

  /** A list apart from `list` and `c` stays linked. */
  lemma OthersLinked(cells: map<MsgId, Cell>, cells': map<MsgId, Cell>, c: MsgId, list: seq<MsgId>, other: seq<MsgId>)
    requires Linked(cells, other) && LinksWithin(cells, cells', c, list) && Apart(list, other, c)
    ensures Linked(cells', other)
  {
  }

  lemma KidsApart(f: Forest, p: MsgId, c: MsgId, q: MsgId)
    requires Lists(f) && (Free(f, c) || c in Kids(f, p)) && q != p
    ensures Apart(Kids(f, p), Kids(f, q), c)
  {
    forall m | m in Kids(f, q) ensures m !in Kids(f, p) { assert Parent(f, m) == Some(q); }
  }

  lemma KidsApartRoots(f: Forest, p: MsgId, c: MsgId, k: SubjName)
    requires Lists(f) && (Free(f, c) || c in Kids(f, p))
    ensures Apart(Kids(f, p), Roots(f, k), c)
  {
    forall m | m in Roots(f, k) ensures m !in Kids(f, p) { assert Parent(f, m) == None; }
  }

  lemma RootsApartKids(f: Forest, k: SubjName, c: MsgId, q: MsgId)
    requires Lists(f) && (Free(f, c) || c in Roots(f, k))
    ensures Apart(Roots(f, k), Kids(f, q), c)
  {
    forall m | m in Kids(f, q) ensures m !in Roots(f, k) { assert Parent(f, m) == Some(q); }
  }

  lemma RootsApart(f: Forest, k: SubjName, c: MsgId, j: SubjName)
    requires Lists(f) && (Free(f, c) || c in Roots(f, k)) && j != k
    ensures Apart(Roots(f, k), Roots(f, j), c)
  {
    assert OneRootList(f);
  }

  lemma KidsLinked(cells: map<MsgId, Cell>, cells': map<MsgId, Cell>, f: Forest, p: MsgId, c: MsgId, kids: seq<MsgId>)
    requires AllLinked(cells, f) && Lists(f) && p in f.nodes
    requires LinksWithin(cells, cells', c, Kids(f, p))
    requires Linked(cells', kids) && (Free(f, c) || c in Kids(f, p))
    ensures AllLinked(cells', SetKids(f, p, kids))
  {
    var g := SetKids(f, p, kids);
    SetKidsEffect(f, p, kids);
    forall q ensures Linked(cells', Kids(g, q)) {
      if q != p {
        KidsApart(f, p, c, q);
        OthersLinked(cells, cells', c, Kids(f, p), Kids(f, q));
      }
    }
    forall k ensures Linked(cells', Roots(g, k)) {
      KidsApartRoots(f, p, c, k);
      OthersLinked(cells, cells', c, Kids(f, p), Roots(f, k));
    }
  }

  lemma KidsCells(cells: map<MsgId, Cell>, cells': map<MsgId, Cell>, f: Forest, p: MsgId, kids: seq<MsgId>)
    requires CellsShow(cells, f) && p in f.nodes && FieldsBut(cells, cells', Some(p), First(kids))
    ensures CellsShow(cells', SetKids(f, p, kids))
  {
    var g := SetKids(f, p, kids);
    PutEffect(f, p, At(f, p).(kids := kids));
    forall m | m in cells' ensures Shows(cells'[m], At(g, m)) {
      ShownBut(cells[m], cells'[m], m == p, kids, At(f, m), At(g, m));
    }
  }

  /** The child list of `p` has become `kids`. */
  lemma KidsShown(st: Store, cells': map<MsgId, Cell>, f: Forest, p: MsgId, c: MsgId, kids: seq<MsgId>)
    requires Represents(st, f) && Lists(f) && p in f.nodes
    requires LinksWithin(st.cells, cells', c, Kids(f, p)) && FieldsBut(st.cells, cells', Some(p), First(kids))
    requires Linked(cells', kids) && (Free(f, c) || c in Kids(f, p))
    ensures Represents(st.(cells := cells'), SetKids(f, p, kids))
  {
    KidsLinked(st.cells, cells', f, p, c, kids);
    KidsCells(st.cells, cells', f, p, kids);
    SetKidsEffect(f, p, kids);
  }

  // ----- A root list

  lemma RootsLinked(cells: map<MsgId, Cell>, cells': map<MsgId, Cell>, f: Forest, k: SubjName, c: MsgId,
      roots: seq<MsgId>)
    requires AllLinked(cells, f) && Lists(f)
    requires LinksWithin(cells, cells', c, Roots(f, k))
    requires Linked(cells', roots) && (Free(f, c) || c in Roots(f, k))
    ensures AllLinked(cells', SetRoots(f, k, roots))
  {
    var g := SetRoots(f, k, roots);
    SetRootsEffect(f, k, roots);
    forall q ensures Linked(cells', Kids(g, q)) {
      RootsApartKids(f, k, c, q);
      OthersLinked(cells, cells', c, Roots(f, k), Kids(f, q));
    }
    forall j ensures Linked(cells', Roots(g, j)) {
      if j != k {
        RootsApart(f, k, c, j);
        OthersLinked(cells, cells', c, Roots(f, k), Roots(f, j));
      }
    }
  }

  /** The root list of thread `k` has become `roots`. */
  lemma RootsShown(st: Store, st': Store, f: Forest, k: SubjName, c: MsgId, roots: seq<MsgId>)
    requires Represents(st, f) && Lists(f)
    requires LinksWithin(st.cells, st'.cells, c, Roots(f, k)) && FieldsBut(st.cells, st'.cells, None, None)
    requires Linked(st'.cells, roots) && (Free(f, c) || c in Roots(f, k))
    requires st'.tops.Keys == st.tops.Keys
    requires forall s | s in st.tops :: st'.tops[s] == if ThreadOf(f, s) == k then First(roots) else st.tops[s]
    ensures Represents(st', SetRoots(f, k, roots))
  {
    var g := SetRoots(f, k, roots);
    RootsLinked(st.cells, st'.cells, f, k, c, roots);
    SetRootsEffect(f, k, roots);
    SameCells(st.cells, st'.cells, f, g);
    assert forall s :: ThreadOf(g, s) == ThreadOf(f, s);
  }

  lemma SameCells(cells: map<MsgId, Cell>, cells': map<MsgId, Cell>, f: Forest, g: Forest)
    requires CellsShow(cells, f) && FieldsBut(cells, cells', None, None) && g.nodes == f.nodes
    ensures CellsShow(cells', g)
  {
    forall m | m in cells' ensures Shows(cells'[m], At(g, m)) {
      ShownBut(cells[m], cells'[m], false, [], At(f, m), At(g, m));
    }
  }

  lemma ShownBut(c: Cell, c': Cell, changed: bool, kids: seq<MsgId>, n: Node, n': Node)
    requires Shows(c, n) && n' == if changed then n.(kids := kids) else n
    requires c'.(sibling := None) == if changed then c.(sibling := None, child1 := First(kids)) else c.(sibling := None)
    ensures Shows(c', n')
  {
    var d := c'.(sibling := None);
    assert d.date == c'.date && d.fake == c'.fake && d.threaded == c'.threaded && d.subj == c'.subj;
    assert d.parent == c'.parent && d.child1 == c'.child1;
  }

  // ----- The pointer changes of link_child

  lemma KidFirst(st: Store, f: Forest, c: MsgId, p: MsgId)
    requires Represents(st, f) && Lists(f) && Free(f, c) && c in f.nodes && p in f.nodes && p != c
    requires Parent(f, c) == Some(p) && (Kids(f, p) == [] || Date(f, c) < Date(f, Kids(f, p)[0]))
    ensures var cells := st.cells[c := st.cells[c].(sibling := st.cells[p].child1)];
            Represents(st.(cells := cells[p := cells[p].(child1 := Some(c))]), LinkChild(f, c))
  {
    hide Next, Linked, TopsShow, LinksWithin, FieldsBut, Distinct, At, Date, Parent, ThreadOf, Roots, Home, ScanPast,
      OneRootList, NoRepeats, Lists;
    var cells := st.cells[c := st.cells[c].(sibling := st.cells[p].child1)];
    var cells' := cells[p := cells[p].(child1 := Some(c))];
    var kids := Kids(f, p);
    assert st.cells[p].child1 == First(kids);
    StillLinkedBut(st.cells, cells', kids, c);
    Prepended(cells', kids, c);
    KidsShown(st, cells', f, p, c, [c] + kids);
  }

  lemma StillLinkedBut(cells: map<MsgId, Cell>, cells': map<MsgId, Cell>, list: seq<MsgId>, c: MsgId)
    requires Linked(cells, list) && cells.Keys == cells'.Keys && c !in list
    requires forall m | m in cells && m != c :: cells'[m].sibling == cells[m].sibling
    ensures Linked(cells', list)
  {
  }

  ghost function SpliceCells(cells: map<MsgId, Cell>, c: MsgId, at: MsgId): map<MsgId, Cell>
    requires c in cells && at in cells
  {
    cells[c := cells[c].(sibling := cells[at].sibling)][at := cells[at].(sibling := Some(c))]
  }

  lemma SpliceKeeps(cells: map<MsgId, Cell>, c: MsgId, at: MsgId, list: seq<MsgId>, p: MsgId)
    requires c in cells && at in cells && at in list && at != c
    ensures LinksWithin(cells, SpliceCells(cells, c, at), c, list)
    ensures FieldsBut(cells, SpliceCells(cells, c, at), None, None)
    ensures p in cells ==> FieldsBut(cells, SpliceCells(cells, c, at), Some(p), cells[p].child1)
  {
  }

  /** Takes the article behind `at` out of its list of siblings. */
  ghost function SkipCells(cells: map<MsgId, Cell>, at: MsgId, c: MsgId): map<MsgId, Cell>
    requires c in cells && at in cells
  {
    cells[at := cells[at].(sibling := cells[c].sibling)]
  }

  lemma SkipKeeps(cells: map<MsgId, Cell>, at: MsgId, c: MsgId, list: seq<MsgId>, p: MsgId)
    requires c in cells && at in cells && at in list
    ensures LinksWithin(cells, SkipCells(cells, at, c), c, list)
    ensures FieldsBut(cells, SkipCells(cells, at, c), None, None)
    ensures p in cells ==> FieldsBut(cells, SkipCells(cells, at, c), Some(p), cells[p].child1)
  {
  }

  lemma SplicedList(cells: map<MsgId, Cell>, list: seq<MsgId>, c: MsgId, j: nat)
    requires c in cells && j < |list| && Linked(cells, list) && Distinct(list) && c !in list
    ensures list[j] in cells && list[j] != c && list[j] in list
    ensures Linked(SpliceCells(cells, c, list[j]), list[..j + 1] + [c] + list[j + 1..])
    ensures First(list[..j + 1] + [c] + list[j + 1..]) == First(list)
  {
    Spliced(cells, list, c, j);
  }

  lemma SkippedList(cells: map<MsgId, Cell>, list: seq<MsgId>, j: nat)
    requires j + 1 < |list| && Linked(cells, list) && Distinct(list)
    ensures list[j] in cells && list[j + 1] in cells && list[j] in list
    ensures Linked(SkipCells(cells, list[j], list[j + 1]), Drop(list, list[j + 1]))
    ensures First(Drop(list, list[j + 1])) == First(list)
  {
    Unspliced(cells, list, j);
    DropAt(list, j + 1);
  }

  lemma SpliceKid(st: Store, f: Forest, c: MsgId, p: MsgId, j: nat)
    requires Represents(st, f) && Lists(f) && Free(f, c) && c in st.cells && p in f.nodes && j < |Kids(f, p)|
    ensures Kids(f, p)[j] in st.cells
    ensures Represents(st.(cells := SpliceCells(st.cells, c, Kids(f, p)[j])),
                       SetKids(f, p, Kids(f, p)[..j + 1] + [c] + Kids(f, p)[j + 1..]))
  {
    var kids := Kids(f, p);
    assert Linked(st.cells, kids) && c !in kids && Distinct(kids);
    assert st.cells[p].child1 == First(kids);
    SplicedList(st.cells, kids, c, j);
    SpliceKeeps(st.cells, c, kids[j], kids, p);
    KidsShown(st, SpliceCells(st.cells, c, kids[j]), f, p, c, kids[..j + 1] + [c] + kids[j + 1..]);
  }

  lemma KidLater(st: Store, f: Forest, c: MsgId, p: MsgId)
    requires Represents(st, f) && Lists(f) && Free(f, c) && c in f.nodes && p in f.nodes
    requires Parent(f, c) == Some(p) && Kids(f, p) != [] && Date(f, c) >= Date(f, Kids(f, p)[0])
    ensures var at := Kids(f, p)[ScanPast(f, Kids(f, p), Date(f, c), 0)];
            at in st.cells && Represents(st.(cells := SpliceCells(st.cells, c, at)), LinkChild(f, c))
  {
    hide Shows, TopsShow, SpliceCells;
    SpliceKid(st, f, c, p, ScanPast(f, Kids(f, p), Date(f, c), 0));
  }

  /** Whether `c` comes before all of `list`. */
  predicate Foremost(f: Forest, c: MsgId, list: seq<MsgId>) {
    list == [] || Date(f, c) < Date(f, list[0])
  }

  /** The cells after `c` has been linked into the child list `list` of `p`. */
  ghost function LinkedKid(f: Forest, cells: map<MsgId, Cell>, c: MsgId, p: MsgId, list: seq<MsgId>): map<MsgId, Cell>
    requires c in cells && p in cells && forall m | m in list :: m in cells
  {
    if Foremost(f, c, list) then
      var cells1 := cells[c := cells[c].(sibling := cells[p].child1)];
      cells1[p := cells1[p].(child1 := Some(c))]
    else SpliceCells(cells, c, list[ScanPast(f, list, Date(f, c), 0)])
  }

  lemma LinkedKidShows(st: Store, f: Forest, c: MsgId, p: MsgId)
    requires Represents(st, f) && Lists(f) && Free(f, c) && c in f.nodes && p in f.nodes && p != c
      && Parent(f, c) == Some(p)
    ensures forall m | m in Kids(f, p) :: m in st.cells
    ensures Represents(st.(cells := LinkedKid(f, st.cells, c, p, Kids(f, p))), LinkChild(f, c))
  {
    assert Linked(st.cells, Kids(f, p));
    if Kids(f, p) == [] || Date(f, c) < Date(f, Kids(f, p)[0]) { KidFirst(st, f, c, p); }
      else { KidLater(st, f, c, p); }
  }

  /** In `tops'` the subjects of thread `k` point at `a`. */
  ghost predicate TopsMoved(f: Forest, tops: map<SubjName, Option<MsgId>>, tops': map<SubjName, Option<MsgId>>,
                            k: SubjName, a: Option<MsgId>) {
    && tops'.Keys == tops.Keys
    && (forall s | s in tops :: tops'[s] == if ThreadOf(f, s) == k then a else tops[s])
  }

  lemma RootFirst(st: Store, tops': map<SubjName, Option<MsgId>>, f: Forest, c: MsgId, k: SubjName)
    requires Represents(st, f) && Lists(f) && Free(f, c) && c in f.nodes
    requires Parent(f, c) == None && Home(f, c) == Some(k)
      && (Roots(f, k) == [] || Date(f, c) < Date(f, Roots(f, k)[0]))
    requires TopsMoved(f, st.tops, tops', k, Some(c))
    ensures Represents(Store(st.cells[c := st.cells[c].(sibling := First(Roots(f, k)))], tops'), LinkChild(f, c))
  {
    var roots := Roots(f, k);
    var cells' := st.cells[c := st.cells[c].(sibling := First(roots))];
    StillLinkedBut(st.cells, cells', roots, c);
    Prepended(cells', roots, c);
    RootsShown(st, Store(cells', tops'), f, k, c, [c] + roots);
  }

  lemma SameTops(f: Forest, tops: map<SubjName, Option<MsgId>>, k: SubjName, roots: seq<MsgId>)
    requires TopsShow(tops, f) && First(roots) == First(Roots(f, k))
    ensures forall s | s in tops :: tops[s] == if ThreadOf(f, s) == k then First(roots) else tops[s]
  {
  }

  lemma SpliceRoot(st: Store, f: Forest, c: MsgId, k: SubjName, j: nat)
    requires Represents(st, f) && Lists(f) && Free(f, c) && c in st.cells && j < |Roots(f, k)|
    ensures Roots(f, k)[j] in st.cells
    ensures Represents(st.(cells := SpliceCells(st.cells, c, Roots(f, k)[j])),
                       SetRoots(f, k, Roots(f, k)[..j + 1] + [c] + Roots(f, k)[j + 1..]))
  {
    var roots := Roots(f, k);
    assert Linked(st.cells, roots) && c !in roots && Distinct(roots);
    SplicedList(st.cells, roots, c, j);
    SpliceKeeps(st.cells, c, roots[j], roots, c);
    var roots' := roots[..j + 1] + [c] + roots[j + 1..];
    SameTops(f, st.tops, k, roots');
    RootsShown(st, st.(cells := SpliceCells(st.cells, c, roots[j])), f, k, c, roots');
  }

  lemma RootLater(st: Store, f: Forest, c: MsgId, k: SubjName)
    requires Represents(st, f) && Lists(f) && Free(f, c) && c in f.nodes
    requires Parent(f, c) == None && Home(f, c) == Some(k) && Roots(f, k) != [] && Date(f, c) >= Date(f, Roots(f, k)[0])
    ensures var at := Roots(f, k)[ScanPast(f, Roots(f, k), Date(f, c), 0)];
            at in st.cells && Represents(st.(cells := SpliceCells(st.cells, c, at)), LinkChild(f, c))
  {
    SpliceRoot(st, f, c, k, ScanPast(f, Roots(f, k), Date(f, c), 0));
  }

  // ----- The pointer changes of unlink_child

  lemma DropHead(list: seq<MsgId>)
    requires list != []
    ensures Drop(list, list[0]) == list[1..]
  {
  }

  lemma DropAt(list: seq<MsgId>, i: nat)
    requires i < |list| && Distinct(list)
    ensures Drop(list, list[i]) == list[..i] + list[i + 1..]
  {
    assert list[i] !in list[..i];
    DropFirst(list, i);
  }

  lemma KidFirstOut(st: Store, f: Forest, c: MsgId, p: MsgId)
    requires Represents(st, f) && Lists(f) && Closed(f) && Parent(f, c) == Some(p) && Kids(f, p) != []
      && Kids(f, p)[0] == c
    ensures p in st.cells && c in st.cells
    ensures Represents(st.(cells := st.cells[p := st.cells[p].(child1 := st.cells[c].sibling)]), UnlinkChild(f, c))
  {
    var kids := Kids(f, p);
    assert c in kids && p in f.nodes;
    var cells' := st.cells[p := st.cells[p].(child1 := st.cells[c].sibling)];
    DropHead(kids);
    Tail(st.cells, kids);
    StillLinked(st.cells, cells', kids[1..]);
    KidsShown(st, cells', f, p, c, kids[1..]);
  }

  lemma KidLaterOut(st: Store, f: Forest, c: MsgId, p: MsgId, j: nat)
    requires Represents(st, f) && Lists(f) && Closed(f) && Parent(f, c) == Some(p) && j + 1 < |Kids(f, p)|
      && Kids(f, p)[j + 1] == c
    ensures var at := Kids(f, p)[j];
            at in st.cells && c in st.cells && Represents(st.(cells := SkipCells(st.cells, at, c)), UnlinkChild(f, c))
  {
    var kids := Kids(f, p);
    assert c in kids && p in f.nodes;
    assert Linked(st.cells, kids) && Distinct(kids) && st.cells[p].child1 == First(kids);
    SkippedList(st.cells, kids, j);
    SkipKeeps(st.cells, kids[j], c, kids, p);
    KidsShown(st, SkipCells(st.cells, kids[j], c), f, p, c, Drop(kids, c));
  }

  lemma RootFirstOut(st: Store, tops': map<SubjName, Option<MsgId>>, f: Forest, c: MsgId, k: SubjName)
    requires Represents(st, f) && Lists(f) && Parent(f, c) == None && Home(f, c) == Some(k) && Roots(f, k) != []
      && Roots(f, k)[0] == c
    requires c in st.cells && TopsMoved(f, st.tops, tops', k, st.cells[c].sibling)
    ensures Represents(st.(tops := tops'), UnlinkChild(f, c))
  {
    var roots := Roots(f, k);
    assert c in roots;
    DropHead(roots);
    Tail(st.cells, roots);
    RootsShown(st, st.(tops := tops'), f, k, c, roots[1..]);
  }

  lemma RootLaterOut(st: Store, f: Forest, c: MsgId, k: SubjName, j: nat)
    requires Represents(st, f) && Lists(f) && Parent(f, c) == None && Home(f, c) == Some(k)
    requires j + 1 < |Roots(f, k)| && Roots(f, k)[j + 1] == c
    ensures var at := Roots(f, k)[j];
            at in st.cells && c in st.cells && Represents(st.(cells := SkipCells(st.cells, at, c)), UnlinkChild(f, c))
  {
    var roots := Roots(f, k);
    assert c in roots;
    assert Linked(st.cells, roots) && Distinct(roots);
    SkippedList(st.cells, roots, j);
    SkipKeeps(st.cells, roots[j], c, roots, c);
    SameTops(f, st.tops, k, Drop(roots, c));
    RootsShown(st, st.(cells := SkipCells(st.cells, roots[j], c)), f, k, c, Drop(roots, c));
  }

  /** The sibling links of articles outside `list` and other than `c` are the same. */
  lemma LinkedKidWithin(f: Forest, cells: map<MsgId, Cell>, c: MsgId, p: MsgId, list: seq<MsgId>)
    requires c in cells && p in cells && forall m | m in list :: m in cells
    ensures LinksWithin(cells, LinkedKid(f, cells, c, p, list), c, list)
  {
  }

  lemma SameThreadMap(f: Forest, c: MsgId)
    ensures LinkChild(f, c).thread == f.thread && UnlinkChild(f, c).thread == f.thread
  {
  }

  lemma SpliceWithin(cells: map<MsgId, Cell>, c: MsgId, at: MsgId, list: seq<MsgId>)
    requires c in cells && at in cells && at in list
    ensures LinksWithin(cells, SpliceCells(cells, c, at), c, list)
  {
  }

  lemma SiblingWithin(cells: map<MsgId, Cell>, c: MsgId, s: Option<MsgId>, list: seq<MsgId>)
    requires c in cells
    ensures LinksWithin(cells, cells[c := cells[c].(sibling := s)], c, list)
  {
  }

  // ----- merge_threads

  /** Part of the way through a merge: the subjects of `k2` are in thread `k1`, whose roots so far are
      `acc`. */
  function Merging(f: Forest, k1: SubjName, k2: SubjName, acc: seq<MsgId>): Forest {
    Forest(f.nodes,
           map s | s in f.thread :: if f.thread[s] == k2 then k1 else f.thread[s],
           (f.roots - {k2})[k1 := acc])
  }

  lemma MergingRoots(f: Forest, k1: SubjName, k2: SubjName, acc: seq<MsgId>)
    requires k1 != k2
    ensures var g := Merging(f, k1, k2, acc);
            && Roots(g, k1) == acc && Roots(g, k2) == []
              && (forall k | k != k1 && k != k2 :: Roots(g, k) == Roots(f, k))
            && (forall x :: At(g, x) == At(f, x)) && (forall p :: Kids(g, p) == Kids(f, p))
            && (forall s {:trigger ThreadOf(g, s)} | s in f.thread ::
              ThreadOf(g, s) == if ThreadOf(f, s) == k2 then k1 else ThreadOf(f, s))
  {
  }

  lemma MergeStarts(st: Store, tops': map<SubjName, Option<MsgId>>, f: Forest, k1: SubjName, k2: SubjName)
    requires Represents(st, f) && k1 != k2 && TopsMoved(f, st.tops, tops', k2, First(Roots(f, k1)))
    ensures Represents(st.(tops := tops'), Merging(f, k1, k2, Roots(f, k1)))
  {
    hide First, Shows, At, Kids, ThreadOf, Roots;
    var g := Merging(f, k1, k2, Roots(f, k1));
    MergingRoots(f, k1, k2, Roots(f, k1));
    forall k ensures Linked(st.cells, Roots(g, k)) {
      if k != k2 { assert Roots(g, k) == Roots(f, k); }
    }
    assert forall p :: Linked(st.cells, Kids(g, p));
    assert TopsShow(tops', g);
  }

  lemma MergingLists(f: Forest, k1: SubjName, k2: SubjName, acc: seq<MsgId>)
    requires Lists(f) && k1 != k2 && Distinct(acc)
    requires forall x | x in acc :: x in Roots(f, k1) || x in Roots(f, k2)
    ensures Lists(Merging(f, k1, k2, acc))
    ensures forall x | x in Roots(f, k2) && x !in acc :: Free(Merging(f, k1, k2, acc), x)
  {
    var g := Merging(f, k1, k2, acc);
    MergingRoots(f, k1, k2, acc);
    assert forall x :: Parent(g, x) == Parent(f, x);
    assert KidsPoint(g);
    assert RootsPoint(g);
    assert OneRootList(g);
    assert NoRepeats(g);
    forall x | x in Roots(f, k2) && x !in acc ensures Free(g, x) {
      assert Parent(f, x) == None;
      assert forall p :: x !in Kids(f, p);
      assert forall k | k != k2 :: x !in Roots(f, k);
    }
  }

  lemma MergeLinks(f: Forest, k1: SubjName, k2: SubjName, acc: seq<MsgId>, c: MsgId)
    requires k1 != k2 && Parent(f, c) == None && Home(f, c) == Some(k2) && Subj(f, c).value in f.thread
    ensures LinkChild(Merging(f, k1, k2, acc), c) == Merging(f, k1, k2, InsertByDate(f, acc, c))
    ensures ListOf(Merging(f, k1, k2, acc), c) == acc
  {
    var g := Merging(f, k1, k2, acc);
    MergingRoots(f, k1, k2, acc);
    assert Home(g, c) == Some(k1);
    SameDates(f, g, acc, c);
    assert (f.roots - {k2})[k1 := acc][k1 := InsertByDate(f, acc, c)] ==
      (f.roots - {k2})[k1 := InsertByDate(f, acc, c)];
  }

  /** The list that `c` belongs to by its parent or its subject. */
  function ListOf(f: Forest, c: MsgId): seq<MsgId> {
    match Parent(f, c)
    case Some(p) => Kids(f, p)
    case None => if Home(f, c).Some? then Roots(f, Home(f, c).value) else []
  }

  lemma SameDates(f: Forest, g: Forest, list: seq<MsgId>, c: MsgId)
    requires g.nodes == f.nodes
    ensures InsertByDate(g, list, c) == InsertByDate(f, list, c)
  {
    if list != [] { SameScan(f, g, list, Date(f, c), 0); }
  }

  lemma {:induction false} SameScan(f: Forest, g: Forest, list: seq<MsgId>, d: int, j: nat)
    requires g.nodes == f.nodes && j < |list|
    ensures ScanPast(g, list, d, j) == ScanPast(f, list, d, j)
    decreases |list| - j
  {
    if j + 1 < |list| { SameScan(f, g, list, d, j + 1); }
  }

  lemma MergeEnds(f: Forest, s1: SubjName, s2: SubjName)
    ensures var k1, k2 := ThreadOf(f, s1), ThreadOf(f, s2);
            Merging(f, k1, k2, InsertAll(f, Roots(f, k1), Roots(f, k2))) == MergeThreads(f, s1, s2)
  {
  }
}

// What the list operations keep: every article is in at most one list, and only in the list its
// parent pointer and its subject name.
module ThreadLists {
  import opened Options
  import opened ThreadSpec

  // ----- Lists of siblings

  lemma {:induction false} InsertSplits(f: Forest, list: seq<MsgId>, c: MsgId) returns (i: nat)
    ensures i <= |list|
    ensures InsertByDate(f, list, c) == list[..i] + [c] + list[i..]
  {
    if list == [] || Date(f, c) < Date(f, list[0]) {
      i := 0;
      assert [c] + list == list[..0] + [c] + list[0..];
    } else {
      i := ScanPast(f, list, Date(f, c), 0) + 1;
    }
  }

  /** Apart from `c`, the two lists hold the same articles. */
  ghost predicate Relisted(was: seq<MsgId>, now: seq<MsgId>, c: MsgId) {
    && (forall x | x != c :: x in was <==> x in now)
    && (Distinct(was) && c !in was ==> Distinct(now))
    && (Distinct(was) && c !in now ==> Distinct(now))
  }

  lemma SplitInMembers(list: seq<MsgId>, c: MsgId, i: nat)
    requires i <= |list|
    ensures Relisted(list, list[..i] + [c] + list[i..], c)
  {
    var r := list[..i] + [c] + list[i..];
    assert forall x | x in list :: x in list[..i] || x in list[i..];
  }

  lemma InsertMembers(f: Forest, list: seq<MsgId>, c: MsgId)
    ensures Relisted(list, InsertByDate(f, list, c), c) && c in InsertByDate(f, list, c)
  {
    var i := InsertSplits(f, list, c);
    SplitInMembers(list, c, i);
  }

  lemma InsertCounts(f: Forest, list: seq<MsgId>, c: MsgId)
    ensures multiset(InsertByDate(f, list, c)) == multiset(list) + multiset{c}
  {
    var i := InsertSplits(f, list, c);
    assert list == list[..i] + list[i..];
  }

  /** The scan stops at the end or in front of a later article. */
  lemma {:induction false} ScanStops(f: Forest, list: seq<MsgId>, d: int, j: nat)
    requires j < |list|
    ensures var r := ScanPast(f, list, d, j);
            && (forall i | j < i <= r :: Date(f, list[i]) <= d)
            && (r + 1 < |list| ==> d < Date(f, list[r + 1]))
    decreases |list| - j
  {
    if j + 1 < |list| && Date(f, list[j + 1]) <= d { ScanStops(f, list, d, j + 1); }
  }

  ghost predicate ByDate(f: Forest, list: seq<MsgId>) {
    forall i, j | 0 <= i < j < |list| :: Date(f, list[i]) <= Date(f, list[j])
  }

  /** Inserting keeps a list ordered by date. */
  lemma InsertKeepsOrder(f: Forest, list: seq<MsgId>, c: MsgId)
    requires ByDate(f, list)
    ensures ByDate(f, InsertByDate(f, list, c))
  {
    if list == [] || Date(f, c) < Date(f, list[0]) {
    } else {
      ScanStops(f, list, Date(f, c), 0);
    }
  }

  lemma {:induction false} InsertAllCounts(f: Forest, acc: seq<MsgId>, list: seq<MsgId>)
    ensures multiset(InsertAll(f, acc, list)) == multiset(acc) + multiset(list)
    decreases |list|
  {
    if list != [] {
      assert list == [list[0]] + list[1..];
      InsertCounts(f, acc, list[0]);
      InsertAllCounts(f, InsertByDate(f, acc, list[0]), list[1..]);
    }
  }

  lemma InsertAllMembers(f: Forest, acc: seq<MsgId>, list: seq<MsgId>)
    ensures forall x :: x in InsertAll(f, acc, list) <==> x in acc || x in list
    ensures Distinct(acc) && Distinct(list) && (forall x | x in acc :: x !in list) ==> Distinct(InsertAll(f, acc, list))
  {
    var r := InsertAll(f, acc, list);
    InsertAllCounts(f, acc, list);
    forall x ensures x in r <==> x in acc || x in list {
      assert multiset(r)[x] == multiset(acc)[x] + multiset(list)[x];
    }
    if Distinct(acc) && Distinct(list) && forall x | x in acc :: x !in list {
      forall x ensures multiset(r)[x] <= 1 {
        DistinctCounts(acc, x);
        DistinctCounts(list, x);
        assert multiset(r)[x] == multiset(acc)[x] + multiset(list)[x];
        if x in acc { assert multiset(list)[x] == 0; } else { assert multiset(acc)[x] == 0; }
      }
      CountsDistinct(r);
    }
  }

  lemma {:induction false} DistinctCounts(s: seq<MsgId>, x: MsgId)
    requires Distinct(s)
    ensures multiset(s)[x] <= 1
  {
    if s != [] {
      assert s == [s[0]] + s[1..];
      DistinctCounts(s[1..], x);
    }
  }

  lemma CountsDistinct(s: seq<MsgId>)
    requires forall x :: multiset(s)[x] <= 1
    ensures Distinct(s)
  {
    forall i, j | 0 <= i < j < |s| ensures s[i] != s[j] {
      assert s == s[..j] + s[j..];
      assert s[..j][i] == s[i] && s[j..][0] == s[j];
      assert multiset(s)[s[j]] == multiset(s[..j])[s[j]] + multiset(s[j..])[s[j]];
    }
  }

  lemma {:induction false} DropNone(list: seq<MsgId>, c: MsgId)
    requires c !in list
    ensures Drop(list, c) == list
  {
    if list != [] { DropNone(list[1..], c); }
  }

  lemma {:induction false} DropFirst(list: seq<MsgId>, i: nat)
    requires i < |list| && list[i] !in list[..i]
    ensures Drop(list, list[i]) == list[..i] + list[i + 1..]
  {
    if i > 0 {
      assert list[0] in list[..i];
      assert list[1..][..i - 1] == list[..i][1..];
      DropFirst(list[1..], i - 1);
    }
  }

  lemma {:induction false} FirstPlace(list: seq<MsgId>, c: MsgId) returns (i: nat)
    requires c in list
    ensures i < |list| && list[i] == c && c !in list[..i]
  {
    i := 0;
    while list[i] != c
      invariant i < |list| && c !in list[..i]
      decreases |list| - i
    {
      assert list[..i + 1] == list[..i] + [list[i]];
      assert i + 1 < |list| by { assert list == list[..i] + [list[i]] + list[i + 1..]; }
      i := i + 1;
    }
  }

  lemma SplitOutMembers(list: seq<MsgId>, i: nat)
    requires i < |list|
    ensures Relisted(list, list[..i] + list[i + 1..], list[i])
    ensures Distinct(list) ==> list[i] !in list[..i] + list[i + 1..]
  {
    assert list == list[..i] + [list[i]] + list[i + 1..];
  }

  lemma DropMembers(list: seq<MsgId>, c: MsgId)
    ensures Relisted(list, Drop(list, c), c)
    ensures c !in list ==> Drop(list, c) == list
    ensures Distinct(list) ==> c !in Drop(list, c)
  {
    if c in list {
      var i := FirstPlace(list, c);
      DropFirst(list, i);
      SplitOutMembers(list, i);
    } else {
      DropNone(list, c);
    }
  }


  lemma {:induction false} DropKeepsOrder(f: Forest, list: seq<MsgId>, c: MsgId)
    requires ByDate(f, list)
    ensures ByDate(f, Drop(list, c))
  {
    if list != [] && list[0] != c {
      DropMembers(list[1..], c);
      DropKeepsOrder(f, list[1..], c);
      var r := Drop(list[1..], c);
      forall i | 0 <= i < |r| ensures Date(f, list[0]) <= Date(f, r[i]) {
        assert r[i] in list[1..];
      }
    }
  }

  lemma EmptyOrNot(s: seq<MsgId>)
    ensures s == [] || exists x :: x in s
  {
    if s != [] { assert s[0] in s; }
  }

  // ----- The lists of a forest

  ghost predicate KidsPoint(f: Forest) {
    forall p, x :: x in Kids(f, p) ==> x in f.nodes && Parent(f, x) == Some(p)
  }

  ghost predicate RootsPoint(f: Forest) {
    forall k, x :: x in Roots(f, k) ==> x in f.nodes && Parent(f, x) == None
  }

  ghost predicate OneRootList(f: Forest) {
    forall j, k, x :: x in Roots(f, j) && x in Roots(f, k) ==> j == k
  }

  ghost predicate NoRepeats(f: Forest) {
    (forall p :: Distinct(Kids(f, p))) && (forall k :: Distinct(Roots(f, k)))
  }

  /** No article is in two lists or twice in one, and only its parent lists it. */
  ghost predicate Lists(f: Forest) {
    KidsPoint(f) && RootsPoint(f) && OneRootList(f) && NoRepeats(f)
  }

  /** Parents exist. */
  ghost predicate Closed(f: Forest) {
    forall x :: Parent(f, x).Some? ==> Parent(f, x).value in f.nodes
  }

  /** Subjects and the threads that they name exist. */
  ghost predicate Threads(f: Forest) {
    && (forall x :: Subj(f, x).Some? ==> Subj(f, x).value in f.thread)
    && (forall s {:trigger f.thread[s]} | s in f.thread :: f.thread[s] in f.thread)
    && (forall k | k in f.roots :: k in f.thread)
  }

  /** A root is in the root list of its own thread. */
  ghost predicate Homes(f: Forest) {
    forall k, x :: x in Roots(f, k) ==> Home(f, x) == Some(k)
  }

  /** Parent and child are in the same thread. */
  ghost predicate Families(f: Forest) {
    forall x | Parent(f, x).Some? && Subj(f, x).Some? && Subj(f, Parent(f, x).value).Some? ::
      Home(f, x) == Home(f, Parent(f, x).value)
  }

  /** `x` is in the list that its parent pointer, or else its subject, names. */
  ghost predicate Placed(f: Forest, x: MsgId) {
    match Parent(f, x)
    case Some(p) => x in Kids(f, p)
    case None => Home(f, x).Some? && x in Roots(f, Home(f, x).value)
  }

  /** `x` is in no list. */
  ghost predicate Free(f: Forest, x: MsgId) {
    (forall p :: x !in Kids(f, p)) && (forall k :: x !in Roots(f, k))
  }

  /** The two forests differ at most in what is in their lists. */
  ghost predicate SameFields(f: Forest, g: Forest) {
    && f.nodes.Keys == g.nodes.Keys && f.thread == g.thread
    && (forall x :: Parent(f, x) == Parent(g, x))
    && (forall x :: Subj(f, x) == Subj(g, x))
    && (forall x :: Date(f, x) == Date(g, x))
    && (forall x :: Fake(f, x) == Fake(g, x))
    && (forall x :: Threaded(f, x) == Threaded(g, x))
  }

  /** Articles other than `c` are in the same lists of both forests. */
  ghost predicate SameListsBut(f: Forest, g: Forest, c: MsgId) {
    && (forall p, x | x != c :: x in Kids(f, p) <==> x in Kids(g, p))
    && (forall k, x | x != c :: x in Roots(f, k) <==> x in Roots(g, k))
  }

  lemma SameUp(f: Forest, g: Forest)
    requires f.nodes.Keys == g.nodes.Keys
    requires forall x :: Parent(f, x) == Parent(g, x)
    ensures Up(f) == Up(g)
  {
    assert forall x | x in f.nodes :: f.nodes[x].parent == Parent(f, x);
    assert forall x | x in g.nodes :: g.nodes[x].parent == Parent(g, x);
  }

  lemma UpMeans(f: Forest)
    ensures forall x :: x in Up(f) <==> Parent(f, x).Some?
    ensures forall x | x in Up(f) :: Parent(f, x) == Some(Up(f)[x])
  {
  }

  lemma PutEffect(f: Forest, x: MsgId, n: Node)
    ensures forall k :: Roots(Put(f, x, n), k) == Roots(f, k)
    ensures forall y | y != x :: At(Put(f, x, n), y) == At(f, y)
    ensures At(Put(f, x, n), x) == n
  {
  }

  lemma SetKidsEffect(f: Forest, p: MsgId, kids: seq<MsgId>)
    requires p in f.nodes
    ensures var g := SetKids(f, p, kids);
            && SameFields(f, g) && Kids(g, p) == kids && g.roots == f.roots
            && (forall q | q != p :: Kids(g, q) == Kids(f, q)) && (forall k :: Roots(g, k) == Roots(f, k))
  {
    PutEffect(f, p, At(f, p).(kids := kids));
  }

  lemma SetRootsEffect(f: Forest, k: SubjName, roots: seq<MsgId>)
    ensures var g := SetRoots(f, k, roots);
            && SameFields(f, g) && Roots(g, k) == roots && g.nodes == f.nodes
            && (forall q :: Kids(g, q) == Kids(f, q)) && (forall j | j != k :: Roots(g, j) == Roots(f, j))
            && g.roots.Keys == f.roots.Keys + {k}
  {
  }

  /** The child list of the parent of `c` changes, in nothing but `c`. */
  lemma KidsRelist(f: Forest, p: MsgId, c: MsgId, kids: seq<MsgId>)
    requires Lists(f) && p in f.nodes && c in f.nodes && Parent(f, c) == Some(p)
    requires Relisted(Kids(f, p), kids, c) && Distinct(kids)
    ensures var g := SetKids(f, p, kids); Lists(g) && SameListsBut(f, g, c)
  {
    SetKidsEffect(f, p, kids);
    var g := SetKids(f, p, kids);
    assert KidsPoint(g);
    assert RootsPoint(g);
    assert OneRootList(g);
    assert NoRepeats(g);
  }

  /** The root list of the thread of the root `c` changes, in nothing but `c`. */
  lemma RootsRelist(f: Forest, k: SubjName, c: MsgId, roots: seq<MsgId>)
    requires Lists(f) && c in f.nodes && Parent(f, c) == None
    requires forall j | j != k :: c !in Roots(f, j)
    requires Relisted(Roots(f, k), roots, c) && Distinct(roots)
    ensures var g := SetRoots(f, k, roots); Lists(g) && SameListsBut(f, g, c)
  {
    SetRootsEffect(f, k, roots);
    var g := SetRoots(f, k, roots);
    assert KidsPoint(g);
    assert RootsPoint(g);
    assert OneRootList(g);
    assert NoRepeats(g);
  }

  lemma LinkEffect(f: Forest, c: MsgId)
    requires Lists(f) && Closed(f) && c in f.nodes && Free(f, c)
    requires Parent(f, c).None? ==> Subj(f, c).Some?
    ensures var g := LinkChild(f, c);
            SameFields(f, g) && SameListsBut(f, g, c) && Placed(g, c) && Lists(g)
    ensures var g := LinkChild(f, c);
            forall k :: k in g.roots ==> k in f.roots || (Parent(f, c).None? && Home(f, c) == Some(k))
  {
    match Parent(f, c)
    case Some(p) =>
      InsertMembers(f, Kids(f, p), c);
      SetKidsEffect(f, p, InsertByDate(f, Kids(f, p), c));
      KidsRelist(f, p, c, InsertByDate(f, Kids(f, p), c));
    case None =>
      var k := Home(f, c).value;
      InsertMembers(f, Roots(f, k), c);
      SetRootsEffect(f, k, InsertByDate(f, Roots(f, k), c));
      RootsRelist(f, k, c, InsertByDate(f, Roots(f, k), c));
  }

  /** In a well-kept forest a placed article is in one list only. */
  lemma PlacedOnce(f: Forest, c: MsgId)
    requires Lists(f) && Placed(f, c)
    ensures forall p :: c in Kids(f, p) <==> Parent(f, c) == Some(p)
    ensures forall k :: c in Roots(f, k) <==> Parent(f, c) == None && Home(f, c) == Some(k)
  {
  }

  lemma UnlinkEffect(f: Forest, c: MsgId)
    requires Lists(f) && Closed(f) && c in f.nodes
    requires Placed(f, c) || Free(f, c)
    ensures var g := UnlinkChild(f, c);
            SameFields(f, g) && SameListsBut(f, g, c) && Free(g, c) && Lists(g)
    ensures var g := UnlinkChild(f, c);
            forall k :: k in g.roots ==> k in f.roots || Home(f, c) == Some(k)
  {
    if Placed(f, c) { PlacedOnce(f, c); }
    match Parent(f, c)
    case Some(p) =>
      DropMembers(Kids(f, p), c);
      SetKidsEffect(f, p, Drop(Kids(f, p), c));
      KidsRelist(f, p, c, Drop(Kids(f, p), c));
    case None =>
      if Home(f, c).Some? {
        var k := Home(f, c).value;
        DropMembers(Roots(f, k), c);
        SetRootsEffect(f, k, Drop(Roots(f, k), c));
        RootsRelist(f, k, c, Drop(Roots(f, k), c));
      }
  }

  lemma SetParentEffect(f: Forest, c: MsgId, p: Option<MsgId>)
    requires Lists(f) && c in f.nodes && Free(f, c)
    ensures var g := SetParent(f, c, p);
            && Lists(g) && Free(g, c) && g.nodes.Keys == f.nodes.Keys && g.thread == f.thread && g.roots == f.roots
            && (forall x :: Kids(g, x) == Kids(f, x)) && (forall k :: Roots(g, k) == Roots(f, k))
            && (forall x :: Subj(g, x) == Subj(f, x)) && (forall x :: Date(g, x) == Date(f, x))
            && (forall x :: Fake(g, x) == Fake(f, x)) && (forall x :: Threaded(g, x) == Threaded(f, x))
            && (forall x | x != c :: Parent(g, x) == Parent(f, x)) && Parent(g, c) == p
  {
    PutEffect(f, c, At(f, c).(parent := p));
    var g := SetParent(f, c, p);
    assert forall x :: Kids(g, x) == Kids(f, x);
    assert forall x | x != c :: Parent(g, x) == Parent(f, x);
    assert KidsPoint(g);
    assert RootsPoint(g);
    assert OneRootList(g);
    assert NoRepeats(g);
  }

  /** Only the parent and the list of `c` differ. */
  ghost predicate Moved(f: Forest, g: Forest, c: MsgId) {
    && g.nodes.Keys == f.nodes.Keys && g.thread == f.thread
    && SameListsBut(f, g, c) && Lists(g)
    && (forall x :: Subj(g, x) == Subj(f, x)) && (forall x :: Date(g, x) == Date(f, x))
    && (forall x :: Fake(g, x) == Fake(f, x)) && (forall x :: Threaded(g, x) == Threaded(f, x))
    && (forall x | x != c :: Parent(g, x) == Parent(f, x))
    && (forall k :: k in g.roots ==> k in f.roots || Home(f, c) == Some(k))
  }

  lemma ReleaseEffect(f: Forest, c: MsgId)
    requires Lists(f) && Closed(f) && c in f.nodes
    requires Placed(f, c) || Free(f, c)
    ensures var g := Release(f, c);
            Moved(f, g, c) && Free(g, c) && Parent(g, c) == None && Up(g) == Up(f) - {c}
  {
    hide KidsPoint, RootsPoint, OneRootList, NoRepeats, Lists, Closed, Placed, Free, SameFields, Date, Fake, Threaded,
      Parent, Kids, Roots, Home, Up, SetParent, UnlinkChild;
    UnlinkEffect(f, c);
    var h := UnlinkChild(f, c);
    SetParentEffect(h, c, None);
    var g := Release(f, c);
    UpMeans(f);
    UpMeans(g);
    assert forall x :: x in Up(g) <==> x in Up(f) && x != c;
    assert Up(g) == Up(f) - {c};
    assert SameListsBut(f, g, c);
  }

  lemma MergeRenames(f: Forest, s1: SubjName, s2: SubjName)
    ensures var g := MergeThreads(f, s1, s2);
            var k1, k2 := ThreadOf(f, s1), ThreadOf(f, s2);
            && g.nodes == f.nodes && g.thread.Keys == f.thread.Keys
            && (forall s {:trigger ThreadOf(g, s)} | s in f.thread ::
              ThreadOf(g, s) == if ThreadOf(f, s) == k2 then k1 else ThreadOf(f, s))
  {
  }

  lemma MergeRoots(f: Forest, s1: SubjName, s2: SubjName)
    requires Lists(f) && ThreadOf(f, s1) != ThreadOf(f, s2)
    ensures var g := MergeThreads(f, s1, s2);
            var k1, k2 := ThreadOf(f, s1), ThreadOf(f, s2);
            && (forall x :: x in Roots(g, k1) <==> x in Roots(f, k1) || x in Roots(f, k2))
            && Distinct(Roots(g, k1)) && Roots(g, k2) == []
            && (forall k | k != k1 && k != k2 :: Roots(g, k) == Roots(f, k))
  {
    InsertAllMembers(f, Roots(f, ThreadOf(f, s1)), Roots(f, ThreadOf(f, s2)));
  }

  lemma MergeEffect(f: Forest, s1: SubjName, s2: SubjName)
    requires Lists(f) && ThreadOf(f, s1) != ThreadOf(f, s2)
    ensures Lists(MergeThreads(f, s1, s2))
  {
    hide Roots, InsertAll;
    var k1, k2 := ThreadOf(f, s1), ThreadOf(f, s2);
    var g := MergeThreads(f, s1, s2);
    MergeRoots(f, s1, s2);
    assert forall x :: At(g, x) == At(f, x);
    assert forall p :: Kids(g, p) == Kids(f, p);
    assert KidsPoint(g);
    assert RootsPoint(g);
    assert OneRootList(g);
    assert NoRepeats(g);
  }
}

// The article forest as a value, and what each threading operation does to it.
// An article is named by its message id, a subject by its text.
module ThreadSpec {
  import opened Options
  import opened Paths

  datatype MsgId = MsgId(text: string)
  datatype SubjName = SubjName(text: string)

  /** What the threading code keeps for one article.  `kids` is the list that hangs off
      `child1` and runs through the `sibling` links. */
  datatype Node = Node(
    date: int,
    fake: bool,
    threaded: bool,
    subj: Option<SubjName>,
    parent: Option<MsgId>,
    kids: seq<MsgId>)

  /** `thread[s]` names the thread that subject `s` belongs to: the subjects with one name form
      one circular list.  `roots` holds each thread's root list. */
  datatype Forest = Forest(
    nodes: map<MsgId, Node>,
    thread: map<SubjName, SubjName>,
    roots: map<SubjName, seq<MsgId>>)

  const BLANK := Node(0, true, false, None, None, [])

  // ----- Reading

  function At(f: Forest, x: MsgId): Node {
    if x in f.nodes then f.nodes[x] else BLANK
  }

  function Date(f: Forest, x: MsgId): int { At(f, x).date }

  function Fake(f: Forest, x: MsgId): bool { At(f, x).fake }

  function Threaded(f: Forest, x: MsgId): bool { At(f, x).threaded }

  function Subj(f: Forest, x: MsgId): Option<SubjName> { At(f, x).subj }

  function Parent(f: Forest, x: MsgId): Option<MsgId> { At(f, x).parent }

  function Kids(f: Forest, x: MsgId): seq<MsgId> { At(f, x).kids }

  function ThreadOf(f: Forest, s: SubjName): SubjName {
    if s in f.thread then f.thread[s] else s
  }

  function Roots(f: Forest, k: SubjName): seq<MsgId> {
    if k in f.roots then f.roots[k] else []
  }

  /** The thread of an article that has a subject. */
  function Home(f: Forest, x: MsgId): Option<SubjName> {
    match Subj(f, x)
    case None => None
    case Some(s) => Some(ThreadOf(f, s))
  }

  /** What the `thread` pointer of the subjects of thread `k` points at. */
  function Head(f: Forest, k: SubjName): Option<MsgId> {
    if Roots(f, k) == [] then None else Some(Roots(f, k)[0])
  }

  function Up(f: Forest): Links<MsgId> {
    map x | x in f.nodes && f.nodes[x].parent.Some? :: f.nodes[x].parent.value
  }

  // ----- Writing one field

  function Put(f: Forest, x: MsgId, n: Node): Forest {
    f.(nodes := f.nodes[x := n])
  }

  function SetKids(f: Forest, x: MsgId, kids: seq<MsgId>): Forest {
    Put(f, x, At(f, x).(kids := kids))
  }

  function SetParent(f: Forest, x: MsgId, p: Option<MsgId>): Forest {
    Put(f, x, At(f, x).(parent := p))
  }

  function SetSubj(f: Forest, x: MsgId, s: Option<SubjName>): Forest {
    Put(f, x, At(f, x).(subj := s))
  }

  function SetDate(f: Forest, x: MsgId, d: int): Forest {
    Put(f, x, At(f, x).(date := d))
  }

  function SetRoots(f: Forest, k: SubjName, roots: seq<MsgId>): Forest {
    f.(roots := f.roots[k := roots])
  }

  // ----- link_child, unlink_child, merge_threads

  /** The last position of the run of siblings, from `j` on, that are dated no later than `d`. */
  function ScanPast(f: Forest, list: seq<MsgId>, d: int, j: nat): (r: nat)
    requires j < |list|
    ensures j <= r < |list|
    decreases |list| - j
  {
    if j + 1 < |list| && Date(f, list[j + 1]) <= d then ScanPast(f, list, d, j + 1) else j
  }

  function InsertByDate(f: Forest, list: seq<MsgId>, c: MsgId): seq<MsgId> {
    if list == [] || Date(f, c) < Date(f, list[0]) then [c] + list
    else
      var j := ScanPast(f, list, Date(f, c), 0);
      list[..j + 1] + [c] + list[j + 1..]
  }

  function Drop(list: seq<MsgId>, c: MsgId): seq<MsgId> {
    if list == [] then []
    else if list[0] == c then list[1..]
    else [list[0]] + Drop(list[1..], c)
  }

  function LinkChild(f: Forest, c: MsgId): Forest {
    match Parent(f, c)
    case Some(p) => SetKids(f, p, InsertByDate(f, Kids(f, p), c))
    case None =>
      match Home(f, c)
      case None => f
      case Some(k) => SetRoots(f, k, InsertByDate(f, Roots(f, k), c))
  }

  /** Takes `c` out of its list; its parent pointer stays. */
  function UnlinkChild(f: Forest, c: MsgId): Forest {
    match Parent(f, c)
    case Some(p) => SetKids(f, p, Drop(Kids(f, p), c))
    case None =>
      match Home(f, c)
      case None => f
      case Some(k) => SetRoots(f, k, Drop(Roots(f, k), c))
  }

  function InsertAll(f: Forest, acc: seq<MsgId>, list: seq<MsgId>): seq<MsgId>
    decreases |list|
  {
    if list == [] then acc else InsertAll(f, InsertByDate(f, acc, list[0]), list[1..])
  }

  /** All of the thread of `s2` moves into the thread of `s1`. */
  function MergeThreads(f: Forest, s1: SubjName, s2: SubjName): Forest {
    var k1, k2 := ThreadOf(f, s1), ThreadOf(f, s2);
    Forest(f.nodes,
           map s | s in f.thread :: if f.thread[s] == k2 then k1 else f.thread[s],
           (f.roots - {k2})[k1 := InsertAll(f, Roots(f, k1), Roots(f, k2))])
  }

  /** Merges unless both `thread` pointers are equal already. */
  function JoinThreads(f: Forest, s1: SubjName, s2: SubjName): Forest {
    if Head(f, ThreadOf(f, s1)) != Head(f, ThreadOf(f, s2)) then MergeThreads(f, s1, s2) else f
  }

  // ----- Entering an article

  function AddSubject(f: Forest, s: SubjName): Forest {
    if s in f.thread then f else f.(thread := f.thread[s := s], roots := f.roots[s := []])
  }

  /** Finds the article of a message id, or makes a fake one. */
  function GetArticle(f: Forest, id: MsgId): Forest {
    if id in f.nodes then f else Put(f, id, BLANK)
  }

  /** A real article takes the place of whatever fake has its id. */
  function Enter(f: Forest, m: MsgId, d: int, s: SubjName): Forest {
    Put(f, m, At(f, m).(date := d, fake := false, subj := Some(s)))
  }

  /** An article stops being in any list and stops having a parent. */
  function Release(f: Forest, c: MsgId): Forest {
    SetParent(UnlinkChild(f, c), c, None)
  }

  /** A fake that nothing needs any more goes back to knowing nothing. */
  function Forget(f: Forest, c: MsgId): Forest {
    SetSubj(SetDate(Release(f, c), c, 0), c, None)
  }

  ghost function Known(f: Forest): set<MsgId> {
    set x | x in f.nodes && f.nodes[x].subj.Some?
  }

  ghost function Unknown(f: Forest): set<MsgId> {
    set x | x in f.nodes && f.nodes[x].subj.None?
  }

  /** `p` is a threaded fake that has just lost its only child. */
  predicate Spent(f: Forest, p: Option<MsgId>) {
    p.Some? && p.value in f.nodes && Fake(f, p.value) && Subj(f, p.value).Some? && Kids(f, p.value) == []
  }

  /** Climbs from `p`, forgetting fakes that are left without a child. */
  ghost function ShedChain(f: Forest, p: Option<MsgId>): Forest
    decreases Known(f)
  {
    if Spent(f, p) then
      var f' := Forget(f, p.value);
      ForgetKnown(f, p.value);
      ShedChain(f', Parent(f, p.value))
    else f
  }

  lemma ForgetKnown(f: Forest, c: MsgId)
    requires c in f.nodes && Subj(f, c).Some?
    ensures Known(Forget(f, c)) < Known(f)
  {
    var f' := Forget(f, c);
    var g := UnlinkChild(f, c);
    assert forall x :: At(g, x).subj == At(f, x).subj;
    assert forall x | x != c :: At(f', x).subj == At(f, x).subj;
    assert forall x :: x in Known(f') <==> At(f', x).subj.Some?;
    assert forall x :: x in Known(f) <==> At(f, x).subj.Some?;
    assert c in Known(f) && c !in Known(f');
  }

  /** The replaced fake knew its subject: move to that thread, leave the place the fake was given
      and drop the fakes above that were only there for it. */
  ghost function Detach(f: Forest, m: MsgId, had: SubjName): Forest {
    var f1 := match Subj(f, m) case Some(s) => JoinThreads(f, had, s) case None => f;
    ShedChain(Release(f1, m), Parent(f1, m))
  }

  // ----- Walking the references

  /** Hangs `prev` below `id`. */
  function Attach(f: Forest, prev: MsgId, id: MsgId, rethreading: bool): Forest {
    var f1 := if rethreading && Subj(f, prev).Some? then UnlinkChild(f, prev) else f;
    LinkChild(SetParent(f1, prev, Some(id)), prev)
  }

  datatype Walked = Walked(forest: Forest, last: Option<MsgId>)

  /** Takes the ids of `refs` from the right until one names an article whose subject is known.
      An id that was already used on this line, or that is the article's own, is passed over. */
  function Walk(f: Forest, m: MsgId, refs: seq<MsgId>, prev: MsgId, last: Option<MsgId>, re: bool): Walked
    decreases |refs|
  {
    if refs == [] then Walked(f, last)
    else
      var id, rest := refs[|refs| - 1], refs[..|refs| - 1];
      var f1 := GetArticle(f, id);
      if (Date(f1, id) != 0 && Subj(f1, id).None?) || id == m then
        Walk(f1, m, rest, prev, if prev == m then None else Some(prev), re)
      else
        var f2 := Attach(f1, prev, id, re);
        if Subj(f1, id).Some? then Walked(f2, Some(id))
        else Walk(SetDate(f2, id, Date(f2, m)), m, rest, id, Some(id), re)
  }

  // ----- Settling the walked articles into a thread

  /** Gives the subject `s` to the articles from `x` upwards until one has a subject. */
  ghost function NameFakes(f: Forest, x: Option<MsgId>, s: SubjName): Forest
    decreases Unknown(f)
  {
    if x.Some? && x.value in f.nodes && Subj(f, x.value).None? then
      var f' := SetSubj(f, x.value, Some(s));
      assert x.value in Unknown(f) && Unknown(f') == Unknown(f) - {x.value};
      NameFakes(f', Parent(f, x.value), s)
    else f
  }

  /** Where the naming climb stops. */
  ghost function NamedUpTo(f: Forest, x: Option<MsgId>, s: SubjName): Option<MsgId>
    decreases Unknown(f)
  {
    if x.Some? && x.value in f.nodes && Subj(f, x.value).None? then
      var f' := SetSubj(f, x.value, Some(s));
      assert x.value in Unknown(f) && Unknown(f') == Unknown(f) - {x.value};
      NamedUpTo(f', Parent(f, x.value), s)
    else x
  }

  /** The child of `m` that a climb from `x` meets, if any, becomes a root. The last `else` stands for no climb
      at all, and for one that never ends because an article is above itself: there the program hangs. */
  ghost function CutLoop(f: Forest, m: MsgId, x: Option<MsgId>): Forest {
    if x.Some? && x.value != m && Grounded(Up(f) - {m}, x.value) then
      match LinkTo(Up(f), x.value, m)
      case None => f
      case Some(c) => LinkChild(Release(f, c), c)
    else f
  }

  ghost function Settle(f: Forest, m: MsgId, last: MsgId): Forest {
    match Subj(f, m)
    case None => f
    case Some(s) =>
      var f1 := match Subj(f, last)
        case Some(t) => JoinThreads(f, t, s)
        case None => LinkChild(SetSubj(f, last, Some(s)), last);
      CutLoop(NameFakes(f1, Parent(f1, m), s), m, NamedUpTo(f1, Parent(f1, m), s))
  }

  // ----- The two entry points

  /** thread_article: `had` is the subject of the fake this article replaced. */
  ghost function ThreadArticle(f: Forest, m: MsgId, had: Option<SubjName>, refs: seq<MsgId>): Forest {
    var re := At(f, m).threaded;
    var f0 := Put(f, m, At(f, m).(fake := false, threaded := true));
    var f1 := match had case Some(t) => Detach(f0, m, t) case None => f0;
    var w := Walk(f1, m, refs, m, None, re);
    match w.last
    case Some(last) => Settle(w.forest, m, last)
    case None => if re then w.forest else LinkChild(w.forest, m)
  }

  /** One header to thread.  `another` says that the article object is not the one that the message
      id already stands for. */
  datatype Event = Event(id: MsgId, date: int, subj: SubjName, refs: seq<MsgId>, another: bool)

  /** valid_article turns down a second article with the id of a real one. */
  predicate Rejected(f: Forest, e: Event) {
    e.another && e.id in f.nodes && !Fake(f, e.id)
  }

  /** valid_article followed by thread_article. */
  ghost function Step(f: Forest, e: Event): Forest {
    var f0 := AddSubject(f, e.subj);
    if Rejected(f, e) then f0
    else if e.id in f.nodes && !Fake(f, e.id) then ThreadArticle(f0, e.id, None, e.refs)
    else ThreadArticle(Enter(f0, e.id, e.date, e.subj), e.id, Subj(f, e.id), e.refs)
  }

  ghost function Run(f: Forest, es: seq<Event>): Forest
    decreases |es|
  {
    if es == [] then f else Run(Step(f, es[0]), es[1..])
  }

  const EMPTY := Forest(map[], map[], map[])
}

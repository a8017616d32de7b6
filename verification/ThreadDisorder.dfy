// Four headers that leave a root list out of date order.
module ThreadDisorder {
  import opened Options
  import opened ThreadSpec
  import opened ThreadLists
  import opened ThreadSafety
  import opened ThreadForest
  import opened ThreadDates
  import opened ThreadDated

  function Placeholder(c: MsgId, s: SubjName): Node { Node(1, true, false, Some(s), None, [c]) }

  function Reply(m: MsgId, s: SubjName): Node { Node(1, false, true, Some(s), Some(m), []) }

  function Single(d: int, s: SubjName): Node { Node(d, false, true, Some(s), None, []) }

  /** The article `c` below a fake root `m`. */
  function Pair(m: MsgId, c: MsgId, s1: SubjName): Forest {
    Forest(map[m := Placeholder(c, s1), c := Reply(m, s1)], map[s1 := s1], map[s1 := [m]])
  }

  /** And another root `b` of the same subject. */
  function Three(m: MsgId, c: MsgId, b: MsgId, s1: SubjName): Forest {
    Forest(map[m := Placeholder(c, s1), c := Reply(m, s1), b := Single(2, s1)], map[s1 := s1], map[s1 := [m, b]])
  }

  /** And a root `x` of another subject. */
  function Crowd(m: MsgId, c: MsgId, b: MsgId, x: MsgId, s1: SubjName, s2: SubjName): Forest {
    Forest(map[m := Placeholder(c, s1), c := Reply(m, s1), b := Single(2, s1), x := Single(4, s2)],
           map[s1 := s1, s2 := s2], map[s1 := [m, b], s2 := [x]])
  }

  // ----- headers without references

  lemma NewRoot(f: Forest, e: Event)
    requires e.refs == [] && e.id !in f.nodes
    ensures Step(f, e) == LinkChild(Put(AddSubject(f, e.subj), e.id, Single(e.date, e.subj)), e.id)
  {
    hide LinkChild, AddSubject;
    var g, m := AddSubject(f, e.subj), e.id;
    assert g.nodes == f.nodes by { AddedNodes(f, e.subj); }
    var g1 := Enter(g, m, e.date, e.subj);
    assert g1 == Put(g, m, BLANK.(date := e.date, fake := false, subj := Some(e.subj)));
    assert Put(g1, m, At(g1, m).(fake := false, threaded := true)) == Put(g, m, Single(e.date, e.subj)) by {
      assert g1.nodes[m := Single(e.date, e.subj)] == g.nodes[m := Single(e.date, e.subj)];
    }
  }

  lemma AddedNodes(f: Forest, s: SubjName)
    ensures AddSubject(f, s).nodes == f.nodes
  {
  }

  lemma SecondStep(m: MsgId, c: MsgId, b: MsgId, s1: SubjName)
    requires m != c && m != b && c != b
    ensures Step(Pair(m, c, s1), Event(b, 2, s1, [], true)) == Three(m, c, b, s1)
  {
    var f := Pair(m, c, s1);
    NewRoot(f, Event(b, 2, s1, [], true));
    var g := Put(f, b, Single(2, s1));
    assert Date(g, m) == 1 && Date(g, b) == 2 && Roots(g, s1) == [m];
    assert InsertByDate(g, [m], b) == [m, b];
    assert LinkChild(g, b).roots == map[s1 := [m, b]];
  }

  lemma ThirdStep(m: MsgId, c: MsgId, b: MsgId, x: MsgId, s1: SubjName, s2: SubjName)
    requires m != c && m != b && c != b && x != m && x != c && x != b && s1 != s2
    ensures Step(Three(m, c, b, s1), Event(x, 4, s2, [], true)) == Crowd(m, c, b, x, s1, s2)
  {
    hide ThreadArticle, Step, Kids, Release, ScanPast, Walk, UnlinkChild, InsertAll;
    var f := Three(m, c, b, s1);
    NewRoot(f, Event(x, 4, s2, [], true));
    var g := Put(AddSubject(f, s2), x, Single(4, s2));
    assert Roots(g, s2) == [] && InsertByDate(g, [], x) == [x];
    assert LinkChild(g, x).roots == map[s1 := [m, b], s2 := [x]];
  }

  // ----- the header that makes the fake

  /** The article hung below the fake made for its reference. */
  function Hung1(m: MsgId, c: MsgId, s1: SubjName): Forest {
    Forest(map[m := Node(1, true, false, None, None, [c]), c := Reply(m, s1)], map[s1 := s1], map[s1 := []])
  }

  lemma FirstWalk(m: MsgId, c: MsgId, s1: SubjName)
    requires m != c
    ensures var f := Put(AddSubject(EMPTY, s1), c, Single(1, s1));
      Walk(f, c, [m], c, None, false) == Walked(Hung1(m, c, s1), Some(m))
  {
    var f := Put(AddSubject(EMPTY, s1), c, Single(1, s1));
    var f1 := GetArticle(f, m);
    assert [m][..0] == [];
    assert f1.nodes == map[c := Single(1, s1), m := BLANK];
    var f2 := SetParent(f1, c, Some(m));
    assert f2.nodes == map[c := Reply(m, s1), m := BLANK];
    var f3 := LinkChild(f2, c);
    assert InsertByDate(f2, [], c) == [c] && Kids(f2, m) == [] && Parent(f2, c) == Some(m);
    assert f3.nodes == f2.nodes[m := BLANK.(kids := [c])];
    assert f3.nodes == map[c := Reply(m, s1), m := BLANK.(kids := [c])];
    assert Attach(f1, c, m, false) == f3;
    assert SetDate(f3, m, 1).nodes == Hung1(m, c, s1).nodes;
    assert SetDate(f3, m, 1) == Hung1(m, c, s1);
  }

  lemma FirstSettles(m: MsgId, c: MsgId, s1: SubjName)
    requires m != c
    ensures Settle(Hung1(m, c, s1), c, m) == Pair(m, c, s1)
  {
    var f := Hung1(m, c, s1);
    var f1 := SetSubj(f, m, Some(s1));
    assert f1.nodes == Pair(m, c, s1).nodes;
    var g := LinkChild(f1, m);
    assert InsertByDate(f1, [], m) == [m] && g.roots == map[s1 := [m]];
    assert g == Pair(m, c, s1);
    assert Parent(g, c) == Some(m) && Subj(g, m) == Some(s1);
    assert NameFakes(g, Some(m), s1) == g && NamedUpTo(g, Some(m), s1) == Some(m);
    UpMeans(g);
    assert CutLoop(g, c, Some(m)) == g;
  }

  lemma FirstStep(m: MsgId, c: MsgId, s1: SubjName)
    requires m != c
    ensures Step(EMPTY, Event(c, 1, s1, [m], true)) == Pair(m, c, s1)
  {
    hide Walk, Settle;
    var e := Event(c, 1, s1, [m], true);
    EmptyWellFormed();
    StepFinishes(EMPTY, e);
    FirstWalk(m, c, s1);
    FirstSettles(m, c, s1);
    var g := AddSubject(EMPTY, s1);
    assert Entered(EMPTY, e) == Put(g, c, Single(1, s1)) by {
      EnterIs(g, c, 1, s1);
    }
  }

  // ----- the header that disturbs the roots

  /** `c` refers to `m`, which is unknown; then come `b`, and `x` about something else. */
  function Headers(m: MsgId, c: MsgId, b: MsgId, x: MsgId, s1: SubjName, s2: SubjName): seq<Event> {
    [Event(c, 1, s1, [m], true), Event(b, 2, s1, [], true), Event(x, 4, s2, [], true)]
  }

  lemma CrowdRuns(m: MsgId, c: MsgId, b: MsgId, x: MsgId, s1: SubjName, s2: SubjName)
    requires m != c && m != b && c != b && x != m && x != c && x != b && s1 != s2
    ensures Run(EMPTY, Headers(m, c, b, x, s1, s2)) == Crowd(m, c, b, x, s1, s2)
  {
    hide Step, Pair, Three, Crowd;
    var es := Headers(m, c, b, x, s1, s2);
    FirstStep(m, c, s1);
    SecondStep(m, c, b, s1);
    ThirdStep(m, c, b, x, s1, s2);
    assert es[1..] == [es[1], es[2]] && es[1..][1..] == [es[2]] && es[1..][1..][1..] == [];
    assert Run(Step(EMPTY, es[0]), es[1..]) == Run(Step(Step(EMPTY, es[0]), es[1]), [es[2]]);
  }

  lemma CrowdOrdered(m: MsgId, c: MsgId, b: MsgId, x: MsgId, s1: SubjName, s2: SubjName)
    requires m != c && m != b && c != b && x != m && x != c && x != b && s1 != s2
    ensures Ordered(Crowd(m, c, b, x, s1, s2))
  {
    var f := Crowd(m, c, b, x, s1, s2);
    assert Date(f, m) == 1 && Date(f, b) == 2;
    forall p ensures KidsSorted(f, p) {
      assert |Kids(f, p)| <= 1;
    }
    forall k ensures RootsSorted(f, k) {
      assert k == s1 || |Roots(f, k)| <= 1;
    }
  }

  /** Then the real `m` comes, dated 9 and about that something else: the roots of its thread are left
      dated 4, 2 and 9. */
  lemma DisturbExample(m: MsgId, c: MsgId, b: MsgId, x: MsgId, s1: SubjName, s2: SubjName)
    requires m != c && m != b && c != b && x != m && x != c && x != b && s1 != s2
    ensures var f, e := Run(EMPTY, Headers(m, c, b, x, s1, s2)), Event(m, 9, s2, [], true);
      Traceable(f, e) && Ordered(f) && !Ordered(Step(f, e))
  {
    hide WellFormed, Step, Run, Ordered;
    var f, e := Crowd(m, c, b, x, s1, s2), Event(m, 9, s2, [], true);
    CrowdRuns(m, c, b, x, s1, s2);
    DatedFromNothing(Headers(m, c, b, x, s1, s2));
    CrowdOrdered(m, c, b, x, s1, s2);
    assert Behind([m, b], m, b) by { assert [m, b][0] == m && [m, b][1] == b; }
    assert x in Roots(f, s2) && Date(f, b) < Date(f, x) < 9;
    assert Disturbs(f, e);
    StepOrder(f, e);
  }
}

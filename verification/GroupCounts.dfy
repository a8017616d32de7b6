/** The counts kept while articles are marked read and unread one at a time. */
module GroupCounts {
  import opened GroupArticles

  datatype Subj = Subj(sel: bool, visit: bool)

  function SubjAt(subjects: map<nat, Subj>, s: nat): Subj {
    if s in subjects then subjects[s] else Subj(false, false)
  }

  datatype Counts = Counts(arts: Arts, subjects: map<nat, Subj>, absfirst: nat, firstart: nat, toread: int,
    selectedOnly: bool, selected: int, missing: int, chased: int, checked: int)

  function LowerFirst(c: Counts, min: nat): Counts {
    var from := if min < c.absfirst then c.absfirst else min;
    if from < c.firstart then c.(firstart := from) else c
  }

  /** A newly unread article: in selected-only mode it is selected with its subject, otherwise its subject is to be
      visited. */
  function Followed(c: Counts, n: nat): Counts
    requires n in c.arts
  {
    var subj := c.arts[n].subj;
    if subj.None? then c
    else if !c.selectedOnly then
      c.(subjects := c.subjects[subj.value := SubjAt(c.subjects, subj.value).(visit := true)])
    else if SubjAt(c.subjects, subj.value).sel then
      c.(arts := c.arts[n := c.arts[n].(sel := true)], selected := c.selected + 1)
    else c
  }

  /** The article is selected as soon as it becomes unread. */
  predicate Chosen(c: Counts, n: nat)
    requires n in c.arts
  {
    c.arts[n].subj.Some? && c.selectedOnly && SubjAt(c.subjects, c.arts[n].subj.value).sel
  }

  /** The article becomes unread. */
  function More(c: Counts, n: nat): Counts
    requires n in c.arts
  {
    if c.arts[n].unread then c
    else
      Followed(LowerFirst(c, n).(arts := c.arts[n := c.arts[n].(unread := true, del := false)],
        toread := c.toread + 1), n)
  }

  /** The article becomes read, and is no longer selected. */
  function Less(c: Counts, n: nat): Counts
    requires n in c.arts
  {
    var ap := c.arts[n];
    if !ap.unread then c
    else c.(
      arts := c.arts[n := ap.(unread := false, sel := false)],
      toread := if c.toread > 0 then c.toread - 1 else c.toread,
      selected := if ap.sel then c.selected - 1 else c.selected)
  }

  function Missing(c: Counts, n: nat): Counts
    requires n in c.arts
  {
    var l := Less(c, n);
    l.(
      arts := l.arts[n := l.arts[n].(hasRe := false, yankback := false, present := false, cached := true,
        threaded := true)],
      missing := if c.arts[n].unread then c.missing + 1 else c.missing)
  }

  function Read(c: Counts, n: nat): Counts
    requires n in c.arts
  {
    var l := Less(c, n);
    var chase := l.arts[n].xrefs && !l.arts[n].kchase;
    l.(
      arts := if chase then l.arts[n := l.arts[n].(kchase := true)] else l.arts,
      chased := if chase then l.chased + 1 else l.chased,
      checked := l.checked + 1)
  }

  // ----- what the counts count

  function Unread(arts: Arts): set<nat> {
    set n | n in arts && arts[n].unread
  }

  function Selected(arts: Arts): set<nat> {
    set n | n in arts && arts[n].unread && arts[n].sel
  }

  /**
   * The unread count is the number of unread articles, the selected count that of the selected ones among them, only
   * unread articles are selected, and none of the group is unread below the place where unread articles may begin.
   */
  predicate Consistent(c: Counts) {
    && c.toread == |Unread(c.arts)|
    && c.selected == |Selected(c.arts)|
    && (forall n :: n in c.arts && c.arts[n].sel ==> c.arts[n].unread)
    && (forall n :: n in c.arts && c.absfirst <= n < c.firstart ==> !c.arts[n].unread)
  }

  /** The sets after one article has changed. */
  lemma OneChanged(arts: Arts, n: nat, ap: Art)
    requires n in arts
    ensures Unread(arts[n := ap]) == if ap.unread then Unread(arts) + {n} else Unread(arts) - {n}
    ensures Selected(arts[n := ap]) == if ap.unread && ap.sel then Selected(arts) + {n} else Selected(arts) - {n}
    ensures n in Unread(arts) <==> arts[n].unread
    ensures n in Selected(arts) <==> arts[n].unread && arts[n].sel
  {
  }

  /** What becoming unread changes. */
  lemma MoreParts(c: Counts, n: nat)
    requires n in c.arts && !c.arts[n].unread
    ensures var m := More(c, n);
      && n in m.arts && m.arts == c.arts[n := m.arts[n]] && m.arts[n].unread && m.toread == c.toread + 1
      && m.selected == (if Chosen(c, n) then c.selected + 1 else c.selected)
      && (m.arts[n].sel <==> c.arts[n].sel || Chosen(c, n))
      && m.absfirst == c.absfirst && m.firstart <= c.firstart && (n < c.absfirst || m.firstart <= n)
  {
    hide LowerFirst;
    LowersFirst(c, n);
    UpdateTwice(c.arts, n, c.arts[n].(unread := true, del := false),
      c.arts[n].(unread := true, del := false, sel := true));
  }

  lemma LowersFirst(c: Counts, n: nat)
    ensures var l := LowerFirst(c, n);
      l == c.(firstart := l.firstart) && l.firstart <= c.firstart && (n < c.absfirst || l.firstart <= n)
  {
  }

  lemma AlreadyUnread(c: Counts, n: nat)
    requires n in c.arts && c.arts[n].unread
    ensures More(c, n) == c
  {
  }

  lemma MoreConsistent(c: Counts, n: nat)
    requires n in c.arts && Consistent(c)
    ensures Consistent(More(c, n)) && Unread(More(c, n).arts) == Unread(c.arts) + {n}
    ensures More(c, n).arts.Keys == c.arts.Keys && More(c, n).absfirst == c.absfirst
  {
    hide Unread, Selected, More, Chosen;
    if c.arts[n].unread {
      OneChanged(c.arts, n, c.arts[n]);
      assert c.arts[n := c.arts[n]] == c.arts;
      AlreadyUnread(c, n);
    } else {
      MoreParts(c, n);
      OneChanged(c.arts, n, More(c, n).arts[n]);
    }
  }

  lemma LessConsistent(c: Counts, n: nat)
    requires n in c.arts && Consistent(c)
    ensures Consistent(Less(c, n)) && Unread(Less(c, n).arts) == Unread(c.arts) - {n}
    ensures Less(c, n).arts.Keys == c.arts.Keys && Less(c, n).absfirst == c.absfirst
  {
    if !c.arts[n].unread {
      assert Unread(c.arts) == Unread(c.arts) - {n};
      return;
    }
    var l := Less(c, n);
    assert Unread(l.arts) == Unread(c.arts) - {n};
    assert Selected(l.arts) == Selected(c.arts) - {n};
  }

  lemma SameMarks(a: Arts, b: Arts)
    requires a.Keys == b.Keys && forall n :: n in a ==> a[n].unread == b[n].unread && a[n].sel == b[n].sel
    ensures Unread(a) == Unread(b) && Selected(a) == Selected(b)
  {
  }

  lemma FirstIs(c: Counts, min: nat)
    ensures var d := LowerFirst(c, min);
      && d == c.(firstart := d.firstart) && d.firstart <= c.firstart && (d.firstart <= min || d.firstart <= c.absfirst)
      && (d.firstart == c.firstart || (d.firstart == min && c.absfirst <= min)
        || (d.firstart == c.absfirst && min < c.absfirst))
  {
  }

  lemma FollowedIs(c: Counts, n: nat)
    requires n in c.arts
    ensures var ap, chosen := c.arts[n], Chosen(c, n);
      Followed(c, n) == c.(
        arts := c.arts[n := ap.(sel := ap.sel || chosen)],
        selected := c.selected + (if chosen then 1 else 0),
        subjects := if ap.subj.None? || c.selectedOnly then c.subjects
          else c.subjects[ap.subj.value := SubjAt(c.subjects, ap.subj.value).(visit := true)])
  {
    hide SubjAt;
    var ap := c.arts[n];
    PutBack(c.arts, n);
    if Chosen(c, n) {
      assert ap.(sel := ap.sel || true) == ap.(sel := true);
    } else {
      assert ap.(sel := ap.sel || false) == ap;
    }
  }

  lemma MoreIs(c: Counts, n: nat)
    requires n in c.arts && !c.arts[n].unread
    ensures var ap, chosen, d := c.arts[n], Chosen(c, n), More(c, n);
      d == c.(
        arts := c.arts[n := ap.(unread := true, del := false, sel := ap.sel || chosen)],
        firstart := d.firstart, toread := c.toread + 1,
        selected := c.selected + (if chosen then 1 else 0),
        subjects := if ap.subj.None? || c.selectedOnly then c.subjects
          else c.subjects[ap.subj.value := SubjAt(c.subjects, ap.subj.value).(visit := true)])
    ensures More(c, n).firstart == LowerFirst(c, n).firstart
  {
    hide LowerFirst, Followed, SubjAt;
    var ap := c.arts[n];
    FirstIs(c, n);
    var was := ap.(unread := true, del := false);
    var b := LowerFirst(c, n).(arts := c.arts[n := was], toread := c.toread + 1);
    FollowedIs(b, n);
    UpdateTwice(c.arts, n, was, was.(sel := was.sel || Chosen(b, n)));
  }

  /** The flags of an article that becomes read, cleared one after the other. */
  lemma LessArts(arts: Arts, n: nat)
    requires n in arts
    ensures var ap := arts[n];
      var now := ap.(unread := false, sel := ap.sel && !ap.unread);
      && (!ap.unread ==> arts[n := now] == arts)
      && (ap.unread && !ap.sel ==> now == ap.(unread := false))
      && (ap.unread && ap.sel ==>
            var one := arts[n := ap.(unread := false)]; one[n := one[n].(sel := false)] == arts[n := now])
  {
    var ap := arts[n];
    if ap.unread && ap.sel {
      UpdateTwice(arts, n, ap.(unread := false), ap.(unread := false, sel := false));
    } else if !ap.unread {
      PutBack(arts, n);
    }
  }

  lemma LessIs(c: Counts, n: nat)
    requires n in c.arts
    ensures var ap := c.arts[n];
      Less(c, n) == c.(
        arts := c.arts[n := ap.(unread := false, sel := ap.sel && !ap.unread)],
        toread := c.toread - (if ap.unread && c.toread > 0 then 1 else 0),
        selected := c.selected - (if ap.sel && ap.unread then 1 else 0))
  {
    var ap := c.arts[n];
    PutBack(c.arts, n);
    assert ap.(unread := false, sel := ap.sel && !ap.unread) ==
      if ap.unread then ap.(unread := false, sel := false) else ap;
  }

  lemma MissingIs(c: Counts, n: nat)
    requires n in c.arts
    ensures var ap := c.arts[n];
      Missing(c, n) == c.(
        arts := c.arts[n := ap.(present := false, unread := false, sel := ap.sel && !ap.unread, hasRe := false,
          yankback := false, cached := true, threaded := true)],
        toread := c.toread - (if ap.unread && c.toread > 0 then 1 else 0),
        selected := c.selected - (if ap.sel && ap.unread then 1 else 0),
        missing := c.missing + (if ap.unread then 1 else 0))
  {
    hide Less;
    LessIs(c, n);
    var was := c.arts[n].(unread := false, sel := c.arts[n].sel && !c.arts[n].unread);
    UpdateTwice(c.arts, n, was,
      was.(hasRe := false, yankback := false, present := false, cached := true, threaded := true));
  }

  lemma ReadIs(c: Counts, n: nat)
    requires n in c.arts
    ensures var ap := c.arts[n];
      Read(c, n) == c.(
        arts := c.arts[n := ap.(unread := false, sel := ap.sel && !ap.unread, kchase := ap.kchase || ap.xrefs)],
        toread := c.toread - (if ap.unread && c.toread > 0 then 1 else 0),
        selected := c.selected - (if ap.sel && ap.unread then 1 else 0),
        chased := c.chased + (if ap.xrefs && !ap.kchase then 1 else 0), checked := c.checked + 1)
  {
    hide Less;
    LessIs(c, n);
    var ap := c.arts[n];
    var was := ap.(unread := false, sel := ap.sel && !ap.unread);
    UpdateTwice(c.arts, n, was, was.(kchase := true));
    assert was.(kchase := ap.kchase || ap.xrefs) == if ap.xrefs && !ap.kchase then was.(kchase := true) else was;
  }

  lemma PutBack(arts: Arts, n: nat)
    requires n in arts
    ensures arts[n := arts[n]] == arts
  {
  }

  lemma UpdateTwice(arts: Arts, n: nat, x: Art, y: Art)
    ensures arts[n := x][n := y] == arts[n := y]
  {
  }

  lemma MissingConsistent(c: Counts, n: nat)
    requires n in c.arts && Consistent(c)
    ensures Consistent(Missing(c, n)) && Unread(Missing(c, n).arts) == Unread(c.arts) - {n}
    ensures Missing(c, n).arts.Keys == c.arts.Keys && Missing(c, n).absfirst == c.absfirst
  {
    hide Less, Unread, Selected;
    LessConsistent(c, n);
    SameMarks(Less(c, n).arts, Missing(c, n).arts);
  }

  lemma ReadConsistent(c: Counts, n: nat)
    requires n in c.arts && Consistent(c)
    ensures Consistent(Read(c, n)) && Unread(Read(c, n).arts) == Unread(c.arts) - {n}
    ensures Read(c, n).arts.Keys == c.arts.Keys && Read(c, n).absfirst == c.absfirst
  {
    hide Less, Unread, Selected;
    LessConsistent(c, n);
    SameMarks(Less(c, n).arts, Read(c, n).arts);
  }

  // ----- over whole runs

  datatype Mark = MarkMore(n: nat) | MarkLess(n: nat) | MarkMissing(n: nat) | MarkRead(n: nat)

  function Apply(c: Counts, m: Mark): Counts {
    if m.n !in c.arts then c
    else match m
      case MarkMore(n) => More(c, n)
      case MarkLess(n) => Less(c, n)
      case MarkMissing(n) => Missing(c, n)
      case MarkRead(n) => Read(c, n)
  }

  function Run(c: Counts, marks: seq<Mark>): Counts {
    if marks == [] then c else Apply(Run(c, marks[..|marks| - 1]), marks[|marks| - 1])
  }

  lemma ApplyConsistent(c: Counts, m: Mark)
    requires Consistent(c)
    ensures Consistent(Apply(c, m)) && Apply(c, m).arts.Keys == c.arts.Keys && Apply(c, m).absfirst == c.absfirst
    ensures m.n in c.arts ==> Unread(Apply(c, m).arts) == if m.MarkMore? then Unread(c.arts) + {m.n}
      else Unread(c.arts) - {m.n}
  {
    hide Consistent, Unread, More, Less, Missing, Read;
    if m.n in c.arts {
      match m
      case MarkMore(n) => MoreConsistent(c, n);
      case MarkLess(n) => LessConsistent(c, n);
      case MarkMissing(n) => MissingConsistent(c, n);
      case MarkRead(n) => ReadConsistent(c, n);
    }
  }

  /** The counts stay right over any sequence of marks. */
  lemma {:induction false} RunConsistent(c: Counts, marks: seq<Mark>)
    requires Consistent(c)
    ensures Consistent(Run(c, marks)) && Run(c, marks).arts.Keys == c.arts.Keys && Run(c, marks).absfirst == c.absfirst
  {
    hide Consistent, Apply;
    if marks != [] {
      RunConsistent(c, marks[..|marks| - 1]);
      ApplyConsistent(Run(c, marks[..|marks| - 1]), marks[|marks| - 1]);
    }
  }

  /** After any run the unread count is the one that printing the list from the flags would find. */
  lemma RunCountIsPrinted(c: Counts, marks: seq<Mark>, lastart: nat)
    requires Consistent(c) && forall n :: n in c.arts ==> c.absfirst <= n <= lastart
    ensures Run(c, marks).toread == UnreadCount(Run(c, marks).arts, c.absfirst, lastart + 1)
  {
    RunConsistent(c, marks);
    var arts := Run(c, marks).arts;
    CountsUnread(arts, c.absfirst, lastart + 1);
    assert Unread(arts) == set n | n in arts && arts[n].unread && c.absfirst <= n < lastart + 1;
  }

  lemma {:induction false} CountsUnread(arts: Arts, lo: nat, hi: nat)
    ensures UnreadCount(arts, lo, hi) == |set n | n in arts && arts[n].unread && lo <= n < hi|
    decreases hi - lo
  {
    var all := set n | n in arts && arts[n].unread && lo <= n < hi;
    if hi <= lo {
      assert all == {};
    } else {
      CountsUnread(arts, lo, hi - 1);
      var most := set n | n in arts && arts[n].unread && lo <= n < hi - 1;
      assert all == if At(arts, hi - 1).unread then most + {hi - 1} else most;
    }
  }
}

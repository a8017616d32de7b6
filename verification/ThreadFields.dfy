// Writes to single fields of the articles, and new articles and subjects.
module ThreadFields {
  import opened ThreadSpec
  import opened ThreadCells
  import opened ThreadHeap

  /** A cell whose links are as they were shows a node whose children are as they were. */
  lemma FieldShows(st: Store, f: Forest, c: MsgId, cell: Cell, n: Node)
    requires Represents(st, f) && c in st.cells && Shows(cell, n) && n.kids == Kids(f, c)
    requires cell.sibling == st.cells[c].sibling
    ensures Represents(st.(cells := st.cells[c := cell]), Put(f, c, n)) && Put(f, c, n).thread == f.thread
  {
    hide First, Next, Home;
    var g, cells := Put(f, c, n), st.cells[c := cell];
    forall p ensures Linked(cells, Kids(g, p)) {
      assert Kids(g, p) == Kids(f, p);
      StillLinked(st.cells, cells, Kids(f, p));
    }
    forall k ensures Linked(cells, Roots(g, k)) {
      assert Roots(g, k) == Roots(f, k);
      StillLinked(st.cells, cells, Roots(f, k));
    }
    forall s ensures Roots(g, ThreadOf(g, s)) == Roots(f, ThreadOf(f, s)) {
    }
  }

  /** A write to the fields of `a`, followed on the forest. */
  ghost method FollowField(t: Threads, a: Article, st: Store, n: Node)
    requires t.Tidy() && t.RingsOk() && Represents(st, t.f) && a.msgid in st.cells
      && t.Image() == st.(cells := st.cells[a.msgid := t.CellOf(a)])
    requires Shows(t.CellOf(a), n) && n.kids == Kids(t.f, a.msgid) && t.SiblingId(a) == st.cells[a.msgid].sibling
    modifies t`f
    ensures t.Repr() && t.f == Put(old(t.f), a.msgid, n)
  {
    hide Represents, Threads.RingsOk, Threads.Tidy;
    FieldShows(st, t.f, a.msgid, t.CellOf(a), n);
    t.Follow(Put(t.f, a.msgid, n));
  }

  lemma CellIs(t: Threads, a: Article)
    requires t.Tidy() && Represents(t.Image(), t.f) && t.Held(a)
    ensures a.msgid in t.f.nodes && a.msgid in t.Cells() && t.Cells()[a.msgid] == t.CellOf(a)
      && Shows(t.CellOf(a), At(t.f, a.msgid))
    ensures t.Held(a.parent) && t.Held(a.child1) && t.Listed(a.sibling) && t.HeldSubject(a.subj)
  {
  }

  method WriteParent(t: Threads, a: Article, p: Article?)
    requires t.Repr() && t.Held(a) && t.Held(p)
    modifies t`f, a`parent
    ensures t.Repr() && t.f == ThreadSpec.SetParent(old(t.f), a.msgid, IdOf(p)) && a.parent == p
  {
    hide Represents, Threads.RingsOk, Threads.Tidy;
    CellIs(t, a);
    ghost var st := t.Image();
    a.parent := p;
    t.Wrote(a);
    FollowField(t, a, st, At(t.f, a.msgid).(parent := IdOf(p)));
  }

  method WriteSubj(t: Threads, a: Article, s: Subject?)
    requires t.Repr() && t.Held(a) && t.HeldSubject(s)
    modifies t`f, a`subj
    ensures t.Repr() && t.f == ThreadSpec.SetSubj(old(t.f), a.msgid, NameOf(s)) && a.subj == s
  {
    hide Represents, Threads.RingsOk, Threads.Tidy;
    CellIs(t, a);
    ghost var st := t.Image();
    a.subj := s;
    t.Wrote(a);
    FollowField(t, a, st, At(t.f, a.msgid).(subj := NameOf(s)));
  }

  method WriteDate(t: Threads, a: Article, d: int)
    requires t.Repr() && t.Held(a)
    modifies t`f, a`date
    ensures t.Repr() && t.f == ThreadSpec.SetDate(old(t.f), a.msgid, d) && a.date == d
  {
    hide Represents, Threads.RingsOk, Threads.Tidy;
    CellIs(t, a);
    ghost var st := t.Image();
    a.date := d;
    t.Wrote(a);
    FollowField(t, a, st, At(t.f, a.msgid).(date := d));
  }

  /** The article is not a fake any more, and is threaded. */
  method WriteReal(t: Threads, a: Article)
    requires t.Repr() && t.Held(a)
    modifies t`f, a`fake, a`threaded
    ensures t.Repr() && t.f == Put(old(t.f), a.msgid, At(old(t.f), a.msgid).(fake := false, threaded := true))
  {
    hide Represents, Threads.RingsOk, Threads.Tidy;
    CellIs(t, a);
    ghost var st := t.Image();
    a.fake, a.threaded := false, true;
    t.Wrote(a);
    FollowField(t, a, st, At(t.f, a.msgid).(fake := false, threaded := true));
  }
}

/** The order of the newsgroups: a list linked both ways, in which groups are moved and renumbered. */
module GroupOrder {
  import NewsrcGroup
  import opened Options

  /** What the order of the groups needs of the record of a group. */
  class NgEntry {
    var prev: NgEntry?
    var next: NgEntry?
    var num: int
    var toread: int

    constructor (toread: int)
      ensures this.toread == toread && prev == null && next == null
    {
      prev, next, num, this.toread := null, null, 0, toread;
    }
  }

  function NextIn(s: seq<NgEntry>, i: nat): NgEntry? {
    if i + 1 < |s| then s[i + 1] else null
  }

  function PrevIn(s: seq<NgEntry>, i: nat): NgEntry?
    requires i <= |s|
  {
    if i > 0 then s[i - 1] else null
  }

  ghost predicate Forward(s: seq<NgEntry>)
    reads s`next
  {
    forall i :: 0 <= i < |s| ==> s[i].next == NextIn(s, i)
  }

  ghost predicate Backward(s: seq<NgEntry>)
    reads s`prev
  {
    forall i :: 0 <= i < |s| ==> s[i].prev == PrevIn(s, i)
  }

  /** Each group points to those before and after it. */
  ghost predicate Linked(s: seq<NgEntry>)
    reads s`next, s`prev
  {
    Forward(s) && Backward(s)
  }

  ghost predicate Numbered(s: seq<NgEntry>)
    reads s`num
  {
    forall i :: 0 <= i < |s| ==> s[i].num == i
  }

  /** Every group of `s` is one of `t`. */
  ghost predicate Among(s: seq<NgEntry>, t: seq<NgEntry>) {
    forall j :: 0 <= j < |s| ==> s[j] in t
  }

  // ----- orders

  function ToEnd<T>(s: seq<T>, i: nat): seq<T>
    requires i < |s|
  {
    s[..i] + s[i + 1..] + [s[i]]
  }

  /** The list with element `i` taken out and put back at place `k`, or at the end. */
  function Relocated<T>(s: seq<T>, i: nat, k: nat): (r: seq<T>)
    requires i < |s|
    ensures |r| == |s|
  {
    var rest := s[..i] + s[i + 1..];
    if k < |rest| then rest[..k] + [s[i]] + rest[k..] else rest + [s[i]]
  }

  /** The links after the last group has been moved before group `k`. */
  function Before(s: seq<NgEntry>, k: nat): seq<NgEntry>
    requires k < |s|
  {
    s[..k] + [s[|s| - 1]] + s[k..|s| - 1]
  }

  /** The links forward after group `i` has been unlinked and linked in again at the end. */
  lemma ForwardToEnd(s: seq<NgEntry>, i: nat)
    requires i + 1 < |s|
    requires forall j :: 0 <= j < |s| - 1 && j != i && j + 1 != i ==> s[j].next == NextIn(s, j)
    requires (i > 0 ==> s[i - 1].next == s[i + 1]) && s[|s| - 1].next == s[i] && s[i].next == null
    ensures Forward(ToEnd(s, i))
  {
    var t := ToEnd(s, i);
    forall j | 0 <= j < |t| ensures t[j].next == NextIn(t, j) {
      assert t[j] == if j < i then s[j] else if j < |t| - 1 then s[j + 1] else s[i];
    }
  }

  lemma BackwardToEnd(s: seq<NgEntry>, i: nat)
    requires i + 1 < |s|
    requires forall j :: 0 <= j < |s| && j != i && j != i + 1 ==> s[j].prev == PrevIn(s, j)
    requires s[i + 1].prev == PrevIn(s, i) && s[i].prev == s[|s| - 1]
    ensures Backward(ToEnd(s, i))
  {
    var t := ToEnd(s, i);
    forall j | 0 <= j < |t| ensures t[j].prev == PrevIn(t, j) {
      assert t[j] == if j < i then s[j] else if j < |t| - 1 then s[j + 1] else s[i];
    }
  }

  /** The links forward after the last group has been moved before group `k`. */
  lemma ForwardBefore(s: seq<NgEntry>, k: nat)
    requires k + 1 < |s|
    requires forall j :: 0 <= j < |s| - 2 && j + 1 != k ==> s[j].next == NextIn(s, j)
    requires s[|s| - 2].next == null && s[|s| - 1].next == s[k] && (k > 0 ==> s[k - 1].next == s[|s| - 1])
    ensures Forward(Before(s, k))
  {
    var t := Before(s, k);
    forall j | 0 <= j < |t| ensures t[j].next == NextIn(t, j) {
      assert t[j] == if j < k then s[j] else if j == k then s[|s| - 1] else s[j - 1];
    }
  }

  lemma BackwardBefore(s: seq<NgEntry>, k: nat)
    requires k + 1 < |s|
    requires forall j :: 0 <= j < |s| - 1 && j != k ==> s[j].prev == PrevIn(s, j)
    requires s[k].prev == s[|s| - 1] && s[|s| - 1].prev == PrevIn(s, k)
    ensures Backward(Before(s, k))
  {
    var t := Before(s, k);
    forall j | 0 <= j < |t| ensures t[j].prev == PrevIn(t, j) {
      assert t[j] == if j < k then s[j] else if j == k then s[|s| - 1] else s[j - 1];
    }
  }

  lemma DistinctToEnd(s: seq<NgEntry>, i: nat)
    requires Distinct(s) && i < |s|
    ensures |ToEnd(s, i)| == |s| && Distinct(ToEnd(s, i)) && forall j :: 0 <= j < |s| ==> ToEnd(s, i)[j] in s
  {
    var t := ToEnd(s, i);
    forall j, k | 0 <= j < k < |t| ensures t[j] != t[k] {
      assert t[j] == if j < i then s[j] else s[j + 1];
      assert t[k] == if k < i then s[k] else if k < |t| - 1 then s[k + 1] else s[i];
    }
  }

  lemma DistinctBefore(s: seq<NgEntry>, i: nat)
    requires Distinct(s) && i < |s|
    ensures |Before(s, i)| == |s| && Distinct(Before(s, i)) && forall j :: 0 <= j < |s| ==> Before(s, i)[j] in s
  {
    var t := Before(s, i);
    forall j, k | 0 <= j < k < |t| ensures t[j] != t[k] {
      assert t[j] == if j < i then s[j] else if j == i then s[|s| - 1] else s[j - 1];
      assert t[k] == if k < i then s[k] else if k == i then s[|s| - 1] else s[k - 1];
    }
  }

  // ----- moving groups

  class Newsgroups {
    var first: NgEntry?
    var last: NgEntry?
    var count: nat
    ghost var groups: seq<NgEntry>

    ghost predicate Valid()
      reads this, groups`next, groups`prev
    {
      && Distinct(groups) && Linked(groups) && count == |groups|
      && first == (if groups == [] then null else groups[0]) && last == if groups == [] then null
        else groups[|groups| - 1]
    }

    constructor ()
      ensures Valid() && groups == []
    {
      first, last, count, groups := null, null, 0, [];
    }

    /** The pointers changed to unlink a group that is not the last and to link it in at the end. */
    method LinkAtEnd(np: NgEntry, ghost i: nat)
      requires Valid() && i + 1 < |groups| && np == groups[i]
      modifies this`first, this`last, groups`prev, groups`next
      ensures Forward(ToEnd(groups, i)) && Backward(ToEnd(groups, i))
      ensures first == (if i == 0 then groups[1] else old(first)) && last == np
    {
      hide NextIn, PrevIn, ToEnd;
      Neighbours(groups, i);
      Neighbours(groups, |groups| - 1);
      if np.prev != null { np.prev.next := np.next; } else { first := np.next; }
      np.next.prev := np.prev;
      np.prev := last;
      np.next := null;
      last.next := np;
      last := np;
      ForwardToEnd(groups, i) by {
        forall j | 0 <= j < |groups| - 1 && j != i && j + 1 != i ensures groups[j].next == NextIn(groups, j) {
          assert old(groups[j].next) == NextIn(groups, j);
        }
      }
      BackwardToEnd(groups, i) by {
        forall j | 0 <= j < |groups| && j != i && j != i + 1 ensures groups[j].prev == PrevIn(groups, j) {
          assert old(groups[j].prev) == PrevIn(groups, j);
        }
      }
    }

    /** A group unlinked from its place and linked in at the end. */
    method MoveToEnd(np: NgEntry, ghost i: nat)
      requires Valid() && i < |groups| && np == groups[i]
      modifies this`first, this`last, this`groups, groups`prev, groups`next
      ensures Valid() && groups == ToEnd(old(groups), i)
      ensures |groups| == |old(groups)| && Among(groups, old(groups))
    {
      hide ToEnd, Before, Forward, Backward;
      DistinctToEnd(groups, i);
      EndOf(groups, i);
      Same(groups, i);
      if np != last { LinkAtEnd(np, i); }
      groups := ToEnd(groups, i);
    }

    /** The pointers changed to move the last group before group `k`. */
    method LinkBefore(np: NgEntry, move: NgEntry, ghost k: nat)
      requires Valid() && k + 1 < |groups| && np == groups[k] && move == groups[|groups| - 1]
      modifies this`first, this`last, groups`prev, groups`next
      ensures Forward(Before(groups, k)) && Backward(Before(groups, k))
      ensures first == (if k == 0 then move else old(first)) && last == groups[|groups| - 2]
    {
      hide NextIn, PrevIn, Before;
      Neighbours(groups, k);
      Neighbours(groups, |groups| - 1);
      last := move.prev;
      last.next := null;
      move.prev := np.prev;
      move.next := np;
      if np.prev != null { np.prev.next := move; } else { first := move; }
      np.prev := move;
      ForwardBefore(groups, k) by {
        forall j | 0 <= j < |groups| - 2 && j + 1 != k ensures groups[j].next == NextIn(groups, j) {
          assert old(groups[j].next) == NextIn(groups, j);
        }
      }
      BackwardBefore(groups, k) by {
        forall j | 0 <= j < |groups| - 1 && j != k ensures groups[j].prev == PrevIn(groups, j) {
          assert old(groups[j].prev) == PrevIn(groups, j);
        }
      }
    }

    /** Every group numbered by its place. */
    method Renumber()
      requires Valid()
      modifies groups`num
      ensures Numbered(groups)
    {
      hide Linked;
      var np, i := first, 0;
      while np != null
        invariant 0 <= i <= |groups| && np == (if i < |groups| then groups[i] else null)
        invariant forall j :: 0 <= j < i ==> groups[j].num == j
        decreases |groups| - i
      {
        np.num := i;
        Neighbours(groups, i);
        np, i := np.next, i + 1;
      }
    }

    /** The first group numbered `k` or higher. */
    method FindNumber(k: nat) returns (np: NgEntry)
      requires Valid() && Numbered(groups) && k < |groups|
      ensures np == groups[k]
    {
      hide Linked;
      var p := first;
      ghost var i := 0;
      while p.num < k
        invariant i <= k && p == groups[i]
        decreases k - i
      {
        Neighbours(groups, i);
        p := p.next;
        i := i + 1;
      }
      np := p;
    }

    /** Groups from place `k` on numbered by their place. */
    method RenumberFrom(np: NgEntry, k: nat)
      requires Valid() && k < |groups| && np == groups[k] && forall j :: 0 <= j < k ==> groups[j].num == j
      modifies groups`num
      ensures Numbered(groups)
    {
      hide Linked;
      var p: NgEntry?, i := np, k;
      while p != null
        invariant k <= i <= |groups| && p == (if i < |groups| then groups[i] else null)
        invariant forall j :: 0 <= j < i ==> groups[j].num == j
        decreases |groups| - i
      {
        p.num := i;
        Neighbours(groups, i);
        p, i := p.next, i + 1;
      }
    }

    /** The last group moved before group `k`. */
    method PutBefore(np: NgEntry, move: NgEntry, ghost k: nat)
      requires Numbered(groups)
      requires Valid() && k + 1 < |groups| && np == groups[k] && move == groups[|groups| - 1]
      modifies this`first, this`last, this`groups, groups`prev, groups`next
      ensures Valid() && groups == Before(old(groups), k) && groups[k] == move
      ensures forall j :: 0 <= j < k ==> groups[j].num == j
      ensures |groups| == |old(groups)| && Among(groups, old(groups))
    {
      hide Forward, Backward, Before, Distinct;
      DistinctBefore(groups, k);
      Apart(groups, k);
      BeforeEnds(groups, k);
      LinkBefore(np, move, k);
      groups := Before(groups, k);
    }

    /** relocate_newsgroup in natural order: the group taken out and put back at place `newnum`, and all numbers
        right. */
    method Relocate(move: NgEntry, newnum: nat, ghost i: nat)
      requires Valid() && i < |groups| && move == groups[i]
      modifies this`first, this`last, this`groups, groups`prev, groups`next, groups`num
      ensures Valid() && groups == Relocated(old(groups), i, newnum) && Numbered(groups)
      ensures |groups| == |old(groups)| && Among(groups, old(groups))
    {
      hide Linked, Distinct, ToEnd, Before, Relocated, Numbered;
      EndOf(groups, i);
      RelocatedIs(groups, i, newnum);
      MoveToEnd(move, i);
      Renumber();
      if newnum < count - 1 {
        var np := FindNumber(newnum);
        PutBefore(np, move, newnum);
        RenumberFrom(move, newnum);
      }
    }

    /** How many groups are bogus, apart from those already at the end; `np` is the last group that is not. */
    method CountBogus() returns (bogosity: int, np: NgEntry?, ghost t: nat)
      requires Valid()
      ensures t <= |groups| && np == (if t > 0 then groups[t - 1] else null) && (t > 0 ==> !IsBogus(groups[t - 1]))
      ensures forall j :: t <= j < |groups| ==> IsBogus(groups[j])
      ensures bogosity == |ReverseBogus(groups[..t])|
    {
      hide Linked, Distinct;
      np := first;
      bogosity := 0;
      ghost var i := 0;
      while np != null
        invariant i <= |groups| && np == (if i < |groups| then groups[i] else null)
        invariant bogosity == |ReverseBogus(groups[..i])|
        decreases |groups| - i
      {
        if np.toread == NewsrcGroup.TR_BOGUS { bogosity := bogosity + 1; }
        Neighbours(groups, i);
        BogusSnoc(groups, i);
        np := np.next;
        i := i + 1;
      }
      np := last;
      t := |groups|;
      while np != null && np.toread == NewsrcGroup.TR_BOGUS
        invariant t <= |groups| && np == (if t > 0 then groups[t - 1] else null)
        invariant forall j :: t <= j < |groups| ==> IsBogus(groups[j])
        invariant bogosity == |ReverseBogus(groups[..t])|
        decreases t
      {
        bogosity := bogosity - 1;
        Neighbours(groups, t - 1);
        BogusSnoc(groups, t - 1);
        np := np.prev;
        t := t - 1;
      }
    }

    /** One group moved to the end if it is bogus. */
    method CleanupOne(np: NgEntry, ghost g: seq<NgEntry>, ghost t: nat, ghost j: nat)
      requires Valid() && j < t <= |g| == |groups| && groups == Cleaned(g, t, j + 1) && np == g[j]
      modifies this`first, this`last, this`groups, groups`prev, groups`next, groups`num
      ensures Valid() && groups == Cleaned(g, t, j) && |groups| == |g|
      ensures Among(groups, old(groups))
      ensures if |ReverseBogus(g[j..t])| > |ReverseBogus(g[j + 1..t])| then Numbered(groups)
        else |ReverseBogus(g[j..t])| == |ReverseBogus(g[j + 1..t])| && (old(Numbered(groups)) ==> Numbered(groups))
    {
      hide Linked, Distinct, Good, ReverseBogus, Relocated, Cleaned, Among, Numbered;
      CleanupStep(g, t, j, groups);
      OneInFront(g, j, t);
      AmongItself(groups);
      if np.toread == NewsrcGroup.TR_BOGUS { Relocate(np, count - 1, j); }
    }

    /**
     * The moving loop of cleanup_newsrc: unless too many groups are bogus, or none that is not at the end already, the
     * groups that are not bogus come first, in the order they were in, and then all the bogus ones.
     */
    method Cleanup() returns (moved: bool, ghost t: nat)
      requires Valid()
      modifies this`first, this`last, this`groups, groups`prev, groups`next, groups`num
      ensures Valid() && t <= |old(groups)| && forall j :: t <= j < |old(groups)| ==> IsBogus(old(groups)[j])
      ensures t > 0 ==> !IsBogus(old(groups)[t - 1])
      ensures var b := |ReverseBogus(old(groups)[..t])|; moved <==> b != 0 && !(count > 5 && b > count / 2)
      ensures !moved ==> groups == old(groups)
      ensures moved ==> groups == Good(old(groups)) + old(groups)[t..] + ReverseBogus(old(groups)[..t])
      ensures moved ==> forall k :: 0 <= k < |groups| ==>
        (groups[k].toread == NewsrcGroup.TR_BOGUS <==> |Good(old(groups))| <= k)
      ensures moved ==> Numbered(groups)
    {
      hide Linked, Distinct, Relocated, IsBogus, Good, ReverseBogus, Cleaned, Numbered;
      var bogosity, np;
      bogosity, np, t := CountBogus();
      if count > 5 && bogosity > count / 2 { return false, t; }
      if bogosity == 0 { return false, t; }
      ghost var g := groups;
      MoveBogus(np, t);
      EndCleanup(g, t);
      Parted(g, t);
      return true, t;
    }

    /** The bogus groups before place `t` moved to the end, the last one first. */
    method MoveBogus(from: NgEntry?, ghost t: nat)
      requires Valid() && t <= |groups| && from == if t > 0 then groups[t - 1] else null
      modifies this`first, this`last, this`groups, groups`prev, groups`next, groups`num
      ensures Valid() && groups == Cleaned(old(groups), t, 0)
      ensures |ReverseBogus(old(groups)[..t])| > 0 ==> Numbered(groups)
    {
      hide Forward, Backward, Distinct, Relocated, IsBogus, Good, ReverseBogus, Cleaned, Numbered;
      ghost var g: seq<NgEntry>, j: nat := groups, t;
      var np := from;
      StartCleanup(g, t);
      while np != null
        invariant Valid() && j <= t <= |g| == |groups| && groups == Cleaned(g, t, j)
        invariant Among(groups, g)
        invariant |ReverseBogus(g[j..t])| > 0 ==> Numbered(groups)
        invariant np == if j > 0 then g[j - 1] else null
        decreases j
      {
        CleanedFront(g, t, j);
        Neighbours(groups, j - 1);
        var prevNp := np.prev;
        CleanupOne(np, g, t, j - 1);
        np := prevNp;
        j := j - 1;
      }
      assert g[0..t] == g[..t];
    }
  }

  /** The list when the groups from `j` up to `t` have been looked at. */
  ghost function Cleaned(g: seq<NgEntry>, t: nat, j: nat): seq<NgEntry>
    requires j <= t <= |g|
    reads g`toread
  {
    g[..j] + Good(g[j..t]) + g[t..] + ReverseBogus(g[j..t])
  }

  lemma CleanedFront(g: seq<NgEntry>, t: nat, j: nat)
    requires j <= t <= |g| == |Cleaned(g, t, j)|
    ensures forall i :: 0 <= i < j ==> Cleaned(g, t, j)[i] == g[i]
  {
  }

  ghost predicate IsBogus(np: NgEntry)
    reads np`toread
  {
    np.toread == NewsrcGroup.TR_BOGUS
  }

  /** The groups that are not bogus, in order. */
  ghost function Good(s: seq<NgEntry>): seq<NgEntry>
    reads s`toread
  {
    if s == [] then [] else (if IsBogus(s[0]) then [] else [s[0]]) + Good(s[1..])
  }

  /** The bogus groups, the last one first. */
  ghost function ReverseBogus(s: seq<NgEntry>): seq<NgEntry>
    reads s`toread
  {
    if s == [] then [] else ReverseBogus(s[1..]) + if IsBogus(s[0]) then [s[0]] else []
  }

  lemma {:induction false} BogusSnoc(s: seq<NgEntry>, k: nat)
    requires k < |s|
    ensures |ReverseBogus(s[..k + 1])| == |ReverseBogus(s[..k])| + if IsBogus(s[k]) then 1 else 0
  {
    if k > 0 {
      BogusSnoc(s[1..], k - 1);
      assert s[..k + 1][1..] == s[1..][..k] && s[..k][1..] == s[1..][..k - 1];
    } else {
      assert s[..1] == [s[0]] && s[..0] == [];
    }
  }

  lemma StartCleanup(g: seq<NgEntry>, t: nat)
    requires t <= |g|
    ensures g == Cleaned(g, t, t) && ReverseBogus(g[t..t]) == []
  {
    assert g[t..t] == [];
  }

  /** An element taken out of the front part and put at the end. */
  lemma TakenToEnd<T>(front: seq<T>, x: T, a: seq<T>, b: seq<T>, c: seq<T>)
    ensures var s := front + [x] + a + b + c; Relocated(s, |front|, |s| - 1) == front + a + b + (c + [x])
    ensures front + ([x] + a) + b + c == front + [x] + a + b + c
  {
  }

  lemma OneInFront(g: seq<NgEntry>, j: nat, t: nat)
    requires j < t <= |g|
    ensures Good(g[j..t]) == (if IsBogus(g[j]) then [] else [g[j]]) + Good(g[j + 1..t])
    ensures ReverseBogus(g[j..t]) == ReverseBogus(g[j + 1..t]) + if IsBogus(g[j]) then [g[j]] else []
    ensures g[..j + 1] == g[..j] + [g[j]]
  {
    assert g[j..t][1..] == g[j + 1..t];
  }

  /** One more group looked at, moved to the end when it is bogus. */
  lemma CleanupStep(g: seq<NgEntry>, t: nat, j: nat, now: seq<NgEntry>)
    requires j < t <= |g| && now == Cleaned(g, t, j + 1) && |now| == |g|
    ensures (if IsBogus(g[j]) then Relocated(now, j, |g| - 1) else now) == Cleaned(g, t, j)
    ensures now[j] == g[j]
  {
    hide Good, ReverseBogus, Relocated;
    OneInFront(g, j, t);
    TakenToEnd(g[..j], g[j], Good(g[j + 1..t]), g[t..], ReverseBogus(g[j + 1..t]));
    if IsBogus(g[j]) {
      assert [] + Good(g[j + 1..t]) == Good(g[j + 1..t]);
    } else {
      assert ReverseBogus(g[j + 1..t]) + [] == ReverseBogus(g[j + 1..t]);
    }
  }

  lemma {:induction false} EndCleanup(g: seq<NgEntry>, t: nat)
    requires t <= |g| && forall j :: t <= j < |g| ==> IsBogus(g[j])
    ensures Good(g) == Good(g[..t])
    ensures Cleaned(g, t, 0) == Good(g) + g[t..] + ReverseBogus(g[..t])
  {
    assert g[0..t] == g[..t];
    if g == [] {
    } else if t == 0 {
      EndCleanup(g[1..], 0);
    } else {
      EndCleanup(g[1..], t - 1);
      assert g[..t][1..] == g[1..][..t - 1];
    }
  }

  /** Where the groups are bogus in the list that cleanup_newsrc makes. */
  lemma Parted(g: seq<NgEntry>, t: nat)
    requires t <= |g| && forall j :: t <= j < |g| ==> IsBogus(g[j])
    ensures var r := Good(g) + g[t..] + ReverseBogus(g[..t]);
      forall k :: 0 <= k < |r| ==> (r[k].toread == NewsrcGroup.TR_BOGUS <==> |Good(g)| <= k)
  {
    hide Good, ReverseBogus;
    GoodOnes(g);
    Mirror(g[..t]);
  }

  lemma {:induction false} GoodOnes(s: seq<NgEntry>)
    ensures forall i :: 0 <= i < |Good(s)| ==> !IsBogus(Good(s)[i])
  {
    if s != [] { GoodOnes(s[1..]); }
  }

  /** The bogus groups, in order. */
  ghost function Bogus(s: seq<NgEntry>): seq<NgEntry>
    reads s`toread
  {
    if s == [] then [] else (if IsBogus(s[0]) then [s[0]] else []) + Bogus(s[1..])
  }

  lemma {:induction false} BogusJoin(a: seq<NgEntry>, b: seq<NgEntry>)
    ensures Bogus(a + b) == Bogus(a) + Bogus(b)
  {
    if a == [] {
      assert a + b == b;
    } else {
      BogusJoin(a[1..], b);
      assert (a + b)[1..] == a[1..] + b;
    }
  }

  lemma {:induction false} AllBogus(s: seq<NgEntry>)
    requires forall i :: 0 <= i < |s| ==> IsBogus(s[i])
    ensures Bogus(s) == s
  {
    if s != [] { AllBogus(s[1..]); }
  }

  lemma {:induction false} NoneBogus(s: seq<NgEntry>)
    ensures Bogus(Good(s)) == []
  {
    if s != [] {
      NoneBogus(s[1..]);
      BogusJoin(if IsBogus(s[0]) then [] else [s[0]], Good(s[1..]));
    }
  }

  lemma {:induction false} Mirror(s: seq<NgEntry>)
    ensures |ReverseBogus(s)| == |Bogus(s)| && forall i :: 0 <= i < |Bogus(s)| ==> IsBogus(ReverseBogus(s)[i])
    ensures forall i :: 0 <= i < |Bogus(s)| ==> ReverseBogus(s)[i] == Bogus(s)[|Bogus(s)| - 1 - i]
  {
    if s != [] { Mirror(s[1..]); }
  }

  lemma {:induction false} BogusDistinct(s: seq<NgEntry>)
    requires Distinct(s)
    ensures Distinct(Bogus(s)) && forall x :: x in Bogus(s) ==> x in s
  {
    if s != [] {
      BogusDistinct(s[1..]);
      assert forall x :: x in s[1..] ==> x in s && x != s[0];
      assert s[0] !in Bogus(s[1..]);
      assert IsBogus(s[0]) ==> Bogus(s)[1..] == Bogus(s[1..]);
    }
  }

  /** cleanup_newsrc keeps the order of the bogus groups only if there is no more than the one that it moves. */
  lemma CleanupKeepsOrder(g: seq<NgEntry>, t: nat)
    requires t <= |g| && Distinct(g) && (forall j :: t <= j < |g| ==> IsBogus(g[j])) && ReverseBogus(g[..t]) != []
    ensures Bogus(Good(g) + g[t..] + ReverseBogus(g[..t])) == Bogus(g) <==> |Bogus(g)| == 1
  {
    hide Distinct, Good, ReverseBogus, Bogus;
    var front, tail := Bogus(g[..t]), g[t..];
    Mirror(g[..t]);
    assert g == g[..t] + tail;
    BogusJoin(g[..t], tail);
    AllBogus(tail);
    NoneBogus(g);
    AllBogus(ReverseBogus(g[..t]));
    BogusJoin(Good(g), tail);
    BogusJoin(Good(g) + tail, ReverseBogus(g[..t]));
    BogusDistinct(g);
    assert Bogus(g) == front + tail;
    TurnedRound(front, tail, ReverseBogus(g[..t]));
    assert [] + tail == tail;
  }

  lemma TurnedRound<T>(front: seq<T>, tail: seq<T>, turned: seq<T>)
    requires front != [] && Distinct(front + tail) && |turned| == |front|
      && forall i :: 0 <= i < |front| ==> turned[i] == front[|front| - 1 - i]
    ensures tail + turned == front + tail <==> |front + tail| == 1
  {
    if |front + tail| > 1 {
      assert (front + tail)[0] == front[0];
      if tail == [] {
        assert (front + tail)[|front| - 1] == turned[0];
      } else {
        assert (front + tail)[|front|] == tail[0] == (tail + turned)[0];
      }
    } else {
      assert tail == [] && turned == front;
    }
  }

  /** Two bogus groups before one that is not change places. */
  lemma CleanupExample(a: NgEntry, b: NgEntry, c: NgEntry)
    requires a != b && IsBogus(a) && IsBogus(b) && !IsBogus(c)
    ensures var g := [a, b, c]; Good(g) + g[3..] + ReverseBogus(g[..3]) == [c, b, a]
  {
    var g := [a, b, c];
    assert g[..3] == g && g[3..] == [] && g[1..] == [b, c] && [b, c][1..] == [c];
    assert [c][1..] == [];
    assert Good([c]) == [c] && ReverseBogus([c]) == [];
    assert Good([b, c]) == [c] && ReverseBogus([b, c]) == [b];
    assert Good(g) == [c] && ReverseBogus(g) == [b, a];
  }

  /** The list with one element moved: that one is at place `k`, or last, and the others are in order around it. */
  lemma RelocatedAt<T>(s: seq<T>, i: nat, k: nat)
    requires i < |s|
    ensures var r, p := Relocated(s, i, k), if k < |s| then k else |s| - 1;
      && r[p] == s[i]
      && (forall j :: 0 <= j < p ==> r[j] == s[if j < i then j else j + 1])
      && (forall j :: p < j < |s| ==> r[j] == s[if j <= i then j - 1 else j])
  {
    var rest, p := s[..i] + s[i + 1..], if k < |s| then k else |s| - 1;
    assert forall j :: 0 <= j < |rest| ==> rest[j] == s[if j < i then j else j + 1];
    assert Relocated(s, i, k) == rest[..p] + [s[i]] + rest[p..];
    TakenOut(rest, s[i], p);
  }

  lemma TakenOut<T>(rest: seq<T>, x: T, p: nat)
    requires p <= |rest|
    ensures var r := rest[..p] + [x] + rest[p..];
      && r[p] == x && (forall j :: 0 <= j < p ==> r[j] == rest[j]) && forall j :: p < j < |r| ==> r[j] == rest[j - 1]
  {
  }

  /** Taking a group out and putting it back is moving it to the end and, unless it stays there, before another. */
  lemma RelocatedIs(s: seq<NgEntry>, i: nat, k: nat)
    requires i < |s|
    ensures Relocated(s, i, k) == if k < |s| - 1 then Before(ToEnd(s, i), k) else ToEnd(s, i)
  {
    PutAtEnd(s[..i] + s[i + 1..], s[i], k);
  }

  lemma PutAtEnd(rest: seq<NgEntry>, x: NgEntry, k: nat)
    ensures k < |rest| ==> Before(rest + [x], k) == rest[..k] + [x] + rest[k..]
  {
  }

  lemma AmongItself(s: seq<NgEntry>)
    ensures Among(s, s)
  {
  }

  lemma BeforeEnds(s: seq<NgEntry>, k: nat)
    requires k + 1 < |s|
    ensures var t := Before(s, k); |t| == |s| && t[k] == s[|s| - 1] && t[|t| - 1] == s[|s| - 2] && t[0] == if k == 0
      then s[|s| - 1] else s[0]
    ensures var t := Before(s, k); forall j :: 0 <= j < k ==> t[j] == s[j]
  {
  }

  lemma Apart(s: seq<NgEntry>, k: nat)
    requires Distinct(s) && k + 1 < |s|
    ensures s[k] != s[|s| - 1]
  {
  }

  lemma Neighbours(s: seq<NgEntry>, i: nat)
    requires Linked(s) && i < |s|
    ensures s[i].next == (if i + 1 < |s| then s[i + 1] else null) && s[i].prev == (if i > 0 then s[i - 1] else null)
    ensures s[i].next == NextIn(s, i) && s[i].prev == PrevIn(s, i)
  {
  }

  /** In a list without repetitions an element has one place. */
  lemma Same(s: seq<NgEntry>, i: nat)
    requires Distinct(s) && i < |s|
    ensures s[i] == s[|s| - 1] <==> i == |s| - 1
  {
  }

  lemma EndOf(s: seq<NgEntry>, i: nat)
    requires i < |s|
    ensures var t := ToEnd(s, i); |t| == |s| && t[|t| - 1] == s[i] && t[0] == (if i > 0 || |s| == 1 then s[0] else s[1])
    ensures i == |s| - 1 ==> ToEnd(s, i) == s
  {
  }
}

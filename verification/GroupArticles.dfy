/** The articles of the current newsgroup and their flags. */
module GroupArticles {
  import opened Options

  datatype Art = Art(unread: bool, present: bool, sel: bool, del: bool, hasRe: bool, yankback: bool, cached: bool,
    threaded: bool, xrefs: bool, kchase: bool, subj: Option<nat>)

  type Arts = map<nat, Art>

  const BLANK := Art(false, false, false, false, false, false, false, false, false, false, None)

  function At(arts: Arts, n: nat): Art {
    if n in arts then arts[n] else BLANK
  }

  function SetUnread(arts: Arts, n: nat, unread: bool): Arts {
    arts[n := At(arts, n).(unread := unread)]
  }

  /** The number of existing unread articles from `lo` up to `hi`. */
  function Tally(arts: Arts, lo: nat, hi: nat): nat
    decreases hi - lo
  {
    if hi <= lo then 0 else Tally(arts, lo, hi - 1) + if At(arts, hi - 1).present && At(arts, hi - 1).unread then 1
      else 0
  }

  lemma {:induction false} TallyAgrees(a: Arts, b: Arts, lo: nat, hi: nat)
    requires forall n :: lo <= n < hi ==> (At(a, n).present && At(a, n).unread <==> At(b, n).present && At(b, n).unread)
    ensures Tally(a, lo, hi) == Tally(b, lo, hi)
    decreases hi - lo
  {
    if lo < hi { TallyAgrees(a, b, lo, hi - 1); }
  }

  lemma {:induction false} TallyNone(a: Arts, lo: nat, hi: nat)
    requires forall n :: lo <= n < hi ==> !(At(a, n).present && At(a, n).unread)
    ensures Tally(a, lo, hi) == 0
    decreases hi - lo
  {
    if lo < hi { TallyNone(a, lo, hi - 1); }
  }

  lemma {:induction false} TallySplit(a: Arts, lo: nat, mid: nat, hi: nat)
    requires lo <= mid <= hi
    ensures Tally(a, lo, hi) == Tally(a, lo, mid) + Tally(a, mid, hi)
    decreases hi - mid
  {
    if mid < hi { TallySplit(a, lo, mid, hi - 1); }
  }

  /** The number of unread articles from `lo` up to `hi`. */
  function UnreadCount(arts: Arts, lo: nat, hi: nat): nat
    decreases hi - lo
  {
    if hi <= lo then 0 else UnreadCount(arts, lo, hi - 1) + if At(arts, hi - 1).unread then 1 else 0
  }
}

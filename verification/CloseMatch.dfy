/** Looking for the group names nearest to one that does not exist. */
module CloseMatch {
  import opened Options
  import opened EditDistance
  import opened EditBuffer

  const LENGTH_HACK := 5
  const MAX_NG := 9

  /** The lengths differ by no more than `slack`. */
  predicate Alike(target: string, name: string, slack: nat) {
    |name| <= |target| + slack && |target| <= |name| + slack
  }

  /** A name that is offered if none is nearer. */
  predicate Candidate(target: string, name: string, slack: nat) {
    Alike(target, name, slack) && Distance(target, name) <= MIN_DIST
  }

  /** The least distance of a candidate among the names, or -1. */
  function Least(target: string, names: seq<string>, slack: nat): int {
    if names == [] then -1
    else
      var least, name := Least(target, names[..|names| - 1], slack), names[|names| - 1];
      if Candidate(target, name, slack) && (least < 0 || Distance(target, name) < least) then Distance(target, name)
        else least
  }

  /** The first names at distance `v`, each once and no more than can be offered. */
  function Ties(target: string, names: seq<string>, v: int, slack: nat): seq<string> {
    if names == [] then []
    else
      var ties, name := Ties(target, names[..|names| - 1], v, slack), names[|names| - 1];
      if Candidate(target, name, slack) && Distance(target, name) == v && name !in ties && |ties| < MAX_NG
        then ties + [name]
      else ties
  }

  lemma {:induction false} LeastIsLeast(target: string, names: seq<string>, slack: nat)
    ensures var least := Least(target, names, slack);
      if least < 0 then least == -1 && forall name :: name in names ==> !Candidate(target, name, slack)
      else
        && (forall name :: name in names && Candidate(target, name, slack) ==> least <= Distance(target, name))
        && exists name :: name in names && Candidate(target, name, slack) && Distance(target, name) == least
  {
    hide Candidate, Distance;
    if names != [] {
      var most, name := names[..|names| - 1], names[|names| - 1];
      LeastIsLeast(target, most, slack);
      assert names == most + [name];
      assert name in names;
    }
  }

  /** The names offered: each of them once, all at that distance, and every such name unless the list is full. */
  lemma {:induction false} TiesAreThose(target: string, names: seq<string>, v: int, slack: nat)
    ensures var ties := Ties(target, names, v, slack);
      && Distinct(ties) && |ties| <= MAX_NG
      && (forall name :: name in ties ==>
        name in names && Candidate(target, name, slack) && Distance(target, name) == v)
      && (|ties| < MAX_NG ==>
            forall name :: name in names && Candidate(target, name, slack) && Distance(target, name) == v ==>
              name in ties)
  {
    hide Candidate, Distance;
    if names != [] {
      var most, name := names[..|names| - 1], names[|names| - 1];
      TiesAreThose(target, most, v, slack);
      assert names == most + [name];
    }
  }

  lemma NoneOrFirst(s: seq<string>)
    ensures s == [] || s[0] in s
  {
  }

  lemma NoTies(target: string, names: seq<string>, v: int, slack: nat)
    requires forall name :: name in names && Candidate(target, name, slack) ==> v != Distance(target, name)
    ensures Ties(target, names, v, slack) == []
  {
    hide Candidate, Distance;
    var ties := Ties(target, names, v, slack);
    TiesAreThose(target, names, v, slack);
    NoneOrFirst(ties);
  }

  /** One more name, not as near as the nearest. */
  lemma OneMoreName(target: string, seen: seq<string>, name: string, slack: nat)
    ensures var least := Least(target, seen, slack);
      if !Candidate(target, name, slack) || 0 <= least < Distance(target, name) then
        Least(target, seen + [name], slack) == least
          && Ties(target, seen + [name], least, slack) == Ties(target, seen, least, slack)
      else if Distance(target, name) == least then
        && Least(target, seen + [name], slack) == least
        && Ties(target, seen + [name], least, slack) ==
             var ties := Ties(target, seen, least, slack);
             if name in ties || |ties| == MAX_NG then ties else ties + [name]
      else
        Least(target, seen + [name], slack) == Distance(target, name)
        && Ties(target, seen + [name], Distance(target, name), slack) == [name]
  {
    hide Candidate, Distance;
    assert (seen + [name])[..|seen|] == seen;
    LeastIsLeast(target, seen, slack);
    TiesAreThose(target, seen, Least(target, seen, slack), slack);
    if Candidate(target, name, slack) && Least(target, seen, slack) != Distance(target, name)
      && !(0 <= Least(target, seen, slack) < Distance(target, name)) {
      NoTies(target, seen, Distance(target, name), slack);
    }
  }

  // ----- the length test makes no difference

  lemma DistanceAtLeastGap(target: string, name: string)
    ensures Distance(target, name) <= LENGTH_HACK ==> Alike(target, name, LENGTH_HACK)
    ensures Candidate(target, name, LENGTH_HACK) ==> Candidate(target, name, MIN_DIST)
    ensures Candidate(target, name, MIN_DIST) && !Candidate(target, name, LENGTH_HACK) ==>
      LENGTH_HACK < Distance(target, name)
    ensures Distance(target, name) <= MIN_DIST ==> Alike(target, name, MIN_DIST)
  {
    hide Dist;
    LengthGap(target, name, |name|, |target|);
  }

  /**
   * When some name is within the slack allowed in length, the names found are those that would be found without
   * comparing lengths: a slack of MIN_DIST excludes no name that is near enough.
   */
  lemma PrefilterChangesNothing(target: string, names: seq<string>, near: string)
    requires near in names && Distance(target, near) <= LENGTH_HACK
    ensures Least(target, names, LENGTH_HACK) == Least(target, names, MIN_DIST)
    ensures var v := Least(target, names, MIN_DIST);
      Ties(target, names, v, LENGTH_HACK) == Ties(target, names, v, MIN_DIST)
    ensures forall name :: name in names ==> (Candidate(target, name, MIN_DIST) <==> Distance(target, name) <= MIN_DIST)
  {
    hide Alike, Distance;
    forall name | name in names ensures
      && (Candidate(target, name, LENGTH_HACK) ==> Candidate(target, name, MIN_DIST))
      && (Candidate(target, name, MIN_DIST) && !Candidate(target, name, LENGTH_HACK) ==>
        LENGTH_HACK < Distance(target, name))
      && (Candidate(target, name, MIN_DIST) <==> Distance(target, name) <= MIN_DIST)
    {
      DistanceAtLeastGap(target, name);
    }
    DistanceAtLeastGap(target, near);
    LeastIsLeast(target, names, LENGTH_HACK);
    LeastIsLeast(target, names, MIN_DIST);
    var v := Least(target, names, MIN_DIST);
    assert Candidate(target, near, MIN_DIST) && v <= LENGTH_HACK;
    SameTies(target, names, v);
  }

  lemma {:induction false} SameTies(target: string, names: seq<string>, v: int)
    requires forall name :: name in names && Distance(target, name) == v ==>
      (Candidate(target, name, LENGTH_HACK) <==> Candidate(target, name, MIN_DIST))
    ensures Ties(target, names, v, LENGTH_HACK) == Ties(target, names, v, MIN_DIST)
  {
    hide Candidate, Distance;
    if names != [] { SameTies(target, names[..|names| - 1], v); }
  }

  // ----- the scan

  class Matches {
    const ngname: string
    const store: array<nat>
    var ngptrs: seq<string>
    var bestMatch: int
    ghost var seen: seq<string>

    constructor (ngname: string)
      ensures this.ngname == ngname && seen == [] && Valid() && fresh(store)
    {
      this.ngname, ngptrs, bestMatch, seen := ngname, [], -1, [];
      store := new nat[STORE];
    }

    ghost predicate Valid()
      reads this
    {
      && store.Length == STORE && bestMatch == Least(ngname, seen, LENGTH_HACK)
      && ngptrs == Ties(ngname, seen, bestMatch, LENGTH_HACK)
    }

    /** check_distance: keep the name if it is as near as any so far. */
    method CheckDistance(name: string)
      requires Valid() && (Alike(ngname, name, LENGTH_HACK) ==> !Swapped(ngname, name))
      modifies this, store
      ensures Valid() && seen == old(seen) + [name]
    {
      hide Distance, Least, Ties;
      OneMoreName(ngname, seen, name, LENGTH_HACK);
      LeastIsLeast(ngname, seen, LENGTH_HACK);
      TiesAreThose(ngname, seen, bestMatch, LENGTH_HACK);
      if bestMatch < 0 { NoTies(ngname, seen, bestMatch, LENGTH_HACK); }
      seen := seen + [name];
      if |name| < |ngname| {
        if |ngname| - |name| > LENGTH_HACK { return; }
      } else {
        if |name| - |ngname| > LENGTH_HACK { return; }
      }
      var value, _ := EditDistN(ngname, name, store);
      if value > MIN_DIST { return; }
      if value < bestMatch { ngptrs := []; }
      if bestMatch < 0 || value <= bestMatch {
        for i := 0 to |ngptrs|
          invariant forall k :: 0 <= k < i ==> ngptrs[k] != name
          invariant unchanged(this`bestMatch) && ngptrs == if value < old(bestMatch) then [] else old(ngptrs)
          invariant seen == old(seen) + [name]
        {
          if name == ngptrs[i] {
            assert name in old(ngptrs);
            return;
          }
        }
        assert name !in ngptrs;
        bestMatch := value;
        if |ngptrs| < MAX_NG { ngptrs := ngptrs + [name]; }
      }
    }
  }

  /** The nearest candidates, without the words for them. */
  lemma NearestAre(ngname: string, names: seq<string>) returns (found: seq<string>)
    ensures found == Ties(ngname, names, Least(ngname, names, LENGTH_HACK), LENGTH_HACK)
    ensures |found| <= 9 && forall i, j :: 0 <= i < j < |found| ==> found[i] != found[j]
    ensures forall a :: a in found ==> a in names && -5 <= |a| - |ngname| <= 5 && Distance(ngname, a) <= 7
    ensures forall a, b :: a in found && b in names && -5 <= |b| - |ngname| <= 5 && Distance(ngname, b) <= 7 ==>
      Distance(ngname, a) <= Distance(ngname, b)
    ensures |found| < 9 ==>
      forall a, b ::
        (a in found && b in names && -5 <= |b| - |ngname| <= 5 && Distance(ngname, b) == Distance(ngname, a)) ==>
          b in found
    ensures found == [] <==> forall b :: b in names && -5 <= |b| - |ngname| <= 5 ==> 7 < Distance(ngname, b)
  {
    hide Distance, Least, Ties;
    var least := Least(ngname, names, LENGTH_HACK);
    found := Ties(ngname, names, least, LENGTH_HACK);
    LeastIsLeast(ngname, names, LENGTH_HACK);
    TiesAreThose(ngname, names, least, LENGTH_HACK);
    assert forall b | b in names :: Candidate(ngname, b, LENGTH_HACK) <==>
      -5 <= |b| - |ngname| <= 5 && Distance(ngname, b) <= 7;
    NoneOrFirst(found);
  }

  /**
   * The scan of find_close_match over every name there is: the nearest candidates, in the order they were met. One
   * alone is taken without asking.
   */
  method FindCloseMatch(ngname: string, names: seq<string>) returns (found: seq<string>, taken: Option<string>)
    requires forall name :: name in names && Alike(ngname, name, LENGTH_HACK) ==> !Swapped(ngname, name)
    ensures found == Ties(ngname, names, Least(ngname, names, LENGTH_HACK), LENGTH_HACK)
    ensures |found| <= 9 && forall i, j :: 0 <= i < j < |found| ==> found[i] != found[j]
    ensures forall a :: a in found ==> a in names && -5 <= |a| - |ngname| <= 5 && Distance(ngname, a) <= 7
    ensures forall a, b :: a in found && b in names && -5 <= |b| - |ngname| <= 5 && Distance(ngname, b) <= 7 ==>
      Distance(ngname, a) <= Distance(ngname, b)
    ensures |found| < 9 ==>
      forall a, b ::
        (a in found && b in names && -5 <= |b| - |ngname| <= 5 && Distance(ngname, b) == Distance(ngname, a)) ==>
          b in found
    ensures found == [] <==> forall b :: b in names && -5 <= |b| - |ngname| <= 5 ==> 7 < Distance(ngname, b)
    ensures taken == if |found| == 1 then Some(found[0]) else None
  {
    hide Distance, Least, Ties, Alike, Swapped;
    ghost var nearest := NearestAre(ngname, names);
    var m := new Matches(ngname);
    for i := 0 to |names|
      invariant m.Valid() && m.ngname == ngname && fresh(m.store) && m.seen == names[..i]
    {
      m.CheckDistance(names[i]);
    }
    assert names[..|names|] == names;
    found := m.ngptrs;
    taken := if |found| == 1 then Some(found[0]) else None;
  }
}

/** Lists of numbered items kept in blocks, in order, with a pointer to the block that was used last. */
module SparseLists {
  import opened Options

  /** A block of items: those numbered from `low` to `high`. */
  class ListNode {
    const low: int
    const high: int
    var next: ListNode?

    constructor (low: int, high: int)
      ensures this.low == low && this.high == high && next == null
    {
      this.low, this.high, next := low, high, null;
    }
  }

  /** Where an item is: the block and the place in it. */
  datatype Slot = Slot(node: ListNode, place: int)

  /** The number of the block that `num` belongs to. */
  function BlockOf(num: int, low: int, size: int): int
    requires 0 < size && low <= num
  {
    (num - low) / size
  }

  lemma BlockBounds(num: int, low: int, size: int)
    requires 0 < size && low <= num
    ensures var b := BlockOf(num, low, size); 0 <= b && b * size + low <= num < b * size + low + size
  {
  }

  /** Blocks do not overlap, and keep the order of their numbers. */
  lemma {:induction false} BlocksApart(a: int, b: int, size: int)
    requires 0 < size && a < b
    ensures a * size + size <= b * size
    decreases b - a
  {
    if a + 1 < b {
      BlocksApart(a, b - 1, size);
      assert b * size == (b - 1) * size + size;
    } else {
      assert b * size == a * size + size;
    }
  }

  /** A block points to the one after it. */
  ghost predicate NextOk(s: seq<ListNode>, i: nat)
    requires i < |s|
    reads s
  {
    s[i].next == if i + 1 < |s| then s[i + 1] else null
  }

  /** A block linked in before block `k`: the one before points to it, and it points to the one after. */
  lemma LinkedIn(s: seq<ListNode>, node: ListNode, k: nat)
    requires k <= |s| && forall i :: 0 <= i < |s| && i + 1 != k ==> NextOk(s, i)
    requires k > 0 ==> s[k - 1].next == node
    requires node.next == if k < |s| then s[k] else null
    ensures var t := s[..k] + [node] + s[k..]; forall i :: 0 <= i < |t| ==> NextOk(t, i)
  {
    var t := s[..k] + [node] + s[k..];
    forall i | 0 <= i < |t| ensures NextOk(t, i) {
      if i + 1 < k { assert NextOk(s, i); }
      if i > k { assert NextOk(s, i - 1); }
    }
  }

  /** A block has the numbers of its place, none of them above `high`. */
  predicate NodeOk(node: ListNode, b: int, low: int, size: int, high: int) {
    0 <= b && node.low == b * size + low && node.high == node.low + size - 1 && node.high <= high
  }

  class SparseList {
    const low: int
    const size: int           // items to a block
    var high: int
    var first: ListNode?
    var recent: ListNode?
    ghost var nodes: seq<ListNode>
    ghost var blocks: seq<int>   // the number of each block

    ghost predicate Links()
      reads this`nodes, this`blocks, this`high, this`first, nodes
    {
      && 0 < size && |nodes| == |blocks|
      && first == (if nodes == [] then null else nodes[0])
      && (forall i :: 0 <= i < |nodes| ==> NodeOk(nodes[i], blocks[i], low, size, high))
      && (forall i :: 0 <= i < |nodes| ==> NextOk(nodes, i))
      && (forall i, j :: 0 <= i < j < |nodes| ==> blocks[i] < blocks[j])
    }

    ghost predicate Valid()
      reads this`recent, this`nodes, this`blocks, this`high, this`first, nodes
    {
      Links() && (recent == null <==> nodes == []) && (recent != null ==> recent in nodes)
    }

    /** The item numbered `n` has been allocated. */
    ghost predicate Allocated(n: int)
      reads this`nodes
    {
      exists node :: node in nodes && node.low <= n <= node.high
    }

    constructor (low: int, high: int, size: int)
      requires 0 < size
      ensures Valid() && nodes == [] && this.low == low && this.high == high && this.size == size
    {
      this.low, this.high, this.size, first, recent, nodes, blocks := low, high, size, null, null, [], [];
    }

    /** Earlier blocks end before later ones begin. */
    lemma InOrder(i: nat, j: nat)
      requires Links() && i < j < |nodes|
      ensures nodes[i].high < nodes[j].low
    {
      assert NodeOk(nodes[i], blocks[i], low, size, high) && NodeOk(nodes[j], blocks[j], low, size, high);
      BlocksApart(blocks[i], blocks[j], size);
    }

    /** No number is in two blocks. */
    lemma OneNode(i: nat, j: nat, n: int)
      requires Links() && i < |nodes| && j < |nodes| && nodes[i].low <= n <= nodes[i].high
        && nodes[j].low <= n <= nodes[j].high
      ensures i == j
    {
      if i < j { InOrder(i, j); }
      if j < i { InOrder(j, i); }
    }

    /** The item numbered `n` is in that slot. */
    ghost predicate Holds(s: Slot, n: int)
      reads this`nodes
    {
      s.node in nodes && s.node.low <= n <= s.node.high && s.place == n - s.node.low
    }

    /** Each number has a slot of its own, and only one. */
    lemma SlotsDistinct(a: int, b: int, s: Slot, t: Slot)
      requires Links() && Holds(s, a) && Holds(t, b)
      ensures s == t <==> a == b
    {
      var i :| 0 <= i < |nodes| && nodes[i] == s.node;
      var j :| 0 <= j < |nodes| && nodes[j] == t.node;
      if a == b { OneNode(i, j, a); }
    }

    /** The blocks up to `k` end below `num`, and the one there, if any, does not. */
    ghost predicate Stands(num: int, k: nat)
      requires k <= |nodes|
      reads this`nodes
    {
      (k > 0 ==> nodes[k - 1].high < num) && (k < |nodes| ==> num <= nodes[k].high)
    }

    lemma Below(num: int, k: nat)
      requires Links() && k <= |nodes| && Stands(num, k)
      ensures forall i :: 0 <= i < k ==> nodes[i].high < num
      ensures forall i :: k < i < |nodes| ==> nodes[k].high < nodes[i].low
    {
      hide NextOk;
      forall i | 0 <= i < k ensures nodes[i].high < num {
        if i < k - 1 {
          InOrder(i, k - 1);
          assert NodeOk(nodes[k - 1], blocks[k - 1], low, size, high);
        }
      }
      forall i | k < i < |nodes| ensures nodes[k].high < nodes[i].low { InOrder(k, i); }
    }

    /** What is allocated from `num` on, when `num` stands at block `k`. */
    lemma Nearest(num: int, k: nat)
      requires Links() && k < |nodes| && Stands(num, k)
      ensures (Allocated(num) <==> nodes[k].low <= num) && nodes[k].high <= high
      ensures num < nodes[k].low ==> Allocated(nodes[k].low) && forall n :: num <= n < nodes[k].low ==> !Allocated(n)
    {
      hide NextOk;
      Below(num, k);
      assert NodeOk(nodes[k], blocks[k], low, size, high);
      assert nodes[k] in nodes;
    }

    lemma NoneNear(num: int)
      requires Links() && Stands(num, |nodes|)
      ensures forall n :: num <= n ==> !Allocated(n)
    {
      Below(num, |nodes|);
    }

    /** Where to begin looking: at the block used last, unless the number lies before it. */
    method Begin(num: int) returns (node: ListNode?, ghost k: nat)
      requires Valid()
      ensures k <= |nodes| && node == (if k < |nodes| then nodes[k] else null)
      ensures (nodes != [] ==> k < |nodes|) && (k > 0 ==> nodes[k].low <= num)
      ensures k > 0 ==> nodes[k - 1].high < num
    {
      node := recent;
      k := 0;
      if node != null {
        k :| 0 <= k < |nodes| && nodes[k] == recent;
        if k > 0 { InOrder(k - 1, k); }
      }
      if node != null && num < node.low {
        node := first;
        k := 0;
      }
    }

    /** What is allocated below `num`, when `num` lies between two blocks. */
    lemma NearestBelow(num: int, k: nat)
      requires Links() && 0 < k < |nodes| && Stands(num, k) && num < nodes[k].low
      ensures var m := nodes[k - 1].high; m < num && Allocated(m) && forall n :: m < n <= num ==> !Allocated(n)
    {
      hide NextOk;
      Below(num, k);
      LowToHigh(k - 1);
      assert nodes[k - 1] in nodes;
      forall n | nodes[k - 1].high < n <= num ensures !Allocated(n) {
        if Allocated(n) {
          var i :| 0 <= i < |nodes| && nodes[i].low <= n <= nodes[i].high;
          if i < k - 1 { InOrder(i, k - 1); }
        }
      }
    }

    lemma NoneBelow(num: int)
      requires Links() && nodes != [] && num < nodes[0].low
      ensures forall n :: n <= num ==> !Allocated(n)
    {
      hide NextOk, NodeOk;
      Below(num, 0) by { LowToHigh(0); }
      LowToHigh(0);
    }

    /** Some item above `num` is allocated, and some below. */
    ghost predicate Surrounded(num: int)
      reads this`nodes
    {
      (exists n :: num < n && Allocated(n)) && (exists n :: n < num && Allocated(n))
    }

    /** `found` is what `num` is rounded to: upwards, downwards, or not at all. */
    ghost predicate Rounded(num: int, direction: int, found: int)
      reads this`nodes, this`high
    {
      && (direction == 0 ==> found == if Allocated(num) then num else 0)
      && (direction > 0 ==>
            if exists n :: num <= n && Allocated(n)
            then num <= found && Allocated(found) && forall n :: num <= n < found ==> !Allocated(n)
            else found == high + 1)
      && (direction < 0 ==>
            if Allocated(num) || Surrounded(num)
            then found <= num && Allocated(found) && forall n :: found < n <= num ==> !Allocated(n)
            else found == low - 1)
    }

    lemma RoundedAt(num: int, k: nat, direction: int)
      requires Links() && k < |nodes| && Stands(num, k)
      ensures if nodes[k].low <= num then Rounded(num, direction, num)
        else if direction < 0 then Rounded(num, direction, if k > 0 then nodes[k - 1].high else low - 1)
        else Rounded(num, direction, if direction > 0 then nodes[k].low else 0)
    {
      hide NodeOk, NextOk, Links;
      Nearest(num, k);
      if num < nodes[k].low {
        if k > 0 { NearestBelow(num, k); } else { NoneBelow(num); }
      }
    }

    lemma RoundedOff(num: int, direction: int)
      requires Links() && Stands(num, |nodes|)
      ensures Rounded(num, direction, if direction == 0 then 0 else if direction > 0 then high + 1 else low - 1)
    {
      hide NodeOk, NextOk, Links;
      NoneNear(num);
    }

    /**
     * existing_listnum, wherever the last look ended. Rounding down from above the last block gives one below the
     * lowest number, as it does when nothing is allocated below.
     */
    method ExistingListNum(num: int, direction: int) returns (found: int)
      requires Valid()
      modifies this`recent
      ensures Valid() && Rounded(num, direction, found)
    {
      hide NodeOk, NextOk, Rounded, Links;
      var prevnode: ListNode? := null;
      var node, k := Begin(num);
      while node != null
        invariant k <= |nodes| && node == (if k < |nodes| then nodes[k] else null)
        invariant k > 0 ==> nodes[k - 1].high < num
        invariant if prevnode == null then k == 0 || (k < |nodes| && nodes[k].low <= num)
                    else k > 0 && prevnode == nodes[k - 1]
        invariant Valid() && recent == old(recent)
        decreases |nodes| - k
      {
        if num <= node.high {
          RoundedAt(num, k, direction);
          found := num;
          if direction > 0 {
            if num < node.low { found := node.low; }
          } else if direction == 0 {
            if num < node.low { found := 0; }
          } else if num < node.low {
            if prevnode == null { return low - 1; }
            recent := prevnode;
            return prevnode.high;
          }
          recent := node;
          return;
        }
        FollowNext(k);
        prevnode := node;
        node := node.next;
        k := k + 1;
      }
      RoundedOff(num, direction);
      if direction == 0 { return 0; }
      return if direction > 0 then high + 1 else low - 1;
    }

    /** Rounding down finds the nearest number exactly when none is asked for above the last block. */
    lemma RoundsDownIff(num: int, found: int)
      requires Links() && Rounded(num, -1, found)
      ensures (if exists n :: n <= num && Allocated(n)
               then found <= num && Allocated(found) && forall n :: found < n <= num ==> !Allocated(n)
               else found == low - 1)
        <==> nodes == [] || num <= nodes[|nodes| - 1].high
    {
      if nodes != [] {
        var last := nodes[|nodes| - 1];
        LowToHigh(|nodes| - 1);
        assert last in nodes && Allocated(last.high);
        if last.high < num {
          NoneNear(num);
          assert !Allocated(low - 1);
        }
      }
    }

    /** Items 1 to 20 are allocated, and 21 is rounded down to 0. */
    lemma PastExample(found: int)
      requires Links() && low == 1 && size == 20 && |nodes| == 1 && nodes[0].low == 1 && Rounded(21, -1, found)
      ensures found == 0 && Allocated(20)
    {
      hide NextOk;
      assert NodeOk(nodes[0], blocks[0], low, size, high);
      NoneNear(21);
      assert nodes[0] in nodes;
    }

    /** The block of a number that is not allocated comes after those below it and before those above. */
    lemma NewBlock(num: int, k: nat)
      requires Links() && low <= num && k <= |nodes| && (k > 0 ==> nodes[k - 1].high < num)
        && (k < |nodes| ==> num < nodes[k].low)
      ensures forall i :: 0 <= i < k ==> blocks[i] < BlockOf(num, low, size)
      ensures forall i :: k <= i < |nodes| ==> BlockOf(num, low, size) < blocks[i]
    {
      var b := BlockOf(num, low, size);
      BlockBounds(num, low, size);
      forall i | 0 <= i < k ensures blocks[i] < b {
        assert NodeOk(nodes[i], blocks[i], low, size, high) && NodeOk(nodes[k - 1], blocks[k - 1], low, size, high);
        if b < blocks[k - 1] { BlocksApart(b, blocks[k - 1], size); }
      }
      forall i | k <= i < |nodes| ensures b < blocks[i] {
        assert NodeOk(nodes[i], blocks[i], low, size, high) && NodeOk(nodes[k], blocks[k], low, size, high);
        if blocks[k] < b { BlocksApart(blocks[k], b, size); }
      }
    }

    /** A new block for `num`, linked in after `prevnode`. */
    method AddNode(num: int, prevnode: ListNode?, ghost k: nat) returns (node: ListNode)
      requires Valid() && low <= num && k <= |nodes| && (k > 0 ==> nodes[k - 1].high < num)
        && (k < |nodes| ==> num < nodes[k].low)
      requires prevnode == if k == 0 then null else nodes[k - 1]
      modifies this, nodes
      ensures Valid() && fresh(node) && nodes == old(nodes[..k]) + [node] + old(nodes[k..]) && recent == node
      ensures forall x :: x in nodes <==> x in old(nodes) || x == node
      ensures node.low <= num <= node.high && high == if old(high) < node.high then node.high else old(high)
    {
      hide NodeOk, NextOk;
      NewBlock(num, k);
      BlockBounds(num, low, size);
      var nodeLow := (num - low) / size * size + low;
      node := new ListNode(nodeLow, nodeLow + size - 1);
      assert NewNode(node, BlockOf(num, low, size), k);
      hide NewNode, BlockOf;
      LinkNode(prevnode, node, k);
      recent := node;
      assert old(nodes) == old(nodes)[..k] + old(nodes)[k..];
    }

    /** No block is in the list twice. */
    lemma NodesDiffer()
      requires Links()
      ensures forall i, j :: 0 <= i < j < |nodes| ==> nodes[i] != nodes[j]
    {
      hide NextOk;
      forall i, j | 0 <= i < j < |nodes| ensures nodes[i] != nodes[j] {
        InOrder(i, j);
        assert NodeOk(nodes[i], blocks[i], low, size, high);
      }
    }

    /** A block numbered `b` that belongs before block `k`. */
    ghost predicate NewNode(node: ListNode, b: int, k: nat)
      requires |nodes| == |blocks| && k <= |nodes|
      reads this`nodes, this`blocks
    {
      && 0 <= b && node.low == b * size + low && node.high == node.low + size - 1
      && (forall i :: 0 <= i < k ==> blocks[i] < b) && (forall i :: k <= i < |nodes| ==> b < blocks[i])
    }

    lemma Numbered(node: ListNode, b: int, k: nat)
      requires |nodes| == |blocks| && 0 < size && k <= |nodes| && NewNode(node, b, k)
        && forall i :: 0 <= i < |nodes| ==> NodeOk(nodes[i], blocks[i], low, size, high)
      requires forall i, j :: 0 <= i < j < |nodes| ==> blocks[i] < blocks[j]
      ensures var t, c := nodes[..k] + [node] + nodes[k..], blocks[..k] + [b] + blocks[k..];
        && (forall i :: 0 <= i < |t| ==> NodeOk(t[i], c[i], low, size, if node.high > high then node.high else high))
        && forall i, j :: 0 <= i < j < |c| ==> c[i] < c[j]
    {
      var t, c := nodes[..k] + [node] + nodes[k..], blocks[..k] + [b] + blocks[k..];
      forall i | 0 <= i < |t| ensures NodeOk(t[i], c[i], low, size, if node.high > high then node.high else high) {
        assert if i < k then NodeOk(nodes[i], blocks[i], low, size, high)
                 else i > k ==> NodeOk(nodes[i - 1], blocks[i - 1], low, size, high);
      }
    }

    /** The pointers to and from a new block. */
    method LinkNode(prevnode: ListNode?, node: ListNode, ghost k: nat)
      requires Links() && k <= |nodes| && prevnode == (if k == 0 then null else nodes[k - 1]) && node !in nodes
      requires exists b :: NewNode(node, b, k)
      modifies this`first, this`high, this`nodes, this`blocks, node`next, nodes`next
      ensures Links() && nodes == old(nodes[..k]) + [node] + old(nodes[k..])
      ensures high == if old(high) < node.high then node.high else old(high)
    {
      hide NodeOk, NewNode;
      ghost var b :| NewNode(node, b, k);
      NodesDiffer();
      Point(prevnode, node, k);
      LinkedIn(nodes, node, k);
      hide NextOk;
      Numbered(node, b, k);
      if node.high > high { high := node.high; }
      nodes, blocks := nodes[..k] + [node] + nodes[k..], blocks[..k] + [b] + blocks[k..];
    }

    /** The pointers that change. */
    method Point(prevnode: ListNode?, node: ListNode, ghost k: nat)
      requires Links() && k <= |nodes| && prevnode == (if k == 0 then null else nodes[k - 1]) && node !in nodes
      requires forall i, j :: 0 <= i < j < |nodes| ==> nodes[i] != nodes[j]
      modifies this`first, node`next, nodes`next
      ensures forall i :: 0 <= i < |nodes| && i + 1 != k ==> NextOk(nodes, i)
      ensures k > 0 ==> nodes[k - 1].next == node
      ensures node.next == (if k < |nodes| then nodes[k] else null) && first == if k == 0 then node else old(first)
    {
      hide NodeOk;
      if prevnode != null {
        assert NextOk(nodes, k - 1);
        node.next := prevnode.next;
        prevnode.next := node;
      } else {
        node.next := first;
        first := node;
      }
      forall i | 0 <= i < |nodes| && i + 1 != k ensures NextOk(nodes, i) {
        assert old(NextOk(nodes, i));
      }
    }

    /** The block a number is in, or the place for a new one: before `node` and after `prevnode`. */
    method Locate(num: int) returns (node: ListNode?, prevnode: ListNode?, missing: bool, ghost k: nat)
      requires Valid()
      ensures k <= |nodes| && node == (if k < |nodes| then nodes[k] else null) && Stands(num, k)
      ensures missing <==> node == null || num < nodes[k].low
      ensures missing ==> prevnode == if k == 0 then null else nodes[k - 1]
    {
      hide NodeOk, NextOk;
      node, k := Begin(num);
      prevnode := null;
      while true
        invariant k <= |nodes| && node == (if k < |nodes| then nodes[k] else null)
        invariant k > 0 ==> nodes[k - 1].high < num
        invariant if prevnode == null then (k == 0 || (k < |nodes| && nodes[k].low <= num))
                    else k > 0 && prevnode == nodes[k - 1]
        decreases |nodes| - k
      {
        if node == null || num < node.low {
          if node != null { LowToHigh(k); }
          return node, prevnode, true, k;
        }
        if num <= node.high { return node, prevnode, false, k; }
        FollowNext(k);
        prevnode := node;
        node := node.next;
        k := k + 1;
      }
    }

    lemma LowToHigh(k: nat)
      requires Links() && k < |nodes|
      ensures nodes[k].low <= nodes[k].high
    {
      hide NextOk;
      assert NodeOk(nodes[k], blocks[k], low, size, high);
    }

    lemma FollowNext(k: nat)
      requires Links() && k < |nodes|
      ensures nodes[k].next == if k + 1 < |nodes| then nodes[k + 1] else null
    {
      hide NodeOk;
      assert NextOk(nodes, k);
    }

    /**
     * listnum2listitem: the slot of a number, in a new block when it is not allocated. No block moves, so slots that
     * were given out before stay what they were.
     */
    method ListNum2ListItem(num: int) returns (s: Slot)
      requires Valid() && low <= num
      modifies this, nodes
      ensures Valid() && Holds(s, num) && recent == s.node
      ensures forall node :: node in old(nodes) ==> node in nodes
      ensures if old(Allocated(num)) then nodes == old(nodes) else fresh(s.node) && |nodes| == |old(nodes)| + 1
      ensures forall node :: node in nodes ==> node in old(nodes) || node == s.node
      ensures high == if old(high) < s.node.high then s.node.high else old(high)
    {
      hide NodeOk, NextOk, Links;
      var node, prevnode, missing, k := Locate(num);
      if k < |nodes| { Nearest(num, k); } else { NoneNear(num); }
      assert missing <==> !Allocated(num);
      if missing {
        node := AddNode(num, prevnode, k);
      }
      recent := node;
      s := Slot(node, num - node.low);
    }

    /** next_listitem, for an item of the block used last: the next one that is allocated. */
    method NextListItem(s: Slot, ghost n: int) returns (t: Option<Slot>)
      requires Valid() && Holds(s, n) && s.node == recent
      modifies this`recent
      ensures Valid()
      ensures t.None? <==> forall m :: n < m ==> !Allocated(m)
      ensures t.Some? ==>
        var m := t.value.node.low + t.value.place;
        n < m && Holds(t.value, m) && (t.value.node == recent) && forall x :: n < x < m ==> !Allocated(x)
    {
      hide NodeOk, NextOk, Links;
      ghost var k :| 0 <= k < |nodes| && nodes[k] == s.node;
      if s.place == s.node.high - s.node.low {
        NextBlock(k);
        var node := s.node.next;
        if node == null { return None; }
        recent := node;
        assert Allocated(node.low) && n < node.low;
        return Some(Slot(node, 0));
      }
      NextInBlock(k, n);
      assert n < n + 1 && Allocated(n + 1);
      return Some(Slot(s.node, s.place + 1));
    }

    lemma NextBlock(k: nat)
      requires Links() && k < |nodes|
      ensures nodes[k].next == if k + 1 < |nodes| then nodes[k + 1] else null
      ensures k + 1 < |nodes| ==> var m := nodes[k + 1].low;
        nodes[k].high < m <= nodes[k + 1].high && Allocated(m) && forall x :: nodes[k].high < x < m ==> !Allocated(x)
      ensures k + 1 == |nodes| ==> forall x :: nodes[k].high < x ==> !Allocated(x)
    {
      hide NodeOk, NextOk;
      FollowNext(k);
      if k + 1 < |nodes| {
        InOrder(k, k + 1);
        LowToHigh(k + 1);
        Nearest(nodes[k].high + 1, k + 1);
        assert nodes[k + 1] in nodes;
      } else {
        NoneNear(nodes[k].high + 1);
      }
    }

    lemma NextInBlock(k: nat, n: int)
      requires Links() && k < |nodes| && nodes[k].low <= n < nodes[k].high
      ensures Allocated(n + 1)
    {
      assert nodes[k] in nodes;
    }

    /** walk_list: the items in order, until the callback says to stop. */
    method WalkList(callback: int -> bool) returns (stopped: bool)
      requires Valid()
      ensures stopped ==> exists m :: Allocated(m) && callback(m) && forall n :: n < m && Allocated(n) ==> !callback(n)
      ensures !stopped ==> forall n :: Allocated(n) ==> !callback(n)
    {
      hide NodeOk, NextOk;
      var node := first;
      ghost var k := 0;
      while node != null
        invariant k <= |nodes| && node == (if k < |nodes| then nodes[k] else null)
        invariant forall i, n :: 0 <= i < k && nodes[i].low <= n <= nodes[i].high ==> !callback(n)
        decreases |nodes| - k
      {
        LowToHigh(k);
        var item := node.low;
        while item <= node.high
          invariant node.low <= item <= node.high + 1
          invariant forall n :: node.low <= n < item ==> !callback(n)
        {
          if callback(item) {
            AllBefore(k, item, callback);
            return true;
          }
          item := item + 1;
        }
        FollowNext(k);
        node := node.next;
        k := k + 1;
      }
      return false;
    }

    lemma AllBefore(k: nat, item: int, callback: int -> bool)
      requires Links() && k < |nodes| && nodes[k].low <= item <= nodes[k].high
      requires forall i, n :: 0 <= i < k && nodes[i].low <= n <= nodes[i].high ==> !callback(n)
      requires forall n :: nodes[k].low <= n < item ==> !callback(n)
      ensures Allocated(item) && forall n :: n < item && Allocated(n) ==> !callback(n)
    {
      hide NodeOk, NextOk;
      assert nodes[k] in nodes;
      forall n | n < item && Allocated(n) ensures !callback(n) {
        var i :| 0 <= i < |nodes| && nodes[i].low <= n <= nodes[i].high;
        if k < i { InOrder(k, i); }
      }
    }
  }
}

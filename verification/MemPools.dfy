/** Memory pools: fragments of memory on a free list or in the chain of a pool, both threaded through one array. */
module MemPools {
  import opened Options

  const MAX_MEM_POOLS := 16
  const MAX_MEM_FRAGS := 4000
  const FRAG_SIZE := 1024 * 64 - 32

  /** A fragment; its data is empty until memory has been allocated for it. Number 0 is not used. */
  datatype Frag = Frag(data: string, lastfree: nat, bytesfree: nat, next: nat)

  /** A piece handed out: where it is, how long it is, and what was stored in it. */
  datatype Block = Block(pool: nat, frag: nat, off: nat, len: nat, text: string)

  /** The fragments and pool heads, and what they amount to: chains, free list, the list each fragment is on, and
      live blocks. */
  datatype Pools = Pools(frags: seq<Frag>, heads: seq<nat>, first: nat, chains: seq<seq<nat>>, free: seq<nat>,
    home: seq<nat>,
    blocks: set<Block>)

  const FREE := MAX_MEM_POOLS

  // ----- lists through the array

  predicate LinkAt(frags: seq<Frag>, s: seq<nat>, i: nat)
    requires i < |s|
  {
    0 < s[i] < |frags| && frags[s[i]].next == if i + 1 < |s| then s[i + 1] else 0
  }

  /** The fragments reached from `h`. */
  predicate Linked(frags: seq<Frag>, h: nat, s: seq<nat>) {
    h == (if s == [] then 0 else s[0]) && forall i :: 0 <= i < |s| ==> LinkAt(frags, s, i)
  }

  lemma StillLinked(a: seq<Frag>, b: seq<Frag>, h: nat, s: seq<nat>)
    requires Linked(a, h, s) && |a| <= |b| && forall f :: f in s && f < |a| ==> b[f].next == a[f].next
    ensures Linked(b, h, s)
  {
    forall i | 0 <= i < |s| ensures LinkAt(b, s, i) {
      assert LinkAt(a, s, i);
      assert s[i] in s;
    }
  }

  lemma LinkedTail(frags: seq<Frag>, h: nat, s: seq<nat>)
    requires Linked(frags, h, s) && s != []
    ensures 0 < h < |frags| && Linked(frags, frags[h].next, s[1..])
  {
    assert LinkAt(frags, s, 0);
    forall i | 0 <= i < |s[1..]| ensures LinkAt(frags, s[1..], i) {
      assert LinkAt(frags, s, i + 1);
    }
  }

  lemma LinkedFront(a: seq<Frag>, b: seq<Frag>, h: nat, s: seq<nat>, f: nat)
    requires Linked(a, h, s) && 0 < f < |a| == |b| && b[f].next == h
      && forall g :: g in s && g < |a| ==> b[g].next == a[g].next
    ensures Linked(b, f, [f] + s)
  {
    var t := [f] + s;
    forall i | 0 <= i < |t| ensures LinkAt(b, t, i) {
      if i > 0 {
        assert LinkAt(a, s, i - 1);
        assert t[i] == s[i - 1] && t[i] in s;
        assert i + 1 < |t| ==> t[i + 1] == s[i];
      }
    }
  }

  // ----- what always holds

  predicate Sized(p: Pools) {
    |p.frags| == |p.home| == MAX_MEM_FRAGS && |p.heads| == |p.chains| == MAX_MEM_POOLS
  }

  /** A fragment that is free has no memory yet, or is empty again. */
  predicate FreeFrag(f: Frag) {
    (f.bytesfree == 0 && f.data == "") || (f.bytesfree == FRAG_SIZE && f.lastfree == 0 && |f.data| == FRAG_SIZE)
  }

  predicate UsedFrag(f: Frag) {
    |f.data| == FRAG_SIZE && f.lastfree + f.bytesfree == FRAG_SIZE
  }

  predicate FreeOk(p: Pools)
    requires Sized(p)
  {
    && Linked(p.frags, p.first, p.free) && Distinct(p.free)
    && forall f :: f in p.free ==> 0 < f < MAX_MEM_FRAGS && p.home[f] == FREE && FreeFrag(p.frags[f])
  }

  predicate PoolOk(p: Pools, k: nat)
    requires Sized(p) && k < MAX_MEM_POOLS
  {
    && Linked(p.frags, p.heads[k], p.chains[k]) && Distinct(p.chains[k])
    && forall f :: f in p.chains[k] ==> 0 < f < MAX_MEM_FRAGS && p.home[f] == k && UsedFrag(p.frags[f])
  }

  /** Fragment `f` is on the list that its place says. */
  predicate Listed(p: Pools, f: nat)
    requires Sized(p) && f < MAX_MEM_FRAGS
  {
    if p.home[f] == FREE then f in p.free else p.home[f] < MAX_MEM_POOLS && f in p.chains[p.home[f]]
  }

  /** Every fragment but number 0 is on exactly one list, the free list or the chain of one pool. */
  predicate Partition(p: Pools) {
    && Sized(p) && FreeOk(p) && (forall k :: 0 <= k < MAX_MEM_POOLS ==> PoolOk(p, k))
    && forall f :: 1 <= f < MAX_MEM_FRAGS ==> Listed(p, f)
  }

  /** A live block lies in the used part of a fragment of its pool and holds what was stored in it. */
  predicate Live(p: Pools, b: Block)
    requires Sized(p)
  {
    && b.pool < MAX_MEM_POOLS && 0 < b.frag < MAX_MEM_FRAGS && p.home[b.frag] == b.pool
    && b.off + b.len <= p.frags[b.frag].lastfree <= |p.frags[b.frag].data|
    && |b.text| <= b.len && p.frags[b.frag].data[b.off..b.off + |b.text|] == b.text
  }

  predicate Apart(a: Block, b: Block) {
    a.frag == b.frag ==> a.off + a.len <= b.off || b.off + b.len <= a.off
  }

  /** No two live blocks overlap. */
  ghost predicate Sound(p: Pools) {
    && Partition(p)
    && (forall b :: b in p.blocks ==> Live(p, b))
    && (forall a, b :: a in p.blocks && b in p.blocks && a != b ==> Apart(a, b))
  }

  // ----- what the operations do

  /** mp_init. */
  function Init(): Pools {
    Pools(
      seq(MAX_MEM_FRAGS, (i: int) requires 0 <= i => Frag("", 0, 0, if i == 0 || i + 1 == MAX_MEM_FRAGS then 0
        else i + 1)),
      seq(MAX_MEM_POOLS, _ => 0), 1, seq(MAX_MEM_POOLS, _ => []),
      seq(MAX_MEM_FRAGS - 1, (i: int) requires 0 <= i => i + 1), seq(MAX_MEM_FRAGS, _ => FREE), {})
  }

  lemma InitSound()
    ensures Sound(Init())
  {
    var p := Init();
    forall i | 0 <= i < |p.free| ensures LinkAt(p.frags, p.free, i) {
    }
    forall k | 0 <= k < MAX_MEM_POOLS ensures PoolOk(p, k) {
      assert p.chains[k] == [];
    }
    forall f | 1 <= f < MAX_MEM_FRAGS ensures Listed(p, f) {
      assert p.free[f - 1] == f;
    }
  }

  /** The first free fragment, empty and with memory, put at the front of the chain of pool `k`. */
  function TakeFrag(p: Pools, k: nat, memory: string): Pools
    requires Sized(p) && k < MAX_MEM_POOLS && p.first < MAX_MEM_FRAGS && p.free != []
  {
    var f := p.first;
    var was := p.frags[f];
    var frag := if was.bytesfree != 0 then was else Frag(memory, 0, FRAG_SIZE, was.next);
    p.(frags := p.frags[f := frag.(next := p.heads[k])], heads := p.heads[k := f], first := was.next,
       chains := p.chains[k := [f] + p.chains[k]], free := p.free[1..], home := p.home[f := k])
  }

  /** A piece of `len` bytes cut off the free part of the pool's current fragment, with a text put in it. */
  function Carve(p: Pools, k: nat, len: nat, text: string): Pools
    requires Sized(p) && k < MAX_MEM_POOLS && p.heads[k] < MAX_MEM_FRAGS && len <= p.frags[p.heads[k]].bytesfree
    requires p.frags[p.heads[k]].lastfree + |text| <= |p.frags[p.heads[k]].data|
  {
    var f := p.heads[k];
    var was := p.frags[f];
    var off := was.lastfree;
    p.(frags := p.frags[f := was.(data := was.data[..off] + text + was.data[off + |text|..], lastfree := off + len,
                                 bytesfree := was.bytesfree - len)],
       blocks := p.blocks + {Block(k, f, off, len, text)})
  }

  /** The current fragment of a pool, emptied and put at the front of the free list. */
  function GiveBack(p: Pools, k: nat): Pools
    requires Sized(p) && k < MAX_MEM_POOLS && p.heads[k] < MAX_MEM_FRAGS && p.chains[k] != []
  {
    var f := p.heads[k];
    var was := p.frags[f];
    p.(frags := p.frags[f := was.(lastfree := 0, bytesfree := FRAG_SIZE, next := p.first)],
      heads := p.heads[k := was.next],
       first := f, chains := p.chains[k := p.chains[k][1..]], free := [f] + p.free, home := p.home[f := FREE])
  }

  /** The blocks of the other pools. */
  function Without(blocks: set<Block>, k: nat): set<Block> {
    set b | b in blocks && b.pool != k
  }

  lemma FirstFree(p: Pools)
    requires Sized(p) && FreeOk(p)
    ensures p.first == 0 <==> p.free == []
    ensures p.free != [] ==>
      p.first == p.free[0] && 0 < p.first < MAX_MEM_FRAGS && p.home[p.first] == FREE && FreeFrag(p.frags[p.first])
  {
    if p.free != [] { assert p.free[0] in p.free; }
  }

  lemma HeadOf(p: Pools, k: nat)
    requires Sized(p) && k < MAX_MEM_POOLS && PoolOk(p, k)
    ensures p.heads[k] == 0 <==> p.chains[k] == []
    ensures p.chains[k] != [] ==>
      p.heads[k] == p.chains[k][0] && 0 < p.heads[k] < MAX_MEM_FRAGS && p.home[p.heads[k]] == k
        && UsedFrag(p.frags[p.heads[k]])
  {
    if p.chains[k] != [] { assert p.chains[k][0] in p.chains[k]; }
  }

  /** The tail of a list without repetitions. */
  lemma TailOf(s: seq<nat>)
    requires Distinct(s) && s != []
    ensures Distinct(s[1..]) && forall x :: x in s[1..] <==> x in s && x != s[0]
  {
    assert s == [s[0]] + s[1..];
    forall x | x in s[1..] ensures x != s[0] {
      var i :| 0 <= i < |s[1..]| && s[1..][i] == x;
      assert s[i + 1] == x;
    }
  }

  /** A pool that one changed fragment does not concern. */
  lemma OtherPool(a: Pools, c: Pools, k: nat, f: nat)
    requires Sized(a) && Sized(c) && k < MAX_MEM_POOLS && PoolOk(a, k) && c.heads[k] == a.heads[k]
      && c.chains[k] == a.chains[k]
    requires f < MAX_MEM_FRAGS && a.home[f] != k
      && forall g :: 0 <= g < MAX_MEM_FRAGS && g != f ==> c.frags[g] == a.frags[g] && c.home[g] == a.home[g]
    ensures PoolOk(c, k)
  {
    hide Linked;
    StillLinked(a.frags, c.frags, a.heads[k], a.chains[k]);
  }

  lemma TakeFragSound(p: Pools, k: nat, memory: string)
    requires Sound(p) && k < MAX_MEM_POOLS && p.free != [] && |memory| == FRAG_SIZE
    ensures p.first < MAX_MEM_FRAGS && Sound(TakeFrag(p, k, memory)) && TakeFrag(p, k, memory).blocks == p.blocks
    ensures var q := TakeFrag(p, k, memory);
      q.heads[k] == p.first != 0 && q.frags[p.first].bytesfree == FRAG_SIZE && q.frags[p.first].lastfree == 0
  {
    hide Linked;
    FirstFree(p);
    TakeFragPartition(p, k, memory);
    var q := TakeFrag(p, k, memory);
    forall b | b in q.blocks ensures Live(q, b) {
      assert Live(p, b);
    }
  }

  lemma TakeFragPartition(p: Pools, k: nat, memory: string)
    requires Partition(p) && k < MAX_MEM_POOLS && p.free != [] && |memory| == FRAG_SIZE
    ensures p.first < MAX_MEM_FRAGS && Partition(TakeFrag(p, k, memory))
  {
    FirstFree(p);
    TakeFragLists(p, k, memory);
    hide Linked;
    var f, q := p.first, TakeFrag(p, k, memory);
    TailOf(p.free);
    assert PoolOk(p, k);
    forall j | 0 <= j < MAX_MEM_POOLS ensures PoolOk(q, j) {
      assert PoolOk(p, j);
      if j != k { OtherPool(p, q, j, f); }
    }
    forall g | 1 <= g < MAX_MEM_FRAGS ensures Listed(q, g) {
      assert Listed(p, g);
    }
  }

  lemma TakeFragLists(p: Pools, k: nat, memory: string)
    requires Partition(p) && k < MAX_MEM_POOLS && p.free != [] && |memory| == FRAG_SIZE
    ensures p.first < MAX_MEM_FRAGS
    ensures var q := TakeFrag(p, k, memory);
      Linked(q.frags, q.first, q.free) && Linked(q.frags, q.heads[k], q.chains[k])
  {
    FirstFree(p);
    var f, q := p.first, TakeFrag(p, k, memory);
    assert PoolOk(p, k);
    LinkedTail(p.frags, p.first, p.free);
    hide Linked;
    TailOf(p.free);
    StillLinked(p.frags, q.frags, q.first, q.free);
    LinkedFront(p.frags, q.frags, p.heads[k], p.chains[k], f);
  }

  lemma SameLinks(p: Pools, q: Pools)
    requires Partition(p) && Sized(q) && q.heads == p.heads && q.chains == p.chains && q.first == p.first
      && q.free == p.free
    requires q.home == p.home && forall g :: 0 <= g < MAX_MEM_FRAGS ==> q.frags[g].next == p.frags[g].next
    requires forall g :: 0 <= g < MAX_MEM_FRAGS ==> if p.home[g] == FREE then q.frags[g] == p.frags[g]
               else UsedFrag(p.frags[g]) ==> UsedFrag(q.frags[g])
    ensures Partition(q)
  {
    hide Linked;
    StillLinked(p.frags, q.frags, p.first, p.free);
    forall k | 0 <= k < MAX_MEM_POOLS ensures PoolOk(q, k) {
      assert PoolOk(p, k);
      StillLinked(p.frags, q.frags, p.heads[k], p.chains[k]);
    }
    forall g | 1 <= g < MAX_MEM_FRAGS ensures Listed(q, g) {
      assert Listed(p, g);
    }
  }

  lemma CarveSound(p: Pools, k: nat, len: nat, text: string)
    requires Sound(p) && k < MAX_MEM_POOLS && p.chains[k] != [] && |text| <= len && 0 < len
    requires p.heads[k] < MAX_MEM_FRAGS && len <= p.frags[p.heads[k]].bytesfree
    ensures p.frags[p.heads[k]].lastfree + |text| <= |p.frags[p.heads[k]].data|
    ensures Sound(Carve(p, k, len, text))
    ensures Block(k, p.heads[k], p.frags[p.heads[k]].lastfree, len, text) !in p.blocks
  {
    hide Linked, Distinct, Listed;
    assert PoolOk(p, k);
    HeadOf(p, k);
    var f := p.heads[k];
    var q := Carve(p, k, len, text);
    assert UsedFrag(q.frags[f]);
    SameLinks(p, q);
    var new_ := Block(k, f, p.frags[f].lastfree, len, text);
    forall b | b in p.blocks ensures Live(q, b) && Apart(b, new_) && Apart(new_, b) && b != new_ {
      assert Live(p, b);
      if b.frag == f { CarveKeeps(p.frags[f], q.frags[f], text, b); }
    }
    assert Live(q, new_);
  }

  /** What lies before the free part of a fragment is not written over. */
  lemma CarveKeeps(was: Frag, now: Frag, text: string, b: Block)
    requires was.lastfree + |text| <= |was.data|
      && now.data == was.data[..was.lastfree] + text + was.data[was.lastfree + |text|..]
    requires b.off + b.len <= was.lastfree && |b.text| <= b.len && was.data[b.off..b.off + |b.text|] == b.text
    ensures now.data[b.off..b.off + |b.text|] == b.text
  {
  }

  lemma GiveBackLists(p: Pools, k: nat)
    requires Partition(p) && k < MAX_MEM_POOLS && p.chains[k] != []
    ensures p.heads[k] < MAX_MEM_FRAGS
    ensures var q := GiveBack(p, k); Linked(q.frags, q.first, q.free) && Linked(q.frags, q.heads[k], q.chains[k])
  {
    assert PoolOk(p, k);
    HeadOf(p, k);
    var f, q := p.heads[k], GiveBack(p, k);
    LinkedTail(p.frags, p.heads[k], p.chains[k]);
    hide Linked;
    TailOf(p.chains[k]);
    StillLinked(p.frags, q.frags, q.heads[k], q.chains[k]);
    LinkedFront(p.frags, q.frags, p.first, p.free, f);
  }

  lemma GiveBackPartition(p: Pools, k: nat)
    requires Partition(p) && k < MAX_MEM_POOLS && p.chains[k] != []
    ensures p.heads[k] < MAX_MEM_FRAGS && Partition(GiveBack(p, k))
  {
    assert PoolOk(p, k);
    HeadOf(p, k);
    GiveBackLists(p, k);
    hide Linked;
    var f, q := p.heads[k], GiveBack(p, k);
    TailOf(p.chains[k]);
    forall j | 0 <= j < MAX_MEM_POOLS ensures PoolOk(q, j) {
      assert PoolOk(p, j);
      if j != k { OtherPool(p, q, j, f); }
    }
    forall g | 1 <= g < MAX_MEM_FRAGS ensures Listed(q, g) {
      assert Listed(p, g);
    }
  }

  lemma GiveBackSound(p: Pools, k: nat)
    requires Sound(p) && k < MAX_MEM_POOLS && p.chains[k] != [] && forall b :: b in p.blocks ==> b.pool != k
    ensures p.heads[k] < MAX_MEM_FRAGS && Sound(GiveBack(p, k)) && GiveBack(p, k).blocks == p.blocks
  {
    hide Linked;
    assert PoolOk(p, k);
    HeadOf(p, k);
    GiveBackPartition(p, k);
    var q := GiveBack(p, k);
    forall b | b in q.blocks ensures Live(q, b) {
      assert Live(p, b);
    }
  }

  lemma WithoutSound(p: Pools, k: nat)
    requires Sound(p)
    ensures Sound(p.(blocks := Without(p.blocks, k)))
  {
    hide Linked;
    var q := p.(blocks := Without(p.blocks, k));
    SameLinks(p, q);
    forall b | b in q.blocks ensures Live(q, b) {
      assert Live(p, b);
    }
  }

  // ----- the operations

  /** A piece of memory: a fragment and an offset in it. */
  datatype Ptr = Ptr(frag: nat, off: nat)

  class Allocator {
    const mpfrags: array<Frag>
    const mpheads: array<nat>
    var firstFreeFrag: nat
    ghost var chains: seq<seq<nat>>
    ghost var free: seq<nat>
    ghost var home: seq<nat>
    ghost var blocks: set<Block>

    ghost function State(): Pools
      reads this, mpfrags, mpheads
    {
      Pools(mpfrags[..], mpheads[..], firstFreeFrag, chains, free, home, blocks)
    }

    ghost predicate Valid()
      reads this, mpfrags, mpheads
    {
      Sound(State())
    }

    /** mp_init. */
    constructor ()
      ensures Valid() && blocks == {} && fresh(mpfrags) && fresh(mpheads)
    {
      mpfrags := new Frag[MAX_MEM_FRAGS](i => Frag("", 0, 0, 0));
      mpheads := new nat[MAX_MEM_POOLS];
      new;
      for i := 1 to MAX_MEM_FRAGS
        invariant forall j :: 0 <= j < MAX_MEM_FRAGS ==> mpfrags[j] == Frag("", 0, 0, if 1 <= j < i then j + 1 else 0)
      {
        mpfrags[i] := Frag("", 0, 0, i + 1);
      }
      mpfrags[MAX_MEM_FRAGS - 1] := mpfrags[MAX_MEM_FRAGS - 1].(next := 0);
      firstFreeFrag := 1;
      label Threaded:
      for j := 0 to MAX_MEM_POOLS
        invariant forall i :: 0 <= i < j ==> mpheads[i] == 0
        invariant mpfrags[..] == old@Threaded(mpfrags[..]) && firstFreeFrag == 1
      {
        mpheads[j] := 0;
      }
      chains, home, blocks := seq(MAX_MEM_POOLS, _ => []), seq(MAX_MEM_FRAGS, _ => FREE), {};
      free := seq(MAX_MEM_FRAGS - 1, (i: int) requires 0 <= i => i + 1);
      InitSound();
      hide Sound;
      assert mpheads[..] == Init().heads;
      assert mpfrags[..] == Init().frags;
      assert State() == Init();
    }

    /** mp_alloc_frag, put at the front of a pool's chain; `memory` is what safemalloc returns. None means the
        program ends. */
    method NewFrag(pool: nat, memory: string) returns (frag: Option<nat>)
      requires Valid() && pool < MAX_MEM_POOLS && |memory| == FRAG_SIZE
      modifies this`firstFreeFrag, this`chains, this`free, this`home, mpfrags, mpheads
      ensures Valid()
      ensures frag.None? <==> old(free) == []
      ensures frag.None? ==> State() == old(State())
      ensures frag.Some? ==> frag.value == mpheads[pool] == old(firstFreeFrag) < MAX_MEM_FRAGS && chains[pool] != []
      ensures frag.Some? ==> State() == TakeFrag(old(State()), pool, memory)
      ensures frag.Some? ==> mpfrags[frag.value].bytesfree == FRAG_SIZE && mpfrags[frag.value].lastfree == 0
      ensures frag.Some? ==>
        old(free) == [frag.value] + free && chains == old(chains)[pool := [frag.value] + old(chains)[pool]]
    {
      hide Sound, Partition, Linked, FreeOk, PoolOk;
      SoundParts(State());
      var oldf := mpheads[pool];
      var f := firstFreeFrag;
      FirstFree(State());
      if f == 0 { return None; }
      TakeFragSound(State(), pool, memory);
      firstFreeFrag := mpfrags[f].next;
      if mpfrags[f].bytesfree == 0 {
        mpfrags[f] := mpfrags[f].(data := memory, lastfree := 0, bytesfree := FRAG_SIZE);
      }
      mpfrags[f] := mpfrags[f].(next := oldf);
      mpheads[pool] := f;
      chains, free, home := chains[pool := [f] + chains[pool]], free[1..], home[f := pool];
      assert State() == TakeFrag(old(State()), pool, memory);
      return Some(f);
    }

    /** A block of `len` bytes cut off the current fragment, with a text copied to its start. */
    method CutBlock(f: nat, pool: nat, len: nat, text: string) returns (s: Ptr)
      requires Valid() && pool < MAX_MEM_POOLS && chains[pool] != [] && f == mpheads[pool] < MAX_MEM_FRAGS
      requires |text| <= len && 0 < len <= mpfrags[f].bytesfree
      modifies this`blocks, mpfrags
      ensures Valid() && blocks == old(blocks) + {Block(pool, s.frag, s.off, len, text)}
      ensures Block(pool, s.frag, s.off, len, text) !in old(blocks)
      ensures mpheads[..] == old(mpheads[..]) && s == Ptr(f, old(mpfrags[f].lastfree))
      ensures mpfrags[f].bytesfree == old(mpfrags[f].bytesfree) - len && mpfrags[f].lastfree == s.off + len
    {
      hide Sound, Linked, FreeOk, PoolOk;
      SoundParts(State());
      CarveSound(State(), pool, len, text);
      var was := mpfrags[f];
      s := Ptr(f, was.lastfree);
      mpfrags[f] := was.(data := was.data[..s.off] + text + was.data[s.off + |text|..]);
      mpfrags[f] := mpfrags[f].(lastfree := was.lastfree + len);
      mpfrags[f] := mpfrags[f].(bytesfree := was.bytesfree - len);
      blocks := blocks + {Block(pool, f, s.off, len, text)};
      assert State() == Carve(old(State()), pool, len, text);
    }

    /**
     * mp_savestr: a string and its terminating null kept in a pool. None means the program ends: the string is too
     * long, or does not fit and no fragment is left.
     */
    method SaveStr(str: string, pool: nat, memory: string) returns (s: Option<Ptr>)
      requires Valid() && pool < MAX_MEM_POOLS && |memory| == FRAG_SIZE
      modifies this, mpfrags, mpheads
      ensures Valid()
      ensures s.None? <==> FRAG_SIZE <= |str| || (old(free) == [] && |str| + 2 >= old(Room(pool)))
      ensures s.None? ==> State() == old(State())
      ensures s.Some? ==>
        var block := Block(pool, s.value.frag, s.value.off, |str| + 1, str + "\0");
        blocks == old(blocks) + {block} && block !in old(blocks)
      ensures s.Some? && |str| + 2 < old(Room(pool)) ==>
        chains == old(chains) && free == old(free) && s.value.off == old(mpfrags[mpheads[pool]].lastfree)
      ensures s.Some? && |str| + 2 >= old(Room(pool)) ==>
        old(free) == [s.value.frag] + free && chains == old(chains)[pool := [s.value.frag] + old(chains)[pool]]
          && s.value.off == 0
      ensures s.Some? ==>
        s.value.frag == mpheads[pool] < MAX_MEM_FRAGS && mpfrags[s.value.frag].lastfree == s.value.off + |str| + 1
    {
      hide Sound, Linked, FreeOk, PoolOk, TakeFrag, Partition;
      SoundParts(State());
      HeadOf(State(), pool);
      var len := |str|;
      if len >= FRAG_SIZE { return None; }
      var f := mpheads[pool];
      if f == 0 || len >= mpfrags[f].bytesfree - 2 {
        var frag := NewFrag(pool, memory);
        if frag.None? { return None; }
        f := frag.value;
        TakeFragBlocks(old(State()), pool, memory);
      }
      var p := CutBlock(f, pool, len + 1, str + "\0");
      return Some(p);
    }

    /** mp_malloc: a block in a pool, of at least one byte. */
    method Malloc(size: nat, pool: nat, memory: string) returns (s: Option<Ptr>)
      requires Valid() && pool < MAX_MEM_POOLS && |memory| == FRAG_SIZE
      modifies this, mpfrags, mpheads
      ensures Valid()
      ensures var len := if size == 0 then 1 else size;
        s.None? <==> FRAG_SIZE <= len || (old(free) == [] && len >= old(Room(pool)))
      ensures s.None? ==> State() == old(State())
      ensures s.Some? ==>
        var block := Block(pool, s.value.frag, s.value.off, (if size == 0 then 1 else size) + 1, "");
        blocks == old(blocks) + {block} && block !in old(blocks)
      ensures s.Some? && (if size == 0 then 1 else size) < old(Room(pool)) ==>
        chains == old(chains) && free == old(free) && s.value.off == old(mpfrags[mpheads[pool]].lastfree)
      ensures s.Some? && (if size == 0 then 1 else size) >= old(Room(pool)) ==>
        old(free) == [s.value.frag] + free && chains == old(chains)[pool := [s.value.frag] + old(chains)[pool]]
          && s.value.off == 0
      ensures s.Some? ==>
        s.value.frag == mpheads[pool] < MAX_MEM_FRAGS
          && mpfrags[s.value.frag].lastfree == s.value.off + (if size == 0 then 1 else size) + 1
    {
      hide Sound, Linked, FreeOk, PoolOk, TakeFrag, Partition;
      SoundParts(State());
      HeadOf(State(), pool);
      var len := if size == 0 then 1 else size;
      if len >= FRAG_SIZE { return None; }
      var f := mpheads[pool];
      if f == 0 || len >= mpfrags[f].bytesfree {
        var frag := NewFrag(pool, memory);
        if frag.None? { return None; }
        f := frag.value;
        TakeFragBlocks(old(State()), pool, memory);
      }
      var p := CutBlock(f, pool, len + 1, "");
      return Some(p);
    }

    /** The number of bytes free in the current fragment of a pool. */
    ghost function Room(pool: nat): nat
      requires pool < mpheads.Length
      reads this, mpfrags, mpheads
    {
      if 0 < mpheads[pool] < mpfrags.Length then mpfrags[mpheads[pool]].bytesfree else 0
    }

    /** mp_free_frag: a fragment reset for later use and put at the front of the free list. */
    method FreeFragment(f: nat)
      requires f < mpfrags.Length
      modifies this`firstFreeFrag, mpfrags
      ensures mpfrags[..] == old(mpfrags[..])[f := old(mpfrags[f]).(lastfree := 0, bytesfree := FRAG_SIZE,
        next := old(firstFreeFrag))]
      ensures firstFreeFrag == f
    {
      mpfrags[f] := mpfrags[f].(lastfree := 0);
      mpfrags[f] := mpfrags[f].(bytesfree := FRAG_SIZE);
      mpfrags[f] := mpfrags[f].(next := firstFreeFrag);
      firstFreeFrag := f;
    }

    /** mp_free: every fragment of a pool goes back to the free list; the blocks of other pools are as they were. */
    method Free(pool: nat)
      requires Valid() && pool < MAX_MEM_POOLS
      modifies this, mpfrags, mpheads
      ensures Valid() && blocks == Without(old(blocks), pool)
      ensures chains == old(chains)[pool := []] && |free| == |old(free)| + |old(chains)[pool]|
    {
      hide Sound, Linked, FreeOk, PoolOk, Partition;
      SoundParts(State());
      WithoutSound(State(), pool);
      blocks := Without(blocks, pool);
      var f := mpheads[pool];
      assert State().heads[pool := f] == State().heads;
      while f != 0
        invariant Sound(State().(heads := mpheads[..][pool := f])) && blocks == Without(old(blocks), pool)
        invariant mpheads[..] == old(mpheads[..]) && Sized(State())
        invariant chains == old(chains)[pool := chains[pool]]
          && |free| + |chains[pool]| == |old(free)| + |old(chains)[pool]|
        decreases |chains[pool]|
      {
        ghost var p := State().(heads := mpheads[..][pool := f]);
        SoundParts(p);
        HeadOf(p, pool);
        GiveBackSound(p, pool);
        var oldnext := mpfrags[f].next;
        FreeFragment(f);
        chains, free, home := chains[pool := chains[pool][1..]], [f] + free, home[f := FREE];
        assert State().(heads := mpheads[..][pool := oldnext]) == GiveBack(p, pool);
        f := oldnext;
      }
      ghost var p := State().(heads := mpheads[..][pool := f]);
      SoundParts(p);
      HeadOf(p, pool);
      mpheads[pool] := 0;
      assert State() == p;
    }
  }

  lemma TakeFragBlocks(p: Pools, k: nat, memory: string)
    requires Sized(p) && k < MAX_MEM_POOLS && p.first < MAX_MEM_FRAGS && p.free != []
    ensures TakeFrag(p, k, memory).blocks == p.blocks
  {
  }

  lemma SoundParts(p: Pools)
    requires Sound(p)
    ensures Sized(p) && FreeOk(p) && forall k :: 0 <= k < MAX_MEM_POOLS ==> PoolOk(p, k)
  {
  }
}

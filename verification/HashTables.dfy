/** Chained hash tables whose entries are linked through indices, with a list of entries to reuse. */
module HashTables {
  import opened Options

  /** What an entry refers to: a text that begins with the key, and a number. */
  datatype Datum = Datum(text: string, len: nat)

  /** An entry; index 0 stands for the null pointer. */
  datatype Ent = Ent(next: nat, data: Option<Datum>, keylen: nat)

  const HEBLOCKSIZE := 1000
  const WORD := 0x1_0000_0000

  // ----- lists of entries

  predicate LinkAt(ents: seq<Ent>, s: seq<nat>, i: nat)
    requires i < |s|
  {
    0 < s[i] < |ents| && ents[s[i]].next == if i + 1 < |s| then s[i + 1] else 0
  }

  /** The entries reached from `h` by following the links, to the null pointer. */
  predicate Linked(ents: seq<Ent>, h: nat, s: seq<nat>) {
    h == (if s == [] then 0 else s[0]) && forall i :: 0 <= i < |s| ==> LinkAt(ents, s, i)
  }

  /** A list whose entries keep their links is the same list. */
  lemma StillLinked(a: seq<Ent>, b: seq<Ent>, h: nat, s: seq<nat>)
    requires Linked(a, h, s) && |a| <= |b| && forall e :: e in s && e < |a| ==> b[e].next == a[e].next
    ensures Linked(b, h, s)
  {
    forall i | 0 <= i < |s| ensures LinkAt(b, s, i) {
      assert LinkAt(a, s, i);
      assert s[i] in s;
    }
  }

  /** The list without its first entry. */
  lemma LinkedTail(ents: seq<Ent>, h: nat, s: seq<nat>)
    requires Linked(ents, h, s) && s != []
    ensures 0 < h < |ents| && Linked(ents, ents[h].next, s[1..])
  {
    assert LinkAt(ents, s, 0);
    forall i | 0 <= i < |s[1..]| ensures LinkAt(ents, s[1..], i) {
      assert LinkAt(ents, s, i + 1);
    }
  }

  /** An entry put before the first one. */
  lemma LinkedFront(ents: seq<Ent>, h: nat, s: seq<nat>, e: nat)
    requires Linked(ents, h, s) && 0 < e < |ents| && e !in s
    ensures Linked(ents[e := ents[e].(next := h)], e, [e] + s)
  {
    var b, t := ents[e := ents[e].(next := h)], [e] + s;
    forall i | 0 <= i < |t| ensures LinkAt(b, t, i) {
      if i > 0 {
        assert LinkAt(ents, s, i - 1);
        assert t[i] == s[i - 1] && t[i] in s;
        assert i + 1 < |t| ==> t[i + 1] == s[i];
      }
    }
  }

  /** The list without its entry `i`: the link before it made to skip it. */
  lemma LinkedWithout(ents: seq<Ent>, h: nat, s: seq<nat>, i: nat)
    requires Linked(ents, h, s) && Distinct(s) && i < |s|
    ensures 0 < s[i] < |ents|
    ensures i == 0 ==> Linked(ents, ents[s[0]].next, s[1..])
    ensures i > 0 ==>
      0 < s[i - 1] < |ents| && Linked(ents[s[i - 1] := ents[s[i - 1]].(next := ents[s[i]].next)], h,
        s[..i] + s[i + 1..])
  {
    assert LinkAt(ents, s, i);
    if i == 0 {
      LinkedTail(ents, h, s);
    } else {
      assert LinkAt(ents, s, i - 1);
      var b, t := ents[s[i - 1] := ents[s[i - 1]].(next := ents[s[i]].next)], s[..i] + s[i + 1..];
      forall j | 0 <= j < |t| ensures LinkAt(b, t, j) {
        var k := if j < i then j else j + 1;
        assert LinkAt(ents, s, k);
        assert t[j] == s[k];
        assert j + 1 < |t| ==> t[j + 1] == s[if j + 1 < i then j + 1 else j + 2];
      }
    }
  }

  /** One more entry at the end. */
  lemma LinkedBack(ents: seq<Ent>, h: nat, s: seq<nat>, e: nat)
    requires Linked(ents, h, s) && Distinct(s) && 0 < e < |ents| && e !in s && ents[e].next == 0
    ensures s == [] ==> Linked(ents, e, [e])
    ensures s != [] ==> var last := s[|s| - 1];
      0 < last < |ents| && Linked(ents[last := ents[last].(next := e)], h, s + [e])
  {
    if s == [] {
      assert LinkAt(ents, [e], 0);
    } else {
      var last := s[|s| - 1];
      assert LinkAt(ents, s, |s| - 1);
      var b, t := ents[last := ents[last].(next := e)], s + [e];
      forall j | 0 <= j < |t| ensures LinkAt(b, t, j) {
        if j < |s| { assert LinkAt(ents, s, j); }
      }
    }
  }

  // ----- keys

  function Sum(key: string): int {
    if key == "" then 0
    else Sum(key[..|key| - 1]) + (var c := key[|key| - 1] as int; if c < 128 then c else c - 256)
  }

  /** The sum of the characters, taken as signed, in an unsigned word. */
  function Hash(key: string): nat {
    Sum(key) % WORD
  }

  /** The data belongs to a key of that length: default_cmp looks at so many characters of its text. */
  predicate Keyed(e: Ent) {
    e.data.Some? && e.keylen <= |e.data.value.text|
  }

  function Key(e: Ent): string
    requires Keyed(e)
  {
    e.data.value.text[..e.keylen]
  }

  /** What hashfind compares: the length, and then the characters. */
  predicate Matches(e: Ent, key: string)
    requires Keyed(e)
  {
    e.keylen == |key| && Key(e) == key
  }

  datatype Slot = Head(bucket: nat) | After(ent: nat)

  // ----- tables

  /** The memory of a table, and what it is made of: the chain of each bucket, the reusable entries, the place of
      each entry. */
  datatype Table = Table(heads: seq<nat>, ents: seq<Ent>, reuse: nat, chains: seq<seq<nat>>, free: seq<nat>,
    home: seq<nat>)

  function Bucket(t: Table, key: string): (b: nat)
    requires t.heads != []
    ensures b < |t.heads|
  {
    Hash(key) % |t.heads|
  }

  predicate Sized(t: Table) {
    t.heads != [] && |t.chains| == |t.heads| && t.ents != [] && |t.home| == |t.ents|
  }

  /** The key of an entry that has one. */
  function KeyAt(t: Table, e: nat): string {
    if e < |t.ents| && Keyed(t.ents[e]) then Key(t.ents[e]) else ""
  }

  /** An entry of a chain has a key that belongs there. */
  predicate EntryOk(t: Table, b: nat, e: nat)
    requires Sized(t)
  {
    0 < e < |t.ents| && t.home[e] == b && Keyed(t.ents[e]) && Bucket(t, Key(t.ents[e])) == b
  }

  predicate BucketOk(t: Table, b: nat)
    requires Sized(t) && b < |t.heads|
  {
    && Linked(t.ents, t.heads[b], t.chains[b]) && Distinct(t.chains[b])
    && (forall e :: e in t.chains[b] ==> EntryOk(t, b, e))
    && (forall e, d :: e in t.chains[b] && d in t.chains[b] && e != d ==> KeyAt(t, e) != KeyAt(t, d))
  }

  predicate FreeOk(t: Table)
    requires Sized(t)
  {
    Linked(t.ents, t.reuse, t.free) && Distinct(t.free)
      && forall e :: e in t.free ==> 0 < e < |t.ents| && t.home[e] == |t.heads|
  }

  predicate Whole(t: Table) {
    Sized(t) && FreeOk(t) && forall b :: 0 <= b < |t.heads| ==> BucketOk(t, b)
  }

  /** The table holds these contents: each entry is one of them, and each of them has an entry in the bucket of its
      key. */
  ghost predicate Holds(t: Table, contents: map<string, Datum>)
    requires Whole(t)
  {
    && (forall b, e :: 0 <= b < |t.heads| && e in t.chains[b] ==> EntryIn(t, e, contents))
    && (forall k :: k in contents ==> Found(t, k))
  }

  predicate EntryIn(t: Table, e: nat, contents: map<string, Datum>) {
    e < |t.ents| && KeyAt(t, e) in contents && t.ents[e].data == Some(contents[KeyAt(t, e)])
  }

  predicate Found(t: Table, k: string)
    requires Sized(t)
  {
    exists e :: e in t.chains[Bucket(t, k)] && KeyAt(t, e) == k
  }

  /** A bucket whose entries have not changed. */
  lemma SameBucket(a: Table, c: Table, b: nat)
    requires Sized(a) && Sized(c) && |a.heads| == |c.heads| && |a.ents| <= |c.ents| && b < |a.heads| && BucketOk(a, b)
    requires c.heads[b] == a.heads[b] && c.chains[b] == a.chains[b]
    requires forall e :: e in a.chains[b] && e < |a.ents| ==> c.ents[e] == a.ents[e] && c.home[e] == a.home[e]
    ensures BucketOk(c, b)
  {
    hide Linked;
    StillLinked(a.ents, c.ents, a.heads[b], a.chains[b]);
    forall e | e in c.chains[b] ensures EntryOk(c, b, e) {
      assert EntryOk(a, b, e);
    }
  }

  // ----- finding

  predicate SlotAt(t: Table, b: nat, i: nat, slot: Slot)
    requires Sized(t) && b < |t.heads| && i <= |t.chains[b]|
  {
    slot == if i == 0 then Head(b) else After(t.chains[b][i - 1])
  }

  function EntryAt(t: Table, b: nat, i: nat): nat
    requires Sized(t) && b < |t.heads| && i <= |t.chains[b]|
  {
    if i < |t.chains[b]| then t.chains[b][i] else 0
  }

  /** The pointer in a slot. */
  function Deref(t: Table, slot: Slot): nat
    requires Sized(t)
    requires match slot case Head(b) => b < |t.heads| case After(e) => e < |t.ents|
  {
    match slot
    case Head(b) => t.heads[b]
    case After(e) => t.ents[e].next
  }

  lemma DerefAt(t: Table, b: nat, i: nat)
    requires Sized(t) && b < |t.heads| && BucketOk(t, b) && i <= |t.chains[b]|
    ensures var slot := if i == 0 then Head(b) else After(t.chains[b][i - 1]);
      (slot.After? ==> slot.ent < |t.ents|) && Deref(t, slot) == EntryAt(t, b, i)
  {
    if i > 0 { assert LinkAt(t.ents, t.chains[b], i - 1); }
  }

  /** The place where `key` is in its bucket, or the end when it is not there. */
  predicate Place(t: Table, key: string, i: nat)
    requires Sized(t) && i <= |t.chains[Bucket(t, key)]|
  {
    var c := t.chains[Bucket(t, key)];
    && (forall j :: 0 <= j < i ==> KeyAt(t, c[j]) != key)
    && (i < |c| ==> KeyAt(t, c[i]) == key)
  }

  lemma PlaceFinds(t: Table, key: string, i: nat, contents: map<string, Datum>)
    requires Whole(t) && Holds(t, contents) && i <= |t.chains[Bucket(t, key)]| && Place(t, key, i)
    ensures key in contents <==> i < |t.chains[Bucket(t, key)]|
    ensures i < |t.chains[Bucket(t, key)]| ==>
      var e := t.chains[Bucket(t, key)][i]; e < |t.ents| && t.ents[e].data == Some(contents[key])
  {
    var b := Bucket(t, key);
    var c := t.chains[b];
    if i < |c| {
      assert c[i] in c;
      assert EntryIn(t, c[i], contents);
    }
    if key in contents {
      assert Found(t, key);
      var e :| e in c && KeyAt(t, e) == key;
    }
  }

  /** The entry at a place of a bucket. */
  lemma InBucket(t: Table, b: nat, i: nat)
    requires Sized(t) && b < |t.heads| && BucketOk(t, b) && i <= |t.chains[b]|
    ensures EntryAt(t, b, i) != 0 <==> i < |t.chains[b]|
    ensures EntryAt(t, b, i) != 0 ==> EntryOk(t, b, EntryAt(t, b, i))
    ensures EntryAt(t, b, i) < |t.ents|
  {
    hide Linked;
    if i < |t.chains[b]| { assert t.chains[b][i] in t.chains[b]; }
  }

  /** The comparison of the key in an entry with another. */
  lemma KeyTest(t: Table, b: nat, e: nat, key: string)
    requires Sized(t) && EntryOk(t, b, e)
    ensures Keyed(t.ents[e]) && (t.ents[e].keylen == |key| && Key(t.ents[e]) == key <==> KeyAt(t, e) == key)
  {
  }

  /** A chain has been searched up to place `i`. */
  predicate Passed(t: Table, key: string, b: nat, i: nat)
    requires Sized(t) && b < |t.heads| && i <= |t.chains[b]|
  {
    forall j :: 0 <= j < i ==> KeyAt(t, t.chains[b][j]) != key
  }

  lemma PassOne(t: Table, key: string, b: nat, i: nat)
    requires Sized(t) && b < |t.heads| && i < |t.chains[b]| && Passed(t, key, b, i) && KeyAt(t, t.chains[b][i]) != key
    ensures Passed(t, key, b, i + 1)
  {
  }

  lemma StartsPassed(t: Table, key: string, b: nat)
    requires Sized(t) && b < |t.heads|
    ensures Passed(t, key, b, 0)
  {
  }

  lemma EntryInChain(t: Table, b: nat, i: nat)
    requires Sized(t) && b < |t.heads| && i < |t.chains[b]|
    ensures EntryAt(t, b, i) == t.chains[b][i]
  {
  }

  /** Where the search stops is the place of the key. */
  lemma SearchEnds(t: Table, key: string, b: nat, i: nat, contents: map<string, Datum>)
    requires Whole(t) && Holds(t, contents) && b == Bucket(t, key) && i <= |t.chains[b]| && BucketOk(t, b)
      && Passed(t, key, b, i)
    requires EntryAt(t, b, i) != 0 ==> KeyAt(t, EntryAt(t, b, i)) == key
    ensures Place(t, key, i) && EntryAt(t, b, i) < |t.ents| && (EntryAt(t, b, i) != 0 <==> key in contents)
    ensures EntryAt(t, b, i) != 0 ==> var e := t.ents[EntryAt(t, b, i)];
      e.data == Some(contents[key]) && e.keylen == |key|
  {
    hide Linked, Holds, Hash, BucketOk;
    InBucket(t, b, i);
    PlaceFinds(t, key, i, contents);
    if EntryAt(t, b, i) != 0 { KeyTest(t, b, EntryAt(t, b, i), key); }
  }

  // ----- changing one bucket

  /** Nothing but bucket `b` and the free entries is different. */
  predicate OthersKept(a: Table, c: Table, b: nat)
    requires Sized(a) && Sized(c)
  {
    && |c.heads| == |a.heads| && |a.ents| <= |c.ents|
    && (forall k :: 0 <= k < |a.heads| && k != b ==> c.heads[k] == a.heads[k] && c.chains[k] == a.chains[k])
    && (forall e :: 0 <= e < |a.ents| && a.home[e] < |a.heads| && a.home[e] != b ==>
      c.ents[e] == a.ents[e] && c.home[e] == a.home[e])
  }

  lemma OtherBucket(a: Table, c: Table, b: nat, k: nat)
    requires Whole(a) && Sized(c) && OthersKept(a, c, b) && k < |a.heads| && k != b
    ensures BucketOk(c, k) && c.chains[k] == a.chains[k]
    ensures forall e :: e in c.chains[k] ==> 0 < e < |a.ents| && c.ents[e] == a.ents[e]
  {
    hide Linked, Keyed, KeyAt;
    assert BucketOk(a, k);
    forall e | e in a.chains[k] ensures 0 < e < |a.ents| && c.ents[e] == a.ents[e] && c.home[e] == a.home[e] {
      assert EntryOk(a, k, e);
    }
    SameBucket(a, c, k);
  }

  /** The contents differ only in keys of bucket `b`. */
  ghost predicate SameElsewhere(t: Table, b: nat, before: map<string, Datum>, after: map<string, Datum>)
    requires Sized(t)
  {
    && (forall key :: key in before && Bucket(t, key) != b ==> key in after && after[key] == before[key])
    && (forall key :: key in after && Bucket(t, key) != b ==> key in before)
  }

  lemma OtherEntry(a: Table, c: Table, b: nat, k: nat, e: nat, before: map<string, Datum>, after: map<string, Datum>)
    requires Whole(a) && Holds(a, before) && Sized(c) && OthersKept(a, c, b) && k < |a.heads| && k != b
    requires SameElsewhere(a, b, before, after) && e in c.chains[k]
    ensures EntryIn(c, e, after)
  {
    hide Linked, Distinct;
    OtherBucket(a, c, b, k);
    assert BucketOk(a, k) && EntryOk(a, k, e) && EntryIn(a, e, before);
  }

  lemma OtherKey(a: Table, c: Table, b: nat, key: string, before: map<string, Datum>)
    requires Whole(a) && Holds(a, before) && Sized(c) && OthersKept(a, c, b) && Bucket(a, key) != b && key in before
    ensures Found(c, key)
  {
    hide Linked, Distinct, Keyed;
    OtherBucket(a, c, b, Bucket(a, key));
    assert Found(a, key);
    var e :| e in a.chains[Bucket(a, key)] && KeyAt(a, e) == key;
    assert KeyAt(c, e) == key;
  }

  /** A table with one bucket changed, and contents that fit that bucket. */
  lemma Rejoined(a: Table, c: Table, b: nat, before: map<string, Datum>, after: map<string, Datum>)
    requires Whole(a) && Holds(a, before) && Sized(c) && OthersKept(a, c, b) && b < |a.heads|
      && SameElsewhere(a, b, before, after)
    requires BucketOk(c, b) && FreeOk(c)
    requires forall e :: e in c.chains[b] ==> EntryIn(c, e, after)
    requires forall key :: key in after && Bucket(a, key) == b ==> Found(c, key)
    ensures Whole(c) && Holds(c, after)
  {
    hide BucketOk, FreeOk, EntryIn, Found, SameElsewhere, OthersKept;
    assert |c.heads| == |a.heads| by { SameSize(a, c, b); }
    forall k | 0 <= k < |c.heads| ensures BucketOk(c, k) {
      if k != b { OtherBucket(a, c, b, k); }
    }
    forall k, e | 0 <= k < |c.heads| && e in c.chains[k] ensures EntryIn(c, e, after) {
      if k != b { OtherEntry(a, c, b, k, e, before, after); }
    }
    forall key | key in after ensures Found(c, key) {
      if Bucket(a, key) != b {
        assert key in before by { WasThere(a, b, before, after, key); }
        OtherKey(a, c, b, key, before);
      }
    }
  }

  lemma SameSize(a: Table, c: Table, b: nat)
    requires Sized(a) && Sized(c) && OthersKept(a, c, b)
    ensures |c.heads| == |a.heads|
  {
  }

  lemma WasThere(t: Table, b: nat, before: map<string, Datum>, after: map<string, Datum>, key: string)
    requires Sized(t) && SameElsewhere(t, b, before, after) && key in after && Bucket(t, key) != b
    ensures key in before
  {
  }

  // ----- what the operations do to a table

  /** New data for an entry. */
  function Supersede(t: Table, e: nat, d: Datum): Table
    requires e < |t.ents|
  {
    t.(ents := t.ents[e := t.ents[e].(data := Some(d))])
  }

  /** The pointer in a slot changed. */
  function Point(t: Table, slot: Slot, e: nat): Table
    requires match slot case Head(b) => b < |t.heads| case After(d) => d < |t.ents|
  {
    match slot
    case Head(b) => t.(heads := t.heads[b := e])
    case After(d) => t.(ents := t.ents[d := t.ents[d].(next := e)])
  }

  /** An entry in nobody's list. */
  predicate InHand(t: Table, e: nat)
    requires Sized(t)
  {
    0 < e < |t.ents| && t.home[e] == |t.heads| + 1 && t.ents[e].next == 0
  }

  /** An entry in hand put in the slot at the end of a chain, and given its data. */
  function Hang(t: Table, slot: Slot, b: nat, e: nat, d: Datum, keylen: nat): Table
    requires Sized(t) && b < |t.heads| && e < |t.ents|
    requires match slot case Head(b) => b < |t.heads| case After(d) => d < |t.ents|
  {
    Point(t.(ents := t.ents[e := Ent(0, Some(d), keylen)]), slot, e).(chains := t.chains[b := t.chains[b] + [e]],
      home := t.home[e := b])
  }

  /** Entry `i` of a chain taken out of it and made reusable. */
  function Unhang(t: Table, slot: Slot, b: nat, i: nat): Table
    requires Sized(t) && b < |t.heads| && i < |t.chains[b]| && t.chains[b][i] < |t.ents|
    requires match slot case Head(b) => b < |t.heads| case After(d) => d < |t.ents|
  {
    var c := t.chains[b];
    var e := c[i];
    var p := Point(t, slot, t.ents[e].next);
    p.(ents := p.ents[e := Ent(t.reuse, None, t.ents[e].keylen)], reuse := e, free := [e] + t.free,
       chains := t.chains[b := c[..i] + c[i + 1..]], home := t.home[e := |t.heads|])
  }

  /** The data begins with the key. */
  predicate Suits(d: Datum, key: string) {
    |key| <= |d.text| && d.text[..|key|] == key
  }

  lemma SupersedeHolds(t: Table, key: string, i: nat, d: Datum, contents: map<string, Datum>)
    requires Whole(t) && Holds(t, contents) && Suits(d, key)
    requires i < |t.chains[Bucket(t, key)]| && Place(t, key, i) && t.chains[Bucket(t, key)][i] < |t.ents|
    requires t.ents[t.chains[Bucket(t, key)][i]].keylen == |key|
    ensures var u := Supersede(t, t.chains[Bucket(t, key)][i], d); Whole(u) && Holds(u, contents[key := d])
  {
    var b := Bucket(t, key);
    var c := t.chains[b];
    var e := c[i];
    var u, after := Supersede(t, e, d), contents[key := d];
    assert BucketOk(t, b);
    assert e in c;
    StillLinked(t.ents, u.ents, t.heads[b], c);
    StillLinked(t.ents, u.ents, t.reuse, t.free);
    assert KeyAt(u, e) == key;
    forall x | x in c ensures KeyAt(u, x) == KeyAt(t, x) && EntryOk(u, b, x) && EntryIn(u, x, after) {
      assert EntryOk(t, b, x) && EntryIn(t, x, contents);
    }
    assert BucketOk(u, b);
    forall k | k in after && Bucket(t, k) == b ensures Found(u, k) {
      if k != key {
        assert Found(t, k);
        var x :| x in c && KeyAt(t, x) == k;
      }
    }
    Rejoined(t, u, b, contents, after);
  }

  /** The chain after an entry in hand is hung at its end. */
  lemma HangChain(t: Table, slot: Slot, b: nat, e: nat, d: Datum, keylen: nat)
    requires Whole(t) && b < |t.heads| && InHand(t, e) && SlotAt(t, b, |t.chains[b]|, slot)
    ensures slot.After? ==> slot.ent < |t.ents|
    ensures var u := Hang(t, slot, b, e, d, keylen);
      && Linked(u.ents, u.heads[b], u.chains[b]) && Distinct(u.chains[b]) && u.ents[e] == Ent(0, Some(d), keylen)
      && (forall x :: x in t.chains[b] ==>
        x != e && x < |t.ents| && u.ents[x].data == t.ents[x].data && u.ents[x].keylen == t.ents[x].keylen)
      && (forall x :: 0 <= x < |t.ents| && x != e && (t.home[x] != b || x !in t.chains[b]) ==> u.ents[x] == t.ents[x])
  {
    hide Keyed, KeyAt, FreeOk;
    var c := t.chains[b];
    assert BucketOk(t, b);
    forall x | x in c ensures 0 < x < |t.ents| && x != e {
      assert EntryOk(t, b, x);
    }
    var one := t.ents[e := Ent(0, Some(d), keylen)];
    StillLinked(t.ents, one, t.heads[b], c);
    LinkedBack(one, t.heads[b], c, e);
    if c != [] { assert c[|c| - 1] in c; }
  }

  lemma HangHolds(t: Table, slot: Slot, e: nat, key: string, d: Datum, contents: map<string, Datum>)
    requires Whole(t) && Holds(t, contents) && Suits(d, key) && InHand(t, e) && key !in contents
    requires var b := Bucket(t, key); SlotAt(t, b, |t.chains[b]|, slot) && (slot.After? ==> slot.ent < |t.ents|)
    ensures var u := Hang(t, slot, Bucket(t, key), e, d, |key|); Whole(u) && Holds(u, contents[key := d])
  {
    var b := Bucket(t, key);
    var u, after := Hang(t, slot, b, e, d, |key|), contents[key := d];
    HangChain(t, slot, b, e, d, |key|);
    HangEntries(t, slot, e, key, d, contents);
    HangElsewhere(t, slot, e, key, d);
    hide Hang, Linked, Keyed, KeyAt, EntryIn, Found, Holds;
    Rejoined(t, u, b, contents, after);
  }

  lemma HangElsewhere(t: Table, slot: Slot, e: nat, key: string, d: Datum)
    requires Whole(t) && InHand(t, e)
    requires var b := Bucket(t, key); SlotAt(t, b, |t.chains[b]|, slot) && (slot.After? ==> slot.ent < |t.ents|)
    ensures var u := Hang(t, slot, Bucket(t, key), e, d, |key|);
      Sized(u) && OthersKept(t, u, Bucket(t, key)) && FreeOk(u)
  {
    hide Linked, Keyed, KeyAt;
    var b := Bucket(t, key);
    var u := Hang(t, slot, b, e, d, |key|);
    assert BucketOk(t, b);
    if slot.After? {
      assert slot.ent in t.chains[b];
      assert EntryOk(t, b, slot.ent);
    }
    StillLinked(t.ents, u.ents, t.reuse, t.free);
  }

  lemma HangEntries(t: Table, slot: Slot, e: nat, key: string, d: Datum, contents: map<string, Datum>)
    requires Whole(t) && Holds(t, contents) && Suits(d, key) && InHand(t, e) && key !in contents
    requires var b := Bucket(t, key); SlotAt(t, b, |t.chains[b]|, slot) && (slot.After? ==> slot.ent < |t.ents|)
    ensures var b, u := Bucket(t, key), Hang(t, slot, Bucket(t, key), e, d, |key|);
      && Sized(u) && BucketOk(u, b)
      && (forall x :: x in u.chains[b] ==> EntryIn(u, x, contents[key := d]))
      && (forall k :: k in contents[key := d] && Bucket(t, k) == b ==> Found(u, k))
  {
    var b := Bucket(t, key);
    var c := t.chains[b];
    var u, after := Hang(t, slot, b, e, d, |key|), contents[key := d];
    HangChain(t, slot, b, e, d, |key|);
    assert BucketOk(t, b);
    hide Linked, Hang;
    assert u.chains[b] == c + [e] && |u.heads| == |t.heads| && |u.ents| == |t.ents|
      && u.home == t.home[e := b] by { HangShape(t, slot, b, e, d, |key|); }
    assert KeyAt(u, e) == key;
    forall x | x in c ensures KeyAt(u, x) == KeyAt(t, x) != key && EntryOk(u, b, x) && EntryIn(u, x, after) {
      assert EntryOk(t, b, x) && EntryIn(t, x, contents);
    }
    assert EntryOk(u, b, e) && EntryIn(u, e, after);
    hide EntryOk, EntryIn, KeyAt, Keyed;
    forall k | k in after && Bucket(t, k) == b ensures Found(u, k) {
      if k != key {
        assert Found(t, k);
        var x :| x in c && KeyAt(t, x) == k;
        assert x in u.chains[b];
      } else {
        assert e in u.chains[b];
      }
    }
  }

  lemma HangShape(t: Table, slot: Slot, b: nat, e: nat, d: Datum, keylen: nat)
    requires Sized(t) && b < |t.heads| && e < |t.ents|
    requires match slot case Head(b) => b < |t.heads| case After(d) => d < |t.ents|
    ensures var u := Hang(t, slot, b, e, d, keylen);
      && u.chains == t.chains[b := t.chains[b] + [e]] && |u.heads| == |t.heads| && |u.ents| == |t.ents|
      && u.home == t.home[e := b] && u.free == t.free && u.reuse == t.reuse
  {
  }

  lemma UnhangShape(t: Table, slot: Slot, b: nat, i: nat)
    requires Sized(t) && b < |t.heads| && i < |t.chains[b]| && t.chains[b][i] < |t.ents|
    requires match slot case Head(b) => b < |t.heads| case After(d) => d < |t.ents|
    ensures var u, c := Unhang(t, slot, b, i), t.chains[b];
      && u.chains == t.chains[b := c[..i] + c[i + 1..]] && |u.heads| == |t.heads| && |u.ents| == |t.ents|
      && u.home == t.home[c[i] := |t.heads|] && u.free == [c[i]] + t.free && u.reuse == c[i]
  {
  }

  /** The chain and the reusable entries after entry `i` is taken out. */
  lemma UnhangLists(t: Table, slot: Slot, b: nat, i: nat)
    requires Whole(t) && b < |t.heads| && i < |t.chains[b]| && SlotAt(t, b, i, slot)
    ensures t.chains[b][i] < |t.ents| && (slot.After? ==> slot.ent < |t.ents|)
    ensures var u, c := Unhang(t, slot, b, i), t.chains[b];
      && Linked(u.ents, u.heads[b], c[..i] + c[i + 1..]) && Distinct(c[..i] + c[i + 1..]) && FreeOk(u)
      && (forall x :: x in c[..i] + c[i + 1..] <==> x in c && x != c[i])
      && (forall x :: x in c && x != c[i] ==>
        x < |t.ents| && u.ents[x].data == t.ents[x].data && u.ents[x].keylen == t.ents[x].keylen)
      && (forall x :: 0 <= x < |t.ents| && x !in c ==> u.ents[x] == t.ents[x])
  {
    hide Keyed, KeyAt;
    var c := t.chains[b];
    var e := c[i];
    assert BucketOk(t, b);
    forall x | x in c ensures 0 < x < |t.ents| && t.home[x] == b {
      assert EntryOk(t, b, x);
    }
    assert e in c;
    if i > 0 { assert c[i - 1] in c; }
    LinkedWithout(t.ents, t.heads[b], c, i);
    var rest := c[..i] + c[i + 1..];
    Without(c, i);
    assert i == 0 ==> rest == c[1..];
    var p := Point(t, slot, t.ents[e].next);
    var u := Unhang(t, slot, b, i);
    StillLinked(p.ents, u.ents, p.heads[b], rest);
    StillLinked(t.ents, p.ents, t.reuse, t.free);
    LinkedFront(p.ents[e := Ent(0, None, t.ents[e].keylen)], t.reuse, t.free, e) by {
      StillLinked(p.ents, p.ents[e := Ent(0, None, t.ents[e].keylen)], t.reuse, t.free);
    }
    assert u.ents == p.ents[e := Ent(0, None, t.ents[e].keylen)][e := Ent(t.reuse, None, t.ents[e].keylen)];
  }

  /** A list without repetitions, and without one of its entries. */
  lemma Without(c: seq<nat>, i: nat)
    requires Distinct(c) && i < |c|
    ensures var rest := c[..i] + c[i + 1..]; Distinct(rest) && forall x :: x in rest <==> x in c && x != c[i]
  {
    var rest := c[..i] + c[i + 1..];
    forall x | x in c && x != c[i] ensures x in rest {
      var j :| 0 <= j < |c| && c[j] == x;
      assert rest[if j < i then j else j - 1] == x;
    }
  }

  lemma UnhangEntries(t: Table, slot: Slot, u: Table, key: string, i: nat, contents: map<string, Datum>)
    requires Whole(t) && Holds(t, contents) && i < |t.chains[Bucket(t, key)]| && Place(t, key, i)
      && SlotAt(t, Bucket(t, key), i, slot)
    requires t.chains[Bucket(t, key)][i] < |t.ents| && (slot.After? ==> slot.ent < |t.ents|)
    requires u == Unhang(t, slot, Bucket(t, key), i)
    ensures var b := Bucket(t, key);
      && Sized(u) && BucketOk(u, b)
      && (forall x :: x in u.chains[b] ==> EntryIn(u, x, contents - {key}))
      && (forall k :: k in contents - {key} && Bucket(t, k) == b ==> Found(u, k))
  {
    hide Unhang, Linked, Keyed, KeyAt, EntryIn, EntryOk, FreeOk;
    var b := Bucket(t, key);
    var c := t.chains[b];
    UnhangLists(t, slot, b, i);
    UnhangShape(t, slot, b, i);
    assert BucketOk(t, b);
    assert c[i] in c;
    forall x | x in c && x != c[i] ensures KeyAt(u, x) == KeyAt(t, x) && EntryOk(u, b, x)
      && EntryIn(u, x, contents - {key}) {
      UnhangEntry(t, u, b, key, c[i], x, contents);
    }
    assert u.chains[b] == c[..i] + c[i + 1..];
    forall x, y | x in u.chains[b] && y in u.chains[b] && x != y ensures KeyAt(u, x) != KeyAt(u, y) {
      assert x in c && y in c;
    }
    forall k | k in contents - {key} && Bucket(t, k) == b ensures Found(u, k) {
      assert Found(t, k);
      var x :| x in c && KeyAt(t, x) == k;
      assert x in u.chains[b];
    }
  }

  /** Another entry of the chain. */
  lemma UnhangEntry(t: Table, u: Table, b: nat, key: string, e: nat, x: nat, contents: map<string, Datum>)
    requires Whole(t) && Holds(t, contents) && Sized(u) && |u.heads| == |t.heads| && |u.ents| == |t.ents|
      && b < |t.heads|
    requires e in t.chains[b] && x in t.chains[b] && x != e && KeyAt(t, e) == key
    requires e < |t.home| && u.home == t.home[e := |t.heads|]
    requires x < |t.ents| && u.ents[x].data == t.ents[x].data && u.ents[x].keylen == t.ents[x].keylen
    ensures KeyAt(u, x) == KeyAt(t, x) != key && EntryOk(u, b, x) && EntryIn(u, x, contents - {key})
  {
    hide Linked, Distinct;
    assert BucketOk(t, b);
    assert EntryOk(t, b, x) && EntryIn(t, x, contents);
  }

  lemma ContentsWithout(t: Table, key: string, contents: map<string, Datum>)
    requires Sized(t)
    ensures SameElsewhere(t, Bucket(t, key), contents, contents - {key})
  {
  }

  lemma UnhangHolds(t: Table, slot: Slot, key: string, i: nat, contents: map<string, Datum>)
    requires Whole(t) && Holds(t, contents) && i < |t.chains[Bucket(t, key)]| && Place(t, key, i)
      && SlotAt(t, Bucket(t, key), i, slot)
    ensures t.chains[Bucket(t, key)][i] < |t.ents| && (slot.After? ==> slot.ent < |t.ents|)
    ensures var u := Unhang(t, slot, Bucket(t, key), i); Whole(u) && Holds(u, contents - {key})
  {
    hide Unhang, Linked, Keyed, KeyAt, EntryIn, Found, Holds, BucketOk, OthersKept, SameElsewhere;
    var b := Bucket(t, key);
    UnhangLists(t, slot, b, i);
    UnhangShape(t, slot, b, i);
    var u := Unhang(t, slot, b, i);
    UnhangEntries(t, slot, u, key, i, contents);
    UnhangElsewhere(t, slot, b, i);
    ContentsWithout(t, key, contents);
    Rejoined(t, u, b, contents, contents - {key});
  }

  lemma UnhangElsewhere(t: Table, slot: Slot, b: nat, i: nat)
    requires Whole(t) && b < |t.heads| && i < |t.chains[b]| && SlotAt(t, b, i, slot)
    requires t.chains[b][i] < |t.ents| && (slot.After? ==> slot.ent < |t.ents|)
    ensures Sized(Unhang(t, slot, b, i)) && OthersKept(t, Unhang(t, slot, b, i), b)
  {
    hide Linked, Keyed, KeyAt;
    UnhangLists(t, slot, b, i);
    UnhangShape(t, slot, b, i);
    assert BucketOk(t, b);
    forall x | x in t.chains[b] ensures 0 < x < |t.ents| && t.home[x] == b {
      assert EntryOk(t, b, x);
    }
  }

  // ----- the reusable entries

  /** No chain is different. */
  predicate ChainsKept(a: Table, c: Table)
    requires Sized(a) && Sized(c)
  {
    && c.heads == a.heads && c.chains == a.chains && |a.ents| <= |c.ents|
    && forall e :: 0 <= e < |a.ents| && a.home[e] < |a.heads| ==> c.ents[e] == a.ents[e] && c.home[e] == a.home[e]
  }

  lemma ChainsKeptHold(a: Table, c: Table, contents: map<string, Datum>)
    requires Whole(a) && Holds(a, contents) && Sized(c) && ChainsKept(a, c) && FreeOk(c)
    ensures Whole(c) && Holds(c, contents)
  {
    hide Linked, Keyed, KeyAt;
    assert BucketOk(a, 0);
    forall e | e in a.chains[0] ensures 0 < e < |a.ents| && c.ents[e] == a.ents[e] && c.home[e] == a.home[e] {
      assert EntryOk(a, 0, e);
    }
    SameBucket(a, c, 0);
    forall e | e in c.chains[0] ensures EntryIn(c, e, contents) {
      assert EntryIn(a, e, contents);
      SameEntry(a, c, e, contents);
    }
    forall key | key in contents && Bucket(a, key) == 0 ensures Found(c, key) {
      assert Found(a, key);
      var e :| e in a.chains[0] && KeyAt(a, e) == key;
      SameEntry(a, c, e, contents);
    }
    hide EntryIn, Found, BucketOk, FreeOk, Holds;
    Rejoined(a, c, 0, contents, contents);
  }

  lemma SameEntry(a: Table, c: Table, e: nat, contents: map<string, Datum>)
    requires e < |a.ents| <= |c.ents| && c.ents[e] == a.ents[e]
    ensures KeyAt(c, e) == KeyAt(a, e) && EntryIn(c, e, contents) == EntryIn(a, e, contents)
  {
  }

  function Range(n: nat, k: nat): (s: seq<nat>)
    ensures |s| == k && forall i :: 0 <= i < k ==> s[i] == n + i
  {
    seq(k, i requires 0 <= i < k => n + i)
  }

  /** A block of new entries, each linked to the next. */
  function Block(n: nat): (s: seq<Ent>)
    ensures |s| == HEBLOCKSIZE
  {
    seq(HEBLOCKSIZE, i requires 0 <= i < HEBLOCKSIZE => Ent(if i < HEBLOCKSIZE - 1 then n + i + 1 else 0, None, 0))
  }

  function Grow(t: Table): Table {
    var n := |t.ents|;
    t.(ents := t.ents + Block(n), reuse := n, free := Range(n, HEBLOCKSIZE),
      home := t.home + seq(HEBLOCKSIZE, _ => |t.heads|))
  }

  lemma GrowHolds(t: Table, contents: map<string, Datum>)
    requires Whole(t) && Holds(t, contents)
    ensures Whole(Grow(t)) && Holds(Grow(t), contents) && ChainsKept(t, Grow(t)) && Grow(t).free != []
  {
    hide BucketOk, Holds, EntryIn, Found;
    var u := Grow(t);
    forall i | 0 <= i < |u.free| ensures LinkAt(u.ents, u.free, i) {
    }
    ChainsKeptHold(t, u, contents);
  }

  /** The first reusable entry taken off its list. */
  function Take(t: Table): Table
    requires Sized(t) && t.free != [] && t.reuse < |t.ents|
  {
    t.(ents := t.ents[t.reuse := t.ents[t.reuse].(next := 0)], reuse := t.ents[t.reuse].next, free := t.free[1..],
       home := t.home[t.reuse := |t.heads| + 1])
  }

  lemma TakeHolds(t: Table, contents: map<string, Datum>)
    requires Whole(t) && Holds(t, contents) && t.free != []
    ensures t.reuse < |t.ents| && t.reuse == t.free[0]
    ensures Whole(Take(t)) && Holds(Take(t), contents) && ChainsKept(t, Take(t)) && InHand(Take(t), t.reuse)
  {
    hide BucketOk, Holds, EntryIn, Found;
    assert t.free[0] in t.free;
    LinkedTail(t.ents, t.reuse, t.free);
    var u := Take(t);
    forall x | x in u.free ensures x in t.free && x != t.reuse {
      var i :| 0 <= i < |u.free| && u.free[i] == x;
      assert t.free[i + 1] == x;
    }
    StillLinked(t.ents, u.ents, u.reuse, u.free);
    ChainsKeptHold(t, u, contents);
  }

  // ----- the operations

  /** A newly made table. */
  function Fresh(size: nat): Table
    requires 0 < size
  {
    Table(seq(size, _ => 0), [Ent(0, None, 0)], 0, seq(size, _ => []), [], [size + 1])
  }

  lemma FreshHolds(size: nat)
    requires 0 < size
    ensures Whole(Fresh(size)) && Holds(Fresh(size), map[])
  {
    var t := Fresh(size);
    forall b | 0 <= b < size ensures BucketOk(t, b) {
      assert t.chains[b] == [];
    }
  }

  class HashTable {
    var htAddr: seq<nat>       // the first entry of each chain
    var ents: seq<Ent>         // the memory of the entries
    var hereuse: nat           // the first reusable entry
    var lastNextp: Slot        // where the last fetch looked
    var lastKeylen: nat
    ghost var chains: seq<seq<nat>>
    ghost var free: seq<nat>
    ghost var home: seq<nat>
    ghost var contents: map<string, Datum>
    ghost var lastKey: string  // the key of the last fetch

    ghost function State(): Table
      reads this
    {
      Table(htAddr, ents, hereuse, chains, free, home)
    }

    ghost predicate Valid()
      reads this
    {
      Whole(State()) && Holds(State(), contents)
    }

    /** The slot that was remembered is where `lastKey` is, or where it would go. */
    ghost predicate Remembers()
      requires Valid()
      reads this
    {
      lastKeylen == |lastKey| && At(lastKey, lastNextp)
    }

    ghost predicate At(key: string, slot: Slot)
      requires Valid()
      reads this
    {
      exists i :: 0 <= i <= |chains[Bucket(State(), key)]| && SlotOf(key, slot, i)
    }

    ghost predicate SlotOf(key: string, slot: Slot, i: nat)
      requires Sized(State()) && i <= |chains[Bucket(State(), key)]|
      reads this
    {
      Place(State(), key, i) && SlotAt(State(), Bucket(State(), key), i, slot)
    }

    /** hashcreate. */
    constructor (size: nat)
      ensures Valid() && contents == map[] && |htAddr| == if size < 1 then 1 else size
    {
      var n := if size < 1 then 1 else size;
      htAddr, ents, hereuse := seq(n, _ => 0), [Ent(0, None, 0)], 0;
      lastNextp, lastKeylen := Head(0), 0;
      chains, free, home, contents, lastKey := seq(n, _ => []), [], [n + 1], map[], "";
      new;
      FreshHolds(n);
      assert State() == Fresh(n);
    }

    /** hashfind: the slot that points to the entry of a key, or to nothing at the end of its chain. */
    method HashFind(key: string) returns (slot: Slot, hp: nat, ghost i: nat)
      requires Valid()
      ensures i <= |chains[Bucket(State(), key)]| && SlotOf(key, slot, i)
      ensures hp == EntryAt(State(), Bucket(State(), key), i) && (slot.After? ==> slot.ent < |ents|) && hp < |ents|
      ensures hp != 0 <==> key in contents
      ensures hp != 0 ==> ents[hp].data == Some(contents[key]) && ents[hp].keylen == |key|
    {
      hide Holds, Linked, Hash, BucketOk, Passed, KeyAt, EntryAt, EntryOk;
      ghost var t := State();
      var b := Hash(key) % |htAddr|;
      assert BucketOk(t, b);
      i, slot, hp := 0, Head(b), htAddr[b];
      DerefAt(t, b, 0);
      StartsPassed(t, key, b);
      while hp != 0
        invariant i <= |chains[b]| && hp == EntryAt(t, b, i) && SlotAt(t, b, i, slot)
          && (slot.After? ==> slot.ent < |ents|)
        invariant Passed(t, key, b, i)
        decreases |chains[b]| - i
      {
        InBucket(t, b, i);
        EntryInChain(t, b, i);
        KeyTest(t, b, hp, key);
        if ents[hp].keylen == |key| && Key(ents[hp]) == key { break; }
        PassOne(t, key, b, i);
        i, slot := i + 1, After(hp);
        DerefAt(t, b, i);
        hp := ents[hp].next;
      }
      SearchEnds(t, key, b, i, contents);
    }

    /** healloc: an entry off the list of reusable ones, after making a block of them when there are none. */
    method HeAlloc() returns (hp: nat)
      requires Valid()
      modifies this`ents, this`hereuse, this`free, this`home
      ensures Valid() && InHand(State(), hp) && ChainsKept(old(State()), State())
    {
      hide Holds, Linked, FreeOk, BucketOk;
      NoneFree(State());
      if hereuse == 0 {
        GrowHolds(State(), contents);
        ghost var unused := |htAddr|;
        free, home := Range(|ents|, HEBLOCKSIZE), home + seq(HEBLOCKSIZE, _ => unused);
        hereuse, ents := |ents|, ents + Block(|ents|);
        assert State() == Grow(old(State()));
      }
      ghost var half := State();
      NoneFree(half);
      TakeHolds(half, contents);
      hp := hereuse;
      hereuse := ents[hp].next;
      ents := ents[hp := ents[hp].(next := 0)];
      free, home := free[1..], home[hp := |htAddr| + 1];
      assert State() == Take(half);
      KeptTwice(old(State()), half, State());
    }

    method SetSlot(slot: Slot, hp: nat)
      requires match slot case Head(b) => b < |htAddr| case After(d) => d < |ents|
      modifies this`htAddr, this`ents
      ensures htAddr == (if slot.Head? then old(htAddr)[slot.bucket := hp] else old(htAddr))
      ensures ents == (if slot.After? then old(ents)[slot.ent := old(ents)[slot.ent].(next := hp)] else old(ents))
    {
      match slot
      case Head(b) => htAddr := htAddr[b := hp];
      case After(d) => ents := ents[d := ents[d].(next := hp)];
    }

    /** Data stored through a slot: in the entry it points to, or in a new entry put there. */
    method StoreIn(slot: Slot, keylen: nat, data: Datum, ghost key: string, ghost i: nat)
      requires Valid() && keylen == |key| && Suits(data, key)
      requires i <= |chains[Bucket(State(), key)]| && SlotOf(key, slot, i)
      modifies this`htAddr, this`ents, this`hereuse, this`chains, this`free, this`home, this`contents
      ensures Valid() && contents == old(contents)[key := data]
    {
      hide Holds, Linked, Hash, FreeOk, Keyed;
      ghost var b := Bucket(State(), key);
      assert BucketOk(State(), b);
      DerefAt(State(), b, i);
      PlaceFinds(State(), key, i, contents);
      PlacedEntry(State(), key, i);
      var hp := match slot case Head(n) => htAddr[n] case After(e) => ents[e].next;
      if hp == 0 {
        hp := StoreNew(slot, keylen, data, key);
      } else {
        SupersedeHolds(State(), key, i, data, contents);
        ents := ents[hp := ents[hp].(data := Some(data))];
        contents := contents[key := data];
        assert State() == Supersede(old(State()), hp, data);
      }
    }

    method StoreNew(slot: Slot, keylen: nat, data: Datum, ghost key: string) returns (hp: nat)
      requires Valid() && keylen == |key| && Suits(data, key) && key !in contents
      requires SlotOf(key, slot, |chains[Bucket(State(), key)]|)
      modifies this`htAddr, this`ents, this`hereuse, this`chains, this`free, this`home, this`contents
      ensures Valid() && contents == old(contents)[key := data]
    {
      hide Holds, Linked, Hash, FreeOk, Keyed, BucketOk, Hang, Point;
      ghost var b := Bucket(State(), key);
      hp := HeAlloc();
      label Allocated:
      ghost var t := State();
      HangChain(t, slot, b, hp, data, keylen);
      HangHolds(t, slot, hp, key, data, contents);
      ents := ents[hp := Ent(0, None, keylen)];
      SetSlot(slot, hp);
      ents := ents[hp := ents[hp].(data := Some(data))];
      chains, home, contents := chains[b := chains[b] + [hp]], home[hp := b], contents[key := data];
      assert slot != After(hp) by { NotInHand(t, slot, b, hp); }
      HangIs(t, State(), slot, b, hp, data, keylen);
    }

    /** hashstore. */
    method HashStore(key: string, data: Datum)
      requires Valid() && Suits(data, key)
      modifies this`htAddr, this`ents, this`hereuse, this`chains, this`free, this`home, this`contents
      ensures Valid() && contents == old(contents)[key := data]
    {
      hide Holds, FreeOk, BucketOk, Hash;
      var slot, _, i := HashFind(key);
      StoreIn(slot, |key|, data, key, i);
    }

    /** hashfetch: the data of a key, and the slot remembered. */
    method HashFetch(key: string) returns (data: Option<Datum>)
      requires Valid()
      modifies this`lastNextp, this`lastKeylen, this`lastKey
      ensures Valid() && Remembers() && lastKey == key
      ensures data == if key in contents then Some(contents[key]) else None
    {
      hide Holds, FreeOk, BucketOk, Hash;
      var slot, hp, i := HashFind(key);
      lastNextp, lastKeylen, lastKey := slot, |key|, key;
      assert SlotOf(key, slot, i);
      data := if hp == 0 then None else ents[hp].data;
    }

    /** hashstorelast: storing under the key that was last fetched does what hashstore does. */
    method HashStoreLast(data: Datum)
      requires Valid() && Remembers() && Suits(data, lastKey)
      modifies this`htAddr, this`ents, this`hereuse, this`chains, this`free, this`home, this`contents
      ensures Valid() && contents == old(contents)[lastKey := data]
    {
      hide Holds, FreeOk, BucketOk, Hash;
      ghost var i :| 0 <= i <= |chains[Bucket(State(), lastKey)]| && SlotOf(lastKey, lastNextp, i);
      StoreIn(lastNextp, lastKeylen, data, lastKey, i);
    }

    /** An entry taken out through the slot that points to it. */
    method RemoveIn(slot: Slot, hp: nat, ghost key: string, ghost i: nat)
      requires Valid() && i < |chains[Bucket(State(), key)]| && SlotOf(key, slot, i)
        && hp == chains[Bucket(State(), key)][i]
      modifies this`htAddr, this`ents, this`hereuse, this`chains, this`free, this`home, this`contents
      ensures Valid() && contents == old(contents) - {key}
      ensures hp < |old(ents)| && (slot.After? ==> slot.ent < |old(ents)|)
      ensures State() == Unhang(old(State()), slot, Bucket(old(State()), key), i)
    {
      hide Holds, Linked, Hash, FreeOk, Keyed, BucketOk;
      ghost var b := Bucket(State(), key);
      UnhangHolds(State(), slot, key, i, contents);
      SetSlot(slot, ents[hp].next);
      ents := ents[hp := Ent(hereuse, None, ents[hp].keylen)];
      chains, free := chains[b := chains[b][..i] + chains[b][i + 1..]], [hp] + free;
      hereuse, home, contents := hp, home[hp := |htAddr|], contents - {key};
    }

    /** hashdelete. */
    method HashDelete(key: string)
      requires Valid()
      modifies this`htAddr, this`ents, this`hereuse, this`chains, this`free, this`home, this`contents
      ensures Valid() && contents == old(contents) - {key}
    {
      hide Holds, FreeOk, BucketOk, Hash;
      var slot, hp, i := HashFind(key);
      if hp == 0 { return; }
      PlacedEntry(State(), key, i);
      RemoveIn(slot, hp, key, i);
    }

    /** One visit of hashwalk: the entry is taken out, or keeps what the visit left there, and its slot becomes the one
        that points to the next. */
    method VisitOne(b: nat, hp: nat, visit: Visit, ghost i: nat)
      requires Valid() && b < |htAddr| && hp != 0 && i <= |chains[b]| && hp == EntryAt(State(), b, i)
        && SlotAt(State(), b, i, lastNextp) && KeepsKeys(visit)
      modifies this`htAddr, this`ents, this`hereuse, this`chains, this`free, this`home, this`contents, this`lastNextp
      ensures Valid() && |htAddr| == |old(htAddr)| && AfterVisit(old(State()), State(), old(lastNextp), b, i, visit)
      ensures SlotAt(State(), b, if Stays(old(State()), hp, visit) then i + 1 else i, lastNextp)
    {
      hide Holds, FreeOk, BucketOk, Hash, Linked, Unhang, Keyed, KeyAt, LinkAt, Bucket, Place, Kept, Distinct,
        SlotAt;
      ghost var t := State();
      WalkAt(t, b, i, contents);
      DerefSlot(t, b, i, lastNextp);
      var v := visit(ents[hp].keylen, ents[hp].data.value);
      if v.result < 0 {
        UnhangShape(t, lastNextp, b, i);
        RemoveIn(lastNextp, hp, KeyAt(t, hp), i);
        SlotGone(t, State(), b, i, lastNextp);
      } else {
        StaysKeyed(t, hp, visit);
        SupersedeHolds(t, KeyAt(t, hp), i, v.data, contents);
        contents := contents[KeyAt(t, hp) := v.data];
        ents := ents[hp := ents[hp].(data := Some(v.data))];
        assert State() == Supersede(t, hp, v.data);
        lastNextp := After(hp);
        SlotNext(State(), b, i);
      }
    }

    /** Within chain `b`, which was `c` in `t0`, `done` entries have been visited, `hp` is next, and `lastNextp`
        points to it. The entries of `seen` were visited before, in other chains. */
    ghost predicate Walking(t0: Table, seen: set<nat>, b: nat, c: seq<nat>, done: nat, hp: nat, visit: Visit)
      reads this
    {
      && Valid() && b < |htAddr| == |t0.heads| && Whole(t0) && c == t0.chains[b] && Elsewhere(t0, seen, b)
      && done <= |c| && Followed(t0, State(), seen + First(c, done), visit)
      && chains == chains[b := Kept(t0, c[..done], visit) + c[done..]]
      && var i := |Kept(t0, c[..done], visit)|; SlotAt(State(), b, i, lastNextp) && hp == EntryAt(State(), b, i)
    }

    /** One step of the loop over a chain. */
    method WalkOne(ghost t0: Table, ghost seen: set<nat>, b: nat, ghost c: seq<nat>, ghost done: nat, hp: nat,
        visit: Visit) returns (next: nat)
      requires Walking(t0, seen, b, c, done, hp, visit) && hp != 0 && KeepsKeys(visit)
      modifies this`htAddr, this`ents, this`hereuse, this`chains, this`free, this`home, this`contents, this`lastNextp
      ensures done < |c| && Walking(t0, seen, b, c, done + 1, next, visit) && |htAddr| == |old(htAddr)|
      ensures chains == old(chains)[b := chains[b]]
    {
      hide Holds, FreeOk, BucketOk, Hash, Linked, Followed, Keyed, KeyAt, Kept, Place, Distinct, Sum, Key, EntryOk,
        EntryIn, Bucket, Elsewhere, First, Stays, AfterVisit, KeepsKeys;
      ghost var t, slot, i := State(), lastNextp, |Kept(t0, c[..done], visit)|;
      WalkAt(t, b, i, contents);
      next := ents[hp].next;
      VisitOne(b, hp, visit, i);
      KeptStep(t0, t, State(), seen, slot, b, c, done, visit);
    }

    lemma BeginsWalking(t0: Table, seen: set<nat>, b: nat, visit: Visit)
      requires Valid() && b < |htAddr| == |t0.heads| && Whole(t0) && Elsewhere(t0, seen, b)
      requires Followed(t0, State(), seen, visit) && chains[b] == t0.chains[b] && lastNextp == Head(b)
      ensures Walking(t0, seen, b, t0.chains[b], 0, htAddr[b], visit)
    {
      hide Holds, FreeOk, BucketOk, Followed, Elsewhere, First, Kept;
      StartWalk(t0, State(), seen, b, visit);
    }

    lemma EndsWalking(t0: Table, seen: set<nat>, b: nat, c: seq<nat>, done: nat, visit: Visit)
      requires Walking(t0, seen, b, c, done, 0, visit)
      ensures Valid() && done == |c| && Followed(t0, State(), seen + First(c, |c|), visit)
      ensures b < |chains| && chains == chains[b := Kept(t0, c, visit)]
    {
      hide Holds, FreeOk, BucketOk, Followed, Elsewhere, First, Kept, SlotAt;
      EndWalk(t0, State(), b, c, done, visit);
    }

    lemma StillWalking(t0: Table, seen: set<nat>, b: nat, c: seq<nat>, done: nat, hp: nat, visit: Visit)
      requires Walking(t0, seen, b, c, done, hp, visit)
      ensures Valid() && b < |htAddr| && |chains| == |htAddr| && done <= |c|
    {
      hide Holds, FreeOk, BucketOk, Followed, Elsewhere, First, Kept, SlotAt, EntryAt;
    }

    /** One chain of hashwalk: each entry is visited, and those for which the visit says so are taken out. */
    method WalkChain(ghost t0: Table, ghost seen: set<nat>, b: nat, visit: Visit)
      requires Valid() && b < |htAddr| == |t0.heads| && Whole(t0) && Elsewhere(t0, seen, b) && KeepsKeys(visit)
      requires Followed(t0, State(), seen, visit) && chains[b] == t0.chains[b]
      modifies this`htAddr, this`ents, this`hereuse, this`chains, this`free, this`home, this`contents, this`lastNextp
      ensures Valid() && |htAddr| == |old(htAddr)|
      ensures Followed(t0, State(), seen + First(t0.chains[b], |t0.chains[b]|), visit)
      ensures chains == old(chains)[b := Kept(t0, t0.chains[b], visit)]
    {
      hide Holds, FreeOk, BucketOk, Followed, Kept, Elsewhere, First, KeepsKeys, Walking;
      ghost var c, done := t0.chains[b], 0;
      lastNextp := Head(b);
      var hp := htAddr[b];
      BeginsWalking(t0, seen, b, visit);
      while hp != 0
        invariant done <= |c| && Walking(t0, seen, b, c, done, hp, visit) && |htAddr| == |old(htAddr)|
        invariant b < |chains| == |old(chains)| && chains == old(chains)[b := chains[b]]
        decreases |c| - done
      {
        hp := WalkOne(t0, seen, b, c, done, hp, visit);
        done := done + 1;
        StillWalking(t0, seen, b, c, done, hp, visit);
      }
      EndsWalking(t0, seen, b, c, done, visit);
    }

    /**
     * hashwalk: every entry is visited, and those that the visit does not reject stay, in the chains and in the order
     * they were in, with the data that the visit left there.
     */
    method HashWalk(visit: Visit)
      requires Valid() && KeepsKeys(visit)
      modifies this`htAddr, this`ents, this`hereuse, this`chains, this`free, this`home, this`contents, this`lastNextp
      ensures Valid() && |chains| == |old(chains)|
      ensures forall b :: 0 <= b < |chains| ==> chains[b] == Kept(old(State()), old(chains)[b], visit)
      ensures contents ==
        map k | k in old(contents) && 0 <= visit(|k|, old(contents)[k]).result :: visit(|k|, old(contents)[k]).data
    {
      hide Holds, FreeOk, BucketOk, Hash, Linked, Followed, Keyed, KeyAt, Kept, KeepsKeys, SeenBelow;
      ghost var t0, seen: set<nat> := State(), {};
      NoneSeen(t0, visit);
      for b := 0 to |htAddr|
        invariant Valid() && |htAddr| == |t0.heads| && Followed(t0, State(), seen, visit)
        invariant SeenBelow(t0, seen, b)
        invariant forall k :: 0 <= k < b ==> chains[k] == Kept(t0, t0.chains[k], visit)
        invariant forall k :: b <= k < |chains| ==> chains[k] == t0.chains[k]
      {
        BelowElsewhere(t0, seen, b);
        WalkChain(t0, seen, b, visit);
        MoreSeen(t0, seen, b);
        seen := seen + First(t0.chains[b], |t0.chains[b]|);
      }
      WalkLeaves(t0, State(), seen, old(contents), contents, visit);
    }
  }

  lemma {:induction false} KeptStays(t: Table, c: seq<nat>, visit: Visit)
    ensures forall e :: e in Kept(t, c, visit) <==> e in c && Stays(t, e, visit)
  {
    if c != [] {
      KeptStays(t, c[..|c| - 1], visit);
      assert c == c[..|c| - 1] + [c[|c| - 1]];
    }
  }

  /** When each chain is down to the entries that stay, the contents are what the visit left of them. */
  lemma WalkLeaves(a: Table, t: Table, seen: set<nat>, before: map<string, Datum>, after: map<string, Datum>,
      visit: Visit)
    requires Whole(a) && Holds(a, before) && Whole(t) && Holds(t, after) && Followed(a, t, seen, visit)
      && KeepsKeys(visit) && SeenBelow(a, seen, |a.heads|) && |a.heads| == |t.heads|
    requires forall b :: 0 <= b < |t.heads| ==> t.chains[b] == Kept(a, a.chains[b], visit)
    ensures after == map k | k in before && 0 <= visit(|k|, before[k]).result :: visit(|k|, before[k]).data
  {
    hide Linked, Hash, Kept, Holds, Followed, BucketOk, Found;
    forall k | k in after ensures k in before && after[k] == visit(|k|, before[k]).data
      && 0 <= visit(|k|, before[k]).result
    {
      var e := EntryOf(t, after, k);
      KeptStays(a, a.chains[Bucket(t, k)], visit);
      LeftWith(a, t, seen, before, after, visit, Bucket(t, k), e);
    }
    forall k | k in before && 0 <= visit(|k|, before[k]).result ensures k in after {
      var e := EntryOf(a, before, k);
      KeptStays(a, a.chains[Bucket(a, k)], visit);
      LeftWith(a, t, seen, before, after, visit, Bucket(a, k), e);
    }
  }

  /** The entry of a key. */
  lemma EntryOf(t: Table, contents: map<string, Datum>, k: string) returns (e: nat)
    requires Whole(t) && Holds(t, contents) && k in contents
    ensures e in t.chains[Bucket(t, k)] && KeyAt(t, e) == k && e < |t.ents|
    ensures t.ents[e].data == Some(contents[k]) && t.ents[e].keylen == |k|
  {
    hide Linked, Hash;
    var b := Bucket(t, k);
    assert Found(t, k);
    e :| e in t.chains[b] && KeyAt(t, e) == k;
    assert BucketOk(t, b) && EntryOk(t, b, e) && EntryIn(t, e, contents);
  }

  /** What is left of an entry that stays. */
  lemma LeftWith(a: Table, t: Table, seen: set<nat>, before: map<string, Datum>, after: map<string, Datum>,
      visit: Visit, b: nat, e: nat)
    requires Whole(a) && Holds(a, before) && Whole(t) && Holds(t, after) && Followed(a, t, seen, visit)
      && KeepsKeys(visit) && SeenBelow(a, seen, |a.heads|)
    requires b < |a.heads| && e in a.chains[b] && e in t.chains[b] && Stays(a, e, visit)
    ensures var k := KeyAt(a, e);
      && k in before && k in after && KeyAt(t, e) == k && 0 <= visit(|k|, before[k]).result
      && after[k] == visit(|k|, before[k]).data
  {
    hide Linked, Hash, KeepsKeys;
    assert BucketOk(a, b) && EntryOk(a, b, e) && EntryIn(a, e, before);
    assert BucketOk(t, b) && EntryOk(t, b, e) && EntryIn(t, e, after);
    assert e in seen;
    StaysKeyed(a, e, visit);
  }

  lemma DerefSlot(t: Table, b: nat, i: nat, slot: Slot)
    requires Whole(t) && b < |t.heads| && i < |t.chains[b]| && SlotAt(t, b, i, slot)
    ensures t.chains[b][i] < |t.ents| && match slot case Head(n) => n < |t.heads| case After(d) => d < |t.ents|
  {
    assert BucketOk(t, b);
    DerefAt(t, b, i);
    assert t.chains[b][i] in t.chains[b];
    assert EntryOk(t, b, t.chains[b][i]);
  }

  lemma PlacedEntry(t: Table, key: string, i: nat)
    requires Whole(t) && i <= |t.chains[Bucket(t, key)]|
    ensures EntryAt(t, Bucket(t, key), i) == 0 <==> i == |t.chains[Bucket(t, key)]|
    ensures i < |t.chains[Bucket(t, key)]| && Place(t, key, i) ==>
      var e := t.chains[Bucket(t, key)][i]; 0 < e < |t.ents| && t.ents[e].keylen == |key|
  {
    var b := Bucket(t, key);
    assert BucketOk(t, b);
    if i < |t.chains[b]| {
      assert t.chains[b][i] in t.chains[b];
      assert EntryOk(t, b, t.chains[b][i]);
    }
  }

  lemma NotInHand(t: Table, slot: Slot, b: nat, e: nat)
    requires Whole(t) && b < |t.heads| && InHand(t, e) && SlotAt(t, b, |t.chains[b]|, slot)
    ensures slot != After(e)
  {
    assert BucketOk(t, b);
    if t.chains[b] != [] {
      assert t.chains[b][|t.chains[b]| - 1] in t.chains[b];
      assert EntryOk(t, b, t.chains[b][|t.chains[b]| - 1]);
    }
  }

  /** An entry given its key length, then pointed to, and then given its data. */
  lemma HangIs(t: Table, u: Table, slot: Slot, b: nat, e: nat, d: Datum, keylen: nat)
    requires Sized(t) && b < |t.heads| && e < |t.ents| && slot != After(e)
    requires match slot case Head(b) => b < |t.heads| case After(d) => d < |t.ents|
    requires u.heads == if slot.Head? then t.heads[slot.bucket := e] else t.heads
    requires var one := t.ents[e := Ent(0, None, keylen)];
      var two := if slot.After? then one[slot.ent := one[slot.ent].(next := e)] else one;
      u.ents == two[e := two[e].(data := Some(d))]
    requires u.reuse == t.reuse && u.free == t.free && u.chains == t.chains[b := t.chains[b] + [e]]
      && u.home == t.home[e := b]
    ensures u == Hang(t, slot, b, e, d, keylen)
  {
    assert u.ents == Hang(t, slot, b, e, d, keylen).ents;
  }

  lemma NoneFree(t: Table)
    requires Whole(t)
    ensures t.reuse == 0 <==> t.free == []
  {
    if t.free != [] { assert t.free[0] in t.free; }
  }

  lemma KeptTwice(a: Table, b: Table, c: Table)
    requires Sized(a) && Sized(b) && Sized(c) && ChainsKept(a, b) && ChainsKept(b, c)
    ensures ChainsKept(a, c)
  {
  }

  // ----- walking

  /** What a callback of hashwalk returns, and what it leaves in the entry. */
  datatype Verdict = Verdict(result: int, data: Datum)

  type Visit = (nat, Datum) -> Verdict

  /** Data that stays in the table goes on belonging to its key. */
  ghost predicate KeepsKeys(visit: Visit) {
    forall n: nat, d: Datum :: n <= |d.text| && 0 <= visit(n, d).result ==> Suits(visit(n, d).data, d.text[..n])
  }

  /** The entry is left in the table. */
  predicate Stays(t: Table, e: nat, visit: Visit) {
    e < |t.ents| && t.ents[e].data.Some? && 0 <= visit(t.ents[e].keylen, t.ents[e].data.value).result
  }

  lemma StaysKeyed(t: Table, e: nat, visit: Visit)
    requires KeepsKeys(visit) && Stays(t, e, visit) && Keyed(t.ents[e])
    ensures Suits(visit(t.ents[e].keylen, t.ents[e].data.value).data, KeyAt(t, e))
  {
  }

  /** The entries of a chain that stay, in the order they were in. */
  function Kept(t: Table, c: seq<nat>, visit: Visit): seq<nat> {
    if c == [] then []
    else Kept(t, c[..|c| - 1], visit) + if Stays(t, c[|c| - 1], visit) then [c[|c| - 1]] else []
  }

  /** What the visit leaves in an entry. */
  function Visited(x: Ent, visit: Visit): Option<Datum> {
    match x.data
    case None => None
    case Some(d) => Some(visit(x.keylen, d).data)
  }

  /** Entries in use are those that were, with what they held, or for those of `seen` what the visit left. */
  predicate Followed(a: Table, t: Table, seen: set<nat>, visit: Visit) {
    && |t.ents| == |a.ents| && |t.heads| == |a.heads| && |t.home| == |a.home| == |a.ents|
    && forall e :: 0 <= e < |a.ents| && t.home[e] < |a.heads| ==>
         && a.home[e] == t.home[e] && t.ents[e].keylen == a.ents[e].keylen
         && t.ents[e].data == if e in seen then Visited(a.ents[e], visit) else a.ents[e].data
  }

  function First(c: seq<nat>, n: nat): set<nat>
    requires n <= |c|
  {
    set e | e in c[..n]
  }

  predicate Elsewhere(t: Table, seen: set<nat>, b: nat) {
    forall e :: e in seen ==> e < |t.home| && t.home[e] != b
  }

  /** The entries of the first chains. */
  predicate SeenBelow(t: Table, seen: set<nat>, b: nat)
    requires Sized(t)
  {
    && (forall e :: e in seen ==> e < |t.home| && t.home[e] < b)
    && (forall k, e :: 0 <= k < b && k < |t.chains| && e in t.chains[k] ==> e in seen)
  }

  lemma NoneSeen(t: Table, visit: Visit)
    requires Whole(t)
    ensures Followed(t, t, {}, visit) && SeenBelow(t, {}, 0)
  {
  }

  lemma BelowElsewhere(t: Table, seen: set<nat>, b: nat)
    requires Sized(t) && SeenBelow(t, seen, b)
    ensures Elsewhere(t, seen, b)
  {
  }

  lemma MoreSeen(t: Table, seen: set<nat>, b: nat)
    requires Whole(t) && b < |t.heads| && SeenBelow(t, seen, b)
    ensures SeenBelow(t, seen + First(t.chains[b], |t.chains[b]|), b + 1)
  {
    hide Linked, Hash, Keyed;
    var c := t.chains[b];
    assert c[..|c|] == c && BucketOk(t, b);
    forall e | e in c ensures e < |t.home| && t.home[e] == b { assert EntryOk(t, b, e); }
  }

  /** The table after a visit: the entry taken out, or with new data. */
  ghost predicate AfterVisit(t: Table, u: Table, slot: Slot, b: nat, i: nat, visit: Visit)
    requires Whole(t) && b < |t.heads|
  {
    && i < |t.chains[b]| && t.chains[b][i] < |t.ents| && t.ents[t.chains[b][i]].data.Some?
    && (match slot case Head(n) => n < |t.heads| case After(d) => d < |t.ents|)
    && var e := t.chains[b][i];
      u == if Stays(t, e, visit)
        then Supersede(t, e, visit(t.ents[e].keylen, t.ents[e].data.value).data)
        else Unhang(t, slot, b, i)
  }

  lemma StartWalk(a: Table, t: Table, seen: set<nat>, b: nat, visit: Visit)
    requires Whole(a) && Whole(t) && b < |t.heads| == |a.heads| && t.chains[b] == a.chains[b]
    requires Followed(a, t, seen, visit)
    ensures var c := a.chains[b];
      && Followed(a, t, seen + First(c, 0), visit) && Kept(a, c[..0], visit) == []
      && t.chains == t.chains[b := Kept(a, c[..0], visit) + c[0..]] && t.heads[b] == EntryAt(t, b, 0)
  {
    assert BucketOk(t, b);
    assert seen + First(a.chains[b], 0) == seen;
    assert [] + a.chains[b] == a.chains[b];
  }

  /** The slot of an entry that was taken out is that of the next. */
  lemma SlotGone(t: Table, u: Table, b: nat, i: nat, slot: Slot)
    requires Sized(t) && Sized(u) && b < |t.heads| == |u.heads| && i < |t.chains[b]| && SlotAt(t, b, i, slot)
    requires u.chains[b] == t.chains[b][..i] + t.chains[b][i + 1..]
    ensures SlotAt(u, b, i, slot)
  {
  }

  lemma SlotNext(t: Table, b: nat, i: nat)
    requires Sized(t) && b < |t.heads| && i < |t.chains[b]|
    ensures SlotAt(t, b, i + 1, After(t.chains[b][i]))
  {
  }

  /** The entry the walk has come to. */
  lemma WalkAt(t: Table, b: nat, i: nat, contents: map<string, Datum>)
    requires Whole(t) && Holds(t, contents) && b < |t.heads| && i <= |t.chains[b]| && EntryAt(t, b, i) != 0
    ensures i < |t.chains[b]|
    ensures var e := t.chains[b][i]; var key := KeyAt(t, e);
      && 0 < e < |t.ents| && t.home[e] == b && Bucket(t, key) == b && Place(t, key, i) && t.ents[e].data.Some?
      && key in contents && contents[key] == t.ents[e].data.value && t.ents[e].keylen == |key|
      && t.ents[e].next == EntryAt(t, b, i + 1) && Keyed(t.ents[e])
  {
    hide Linked;
    assert BucketOk(t, b);
    var e := t.chains[b][i];
    assert e in t.chains[b];
    assert EntryOk(t, b, e) && EntryIn(t, e, contents);
    DerefAt(t, b, i + 1);
    forall j | 0 <= j < i ensures KeyAt(t, t.chains[b][j]) != KeyAt(t, e) {
      assert t.chains[b][j] in t.chains[b];
    }
  }

  /** At the null pointer every entry has been visited. */
  lemma EndWalk(a: Table, t: Table, b: nat, c: seq<nat>, done: nat, visit: Visit)
    requires Whole(t) && b < |t.heads| && done <= |c| && t.chains[b] == Kept(a, c[..done], visit) + c[done..]
    requires EntryAt(t, b, |Kept(a, c[..done], visit)|) == 0
    ensures done == |c| && t.chains[b] == Kept(a, c, visit)
  {
    hide Linked;
    assert BucketOk(t, b);
    var i := |Kept(a, c[..done], visit)|;
    forall j | 0 <= j < |t.chains[b]| ensures t.chains[b][j] != 0 {
      assert t.chains[b][j] in t.chains[b];
      assert EntryOk(t, b, t.chains[b][j]);
    }
    assert c[..done] == c;
  }

  /** The chain with one more entry visited. */
  lemma KeptNext(a: Table, t: Table, b: nat, c: seq<nat>, done: nat, visit: Visit)
    requires Sized(t) && b < |t.heads| && done <= |c| && t.chains[b] == Kept(a, c[..done], visit) + c[done..]
    requires |Kept(a, c[..done], visit)| < |t.chains[b]|
    ensures done < |c| && c[done] == t.chains[b][|Kept(a, c[..done], visit)|]
    ensures var i, e := |Kept(a, c[..done], visit)|, c[done];
      && Kept(a, c[..done + 1], visit) + c[done + 1..] ==
           (if Stays(a, e, visit) then t.chains[b] else t.chains[b][..i] + t.chains[b][i + 1..])
      && |Kept(a, c[..done + 1], visit)| == if Stays(a, e, visit) then i + 1 else i
  {
    hide Stays;
    assert c[..done + 1][..done] == c[..done];
  }

  /** The next entry was not visited, so it is as it was. */
  lemma NotSeen(a: Table, t: Table, seen: set<nat>, b: nat, c: seq<nat>, done: nat, visit: Visit)
    requires Whole(a) && Whole(t) && b < |a.heads| && c == a.chains[b] && done < |c| && Elsewhere(a, seen, b)
    requires Followed(a, t, seen + First(c, done), visit) && c[done] in t.chains[b]
    ensures var e := c[done];
      && e !in seen + First(c, done) && e < |t.ents| == |a.ents| && t.ents[e].data == a.ents[e].data
      && t.ents[e].keylen == a.ents[e].keylen && Stays(t, e, visit) == Stays(a, e, visit)
    ensures First(c, done + 1) == First(c, done) + {c[done]}
  {
    hide Linked, Keyed, Hash;
    assert BucketOk(a, b) && BucketOk(t, b);
    assert EntryOk(a, b, c[done]) && EntryOk(t, b, c[done]);
    assert c[..done + 1] == c[..done] + [c[done]];
  }

  lemma FollowSupersede(a: Table, t: Table, seen: set<nat>, e: nat, visit: Visit)
    requires Followed(a, t, seen, visit) && e !in seen && e < |a.ents| && t.ents[e].data == a.ents[e].data
      && t.ents[e].keylen == a.ents[e].keylen && a.ents[e].data.Some?
    ensures Followed(a, Supersede(t, e, visit(t.ents[e].keylen, t.ents[e].data.value).data), seen + {e}, visit)
  {
  }

  lemma FollowUnhang(a: Table, t: Table, seen: set<nat>, slot: Slot, b: nat, i: nat, visit: Visit)
    requires Sized(t) && b < |t.heads| && i < |t.chains[b]| && Followed(a, t, seen, visit)
    requires t.chains[b][i] < |t.ents|
    requires match slot case Head(n) => n < |t.heads| case After(d) => d < |t.ents|
    ensures Followed(a, Unhang(t, slot, b, i), seen + {t.chains[b][i]}, visit)
  {
    var u := Unhang(t, slot, b, i);
    forall e | 0 <= e < |a.ents| && u.home[e] < |a.heads|
      ensures u.home[e] == t.home[e] && u.ents[e].data == t.ents[e].data && u.ents[e].keylen == t.ents[e].keylen
    {
    }
  }

  /** The chain, the next entry and the data after one more visit. */
  lemma KeptStep(a: Table, t: Table, u: Table, seen: set<nat>, slot: Slot, b: nat, c: seq<nat>, done: nat,
      visit: Visit)
    requires Whole(a) && Whole(t) && Sized(u) && b < |a.heads| == |t.heads| && c == a.chains[b] && done <= |c|
      && Elsewhere(a, seen, b)
    requires Followed(a, t, seen + First(c, done), visit)
    requires t.chains == t.chains[b := Kept(a, c[..done], visit) + c[done..]]
      && |Kept(a, c[..done], visit)| < |t.chains[b]|
    requires |t.heads| == |u.heads| && AfterVisit(t, u, slot, b, |Kept(a, c[..done], visit)|, visit)
    ensures done < |c| && Followed(a, u, seen + First(c, done + 1), visit)
    ensures u.chains == t.chains[b := Kept(a, c[..done + 1], visit) + c[done + 1..]]
    ensures var i := |Kept(a, c[..done], visit)|;
      && |Kept(a, c[..done + 1], visit)| == (if Stays(t, c[done], visit) then i + 1 else i)
      && |Kept(a, c[..done + 1], visit)| <= |u.chains[b]|
      && EntryAt(u, b, |Kept(a, c[..done + 1], visit)|) == EntryAt(t, b, i + 1)
  {
    hide BucketOk, FreeOk, Followed, Stays, Kept, Elsewhere, First, Unhang;
    var i := |Kept(a, c[..done], visit)|;
    KeptNext(a, t, b, c, done, visit);
    NotSeen(a, t, seen, b, c, done, visit);
    if Stays(t, c[done], visit) {
      FollowSupersede(a, t, seen + First(c, done), c[done], visit);
    } else {
      UnhangShape(t, slot, b, i);
      FollowUnhang(a, t, seen + First(c, done), slot, b, i, visit);
    }
    assert seen + First(c, done) + {c[done]} == seen + First(c, done + 1);
    EntryAfter(t, u, b, i);
  }

  /** The entry after the one at place `i`, which was kept or taken out. */
  lemma EntryAfter(t: Table, u: Table, b: nat, i: nat)
    requires Sized(t) && Sized(u) && b < |t.heads| == |u.heads| && i < |t.chains[b]|
    ensures u.chains == t.chains ==> EntryAt(u, b, i + 1) == EntryAt(t, b, i + 1)
    ensures u.chains == t.chains[b := t.chains[b][..i] + t.chains[b][i + 1..]] ==>
      i <= |u.chains[b]| && EntryAt(u, b, i) == EntryAt(t, b, i + 1)
  {
  }
}

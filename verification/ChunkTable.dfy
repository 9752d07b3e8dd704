/** The chunk table of the pool allocator: an append-only open-addressed table with
    a bounded linear probe. */
module ChunkTable {

  const CHUNK_SIZE: nat := 0x10_0000
  const TABLE_SIZE: nat := 8192
  const MAX_PROBE: nat := 64
  const WORD: nat := 0x1_0000_0000_0000_0000
  const HASH: nat := 0x9E37_79B9_7F4A_7C15

  /** `chunkSlot`: the product wraps at 64 bits before the mask. */
  function ChunkSlot(base: nat): (slot: nat)
    ensures slot < TABLE_SIZE
  {
    base / CHUNK_SIZE * HASH % WORD % TABLE_SIZE
  }

  /** Where a chunk's probe starts; the table is correct for every choice of it. */
  type Hash = nat -> nat

  /** The slot of the `probe`-th try from a home slot. */
  function ProbeSlot(home: nat, probe: nat): (slot: nat)
    ensures slot < TABLE_SIZE
  {
    (home + probe) % TABLE_SIZE
  }

  function NextSlot(slot: nat): (next: nat)
    ensures next < TABLE_SIZE
  {
    (slot + 1) % TABLE_SIZE
  }

  lemma NextProbe(home: nat, probe: nat)
    ensures NextSlot(ProbeSlot(home, probe)) == ProbeSlot(home, probe + 1)
  {
  }

  /** A class fits the low twelve bits of an entry. */
  predicate IsClass(klass: nat) { 1 <= klass < 4096 }

  predicate IsBase(base: nat) { base % CHUNK_SIZE == 0 && base < WORD }

  function Pack(base: nat, klass: nat): nat { base / CHUNK_SIZE * 4096 + klass }

  function KeyFor(base: nat): nat { base / CHUNK_SIZE * 4096 }

  function KeyOf(entry: nat): nat { entry / 4096 * 4096 }

  function ClassOf(entry: nat): nat { entry % 4096 }

  /** The packed entry fits a word, is never the empty entry, and gives back both parts. */
  lemma PackBack(base: nat, klass: nat)
    requires IsBase(base) && IsClass(klass)
    ensures 0 < Pack(base, klass) < WORD
    ensures ClassOf(Pack(base, klass)) == klass && KeyOf(Pack(base, klass)) == KeyFor(base)
  {
  }

  /** The key of an entry is that of its own chunk only. */
  lemma KeyTells(a: nat, x: nat, b: nat)
    requires IsBase(a) && IsClass(x) && IsBase(b)
    ensures KeyOf(Pack(a, x)) == KeyFor(b) <==> a == b
  {
    PackBack(a, x);
  }

  /** Two chunks have one entry only if they are the same chunk, in the same class. */
  lemma PackInjective(a: nat, x: nat, b: nat, y: nat)
    requires IsBase(a) && IsClass(x) && IsBase(b) && IsClass(y)
    ensures Pack(a, x) == Pack(b, y) <==> a == b && x == y
  {
    PackBack(a, x);
    PackBack(b, y);
    KeyTells(a, x, b);
  }

  /** An entry stands `d` tries from its home, with no empty slot before it. */
  predicate FoundAt(table: seq<nat>, home: nat, entry: nat, d: nat)
    requires |table| == TABLE_SIZE
  {
    && d < MAX_PROBE
    && table[ProbeSlot(home, d)] == entry
    && forall e: nat :: e < d ==> table[ProbeSlot(home, e)] != 0
  }

  ghost predicate Found(table: seq<nat>, home: nat, entry: nat)
    requires |table| == TABLE_SIZE
  {
    exists d: nat :: FoundAt(table, home, entry, d)
  }

  /** An entry is that of a registered chunk. */
  ghost predicate Owned(chunks: map<nat, nat>, entry: nat) {
    exists base :: base in chunks && entry == Pack(base, chunks[base])
  }

  /** The table holds exactly the registered chunks: each is found from its home,
      and every entry in use is one of them. */
  ghost predicate Holds(table: seq<nat>, chunks: map<nat, nat>, hash: Hash)
  {
    && |table| == TABLE_SIZE
    && (forall base :: base in chunks ==> IsBase(base) && IsClass(chunks[base]))
    && (forall base :: base in chunks ==> Found(table, hash(base), Pack(base, chunks[base])))
    && (forall i :: 0 <= i < TABLE_SIZE && table[i] != 0 ==> Owned(chunks, table[i]))
  }

  function Answer(chunks: map<nat, nat>, base: nat): nat { if base in chunks then chunks[base] else 0 }

  /** What a matching entry met on the way tells. */
  lemma EntryTells(chunks: map<nat, nat>, entry: nat, base: nat)
    requires forall b :: b in chunks ==> IsBase(b) && IsClass(chunks[b])
    requires Owned(chunks, entry) && IsBase(base)
    ensures KeyOf(entry) == KeyFor(base) ==> base in chunks && ClassOf(entry) == chunks[base]
  {
    var owner :| owner in chunks && entry == Pack(owner, chunks[owner]);
    PackBack(owner, chunks[owner]);
    if KeyOf(entry) == KeyFor(base) {
      KeyTells(owner, chunks[owner], base);
    }
  }

  /** Writing into an empty slot disturbs no probe path. */
  lemma PathStays(table: seq<nat>, slot: nat, entry: nat, home: nat, other: nat)
    requires |table| == TABLE_SIZE && slot < TABLE_SIZE && table[slot] == 0 && entry != 0 && other != 0
    requires Found(table, home, other)
    ensures Found(table[slot := entry], home, other)
  {
    var d: nat :| FoundAt(table, home, other, d);
    assert FoundAt(table[slot := entry], home, other, d);
  }

  lemma OwnedStays(chunks: map<nat, nat>, base: nat, klass: nat, entry: nat)
    requires Owned(chunks, entry) && base !in chunks
    ensures Owned(chunks[base := klass], entry)
  {
    var b :| b in chunks && entry == Pack(b, chunks[b]);
    assert b in chunks[base := klass] && chunks[base := klass][b] == chunks[b];
  }

  lemma RegisterKeeps(table: seq<nat>, chunks: map<nat, nat>, hash: Hash, base: nat, klass: nat, entry: nat, d: nat)
    requires Holds(table, chunks, hash) && IsBase(base) && IsClass(klass) && base !in chunks && d < MAX_PROBE
    requires entry == Pack(base, klass) && entry != 0
    requires table[ProbeSlot(hash(base), d)] == 0
    requires forall e: nat :: e < d ==> table[ProbeSlot(hash(base), e)] != 0
    ensures Holds(table[ProbeSlot(hash(base), d) := entry], chunks[base := klass], hash)
  {
    var slot := ProbeSlot(hash(base), d);
    var t, c := table[slot := entry], chunks[base := klass];
    forall b | b in c
      ensures Found(t, hash(b), Pack(b, c[b]))
    {
      if b == base {
        NewFound(table, hash(base), entry, d);
      } else {
        PackBack(b, chunks[b]);
        PathStays(table, slot, entry, hash(b), Pack(b, chunks[b]));
      }
    }
    forall i | 0 <= i < TABLE_SIZE && t[i] != 0
      ensures Owned(c, t[i])
    {
      EntryOwned(table, chunks, slot, base, klass, i);
    }
  }

  lemma NewFound(table: seq<nat>, home: nat, entry: nat, d: nat)
    requires |table| == TABLE_SIZE && d < MAX_PROBE && entry != 0
    requires table[ProbeSlot(home, d)] == 0 && forall e: nat :: e < d ==> table[ProbeSlot(home, e)] != 0
    ensures Found(table[ProbeSlot(home, d) := entry], home, entry)
  {
    assert FoundAt(table[ProbeSlot(home, d) := entry], home, entry, d);
  }

  lemma EntryOwned(table: seq<nat>, chunks: map<nat, nat>, slot: nat, base: nat, klass: nat, i: nat)
    requires |table| == TABLE_SIZE && slot < TABLE_SIZE && i < TABLE_SIZE && base !in chunks
    requires i != slot ==> table[i] != 0 ==> Owned(chunks, table[i])
    ensures table[slot := Pack(base, klass)][i] != 0
      ==> Owned(chunks[base := klass], table[slot := Pack(base, klass)][i])
  {
    if i == slot {
      assert base in chunks[base := klass] && Pack(base, klass) == Pack(base, chunks[base := klass][base]);
    } else if table[i] != 0 {
      OwnedStays(chunks, base, klass, table[i]);
    }
  }

  class Table {
    const entries: array<nat>
    const hash: Hash
    ghost var chunks: map<nat, nat>  // registered bases and their classes

    ghost predicate Valid()
      reads this, entries
    {
      Holds(entries[..], chunks, hash)
    }

    constructor ()
      ensures Valid() && chunks == map[] && fresh(entries) && hash == ChunkSlot
    {
      entries := new nat[TABLE_SIZE](i => 0);
      chunks := map[];
      hash := ChunkSlot;
    }

    /** `registerChunk`: false when the 64 tries are all taken, and then nothing
        has changed. */
    method RegisterChunk(base: nat, klass: nat) returns (ok: bool)
      requires Valid() && IsBase(base) && IsClass(klass) && base !in chunks
      modifies this, entries
      ensures Valid() && chunks == if ok then old(chunks)[base := klass] else old(chunks)
      ensures !ok ==> entries[..] == old(entries[..])
                      && forall e: nat :: e < MAX_PROBE ==> entries[..][ProbeSlot(hash(base), e)] != 0
    {
      var entry := Pack(base, klass);
      PackBack(base, klass);
      var home := hash(base);
      var slot := ProbeSlot(home, 0);
      var probe: nat := 0;
      ghost var was := entries[..];
      while probe < MAX_PROBE
        invariant probe <= MAX_PROBE && slot == ProbeSlot(home, probe) && entries[..] == was && chunks == old(chunks)
        invariant forall e: nat :: e < probe ==> was[ProbeSlot(home, e)] != 0
      {
        if entries[slot] == 0 {
          RegisterKeeps(was, chunks, hash, base, klass, entry, probe);
          entries[slot] := entry;
          assert entries[..] == was[slot := entry];
          chunks := chunks[base := klass];
          return true;
        }
        NextProbe(home, probe);
        slot := NextSlot(slot);
        probe := probe + 1;
      }
      return false;
    }

    /** `lookupChunkClass`: the class of a registered base, 0 for every other. */
    method LookupChunkClass(base: nat) returns (klass: nat)
      requires Valid() && IsBase(base)
      ensures klass == Answer(chunks, base)
    {
      klass := Search(entries, base, hash(base), chunks, hash);
    }
  }

  /** The bounded probe of a lookup. */
  method Search(entries: array<nat>, base: nat, home: nat, ghost chunks: map<nat, nat>, ghost hash: Hash)
    returns (klass: nat)
    requires Holds(entries[..], chunks, hash) && IsBase(base) && home == hash(base)
    ensures klass == Answer(chunks, base)
  {
    var key := KeyFor(base);
    ghost var own := if base in chunks then Pack(base, chunks[base]) else 0;
    if base in chunks { PackBack(base, chunks[base]); }
    var slot := ProbeSlot(home, 0);
    var probe: nat := 0;
    ghost var d: nat := 0;
    if base in chunks { d :| FoundAt(entries[..], home, own, d); }
    while probe < MAX_PROBE
      invariant probe <= MAX_PROBE && slot == ProbeSlot(home, probe)
      invariant base in chunks ==> probe <= d && FoundAt(entries[..], home, own, d)
    {
      var entry := entries[slot];
      assert entry == entries[..][slot];
      if entry == 0 { return 0; }
      EntryTells(chunks, entry, base);
      if KeyOf(entry) == key { return ClassOf(entry); }
      NextProbe(home, probe);
      slot := NextSlot(slot);
      probe := probe + 1;
    }
    return 0;
  }
}

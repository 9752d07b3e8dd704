/** `gea::node::alloc`: size classes, free lists threaded through the free blocks,
    and bump regions. Addresses are numbers; 0 is the null pointer. */
module PoolAllocator {
  import opened Wrappers
  import opened ChunkTable

  const GRANULE: nat := 16
  const CLASS_COUNT: nat := 256

  /** The class of a request, with the rounding sum wrapping at a word. */
  function ClassFor(size: nat): nat { (size + GRANULE - 1) % WORD / GRANULE }

  function Base(address: nat): nat { address / CHUNK_SIZE * CHUNK_SIZE }

  /** A block handed out: from the pool, or from the system allocator. */
  datatype Block = Pooled(size: nat) | System(size: nat)

  /** Where a carved block lies: its chunk, and its number in it. */
  datatype Cell = Cell(base: nat, index: nat)

  /** The bump region of a class: no chunk yet, or the next cell of its chunk. */
  datatype Bump = NoChunk | At(base: nat, next: nat)

  /** The pool: its real state (free-list heads, links in the blocks, bump regions)
      and what that state means (the lists, the carved cells, the live blocks). */
  datatype Pool = Pool(
    heads: seq<nat>,          // g_free
    links: map<nat, nat>,     // the words last written; a free block's first word is its link
    bumps: seq<Bump>,         // g_bump and g_bump_end
    chunks: map<nat, nat>,    // registered chunks and their classes
    lists: seq<seq<nat>>,
    carved: map<nat, Cell>,
    live: map<nat, Block>)

  function Bytes(klass: nat): nat { klass * GRANULE }

  function Link(links: map<nat, nat>, address: nat): nat { if address in links then links[address] else 0 }

  function Head(list: seq<nat>): nat { if list == [] then 0 else list[0] }

  predicate Shaped(p: Pool) {
    && |p.heads| == CLASS_COUNT && |p.bumps| == CLASS_COUNT && |p.lists| == CLASS_COUNT
    && forall base :: base in p.chunks ==> IsBase(base) && base > 0 && 1 <= p.chunks[base] <= CLASS_COUNT
  }

  /** The list is threaded through its blocks, from the head to null. */
  predicate Threaded(list: seq<nat>, links: map<nat, nat>) {
    forall i: nat :: i < |list| ==> LinkedAt(list, links, i)
  }

  predicate LinkedAt(list: seq<nat>, links: map<nat, nat>, i: nat)
    requires i < |list|
  {
    list[i] > 0 && Link(links, list[i]) == if i + 1 < |list| then list[i + 1] else 0
  }

  predicate Distinct(list: seq<nat>) { forall i, j :: 0 <= i < j < |list| ==> list[i] != list[j] }

  /** A carved cell lies in a registered chunk, at a multiple of its class. */
  predicate InCell(p: Pool, address: nat, c: Cell) {
    && c.base in p.chunks
    && address == c.base + c.index * Bytes(p.chunks[c.base])
    && c.index * Bytes(p.chunks[c.base]) + Bytes(p.chunks[c.base]) <= CHUNK_SIZE
  }

  function ClassOfCell(p: Pool, address: nat): nat
    requires address in p.carved && p.carved[address].base in p.chunks
  {
    p.chunks[p.carved[address].base]
  }

  predicate Cells(p: Pool) { forall a :: a in p.carved ==> InCell(p, a, p.carved[a]) }

  /** The bump tail of a class holds no carved cell. */
  predicate BumpOk(p: Pool, k: nat)
    requires k < |p.bumps|
  {
    match p.bumps[k]
    case NoChunk => true
    case At(base, next) =>
      && base in p.chunks && p.chunks[base] == k + 1 && next * Bytes(k + 1) <= CHUNK_SIZE
      && forall a :: a in p.carved && p.carved[a].base == base ==> p.carved[a].index < next
  }

  /** A block that may stand on the free list of a class: a carved cell of that
      class that is not live. */
  predicate Spare(p: Pool, a: nat, klass: nat) {
    && a in p.carved && p.carved[a].base in p.chunks && p.chunks[p.carved[a].base] == klass
    && a !in p.live
  }

  /** The free list of a class: threaded, without repetition, and made of spare blocks. */
  predicate ListOk(p: Pool, k: nat)
    requires Shaped(p) && k < CLASS_COUNT
  {
    && p.heads[k] == Head(p.lists[k])
    && Threaded(p.lists[k], p.links)
    && Distinct(p.lists[k])
    && forall i :: 0 <= i < |p.lists[k]| ==> Spare(p, p.lists[k][i], k + 1)
  }

  /** Every carved cell is live or on the free list of its class. */
  predicate Conserved(p: Pool)
    requires Shaped(p) && Cells(p)
  {
    forall a :: a in p.carved ==> (a in p.live && p.live[a].Pooled?) || a in p.lists[ClassOfCell(p, a) - 1]
  }

  predicate Apart(a: nat, n: nat, b: nat, m: nat) { a + n <= b || b + m <= a }

  function Extent(size: nat): nat { if size > 0 then size else 1 }

  /** Live blocks: a pooled one is a carved cell that covers its request; one of the
      system's is clear of every chunk and of the other blocks of the system. */
  predicate LiveOk(p: Pool, a: nat)
    requires Shaped(p) && Cells(p) && a in p.live
  {
    match p.live[a]
    case Pooled(size) => a in p.carved && size <= Bytes(ClassOfCell(p, a))
    case System(size) =>
      && a > 0
      && (forall base :: base in p.chunks ==> Apart(a, Extent(size), base, CHUNK_SIZE))
      && (forall b :: b in p.live && b != a && p.live[b].System? ==> Apart(a, Extent(size), b, Extent(p.live[b].size)))
  }

  predicate Sound(p: Pool) {
    && Shaped(p) && Cells(p) && Conserved(p)
    && (forall k: nat :: k < CLASS_COUNT ==> BumpOk(p, k))
    && (forall k: nat :: k < CLASS_COUNT ==> ListOk(p, k))
    && (forall a :: a in p.live ==> LiveOk(p, a))
  }

  const EMPTY: Pool := Pool(seq(CLASS_COUNT, i => 0), map[], seq(CLASS_COUNT, i => NoChunk), map[],
                            seq(CLASS_COUNT, i => []), map[], map[])

  lemma EmptySound()
    ensures Sound(EMPTY)
  {
  }

  // ---- what soundness means ---------------------------------------------------------

  lemma {:induction false} MulLe(i: nat, j: nat, s: nat)
    requires i < j
    ensures i * s + s <= j * s
    decreases j
  {
    assert j * s == (j - 1) * s + s;
    if i < j - 1 { MulLe(i, j - 1, s); }
  }

  /** The chunk of an address inside a chunk is that chunk. */
  lemma BaseOf(base: nat, offset: nat)
    requires base % CHUNK_SIZE == 0 && offset < CHUNK_SIZE
    ensures Base(base + offset) == base
  {
  }

  lemma CellOffset(p: Pool, a: nat)
    requires Shaped(p) && Cells(p) && a in p.carved
    ensures var c := p.carved[a];
      a > 0 && Base(a) == c.base && c.base <= a && a + Bytes(p.chunks[c.base]) <= c.base + CHUNK_SIZE
  {
    var c := p.carved[a];
    BaseOf(c.base, c.index * Bytes(p.chunks[c.base]));
  }

  lemma SameChunkApart(base: nat, i: nat, j: nat, s: nat)
    requires base + i * s != base + j * s
    ensures Apart(base + i * s, s, base + j * s, s)
  {
    if i < j { MulLe(i, j, s); } else if j < i { MulLe(j, i, s); }
  }

  /** Carved cells never overlap. */
  lemma CellsApart(p: Pool, a: nat, b: nat)
    requires Shaped(p) && Cells(p) && a in p.carved && b in p.carved && a != b
    ensures Apart(a, Bytes(ClassOfCell(p, a)), b, Bytes(ClassOfCell(p, b)))
  {
    CellOffset(p, a);
    CellOffset(p, b);
    var c, d := p.carved[a], p.carved[b];
    if c.base == d.base {
      SameChunkApart(c.base, c.index, d.index, Bytes(p.chunks[c.base]));
    } else {
      ChunksApart(c.base, d.base);
    }
  }

  lemma ChunksApart(x: nat, y: nat)
    requires x % CHUNK_SIZE == 0 && y % CHUNK_SIZE == 0 && x != y
    ensures Apart(x, CHUNK_SIZE, y, CHUNK_SIZE)
  {
  }

  function LiveExtent(p: Pool, a: nat): nat
    requires Shaped(p) && Cells(p) && a in p.live && LiveOk(p, a)
  {
    match p.live[a] case Pooled(_) => Bytes(ClassOfCell(p, a)) case System(size) => Extent(size)
  }

  /** Live blocks are pairwise disjoint, and each covers its request. */
  lemma LiveApart(p: Pool, a: nat, b: nat)
    requires Sound(p) && a in p.live && b in p.live && a != b
    ensures Apart(a, LiveExtent(p, a), b, LiveExtent(p, b))
    ensures p.live[a].size <= LiveExtent(p, a)
  {
    assert LiveOk(p, a) && LiveOk(p, b);
    if p.live[a].Pooled? && p.live[b].Pooled? {
      CellsApart(p, a, b);
    } else if p.live[a].Pooled? {
      CellOffset(p, a);
    } else if p.live[b].Pooled? {
      CellOffset(p, b);
    }
  }

  /** A pooled block lies inside one chunk of its class; a free block is no live one. */
  lemma PooledInside(p: Pool, a: nat)
    requires Sound(p) && a in p.live && p.live[a].Pooled?
    ensures var base := Base(a);
      base in p.chunks && base <= a && a + Bytes(p.chunks[base]) <= base + CHUNK_SIZE
      && p.chunks[base] == ClassOfCell(p, a) && forall k: nat :: k < CLASS_COUNT ==> a !in p.lists[k]
  {
    assert LiveOk(p, a);
    CellOffset(p, a);
    forall k: nat | k < CLASS_COUNT
      ensures a !in p.lists[k]
    {
      assert ListOk(p, k);
      forall i | 0 <= i < |p.lists[k]| ensures p.lists[k][i] != a { assert Spare(p, p.lists[k][i], k + 1); }
    }
  }

  lemma OwnBase(a: nat, n: nat)
    requires n > 0
    ensures !Apart(a, n, Base(a), CHUNK_SIZE)
  {
  }

  /** The chunk lookup of a system block finds nothing. */
  lemma SystemOutside(p: Pool, a: nat)
    requires Sound(p) && a in p.live && p.live[a].System?
    ensures Base(a) !in p.chunks
  {
    assert LiveOk(p, a);
    OwnBase(a, Extent(p.live[a].size));
  }

  // ---- the steps --------------------------------------------------------------------

  function Popped(p: Pool, k: nat, size: nat): Pool
    requires Shaped(p) && k < CLASS_COUNT && p.lists[k] != []
  {
    var a := p.lists[k][0];
    p.(heads := p.heads[k := Link(p.links, a)], lists := p.lists[k := p.lists[k][1..]],
      live := p.live[a := Pooled(size)])
  }

  function Carved(p: Pool, k: nat, size: nat, a: nat): Pool
    requires Shaped(p) && k < CLASS_COUNT && p.bumps[k].At?
  {
    var b := p.bumps[k];
    p.(bumps := p.bumps[k := At(b.base, b.next + 1)], carved := p.carved[a := Cell(b.base, b.next)],
       live := p.live[a := Pooled(size)])
  }

  function Opened(p: Pool, k: nat, base: nat): Pool
    requires Shaped(p) && k < CLASS_COUNT
  {
    p.(chunks := p.chunks[base := k + 1], bumps := p.bumps[k := At(base, 0)])
  }

  function Given(p: Pool, a: nat, size: nat): Pool { p.(live := p.live[a := System(size)]) }

  function Pushed(p: Pool, a: nat): Pool
    requires Shaped(p) && Cells(p) && a in p.carved
  {
    var k := ClassOfCell(p, a) - 1;
    p.(heads := p.heads[k := a], links := p.links[a := p.heads[k]], lists := p.lists[k := [a] + p.lists[k]],
       live := p.live - {a})
  }

  function Freed(p: Pool, a: nat): Pool { p.(live := p.live - {a}) }

  function Scribbled(p: Pool, x: nat, word: nat): Pool { p.(links := p.links[x := word]) }

  // A step keeps whatever it does not touch.

  /** The same chunks and cells. */
  predicate SameCells(p: Pool, q: Pool) {
    Shaped(p) && Cells(p) && Shaped(q) && q.chunks == p.chunks && q.carved == p.carved
  }

  lemma ThreadedFrame(list: seq<nat>, links: map<nat, nat>, other: map<nat, nat>)
    requires Threaded(list, links) && forall i :: 0 <= i < |list| ==> Link(other, list[i]) == Link(links, list[i])
    ensures Threaded(list, other)
  {
    forall i: nat | i < |list|
      ensures LinkedAt(list, other, i)
    {
      assert LinkedAt(list, links, i);
    }
  }

  lemma ThreadedPop(list: seq<nat>, links: map<nat, nat>)
    requires Threaded(list, links) && Distinct(list) && list != []
    ensures Threaded(list[1..], links) && Distinct(list[1..]) && Link(links, list[0]) == Head(list[1..])
  {
    var t := list[1..];
    assert LinkedAt(list, links, 0);
    forall i: nat | i < |t|
      ensures LinkedAt(t, links, i)
    {
      assert LinkedAt(list, links, i + 1) && t[i] == list[i + 1];
    }
  }

  lemma ThreadedPush(list: seq<nat>, links: map<nat, nat>, a: nat)
    requires Threaded(list, links) && Distinct(list) && a > 0 && a !in list
    ensures Threaded([a] + list, links[a := Head(list)]) && Distinct([a] + list)
  {
    var t, l := [a] + list, links[a := Head(list)];
    forall i: nat | i < |t|
      ensures LinkedAt(t, l, i)
    {
      if i > 0 { assert LinkedAt(list, links, i - 1) && t[i] == list[i - 1] && t[i] != a; }
    }
  }

  lemma ListFrame(p: Pool, q: Pool, j: nat)
    requires Shaped(p) && Shaped(q) && j < CLASS_COUNT && ListOk(p, j)
    requires q.heads[j] == p.heads[j] && q.lists[j] == p.lists[j]
    requires forall i :: 0 <= i < |p.lists[j]| ==> Link(q.links, p.lists[j][i]) == Link(p.links, p.lists[j][i])
    requires forall i :: 0 <= i < |p.lists[j]| ==> Spare(q, p.lists[j][i], j + 1)
    ensures ListOk(q, j)
  {
    ThreadedFrame(p.lists[j], p.links, q.links);
  }

  /** A block on one list is on no other, and there only once. */
  lemma ListsApart(p: Pool, k: nat, j: nat, i: nat, n: nat)
    requires Sound(p) && k < CLASS_COUNT && j < CLASS_COUNT && i < |p.lists[k]| && n < |p.lists[j]|
    requires k != j || i != n
    ensures p.lists[k][i] != p.lists[j][n]
  {
    assert ListOk(p, k) && ListOk(p, j);
    assert Spare(p, p.lists[k][i], k + 1) && Spare(p, p.lists[j][n], j + 1);
  }

  lemma LiveFrame(p: Pool, q: Pool, b: nat)
    requires SameCells(p, q) && b in p.live && LiveOk(p, b) && b in q.live && q.live[b] == p.live[b]
    requires forall x :: x in q.live && q.live[x].System? ==> x in p.live && q.live[x] == p.live[x]
    ensures LiveOk(q, b)
  {
  }

  lemma BumpFrame(p: Pool, q: Pool, j: nat)
    requires SameCells(p, q) && j < CLASS_COUNT && BumpOk(p, j) && q.bumps[j] == p.bumps[j]
    ensures BumpOk(q, j)
  {
  }

  lemma PopLists(p: Pool, k: nat, size: nat, j: nat)
    requires Sound(p) && k < CLASS_COUNT && p.lists[k] != [] && j < CLASS_COUNT
    requires Shaped(Popped(p, k, size))
    ensures ListOk(Popped(p, k, size), j)
  {
    var q := Popped(p, k, size);
    var a := p.lists[k][0];
    assert ListOk(p, k) && ListOk(p, j);
    forall i | 0 <= i < |q.lists[j]|
      ensures Spare(q, q.lists[j][i], j + 1)
    {
      var n := if j == k then i + 1 else i;
      assert q.lists[j][i] == p.lists[j][n];
      assert Spare(p, p.lists[j][n], j + 1);
      ListsApart(p, k, j, 0, n);
    }
    if j == k { ThreadedPop(p.lists[k], p.links); }
  }

  lemma PopKeeps(p: Pool, k: nat, size: nat)
    requires Sound(p) && k < CLASS_COUNT && p.lists[k] != [] && size <= Bytes(k + 1)
    ensures Sound(Popped(p, k, size)) && p.heads[k] == p.lists[k][0] && p.lists[k][0] !in p.live
  {
    var q := Popped(p, k, size);
    var a := p.lists[k][0];
    assert ListOk(p, k);
    assert SameCells(p, q) && Cells(q);
    forall j: nat | j < CLASS_COUNT
      ensures ListOk(q, j) && BumpOk(q, j)
    {
      PopLists(p, k, size, j);
      BumpFrame(p, q, j);
    }
    forall b | b in q.live
      ensures LiveOk(q, b)
    {
      if b != a { LiveFrame(p, q, b); }
    }
    PopConserves(p, k, size);
  }

  lemma PopConserves(p: Pool, k: nat, size: nat)
    requires Sound(p) && k < CLASS_COUNT && p.lists[k] != []
    requires Shaped(Popped(p, k, size)) && Cells(Popped(p, k, size))
    ensures Conserved(Popped(p, k, size))
  {
    var q := Popped(p, k, size);
    var a := p.lists[k][0];
    assert p.lists[k] == [a] + q.lists[k];
    forall b | b in q.carved
      ensures (b in q.live && q.live[b].Pooled?) || b in q.lists[ClassOfCell(q, b) - 1]
    {
      var j := ClassOfCell(p, b) - 1;
      if b != a && b in p.lists[j] { assert b in q.lists[j]; }
    }
  }

  /** The next cell of a class has room in its chunk. */
  predicate HasRoom(p: Pool, k: nat, a: nat) {
    && k < |p.bumps| && p.bumps[k].At?
    && a == p.bumps[k].base + p.bumps[k].next * Bytes(k + 1)
    && (p.bumps[k].next + 1) * Bytes(k + 1) <= CHUNK_SIZE
  }

  /** The next cell of a bump region has not been carved, and is nobody's. */
  lemma FreshCell(p: Pool, k: nat, a: nat)
    requires Sound(p) && k < CLASS_COUNT && HasRoom(p, k, a)
    ensures a !in p.carved && a !in p.live
  {
    var b := p.bumps[k];
    var s := Bytes(k + 1);
    assert BumpOk(p, k);
    assert (b.next + 1) * s == b.next * s + s;
    BaseOf(b.base, b.next * s);
    if a in p.carved {
      CellOffset(p, a);
      MulLe(p.carved[a].index, b.next, s);
      assert false;
    }
    NoneLive(p, a);
  }

  /** Memory of a chunk that has not been carved is nobody's. */
  lemma NoneLive(p: Pool, a: nat)
    requires Sound(p) && a !in p.carved && Base(a) in p.chunks
    ensures a !in p.live
  {
    if a in p.live && p.live[a].System? { SystemOutside(p, a); }
  }

  lemma CarveCells(p: Pool, k: nat, size: nat, a: nat)
    requires Sound(p) && k < CLASS_COUNT && HasRoom(p, k, a) && a !in p.carved
    ensures Cells(Carved(p, k, size, a)) && forall j: nat :: j < CLASS_COUNT ==> BumpOk(Carved(p, k, size, a), j)
  {
    var q := Carved(p, k, size, a);
    var b := p.bumps[k];
    assert BumpOk(p, k);
    assert (b.next + 1) * Bytes(k + 1) == b.next * Bytes(k + 1) + Bytes(k + 1);
    forall j: nat | j < CLASS_COUNT
      ensures BumpOk(q, j)
    {
      assert BumpOk(p, j);
    }
  }

  lemma CarveList(p: Pool, k: nat, size: nat, a: nat, j: nat)
    requires Sound(p) && k < CLASS_COUNT && p.bumps[k].At? && a !in p.carved && j < CLASS_COUNT
    requires Cells(Carved(p, k, size, a))
    ensures ListOk(Carved(p, k, size, a), j)
  {
    var q := Carved(p, k, size, a);
    assert ListOk(p, j);
    forall i | 0 <= i < |p.lists[j]| ensures Spare(q, p.lists[j][i], j + 1) { assert Spare(p, p.lists[j][i], j + 1); }
    ListFrame(p, q, j);
  }

  lemma CarveLive(p: Pool, k: nat, size: nat, a: nat, x: nat)
    requires Sound(p) && k < CLASS_COUNT && p.bumps[k].At? && size <= Bytes(k + 1) && a !in p.carved && a !in p.live
    requires Cells(Carved(p, k, size, a)) && (x == a || x in p.live)
    ensures LiveOk(Carved(p, k, size, a), x)
  {
    assert BumpOk(p, k);
    if x != a { assert LiveOk(p, x); }
  }

  lemma CarveRest(p: Pool, k: nat, size: nat, a: nat)
    requires Sound(p) && k < CLASS_COUNT && p.bumps[k].At? && size <= Bytes(k + 1) && a !in p.carved && a !in p.live
    requires Cells(Carved(p, k, size, a)) && forall j: nat :: j < CLASS_COUNT ==> BumpOk(Carved(p, k, size, a), j)
    ensures Sound(Carved(p, k, size, a))
  {
    var q := Carved(p, k, size, a);
    forall j: nat | j < CLASS_COUNT ensures ListOk(q, j) { CarveList(p, k, size, a, j); }
    forall x | x in q.live ensures LiveOk(q, x) { CarveLive(p, k, size, a, x); }
  }

  lemma CarveKeeps(p: Pool, k: nat, size: nat, a: nat)
    requires Sound(p) && k < CLASS_COUNT && HasRoom(p, k, a) && size <= Bytes(k + 1)
    ensures Sound(Carved(p, k, size, a)) && a !in p.live
  {
    FreshCell(p, k, a);
    CarveCells(p, k, size, a);
    CarveRest(p, k, size, a);
  }

  lemma OpenList(p: Pool, k: nat, base: nat, j: nat)
    requires Sound(p) && k < CLASS_COUNT && j < CLASS_COUNT && base !in p.chunks && IsBase(base) && base > 0
    requires Cells(Opened(p, k, base))
    ensures ListOk(Opened(p, k, base), j) && BumpOk(Opened(p, k, base), j)
  {
    var q := Opened(p, k, base);
    assert BumpOk(p, j) && ListOk(p, j);
    forall i | 0 <= i < |p.lists[j]| ensures Spare(q, p.lists[j][i], j + 1) { assert Spare(p, p.lists[j][i], j + 1); }
    ListFrame(p, q, j);
  }

  lemma OpenLive(p: Pool, k: nat, base: nat, a: nat)
    requires Sound(p) && k < CLASS_COUNT && base !in p.chunks && a in p.live && IsBase(base) && base > 0
    requires Cells(Opened(p, k, base))
    requires forall x :: x in p.live && p.live[x].System? ==> Apart(x, Extent(p.live[x].size), base, CHUNK_SIZE)
    ensures LiveOk(Opened(p, k, base), a)
  {
    assert LiveOk(p, a);
  }

  lemma OpenKeeps(p: Pool, k: nat, base: nat)
    requires Sound(p) && k < CLASS_COUNT && IsBase(base) && base > 0 && base !in p.chunks
    requires forall a :: a in p.live && p.live[a].System? ==> Apart(a, Extent(p.live[a].size), base, CHUNK_SIZE)
    ensures Sound(Opened(p, k, base))
  {
    var q := Opened(p, k, base);
    assert Cells(q);
    forall j: nat | j < CLASS_COUNT ensures ListOk(q, j) && BumpOk(q, j) { OpenList(p, k, base, j); }
    forall a | a in q.live ensures LiveOk(q, a) { OpenLive(p, k, base, a); }
  }

  /** A step that takes no cell from its list keeps every list. */
  lemma ListStays(p: Pool, q: Pool, j: nat)
    requires Sound(p) && SameCells(p, q) && j < CLASS_COUNT
    requires q.heads == p.heads && q.lists == p.lists && q.bumps == p.bumps
    requires forall a :: a in p.carved && a !in p.live ==> a !in q.live && Link(q.links, a) == Link(p.links, a)
    ensures ListOk(q, j) && BumpOk(q, j)
  {
    assert ListOk(p, j);
    forall i | 0 <= i < |p.lists[j]| ensures Spare(q, p.lists[j][i], j + 1) { assert Spare(p, p.lists[j][i], j + 1); }
    ListFrame(p, q, j);
    BumpFrame(p, q, j);
  }

  lemma GiveKeeps(p: Pool, a: nat, size: nat)
    requires Sound(p) && a > 0
    requires forall base :: base in p.chunks ==> Apart(a, Extent(size), base, CHUNK_SIZE)
    requires forall b :: b in p.live && p.live[b].System? ==> Apart(a, Extent(size), b, Extent(p.live[b].size))
    ensures Sound(Given(p, a, size)) && a !in p.live
  {
    var q := Given(p, a, size);
    NotCarved(p, a, size);
    NotLive(p, a, size);
    assert SameCells(p, q) && Cells(q);
    forall j: nat | j < CLASS_COUNT ensures ListOk(q, j) && BumpOk(q, j) { ListStays(p, q, j); }
    forall b | b in q.live
      ensures LiveOk(q, b)
    {
      GivenLive(p, a, size, b);
    }
  }

  lemma NotCarved(p: Pool, a: nat, size: nat)
    requires Sound(p) && forall base :: base in p.chunks ==> Apart(a, Extent(size), base, CHUNK_SIZE)
    ensures a !in p.carved
  {
    if a in p.carved { CellOffset(p, a); }
  }

  lemma GivenLive(p: Pool, a: nat, size: nat, b: nat)
    requires Sound(p) && a > 0 && a !in p.live && SameCells(p, Given(p, a, size)) && Cells(Given(p, a, size))
    requires forall base :: base in p.chunks ==> Apart(a, Extent(size), base, CHUNK_SIZE)
    requires forall b :: b in p.live && p.live[b].System? ==> Apart(a, Extent(size), b, Extent(p.live[b].size))
    requires b in Given(p, a, size).live
    ensures LiveOk(Given(p, a, size), b)
  {
    if b != a { assert LiveOk(p, b); }
  }

  lemma NotLive(p: Pool, a: nat, size: nat)
    requires Sound(p) && a !in p.carved
    requires forall b :: b in p.live && p.live[b].System? ==> Apart(a, Extent(size), b, Extent(p.live[b].size))
    ensures a !in p.live
  {
    if a in p.live { PooledIsCarved(p, a); }
  }

  lemma PooledIsCarved(p: Pool, a: nat)
    requires Sound(p) && a in p.live
    ensures p.live[a].Pooled? ==> a in p.carved
  {
    assert LiveOk(p, a);
  }

  lemma PushLists(p: Pool, a: nat, j: nat)
    requires Sound(p) && a in p.live && p.live[a].Pooled? && a in p.carved && a > 0 && j < CLASS_COUNT
    requires Shaped(Pushed(p, a))
    ensures ListOk(Pushed(p, a), j)
  {
    var q := Pushed(p, a);
    var k := ClassOfCell(p, a) - 1;
    assert ListOk(p, j);
    forall i | 0 <= i < |p.lists[j]|
      ensures p.lists[j][i] != a && Spare(q, p.lists[j][i], j + 1)
    {
      assert Spare(p, p.lists[j][i], j + 1);
    }
    if j != k {
      ListFrame(p, q, j);
    } else {
      ThreadedPush(p.lists[k], p.links, a);
      forall i | 0 <= i < |q.lists[k]|
        ensures Spare(q, q.lists[k][i], k + 1)
      {
        if i > 0 { assert q.lists[k][i] == p.lists[k][i - 1]; }
      }
    }
  }

  lemma PushKeeps(p: Pool, a: nat)
    requires Sound(p) && a in p.live && p.live[a].Pooled?
    ensures a in p.carved && Base(a) in p.chunks && p.chunks[Base(a)] == ClassOfCell(p, a)
    ensures Sound(Pushed(p, a))
  {
    PooledInside(p, a);
    assert LiveOk(p, a);
    CellOffset(p, a);
    var q := Pushed(p, a);
    assert SameCells(p, q) && Cells(q);
    forall j: nat | j < CLASS_COUNT
      ensures ListOk(q, j) && BumpOk(q, j)
    {
      PushLists(p, a, j);
      BumpFrame(p, q, j);
    }
    forall b | b in q.live
      ensures LiveOk(q, b)
    {
      LiveFrame(p, q, b);
    }
    PushConserves(p, a);
  }

  lemma PushConserves(p: Pool, a: nat)
    requires Sound(p) && a in p.carved && Shaped(Pushed(p, a)) && Cells(Pushed(p, a))
    ensures Conserved(Pushed(p, a))
  {
    var q := Pushed(p, a);
    var k := ClassOfCell(p, a) - 1;
    assert a in [a] + p.lists[k];
    forall b | b in q.carved
      ensures (b in q.live && q.live[b].Pooled?) || b in q.lists[ClassOfCell(q, b) - 1]
    {
      var j := ClassOfCell(p, b) - 1;
      if b in p.lists[j] { assert b in q.lists[j]; }
    }
  }

  lemma FreeKeeps(p: Pool, a: nat)
    requires Sound(p) && a in p.live && p.live[a].System?
    ensures Sound(Freed(p, a))
  {
    var q := Freed(p, a);
    assert SameCells(p, q) && Cells(q);
    forall j: nat | j < CLASS_COUNT ensures ListOk(q, j) && BumpOk(q, j) { ListStays(p, q, j); }
    FreedLive(p, a);
  }

  lemma FreedLive(p: Pool, a: nat)
    requires Sound(p) && a in p.live && p.live[a].System? && SameCells(p, Freed(p, a))
    ensures forall b :: b in Freed(p, a).live ==> LiveOk(Freed(p, a), b)
  {
    forall b | b in Freed(p, a).live
      ensures LiveOk(Freed(p, a), b)
    {
      LiveFrame(p, Freed(p, a), b);
    }
  }

  /** A live block and a carved cell that is free have no byte in common. */
  lemma SpareApart(p: Pool, a: nat, c: nat)
    requires Sound(p) && a in p.live && c in p.carved && c !in p.live
    ensures LiveOk(p, a) && p.carved[c].base in p.chunks && Apart(a, LiveExtent(p, a), c, Bytes(ClassOfCell(p, c)))
  {
    assert LiveOk(p, a);
    CellOffset(p, c);
    if p.live[a].Pooled? { CellsApart(p, a, c); }
  }

  /** An address within a live block. */
  predicate Within(p: Pool, a: nat, x: nat)
    requires Sound(p)
  {
    a in p.live && LiveOk(p, a) && a <= x < a + LiveExtent(p, a)
  }

  lemma WithinNoSpare(p: Pool, a: nat, x: nat)
    requires Sound(p) && Within(p, a, x)
    ensures forall c :: c in p.carved && c !in p.live ==> c != x
  {
    forall c | c in p.carved && c !in p.live
      ensures c != x
    {
      SpareApart(p, a, c);
      CellOffset(p, c);
    }
  }

  /** The owner of a live block may write what it likes anywhere in it. */
  lemma ScribbleKeeps(p: Pool, a: nat, x: nat, word: nat)
    requires Sound(p) && Within(p, a, x)
    ensures Sound(Scribbled(p, x, word))
  {
    WithinNoSpare(p, a, x);
    var q := Scribbled(p, x, word);
    assert SameCells(p, q) && Cells(q);
    forall j: nat | j < CLASS_COUNT ensures ListOk(q, j) && BumpOk(q, j) { ListStays(p, q, j); }
    forall b | b in q.live
      ensures LiveOk(q, b)
    {
      LiveFrame(p, q, b);
    }
  }

  // ---- the allocator ------------------------------------------------------------------

  /** What the environment promises: a mapped chunk is aligned memory nobody has, and
      the system allocator hands out memory nobody has. */
  predicate FreshChunk(p: Pool, base: nat) {
    && IsBase(base) && base > 0 && base !in p.chunks
    && forall a :: a in p.live && p.live[a].System? ==> Apart(a, Extent(p.live[a].size), base, CHUNK_SIZE)
  }

  predicate FreshBlock(p: Pool, a: nat, size: nat) {
    && a > 0
    && (forall base :: base in p.chunks ==> Apart(a, Extent(size), base, CHUNK_SIZE))
    && (forall b :: b in p.live && p.live[b].System? ==> Apart(a, Extent(size), b, Extent(p.live[b].size)))
  }

  lemma ClassCovers(size: nat)
    requires size < WORD && 1 <= ClassFor(size) <= CLASS_COUNT
    ensures size <= Bytes(ClassFor(size))
  {
  }

  lemma HeadNull(p: Pool, k: nat)
    requires Sound(p) && k < CLASS_COUNT
    ensures p.heads[k] == 0 <==> p.lists[k] == []
    ensures p.heads[k] != 0 ==> p.heads[k] == p.lists[k][0]
  {
    assert ListOk(p, k);
    if p.lists[k] != [] { assert LinkedAt(p.lists[k], p.links, 0); }
  }

  lemma RoomIs(p: Pool, k: nat, bump: nat, end: nat)
    requires Sound(p) && k < CLASS_COUNT && p.bumps[k].At?
    requires bump == p.bumps[k].base + p.bumps[k].next * Bytes(k + 1) && end == p.bumps[k].base + CHUNK_SIZE
    ensures bump <= end && (end - bump >= Bytes(k + 1) <==> HasRoom(p, k, bump)) && bump > 0
    ensures bump + Bytes(k + 1) == p.bumps[k].base + (p.bumps[k].next + 1) * Bytes(k + 1)
  {
    assert BumpOk(p, k);
    assert (p.bumps[k].next + 1) * Bytes(k + 1) == p.bumps[k].next * Bytes(k + 1) + Bytes(k + 1);
  }

  /** The two bump words of a class. */
  predicate BumpWords(b: Bump, k: nat, bump: nat, end: nat) {
    match b
    case NoChunk => bump == 0 && end == 0
    case At(base, next) => bump == base + next * Bytes(k + 1) && end == base + CHUNK_SIZE
  }

  /** The bump words of every class. */
  predicate BumpsHold(bumps: seq<Bump>, bump: seq<nat>, end: seq<nat>) {
    && |bumps| == CLASS_COUNT && |bump| == CLASS_COUNT && |end| == CLASS_COUNT
    && forall k: nat :: k < CLASS_COUNT ==> BumpWords(bumps[k], k, bump[k], end[k])
  }

  lemma BumpAdvance(p: Pool, k: nat, bump: seq<nat>, end: seq<nat>, size: nat)
    requires Sound(p) && k < CLASS_COUNT && BumpsHold(p.bumps, bump, end)
    requires bump[k] != 0 && end[k] - bump[k] >= Bytes(k + 1) && size <= Bytes(k + 1)
    ensures p.bumps[k].At? && (Carved(p, k, size, bump[k]), bump[k]) == ServedFromBump(p, k, size)
      && Sound(Carved(p, k, size, bump[k])) && bump[k] !in p.live
    ensures BumpsHold(Carved(p, k, size, bump[k]).bumps, bump[k := bump[k] + Bytes(k + 1)], end)
  {
    assert BumpWords(p.bumps[k], k, bump[k], end[k]);
    RoomIs(p, k, bump[k], end[k]);
    CarveKeeps(p, k, size, bump[k]);
  }

  lemma BumpOpen(p: Pool, k: nat, bump: seq<nat>, end: seq<nat>, base: nat)
    requires Sound(p) && k < CLASS_COUNT && BumpsHold(p.bumps, bump, end) && FreshChunk(p, base)
    ensures Sound(Opened(p, k, base))
    ensures BumpsHold(Opened(p, k, base).bumps, bump[k := base], end[k := base + CHUNK_SIZE])
  {
    OpenKeeps(p, k, base);
  }

  // ---- size classes ----------------------------------------------------------------------

  /** The class of a request is the first whose blocks hold it; a request so near the end of
      the address space that the sum wraps has none. */
  lemma ClassFits(size: nat)
    requires size < WORD
    ensures if size + GRANULE <= WORD then size <= Bytes(ClassFor(size)) < size + GRANULE else ClassFor(size) == 0
  {
    if size + GRANULE <= WORD {
      assert (size + GRANULE - 1) % WORD == size + GRANULE - 1;
    } else {
      assert (size + GRANULE - 1) % WORD == size + GRANULE - 1 - WORD;
    }
  }

  /** The pool serves requests of 1 to 4096 bytes, and no others. */
  lemma PooledExactly(pooling: bool, size: nat)
    requires size < WORD
    ensures IsPooled(pooling, size) <==> pooling && 1 <= size <= 4096
  {
    ClassFits(size);
  }

  // ---- a whole request and a whole release, on the pool --------------------------------

  predicate IsPooled(pooling: bool, size: nat) { pooling && 1 <= ClassFor(size) <= CLASS_COUNT }

  /** The class has neither a recycled block nor room for another cell. */
  predicate NeedsChunk(p: Pool, k: nat)
    requires Shaped(p) && k < CLASS_COUNT
  {
    p.lists[k] == [] && (p.bumps[k].NoChunk? || CHUNK_SIZE - p.bumps[k].next * Bytes(k + 1) < Bytes(k + 1))
  }

  /** The pool after a request and the block it gets. `chunk` is the chunk opened for
      the class, should it need one. */
  function Served(p: Pool, pooling: bool, size: nat, chunk: Option<nat>, system: nat): (Pool, nat)
    requires Shaped(p) && (chunk.Some? ==> IsBase(chunk.value) && chunk.value > 0)
  {
    if !IsPooled(pooling, size) then (Given(p, system, size), system) else
    var k := ClassFor(size) - 1;
    if p.lists[k] != [] then (Popped(p, k, size), p.lists[k][0]) else
    if !NeedsChunk(p, k) then ServedFromBump(p, k, size) else
    match chunk
    case Some(base) => (Carved(Opened(p, k, base), k, size, base), base)
    case None => (Given(p, system, size), system)
  }

  function ServedFromBump(p: Pool, k: nat, size: nat): (Pool, nat)
    requires Shaped(p) && k < CLASS_COUNT && p.bumps[k].At?
  {
    var a := p.bumps[k].base + p.bumps[k].next * Bytes(k + 1);
    (Carved(p, k, size, a), a)
  }

  /** The pool after a release. */
  function Returned(p: Pool, a: nat): Pool
    requires Sound(p) && a in p.live
  {
    if p.live[a].Pooled? then PooledIsCarved(p, a); Pushed(p, a) else Freed(p, a)
  }

  lemma BumpServes(p: Pool, k: nat, size: nat)
    requires Sound(p) && k < CLASS_COUNT && size <= Bytes(k + 1) && p.bumps[k].At?
    requires CHUNK_SIZE - p.bumps[k].next * Bytes(k + 1) >= Bytes(k + 1)
    ensures var (q, a) := ServedFromBump(p, k, size); Sound(q) && a > 0 && a !in p.live
  {
    var b := p.bumps[k];
    RoomIs(p, k, b.base + b.next * Bytes(k + 1), b.base + CHUNK_SIZE);
    CarveKeeps(p, k, size, b.base + b.next * Bytes(k + 1));
  }

  lemma OpenThenCarve(p: Pool, k: nat, size: nat, base: nat)
    requires Sound(p) && k < CLASS_COUNT && FreshChunk(p, base) && size <= Bytes(k + 1)
    ensures Sound(Carved(Opened(p, k, base), k, size, base)) && base !in p.live
  {
    OpenKeeps(p, k, base);
    assert 1 * Bytes(k + 1) <= CHUNK_SIZE;
    assert HasRoom(Opened(p, k, base), k, base);
    CarveKeeps(Opened(p, k, base), k, size, base);
  }

  /** A request is served by one new live block, from the pool whenever the pool can,
      and without carving whenever there is a recycled block of its class. */
  lemma ServedKeeps(p: Pool, pooling: bool, size: nat, chunk: Option<nat>, system: nat)
    requires Sound(p) && size < WORD
    requires FreshBlock(p, system, size) && (chunk.Some? ==> FreshChunk(p, chunk.value))
    ensures var (q, a) := Served(p, pooling, size, chunk, system);
      && Sound(q) && a > 0 && a !in p.live
      && (q.live == p.live[a := Pooled(size)] || q.live == p.live[a := System(size)])
      && (q.live[a].Pooled? <==> IsPooled(pooling, size) && (chunk.Some? || !NeedsChunk(p, ClassFor(size) - 1)))
      && q.links == p.links && p.carved.Keys <= q.carved.Keys <= p.carved.Keys + {a}
      && (IsPooled(pooling, size) && p.lists[ClassFor(size) - 1] != [] ==> q.carved == p.carved)
  {
    if !IsPooled(pooling, size) { GiveKeeps(p, system, size); return; }
    ClassCovers(size);
    var k := ClassFor(size) - 1;
    if p.lists[k] != [] {
      PopKeeps(p, k, size);
      assert Spare(p, p.lists[k][0], k + 1) by { assert ListOk(p, k); }
      CellOffset(p, p.lists[k][0]);
    } else if !NeedsChunk(p, k) {
      BumpServes(p, k, size);
    } else if chunk.Some? {
      OpenThenCarve(p, k, size, chunk.value);
    } else {
      GiveKeeps(p, system, size);
    }
  }

  /** A release ends one live block and touches no other. */
  lemma ReturnedKeeps(p: Pool, a: nat)
    requires Sound(p) && a in p.live
    ensures Sound(Returned(p, a)) && Returned(p, a).live == p.live - {a}
    ensures Returned(p, a).carved == p.carved
    ensures forall b :: b in p.live && b != a ==> Link(Returned(p, a).links, b) == Link(p.links, b)
  {
    if p.live[a].Pooled? { PushKeeps(p, a); } else { FreeKeeps(p, a); }
  }

  /** A block just released is the next one of its class handed out. */
  lemma ReleaseThenAllocate(p: Pool, a: nat, size: nat, chunk: Option<nat>, system: nat)
    requires Sound(p) && a in p.carved && p.carved[a].base in p.chunks && ClassOfCell(p, a) == ClassFor(size)
    requires chunk.Some? ==> IsBase(chunk.value) && chunk.value > 0
    ensures Shaped(Pushed(p, a)) && Served(Pushed(p, a), true, size, chunk, system).1 == a
  {
  }

  // ---- every run ------------------------------------------------------------------------

  datatype Step =
    | Allocate(size: nat, chunk: Option<nat>, system: nat)
    | Release(block: nat)
    | Write(block: nat, address: nat, word: nat)

  predicate Allowed(p: Pool, step: Step)
    requires Sound(p)
  {
    match step
    case Allocate(size, chunk, system) =>
      size < WORD && FreshBlock(p, system, size) && (chunk.Some? ==> FreshChunk(p, chunk.value))
    case Release(block) => block in p.live
    case Write(block, address, _) => Within(p, block, address)
  }

  function After(p: Pool, pooling: bool, step: Step): Pool
    requires Sound(p) && Allowed(p, step)
  {
    match step
    case Allocate(size, chunk, system) => Served(p, pooling, size, chunk, system).0
    case Release(block) => Returned(p, block)
    case Write(_, address, word) => Scribbled(p, address, word)
  }

  lemma AfterKeeps(p: Pool, pooling: bool, step: Step)
    requires Sound(p) && Allowed(p, step)
    ensures Sound(After(p, pooling, step))
  {
    match step
    case Allocate(size, chunk, system) => ServedKeeps(p, pooling, size, chunk, system);
    case Release(block) => ReturnedKeeps(p, block);
    case Write(block, address, word) => ScribbleKeeps(p, block, address, word);
  }

  /** The steps can be taken one after the other from `p`, to `q`. */
  predicate Reaches(p: Pool, pooling: bool, steps: seq<Step>, q: Pool)
    decreases |steps|
  {
    if steps == [] then p == q else
    Sound(p) && Allowed(p, steps[0]) && Reaches(After(p, pooling, steps[0]), pooling, steps[1..], q)
  }

  lemma {:induction false} ReachesSound(p: Pool, pooling: bool, steps: seq<Step>, q: Pool)
    requires Sound(p) && Reaches(p, pooling, steps, q)
    ensures Sound(q)
    decreases |steps|
  {
    if steps != [] {
      AfterKeeps(p, pooling, steps[0]);
      ReachesSound(After(p, pooling, steps[0]), pooling, steps[1..], q);
    }
  }

  /** In every run of requests, releases of live blocks and writes into them, a live
      block covers its request, and a pooled one is a carved cell inside one chunk. */
  lemma EveryBlock(pooling: bool, steps: seq<Step>, q: Pool, a: nat)
    requires Reaches(EMPTY, pooling, steps, q) && a in q.live
    ensures Sound(q) && LiveOk(q, a) && q.live[a].size <= LiveExtent(q, a)
    ensures q.live[a].Pooled? ==>
      a in q.carved && Base(a) in q.chunks && Base(a) <= a && a + LiveExtent(q, a) <= Base(a) + CHUNK_SIZE
  {
    EmptySound();
    ReachesSound(EMPTY, pooling, steps, q);
    assert LiveOk(q, a);
    if q.live[a].Pooled? { PooledInside(q, a); }
  }

  /** In every such run two live blocks are disjoint. */
  lemma EveryRun(pooling: bool, steps: seq<Step>, q: Pool, a: nat, b: nat)
    requires Reaches(EMPTY, pooling, steps, q) && a in q.live && b in q.live && a != b
    ensures Sound(q) && Apart(a, LiveExtent(q, a), b, LiveExtent(q, b))
  {
    EmptySound();
    ReachesSound(EMPTY, pooling, steps, q);
    LiveApart(q, a, b);
  }

  /** What a bump region has left to carve: its start and its length. */
  function TailOf(b: Bump, k: nat): (nat, nat)
    requires b.At?
  {
    (b.base + b.next * Bytes(k + 1), if b.next * Bytes(k + 1) < CHUNK_SIZE then CHUNK_SIZE - b.next * Bytes(k + 1)
      else 0)
  }

  lemma TailInside(a: nat, n: nat, base: nat, used: nat)
    requires Apart(a, n, base, CHUNK_SIZE) && used <= CHUNK_SIZE
    ensures Apart(a, n, base + used, CHUNK_SIZE - used)
  {
  }

  lemma TailUsed(p: Pool, k: nat)
    requires Sound(p) && k < CLASS_COUNT && p.bumps[k].At?
    ensures p.bumps[k].next * Bytes(k + 1) <= CHUNK_SIZE && p.bumps[k].base in p.chunks
  {
    assert BumpOk(p, k);
  }

  lemma PooledTailApart(p: Pool, a: nat, k: nat)
    requires Sound(p) && a in p.carved && k < CLASS_COUNT && p.bumps[k].At? && p.carved[a].base in p.chunks
    ensures Apart(a, Bytes(ClassOfCell(p, a)), TailOf(p.bumps[k], k).0, TailOf(p.bumps[k], k).1)
  {
    var base, used := p.bumps[k].base, p.bumps[k].next * Bytes(k + 1);
    TailUsed(p, k);
    if p.carved[a].base == base {
      BelowBump(p, a, k);
    } else {
      CellOffset(p, a);
      ChunksApart(p.carved[a].base, base);
      TailInside(a, Bytes(ClassOfCell(p, a)), base, used);
    }
  }

  lemma TailApart(p: Pool, a: nat, k: nat)
    requires Sound(p) && a in p.live && k < CLASS_COUNT && p.bumps[k].At?
    ensures LiveOk(p, a) && Apart(a, LiveExtent(p, a), TailOf(p.bumps[k], k).0, TailOf(p.bumps[k], k).1)
  {
    assert LiveOk(p, a);
    TailUsed(p, k);
    if p.live[a].Pooled? {
      PooledTailApart(p, a, k);
    } else {
      TailInside(a, LiveExtent(p, a), p.bumps[k].base, p.bumps[k].next * Bytes(k + 1));
    }
  }

  /** In every such run a live block has no byte in common with a free one, nor with
      anything still to be carved. */
  lemma EveryByte(pooling: bool, steps: seq<Step>, q: Pool, a: nat)
    requires Reaches(EMPTY, pooling, steps, q) && a in q.live
    ensures Sound(q) && LiveOk(q, a)
    ensures forall j, c :: 0 <= j < CLASS_COUNT && c in q.lists[j] ==> Apart(a, LiveExtent(q, a), c, Bytes(j + 1))
    ensures forall k: nat :: k < CLASS_COUNT && q.bumps[k].At? ==>
      Apart(a, LiveExtent(q, a), TailOf(q.bumps[k], k).0, TailOf(q.bumps[k], k).1)
  {
    EveryBlock(pooling, steps, q, a);
    forall j, c | 0 <= j < CLASS_COUNT && c in q.lists[j]
      ensures Apart(a, LiveExtent(q, a), c, Bytes(j + 1))
    {
      ListedIsSpare(q, c, j);
      SpareApart(q, a, c);
    }
    forall k: nat | k < CLASS_COUNT && q.bumps[k].At?
      ensures Apart(a, LiveExtent(q, a), TailOf(q.bumps[k], k).0, TailOf(q.bumps[k], k).1)
    {
      TailApart(q, a, k);
    }
  }

  /** In every such run two free blocks have no byte in common. */
  lemma EverySpare(pooling: bool, steps: seq<Step>, q: Pool, j: nat, c: nat, k: nat, d: nat)
    requires Reaches(EMPTY, pooling, steps, q) && j < CLASS_COUNT && k < CLASS_COUNT && |q.lists| == CLASS_COUNT
    requires c in q.lists[j] && d in q.lists[k] && c != d
    ensures Apart(c, Bytes(j + 1), d, Bytes(k + 1))
  {
    EmptySound();
    ReachesSound(EMPTY, pooling, steps, q);
    ListedIsSpare(q, c, j);
    ListedIsSpare(q, d, k);
    CellsApart(q, c, d);
  }

  lemma ListedIsSpare(p: Pool, c: nat, j: nat)
    requires Sound(p) && j < CLASS_COUNT && c in p.lists[j]
    ensures Spare(p, c, j + 1)
  {
    assert ListOk(p, j);
    var i :| 0 <= i < |p.lists[j]| && p.lists[j][i] == c;
    assert Spare(p, p.lists[j][i], j + 1);
  }

  lemma BelowBump(p: Pool, c: nat, k: nat)
    requires Sound(p) && c in p.carved && k < CLASS_COUNT && p.bumps[k].At? && p.bumps[k].base == p.carved[c].base
    ensures p.carved[c].base in p.chunks
      && c + Bytes(ClassOfCell(p, c)) <= p.bumps[k].base + p.bumps[k].next * Bytes(k + 1)
  {
    assert BumpOk(p, k) && InCell(p, c, p.carved[c]);
    MulLe(p.carved[c].index, p.bumps[k].next, Bytes(k + 1));
  }

  /** Conservation, in every such run: a carved cell is either live or on a free list,
      never both; the only list it can be on is that of its chunk's class; and it lies
      below what its chunk has left to carve. */
  lemma EveryCell(pooling: bool, steps: seq<Step>, q: Pool, c: nat)
    requires Reaches(EMPTY, pooling, steps, q) && c in q.carved
    ensures Shaped(q) && Base(c) in q.chunks
    ensures var k := q.chunks[Base(c)] - 1;
      && (c in q.live <==> c !in q.lists[k])
      && (forall j: nat :: j < CLASS_COUNT && c in q.lists[j] ==> j == k)
      && (q.bumps[k].At? && q.bumps[k].base == Base(c) ==>
            c + Bytes(k + 1) <= q.bumps[k].base + q.bumps[k].next * Bytes(k + 1))
  {
    EmptySound();
    ReachesSound(EMPTY, pooling, steps, q);
    CellOffset(q, c);
    var k := q.chunks[Base(c)] - 1;
    forall j: nat | j < CLASS_COUNT && c in q.lists[j]
      ensures j == k && c !in q.live
    {
      ListedIsSpare(q, c, j);
    }
    if q.bumps[k].At? && q.bumps[k].base == Base(c) { BelowBump(q, c, k); }
  }

  /** The free lists of every such run are threaded through the blocks from the head to
      null, without repetition. */
  lemma EveryList(pooling: bool, steps: seq<Step>, q: Pool, k: nat)
    requires Reaches(EMPTY, pooling, steps, q) && k < CLASS_COUNT
    ensures Shaped(q) && q.heads[k] == Head(q.lists[k]) && Threaded(q.lists[k], q.links) && Distinct(q.lists[k])
  {
    EmptySound();
    ReachesSound(EMPTY, pooling, steps, q);
    assert ListOk(q, k);
  }

  /** Where a live block came from is what its chunk's class tells; null is never live. */
  lemma ChunkTells(p: Pool, a: nat)
    requires Sound(p) && a in p.live
    ensures a > 0 && (p.live[a].Pooled? <==> Base(a) in p.chunks)
    ensures p.live[a].Pooled? ==> a in p.carved && Answer(p.chunks, Base(a)) == ClassOfCell(p, a)
  {
    PooledIsCarved(p, a);
    if p.live[a].Pooled? { PooledInside(p, a); CellOffset(p, a); } else { SystemOutside(p, a); assert LiveOk(p, a); }
  }

  lemma PushedIs(p: Pool, a: nat, k: nat) returns (q: Pool)
    requires Sound(p) && a in p.live && p.live[a].Pooled? && k < CLASS_COUNT
    requires a in p.carved && p.carved[a].base in p.chunks && ClassOfCell(p, a) == k + 1
    ensures q == Returned(p, a) && Sound(q) && q.chunks == p.chunks && q.bumps == p.bumps
    ensures q.heads == p.heads[k := a] && q.links == p.links[a := p.heads[k]]
  {
    PushKeeps(p, a);
    q := Pushed(p, a);
  }

  /** What the words of a class tell about its bump region. */
  lemma WordsTell(p: Pool, k: nat, bump: seq<nat>, end: seq<nat>)
    requires Sound(p) && k < CLASS_COUNT && BumpsHold(p.bumps, bump, end)
    ensures bump[k] == 0 <==> p.bumps[k].NoChunk?
    ensures p.bumps[k].At? ==> bump[k] == p.bumps[k].base + p.bumps[k].next * Bytes(k + 1)
    ensures p.bumps[k].At? ==> end[k] == p.bumps[k].base + CHUNK_SIZE
  {
    assert BumpWords(p.bumps[k], k, bump[k], end[k]);
    if p.bumps[k].At? { RoomIs(p, k, bump[k], end[k]); }
  }

  predicate Roomy(p: Pool, k: nat)
    requires Shaped(p) && k < CLASS_COUNT
  {
    p.bumps[k].At? && CHUNK_SIZE - p.bumps[k].next * Bytes(k + 1) >= Bytes(k + 1)
  }

  function Refilled(p: Pool, k: nat, got: Option<nat>): Pool
    requires Shaped(p) && k < CLASS_COUNT
  {
    if Roomy(p, k) || got.None? then p else Opened(p, k, got.value)
  }

  /** A request that finds no recycled block is served from the refilled region. */
  lemma ServedIsRefill(p: Pool, k: nat, size: nat, got: Option<nat>, system: nat)
    requires Sound(p) && k < CLASS_COUNT && p.lists[k] == [] && ClassFor(size) == k + 1
    requires got.Some? ==> FreshChunk(p, got.value)
    ensures var q := Refilled(p, k, got);
      Shaped(q) && Served(p, true, size, got, system)
        == if Roomy(q, k) then ServedFromBump(q, k, size) else (Given(q, system, size), system)
    ensures !Roomy(Refilled(p, k, got), k) ==> Refilled(p, k, got) == p
  {
  }

  class Allocator {
    const gFree: array<nat>
    const gBump: array<nat>
    const gBumpEnd: array<nat>
    const table: Table
    const pooling: bool              // GEA_NO_POOL_ALLOC is not set
    var memory: map<nat, nat>        // the first word of each block
    var anyChunk: bool
    var lastChunkBase: nat           // the one-entry cache in front of the table
    var lastChunkClass: nat

    ghost var pool: Pool

    ghost predicate Separate() {
      && gFree.Length == CLASS_COUNT && gBump.Length == CLASS_COUNT && gBumpEnd.Length == CLASS_COUNT
      && gFree != gBump && gFree != gBumpEnd && gBump != gBumpEnd
      && table.entries != gFree && table.entries != gBump && table.entries != gBumpEnd
      && table.entries.Length == TABLE_SIZE
    }

    /** The real state is what `pool` says it is. */
    ghost predicate Agrees()
      reads this, gFree, gBump, gBumpEnd
    {
      && gFree[..] == pool.heads && memory == pool.links
      && BumpsHold(pool.bumps, gBump[..], gBumpEnd[..])
    }

    /** The table holds the pool's chunks, and the cache agrees with it. */
    ghost predicate Registered()
      reads this, table, table.entries
    {
      && table.Valid() && table.chunks == pool.chunks
      && (anyChunk <==> pool.chunks != map[])
      && (lastChunkClass != 0 ==> Answer(pool.chunks, lastChunkBase) == lastChunkClass)
    }

    /** Every slot a chunk could be registered in is taken. */
    ghost predicate Saturated(base: nat)
      reads table.entries
      requires table.entries.Length == TABLE_SIZE
    {
      forall e: nat :: e < MAX_PROBE ==> table.entries[ProbeSlot(table.hash(base), e)] != 0
    }

    ghost predicate Valid()
      reads this, gFree, gBump, gBumpEnd, table, table.entries
    {
      Separate() && Agrees() && Sound(pool) && Registered()
    }

    constructor (pooling: bool)
      ensures Valid() && pool == EMPTY && this.pooling == pooling
    {
      gFree := new nat[CLASS_COUNT](i => 0);
      gBump := new nat[CLASS_COUNT](i => 0);
      gBumpEnd := new nat[CLASS_COUNT](i => 0);
      table := new Table();
      this.pooling := pooling;
      memory, anyChunk, lastChunkBase, lastChunkClass, pool := map[], false, 0, 0, EMPTY;
      new;
      EmptySound();
    }

    /** Pop the free list. */
    method Pop(k: nat, size: nat) returns (block: nat)
      requires Valid() && k < CLASS_COUNT && gFree[k] != 0 && pool.lists[k] != [] && size <= Bytes(k + 1)
      modifies gFree, `pool
      ensures Valid() && block !in old(pool).live && pool == Popped(old(pool), k, size)
        && block == old(pool).lists[k][0]
    {
      PopKeeps(pool, k, size);
      block := gFree[k];
      gFree[k] := Link(memory, block);
      pool := Popped(pool, k, size);
      assert gFree[..] == pool.heads;
    }

    /** Take the next cell of the bump region. */
    method Carve(k: nat, size: nat) returns (block: nat)
      requires Valid() && k < CLASS_COUNT && gBump[k] != 0 && gBumpEnd[k] - gBump[k] >= Bytes(k + 1)
      requires size <= Bytes(k + 1) && pool.bumps[k].At?
      modifies gBump, `pool
      ensures Valid() && block !in old(pool).live && (pool, block) == ServedFromBump(old(pool), k, size)
    {
      block := gBump[k];
      BumpAdvance(pool, k, gBump[..], gBumpEnd[..], size);
      ghost var was := gBump[..];
      gBump[k] := block + Bytes(k + 1);
      pool := Carved(pool, k, size, block);
      assert gBump[..] == was[k := gBump[k]];
    }

    /** The bump region of a class becomes a chunk just registered for it. */
    method StartChunk(k: nat, base: nat)
      requires Separate() && Agrees() && Sound(pool) && k < CLASS_COUNT && FreshChunk(pool, base)
      requires table.Valid() && table.chunks == pool.chunks[base := k + 1]
      requires lastChunkClass != 0 ==> Answer(pool.chunks, lastChunkBase) == lastChunkClass
      modifies gBump, gBumpEnd, `anyChunk, `pool
      ensures Valid() && pool == Opened(old(pool), k, base)
    {
      BumpOpen(pool, k, gBump[..], gBumpEnd[..], base);
      ghost var bump, end := gBump[..], gBumpEnd[..];
      anyChunk := true;
      gBump[k] := base;
      gBumpEnd[k] := base + CHUNK_SIZE;
      pool := Opened(pool, k, base);
      assert gBump[..] == bump[k := gBump[k]] && gBumpEnd[..] == end[k := gBumpEnd[k]];
      assert base in pool.chunks;
    }

    /** Open a chunk for a class, if one can be mapped and registered; a chunk the
        saturated table refuses is unmapped again. */
    method OpenChunk(k: nat, chunk: Option<nat>) returns (ok: bool)
      requires Valid() && k < CLASS_COUNT && (chunk.Some? ==> FreshChunk(pool, chunk.value))
      modifies gBump, gBumpEnd, `anyChunk, `pool, table, table.entries
      ensures Valid() && (ok ==> chunk.Some?)
      ensures pool == if ok then Opened(old(pool), k, chunk.value) else old(pool)
      ensures chunk.Some? && !ok ==> Saturated(chunk.value)
    {
      if chunk.None? { return false; }
      ok := table.RegisterChunk(chunk.value, k + 1);
      if ok { StartChunk(k, chunk.value); }
    }

    /** `allocate`. `chunk` is what the system would map for a new chunk, `system` what
        its allocator would hand out; `got` is the chunk really opened. */
    method Allocate(size: nat, chunk: Option<nat>, system: nat) returns (block: nat, ghost got: Option<nat>)
      requires Valid() && size < WORD
      requires FreshBlock(pool, system, size) && (chunk.Some? ==> FreshChunk(pool, chunk.value))
      modifies gFree, gBump, gBumpEnd, `anyChunk, `pool, table, table.entries
      ensures Valid() && (got == chunk || got == None)
      ensures (pool, block) == Served(old(pool), pooling, size, got, system)
      ensures block !in old(pool).live
      ensures IsPooled(pooling, size) && NeedsChunk(old(pool), ClassFor(size) - 1) && got != chunk
        ==> Saturated(chunk.value)
    {
      var klass := ClassFor(size);
      if pooling && klass >= 1 && klass <= CLASS_COUNT {
        ClassCovers(size);
        HeadNull(pool, klass - 1);
        if gFree[klass - 1] != 0 {
          got := None;
          block := Pop(klass - 1, size);
        } else {
          block, got := AllocateFresh(klass - 1, size, chunk, system);
        }
      } else {
        got := None;
        block := Give(size, system);
      }
    }

    /** A request that finds no recycled block. */
    method AllocateFresh(k: nat, size: nat, chunk: Option<nat>, system: nat)
      returns (block: nat, ghost got: Option<nat>)
      requires Valid() && k < CLASS_COUNT && ClassFor(size) == k + 1 && size <= Bytes(k + 1) && pool.lists[k] == []
      requires FreshBlock(pool, system, size) && (chunk.Some? ==> FreshChunk(pool, chunk.value))
      modifies gBump, gBumpEnd, `anyChunk, `pool, table, table.entries
      ensures Valid() && (got == chunk || got == None)
      ensures (pool, block) == Served(old(pool), true, size, got, system)
      ensures block !in old(pool).live
      ensures NeedsChunk(old(pool), k) && got != chunk ==> Saturated(chunk.value)
    {
      ghost var was := pool;
      var room;
      room, got := Refill(k, chunk);
      ServedIsRefill(was, k, size, got, system);
      if room {
        block := Carve(k, size);
      } else {
        block := Give(size, system);
      }
    }

    /** The system allocator's block. */
    method Give(size: nat, system: nat) returns (block: nat)
      requires Valid() && FreshBlock(pool, system, size)
      modifies `pool
      ensures Valid() && block == system && block !in old(pool).live && pool == Given(old(pool), system, size)
    {
      GiveKeeps(pool, system, size);
      block := system;
      pool := Given(pool, system, size);
    }

    /** Make room in the bump region of a class, if it has none and a chunk can be had. */
    method Refill(k: nat, chunk: Option<nat>) returns (room: bool, ghost got: Option<nat>)
      requires Valid() && k < CLASS_COUNT && (chunk.Some? ==> FreshChunk(pool, chunk.value))
      modifies gBump, gBumpEnd, `anyChunk, `pool, table, table.entries
      ensures Valid() && (got == chunk || got == None) && pool == Refilled(old(pool), k, got)
      ensures !Roomy(old(pool), k) && got != chunk ==> Saturated(chunk.value)
      ensures room == Roomy(pool, k) == (gBump[k] != 0 && gBumpEnd[k] - gBump[k] >= Bytes(k + 1))
    {
      got := chunk;
      WordsTell(pool, k, gBump[..], gBumpEnd[..]);
      if gBump[k] == 0 || gBumpEnd[k] - gBump[k] < Bytes(k + 1) {
        var ok := OpenChunk(k, chunk);
        if !ok { got := None; }
      }
      WordsTell(pool, k, gBump[..], gBumpEnd[..]);
      room := gBump[k] != 0 && gBumpEnd[k] - gBump[k] >= Bytes(k + 1);
    }

    /** The class of the chunk of an address, 0 if it has none: the one-entry cache,
        then the table. */
    method ChunkClass(base: nat) returns (klass: nat)
      requires Valid() && IsBase(base)
      modifies `lastChunkBase, `lastChunkClass
      ensures Valid() && klass == Answer(pool.chunks, base)
    {
      if base == lastChunkBase && lastChunkClass != 0 {
        klass := lastChunkClass;
      } else {
        klass := table.LookupChunkClass(base);
        if klass != 0 {
          lastChunkBase := base;
          lastChunkClass := klass;
        }
      }
    }

    /** Link a block in front of a free list; `after` is the pool this makes. */
    method Store(ptr: nat, k: nat, ghost after: Pool)
      requires Separate() && Agrees() && Registered() && k < CLASS_COUNT && |pool.heads| == CLASS_COUNT
      requires Sound(after) && after.chunks == pool.chunks && after.bumps == pool.bumps
      requires after.heads == pool.heads[k := ptr] && after.links == pool.links[ptr := pool.heads[k]]
      modifies gFree, `memory, `pool
      ensures Valid() && pool == after
    {
      memory := memory[ptr := gFree[k]];
      gFree[k] := ptr;
      pool := after;
    }

    /** Put a pooled block on the free list of its class, through its first word. */
    method Push(ptr: nat, k: nat)
      requires Valid() && ptr in pool.live && pool.live[ptr].Pooled? && k < CLASS_COUNT
      requires ptr in pool.carved && Cells(pool) && ClassOfCell(pool, ptr) == k + 1
      modifies gFree, `memory, `pool
      ensures Valid() && pool == Returned(old(pool), ptr)
    {
      ghost var after := PushedIs(pool, ptr, k);
      Store(ptr, k, after);
    }

    /** Give a block back to the system allocator. */
    method Free(ptr: nat)
      requires Valid() && ptr in pool.live && pool.live[ptr].System?
      modifies `pool
      ensures Valid() && pool == Returned(old(pool), ptr)
    {
      FreeKeeps(pool, ptr);
      pool := Freed(pool, ptr);
    }

    /** `release`, of null or of a live block. */
    method Release(ptr: nat)
      requires Valid() && (ptr == 0 || ptr in pool.live) && ptr < WORD
      modifies gFree, `memory, `pool, `lastChunkBase, `lastChunkClass
      ensures Valid() && pool == if ptr == 0 then old(pool) else Returned(old(pool), ptr)
    {
      if ptr == 0 { return; }
      if !anyChunk {
        ChunkTells(pool, ptr);
        Free(ptr);
      } else {
        ReleaseTo(ptr, Base(ptr));
      }
    }

    /** The release of a block when there are chunks. */
    method ReleaseTo(ptr: nat, base: nat)
      requires Valid() && ptr in pool.live && ptr < WORD && base == Base(ptr)
      modifies gFree, `memory, `pool, `lastChunkBase, `lastChunkClass
      ensures Valid() && pool == Returned(old(pool), ptr)
    {
      var klass := ChunkClass(base);
      ChunkTells(pool, ptr);
      if klass != 0 {
        Push(ptr, klass - 1);
      } else {
        Free(ptr);
      }
    }

    /** The owner of a live block writes a word at any place in it. */
    method Write(ghost ptr: nat, address: nat, word: nat)
      requires Valid() && Within(pool, ptr, address)
      modifies `memory, `pool
      ensures Valid() && pool == Scribbled(old(pool), address, word)
    {
      ScribbleKeeps(pool, ptr, address, word);
      memory := memory[address := word];
      pool := Scribbled(pool, address, word);
    }
  }
}

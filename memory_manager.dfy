/** `MemoryManager` (source/memory_manager.cpp): the bump allocator behind the
    global `operator new`.  It hands out pieces of chunks of at least 20 MiB
    and keeps at most 1024 chunks.  `malloc` is a parameter (did it
    succeed?), a chunk is known by its index in the pool, and a pointer by
    its chunk and its offset in that chunk.  Counters are `size_t`: all
    arithmetic on them is taken modulo 2^64, as in the source. */
module Memory {
  import opened Text

  const ChunkSize: nat := 20 * 1024 * 1024
  const PoolCapacity: nat := 1024
  /** 2^64: `size_t` arithmetic wraps around at this value. */
  const SizeTModulus: nat := 0x1_0000_0000_0000_0000
  /** `size_t(-1)`, the chunk index before the first chunk. */
  const SizeMax: nat := SizeTModulus - 1

  function Wrap(x: int): (r: nat)
    ensures r < SizeTModulus
    ensures 0 <= x < SizeTModulus ==> r == x
  {
    x % SizeTModulus
  }

  function Max(a: nat, b: nat): nat {
    if a < b then b else a
  }

  /** The fields: current chunk index, its size, the offset of the next free
      byte in it, and the pool, where 0 is a null pointer and any other value
      the size of the block `malloc` returned. */
  datatype Manager = Manager(chunk: nat, chunkSize: nat, position: nat, pool: seq<nat>)

  /** The result of `getMemory`: a pointer into chunk `chunk` at `offset`,
      or `std::bad_alloc`. */
  datatype Allocation = Block(chunk: nat, offset: nat) | BadAlloc

  /** The constructor: a null pool, chunk index -1, and a position at the
      end of a chunk of the minimum size, so that the first request opens a
      chunk. */
  function Initial(): Manager {
    Manager(SizeMax, ChunkSize, ChunkSize, seq(PoolCapacity, _ => 0))
  }

  /** Fields of `size_t` width and a pool of 1024 slots. */
  predicate Fits(m: Manager) {
    m.chunk < SizeTModulus && m.chunkSize < SizeTModulus &&
    m.position < SizeTModulus && |m.pool| == PoolCapacity
  }

  /** `getMemory(size)` as written. */
  function Get(m: Manager, size: nat, mallocOk: bool): (r: (Manager, Allocation))
    requires Fits(m) && size < SizeTModulus
    ensures Fits(r.0)
  {
    if Wrap(m.position + size) > m.chunkSize then
      var chunk := Wrap(m.chunk + 1);
      if chunk >= PoolCapacity then (m.(chunk := chunk), BadAlloc)
      else
        var chunkSize := Max(ChunkSize, size);
        if !mallocOk then (m.(chunk := chunk, chunkSize := chunkSize, pool := m.pool[chunk := 0]), BadAlloc)
        else (Manager(chunk, chunkSize, Wrap(size), m.pool[chunk := chunkSize]), Block(chunk, 0))
    else (m.(position := Wrap(m.position + size)), Block(m.chunk, m.position))
  }

  // ---- Properties of the code as written ---------------------------------

  /** Whether a call tries to open a new chunk. */
  predicate Opens(m: Manager, size: nat) {
    Wrap(m.position + size) > m.chunkSize
  }

  /** The first request of at least one byte opens chunk 0 and is served at
      its start. */
  lemma FirstRequestOpensChunk(size: nat)
    requires 0 < size <= SizeMax - ChunkSize
    ensures Get(Initial(), size, true).1 == Block(0, 0)
    ensures Get(Initial(), size, true).0 ==
              Manager(0, Max(ChunkSize, size), size, Initial().pool[0 := Max(ChunkSize, size)])
  {
    assert Wrap(SizeMax + 1) == 0;
  }

  /** A call moves to a new chunk index exactly when the request does not
      fit the rest of the current chunk, whether or not it then succeeds. */
  lemma NewChunkExactlyWhenFull(m: Manager, size: nat, mallocOk: bool)
    requires Fits(m) && size < SizeTModulus
    ensures Get(m, size, mallocOk).0.chunk != m.chunk <==> Opens(m, size)
    ensures Opens(m, size) ==> Get(m, size, mallocOk).0.chunk == Wrap(m.chunk + 1)
  {
    if Opens(m, size) {
      assert Wrap(m.chunk + 1) != m.chunk;
    }
  }

  /** A new chunk that was allocated has size max(20 MiB, size), the block is
      its first byte and the position is the request's size. */
  lemma NewChunkServes(m: Manager, size: nat, mallocOk: bool)
    requires Fits(m) && size < SizeTModulus
    requires Opens(m, size) && Get(m, size, mallocOk).1.Block?
    ensures var (m', a) := Get(m, size, mallocOk);
              a == Block(m'.chunk, 0) && m'.chunkSize == Max(ChunkSize, size) &&
              m'.position == size && m'.pool[m'.chunk] == m'.chunkSize > 0
  {
  }

  /** A request that fits is served at the current position, which moves on
      by the request's size (modulo 2^64); nothing else changes. */
  lemma ServedInPlace(m: Manager, size: nat, mallocOk: bool)
    requires Fits(m) && size < SizeTModulus && !Opens(m, size)
    ensures Get(m, size, mallocOk) ==
              (m.(position := Wrap(m.position + size)), Block(m.chunk, m.position))
  {
  }

  /** `bad_alloc` is thrown exactly when a chunk must be opened and either
      the incremented index reaches 1024 or `malloc` fails; the index stays
      incremented and the position is not reset. */
  lemma BadAllocExactly(m: Manager, size: nat, mallocOk: bool)
    requires Fits(m) && size < SizeTModulus
    ensures Get(m, size, mallocOk).1 == BadAlloc <==>
              Opens(m, size) && (Wrap(m.chunk + 1) >= PoolCapacity || !mallocOk)
    ensures Get(m, size, mallocOk).1 == BadAlloc ==>
              Get(m, size, mallocOk).0.chunk == Wrap(m.chunk + 1) &&
              Get(m, size, mallocOk).0.position == m.position
  {
  }

  /** While no call fails, the position never passes the end of the chunk,
      and a request without overflow gets a block inside the chunk, ending at
      the new position. */
  lemma PositionWithinChunk(m: Manager, size: nat, mallocOk: bool)
    requires Fits(m) && size < SizeTModulus && m.position <= m.chunkSize
    requires Get(m, size, mallocOk).1.Block?
    ensures var (m', a) := Get(m, size, mallocOk);
              m'.position <= m'.chunkSize &&
              (m.position + size < SizeTModulus ==>
                 a.offset + size == m'.position <= m'.chunkSize)
  {
  }

  /** Two successive blocks from the same chunk are contiguous, so they do
      not overlap. */
  lemma SuccessiveBlocksContiguous(m: Manager, s1: nat, ok1: bool, s2: nat, ok2: bool)
    requires Fits(m) && s1 < SizeTModulus && s2 < SizeTModulus
    requires m.position + s1 < SizeTModulus
    requires var (m1, a1) := Get(m, s1, ok1);
             a1.Block? && Get(m1, s2, ok2).1.Block? && Get(m1, s2, ok2).1.chunk == a1.chunk
    ensures var (m1, a1) := Get(m, s1, ok1);
            var a2 := Get(m1, s2, ok2).1;
              a2.offset == a1.offset + s1
  {
    var (m1, a1) := Get(m, s1, ok1);
    NewChunkExactlyWhenFull(m1, s2, ok2);
  }

  // ---- Defects of the code as written ------------------------------------

  /** A state with chunk 0 allocated and 10 bytes left in it. */
  function NearlyFull(): Manager {
    Manager(0, ChunkSize, ChunkSize - 10, Initial().pool[0 := ChunkSize])
  }

  /** After `malloc` fails for chunk 1 the position is not reset, so a small
      request fits the "new" chunk and is served from its null pointer. */
  lemma FailedMallocServesNull()
    ensures var (m1, a1) := Get(NearlyFull(), 100, false);
            var (m2, a2) := Get(m1, 5, true);
              a1 == BadAlloc && a2 == Block(1, ChunkSize - 10) && m2.pool[1] == 0
  {
  }

  /** Once the pool is used up the index stays at 1024, and a small request
      that fits the last chunk's leftover is served from slot 1024, one past
      the end of the pool. */
  lemma ExhaustedPoolServesPastEnd()
    ensures var m := NearlyFull().(chunk := PoolCapacity - 1);
            var (m1, a1) := Get(m, 100, true);
            var (m2, a2) := Get(m1, 5, true);
              a1 == BadAlloc && a2 == Block(PoolCapacity, ChunkSize - 10) &&
              a2.chunk >= |m2.pool|
  {
  }

  /** A first request of 0 bytes does not open a chunk: it is served from
      slot `size_t(-1)` of the pool. */
  lemma ZeroFirstRequestServesPastEnd()
    ensures Get(Initial(), 0, true) == (Initial(), Block(SizeMax, ChunkSize))
  {
  }

  /** `position + size` wraps around: a request of 2^64 - 1 bytes at
      position 1 "fits" and is served inside a 20 MiB chunk. */
  lemma HugeRequestWrapsAround()
    ensures var m := NearlyFull().(position := 1);
              Get(m, SizeMax, true) == (m.(position := 0), Block(0, 1))
  {
    assert Wrap(1 + SizeMax) == 0;
  }

  // ---- The allocator as intended -----------------------------------------

  /** The state the corrected allocator keeps: either no chunk yet, or a
      current chunk that `malloc` returned, with the position inside it. */
  predicate Sound(m: Manager) {
    |m.pool| == PoolCapacity && ChunkSize <= m.chunkSize < SizeTModulus &&
    ((m.chunk == SizeMax && m.position == m.chunkSize) ||
     (m.chunk < PoolCapacity && m.pool[m.chunk] == m.chunkSize && m.position <= m.chunkSize))
  }

  /** `getMemory` with the four defects repaired: the first request always
      opens a chunk, the fit test cannot overflow, and a failing call
      changes nothing. */
  function GetCorrected(m: Manager, size: nat, mallocOk: bool): (r: (Manager, Allocation))
    requires Sound(m) && size < SizeTModulus
    ensures Sound(r.0)
    ensures r.1.BadAlloc? ==> r.0 == m
    ensures r.1.Block? ==> r.1.chunk < PoolCapacity && r.1.offset + size == r.0.position
  {
    if m.chunk == SizeMax || size > m.chunkSize - m.position then
      var chunk := Wrap(m.chunk + 1);
      if chunk >= PoolCapacity || !mallocOk then (m, BadAlloc)
      else
        var chunkSize := Max(ChunkSize, size);
        (Manager(chunk, chunkSize, size, m.pool[chunk := chunkSize]), Block(chunk, 0))
    else (m.(position := m.position + size), Block(m.chunk, m.position))
  }

  datatype Request = Request(size: nat, mallocOk: bool)

  /** A block handed out: its chunk, its offset and the size asked for. */
  datatype Placed = Placed(chunk: nat, offset: nat, size: nat)

  predicate SizeTRequests(reqs: seq<Request>) {
    forall i :: 0 <= i < |reqs| ==> reqs[i].size < SizeTModulus
  }

  /** The corrected allocator over a run of requests, with the blocks it
      handed out. */
  function RunCorrected(m: Manager, reqs: seq<Request>): (r: (Manager, seq<Placed>))
    requires Sound(m) && SizeTRequests(reqs)
    ensures Sound(r.0)
    decreases |reqs|
  {
    if reqs == [] then (m, [])
    else
      var (m1, a) := GetCorrected(m, reqs[0].size, reqs[0].mallocOk);
      var r := RunCorrected(m1, reqs[1..]);
      (r.0, (if a.Block? then [Placed(a.chunk, a.offset, reqs[0].size)] else []) + r.1)
  }

  /** The block lies inside memory `malloc` returned. */
  predicate Inside(m: Manager, p: Placed) {
    p.chunk < |m.pool| && p.offset + p.size <= m.pool[p.chunk]
  }

  /** The block lies before the free part of the current chunk. */
  predicate Before(m: Manager, p: Placed) {
    p.chunk < m.chunk || (p.chunk == m.chunk && p.offset + p.size <= m.position)
  }

  predicate Disjoint(p: Placed, q: Placed) {
    p.chunk != q.chunk || p.offset + p.size <= q.offset || q.offset + q.size <= p.offset
  }

  predicate Placements(m: Manager, ps: seq<Placed>) {
    (m.chunk == SizeMax ==> ps == []) &&
    (forall i :: 0 <= i < |ps| ==> Before(m, ps[i]) && Inside(m, ps[i])) &&
    (forall i, j :: 0 <= i < j < |ps| ==> Disjoint(ps[i], ps[j]))
  }

  function Handed(a: Allocation, size: nat): seq<Placed> {
    if a.Block? then [Placed(a.chunk, a.offset, size)] else []
  }

  /** One corrected call keeps every block handed out so far inside its
      chunk and apart from the others, the new one included. */
  lemma GetKeepsPlacements(m: Manager, ps: seq<Placed>, size: nat, mallocOk: bool)
    requires Sound(m) && size < SizeTModulus && Placements(m, ps)
    ensures var (m1, a) := GetCorrected(m, size, mallocOk);
              Placements(m1, ps + Handed(a, size))
  {
    var (m1, a) := GetCorrected(m, size, mallocOk);
    var qs := ps + Handed(a, size);
    if a.Block? {
      var p := Placed(a.chunk, a.offset, size);
      assert qs[|ps|] == p;
      assert Before(m1, p) && Inside(m1, p);
      forall i | 0 <= i < |ps|
        ensures Before(m1, ps[i]) && Inside(m1, ps[i]) && Disjoint(ps[i], p)
      {
        assert Before(m, ps[i]) && Inside(m, ps[i]);
      }
      forall i, j | 0 <= i < j < |qs|
        ensures Disjoint(qs[i], qs[j])
      {
        if j < |ps| {
          assert qs[i] == ps[i] && qs[j] == ps[j];
        } else {
          assert qs[i] == ps[i] && qs[j] == p;
        }
      }
    } else {
      assert qs == ps;
    }
  }

  lemma {:induction false} RunKeepsPlacements(m: Manager, ps: seq<Placed>, reqs: seq<Request>)
    requires Sound(m) && SizeTRequests(reqs) && Placements(m, ps)
    ensures var r := RunCorrected(m, reqs);
              Placements(r.0, ps + r.1)
    decreases |reqs|
  {
    if reqs != [] {
      var (m1, a) := GetCorrected(m, reqs[0].size, reqs[0].mallocOk);
      GetKeepsPlacements(m, ps, reqs[0].size, reqs[0].mallocOk);
      var h := Handed(a, reqs[0].size);
      RunKeepsPlacements(m1, ps + h, reqs[1..]);
      var r := RunCorrected(m1, reqs[1..]);
      Reassociate(ps, h, r.1);
    }
  }

  /** From the constructor's state, every block the corrected allocator
      hands out over any run lies inside a chunk `malloc` returned, and no
      two blocks overlap. */
  lemma CorrectedBlocksDisjoint(reqs: seq<Request>)
    requires SizeTRequests(reqs)
    ensures Sound(Initial())
    ensures var r := RunCorrected(Initial(), reqs);
              (forall i :: 0 <= i < |r.1| ==> Inside(r.0, r.1[i])) &&
              (forall i, j :: 0 <= i < j < |r.1| ==> Disjoint(r.1[i], r.1[j]))
  {
    RunKeepsPlacements(Initial(), [], reqs);
    assert [] + RunCorrected(Initial(), reqs).1 == RunCorrected(Initial(), reqs).1;
  }

  class MemoryManager {
    var chunk: nat
    var chunkSize: nat
    var position: nat
    var pool: array<nat>

    ghost predicate Valid()
      reads this
    {
      pool.Length == PoolCapacity &&
      chunk < SizeTModulus && chunkSize < SizeTModulus && position < SizeTModulus
    }

    function State(): Manager
      reads this, pool
    {
      Manager(chunk, chunkSize, position, pool[..])
    }

    constructor()
      ensures Valid() && fresh(pool) && State() == Initial()
    {
      pool := new nat[PoolCapacity](_ => 0);
      chunk := SizeMax;
      chunkSize := ChunkSize;
      position := ChunkSize;
      new;
      assert pool[..] == seq(PoolCapacity, _ => 0);
    }

    /** `getMemory(size)`; `mallocOk` says whether `malloc` would return a
        block, and is looked at only when a chunk is opened. */
    method GetMemory(size: nat, mallocOk: bool) returns (r: Allocation)
      requires Valid() && size < SizeTModulus
      modifies this, pool
      ensures Valid() && pool == old(pool)
      ensures (State(), r) == Get(old(State()), size, mallocOk)
    {
      if Wrap(position + size) > chunkSize {
        chunk := Wrap(chunk + 1);
        if chunk >= PoolCapacity {
          return BadAlloc;
        }
        chunkSize := Max(ChunkSize, size);
        pool[chunk] := if mallocOk then chunkSize else 0;
        if pool[chunk] == 0 {
          return BadAlloc;
        }
        position := 0;
      }
      r := Block(chunk, position);
      position := Wrap(position + size);
    }
  }
}

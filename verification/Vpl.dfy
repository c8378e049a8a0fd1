/** Variable-size pools (threadman.c): accounting over blocks of the user-memory allocator. */
module Vpl {
  import opened Sysmem

  const WAIT_TIMEOUT: u32 := 0x8002_01A8
  const ILLEGAL_ADDR: u32 := 0x8002_0005
  const ILLEGAL_MEMBLOCK: u32 := 0x8002_01A9
  const MAX_VPLS := 64
  const MAX_VPL_BLOCKS := 512

  datatype Pool = Pool(uid: nat, poolSize: u32, freeSize: u32, used: bool)
  /** The word a call writes to guest memory. */
  datatype Store = Nowhere | Word(at: u32, value: u32)

  datatype Taken = Taken(vpl: nat, addr: u32, size: u32, used: bool)

  /** Bytes handed out of the pool. */
  function TakenBytes(t: seq<Taken>, uid: nat): nat
  {
    if t == [] then 0
    else TakenBytes(t[..|t| - 1], uid) +
         var b := t[|t| - 1]; if b.used && b.vpl == uid then b.size else 0
  }

  lemma {:induction false} TakenUpdate(t: seq<Taken>, i: nat, b: Taken, uid: nat)
    requires i < |t|
    ensures TakenBytes(t[i := b], uid) == TakenBytes(t, uid)
              - (if t[i].used && t[i].vpl == uid then t[i].size else 0) + if b.used && b.vpl == uid then b.size else 0
    ensures t[i].used && t[i].vpl == uid ==> t[i].size <= TakenBytes(t, uid)
  {
    var n := |t| - 1;
    if i == n {
      assert t[i := b][..n] == t[..n];
    } else {
      TakenUpdate(t[..n], i, b, uid);
      assert t[i := b][..n] == t[..n][i := b];
    }
  }

  lemma {:induction false} NoneTaken(t: seq<Taken>, uid: nat)
    requires forall i :: 0 <= i < |t| && t[i].used ==> t[i].vpl != uid
    ensures TakenBytes(t, uid) == 0
  {
    if t != [] { NoneTaken(t[..|t| - 1], uid); }
  }

  /** The pool's block is a used block of the heap, of the rounded size. */
  ghost predicate Backed(heap: seq<Block>, t: Taken)
  {
    exists j :: 0 <= j < |heap| && heap[j].used && heap[j].addr == t.addr && heap[j].size == Rounded(t.size)
  }

  /** Every block handed out has a heap block to itself. */
  ghost predicate AllBacked(heap: seq<Block>, t: seq<Taken>)
  {
    && (forall i :: 0 <= i < |t| && t[i].used ==> Backed(heap, t[i]))
    && (forall i, j :: 0 <= i < j < |t| && t[i].used && t[j].used ==> t[i].addr != t[j].addr)
  }

  /** What is free and what is handed out make up the pool. */
  ghost predicate Balanced(p: Pool, t: seq<Taken>)
  {
    p.used ==> p.freeSize + TakenBytes(t, p.uid) == p.poolSize
  }

  ghost predicate Named(p: seq<Pool>, nextUid: nat)
  {
    && (forall i :: 0 <= i < |p| && p[i].used ==> p[i].uid < nextUid)
    && (forall i, j :: 0 <= i < j < |p| && p[i].used && p[j].used ==> p[i].uid != p[j].uid)
  }

  ghost predicate Owned(p: seq<Pool>, t: seq<Taken>)
  {
    forall i :: 0 <= i < |t| && t[i].used ==> exists k :: 0 <= k < |p| && p[k].used && p[k].uid == t[i].vpl
  }

  lemma ReleaseKeepsBacking(heap: seq<Block>, j: nat, t: seq<Taken>, i: nat)
    requires Sane(heap) && AllBacked(heap, t) && i < |t| && t[i].used
    requires j < |heap| && heap[j].used && heap[j].addr == t[i].addr
    ensures AllBacked(heap[j := heap[j].(used := false)], t[i := t[i].(used := false)])
  {
    var heap', t' := heap[j := heap[j].(used := false)], t[i := t[i].(used := false)];
    forall k | 0 <= k < |t'| && t'[k].used
      ensures Backed(heap', t'[k])
    {
      var b :| 0 <= b < |heap| && heap[b].used && heap[b].addr == t[k].addr && heap[b].size == Rounded(t[k].size);
      assert heap'[b] == heap[b];
    }
  }

  lemma TakeKeepsBacking(heap: seq<Block>, heap': seq<Block>, uid: u32, addr: u32, t: seq<Taken>, i: nat, b: Taken)
    requires Sane(heap) && Sane(heap') && AllBacked(heap, t) && i < |t| && !t[i].used
    requires b.addr == addr && b.used && Installed(heap, heap', Block(uid, addr, Rounded(b.size), true))
    ensures AllBacked(heap', t[i := b])
  {
    var j: nat :| FirstFree(heap, j) && heap' == heap[j := Block(uid, addr, Rounded(b.size), true)];
    AddressesDiffer(heap', j);
    forall k | 0 <= k < |t| && t[k].used
      ensures Backed(heap', t[k]) && t[k].addr != addr
    {
      var h :| 0 <= h < |heap| && heap[h].used && heap[h].addr == t[k].addr && heap[h].size == Rounded(t[k].size);
      assert heap'[h] == heap[h];
    }
    assert heap'[j].used && heap'[j].addr == b.addr;
    assert Backed(heap', b);
  }

  ghost predicate Known(p: seq<Pool>, uid: nat)
  {
    exists k :: 0 <= k < |p| && p[k].used && p[k].uid == uid
  }

  /** The same used blocks, each in the same slot. */
  ghost predicate SameLive(heap: seq<Block>, heap': seq<Block>)
  {
    |heap| == |heap'| && forall j :: 0 <= j < |heap| ==>
      heap'[j].used == heap[j].used && (heap[j].used ==> heap'[j] == heap[j])
  }

  /** The heap block at the address is given back, and nothing else. */
  ghost predicate Released(heap: seq<Block>, heap': seq<Block>, addr: u32)
  {
    exists j: nat :: FirstAt(heap, j, addr) && heap' == heap[j := heap[j].(used := false)]
  }

  /** A heap block that backs one of the pool's first n records. */
  ghost predicate BacksPool(b: Block, t: seq<Taken>, uid: nat, n: nat)
  {
    b.used && exists i :: 0 <= i < n <= |t| && t[i].used && t[i].vpl == uid && t[i].addr == b.addr
  }

  /** Exactly the heap blocks behind the pool's first n records are given back. */
  ghost predicate PoolReleased(heap: seq<Block>, heap': seq<Block>, t: seq<Taken>, uid: nat, n: nat)
  {
    && |heap'| == |heap|
    && forall j :: 0 <= j < |heap| ==>
         heap'[j] == if BacksPool(heap[j], t, uid, n) then heap[j].(used := false) else heap[j]
  }

  /** A pool with that id has less than the size free. */
  ghost predicate Short(p: seq<Pool>, uid: nat, size: u32)
  {
    exists k :: 0 <= k < |p| && p[k].used && p[k].uid == uid && p[k].freeSize < size
  }

  lemma StillOwned(p: seq<Pool>, p': seq<Pool>, t: seq<Taken>, i: nat)
    requires i < |p| == |p'| && p' == p[i := p'[i]] && (!p[i].used || (p'[i].used && p'[i].uid == p[i].uid))
             && Owned(p, t)
    ensures Owned(p', t)
  {
    forall j | 0 <= j < |t| && t[j].used
      ensures exists k :: 0 <= k < |p'| && p'[k].used && p'[k].uid == t[j].vpl
    {
      var k :| 0 <= k < |p| && p[k].used && p[k].uid == t[j].vpl;
      assert p'[k].used && p'[k].uid == t[j].vpl;
    }
  }

  /** Moving a size between a pool's free count and its blocks keeps every pool balanced. */
  lemma TookBalanced(p: seq<Pool>, nextUid: nat, t: seq<Taken>, k: nat, i: nat, b: Taken)
    requires Named(p, nextUid) && Owned(p, t) && forall j :: 0 <= j < |p| ==> Balanced(p[j], t)
    requires k < |p| && p[k].used && i < |t| && !t[i].used && b.used && b.vpl == p[k].uid && b.size <= p[k].freeSize
    ensures
      var p', t' := p[k := p[k].(freeSize := p[k].freeSize - b.size)], t[i := b];
      Named(p', nextUid) && Owned(p', t') && forall j :: 0 <= j < |p'| ==> Balanced(p'[j], t')
  {
    var p', t' := p[k := p[k].(freeSize := p[k].freeSize - b.size)], t[i := b];
    forall j | 0 <= j < |p'|
      ensures Balanced(p'[j], t')
    {
      TakenUpdate(t, i, b, p[j].uid);
    }
    StillOwned(p, p', t, k);
    assert p'[k].used && p'[k].uid == b.vpl;
  }

  /** Taking a heap block and giving it back disturbs no pool's backing. */
  lemma Undone(heap: seq<Block>, heap': seq<Block>, uid: u32, addr: u32, size: u32, t: seq<Taken>)
    requires Sane(heap) && Sane(heap') && AllBacked(heap, t)
    requires Installed(heap, heap', Block(uid, addr, Rounded(size), true))
    ensures exists j: nat :: FirstAt(heap', j, addr) && AllBacked(heap'[j := heap'[j].(used := false)], t) &&
                             SameLive(heap, heap'[j := heap'[j].(used := false)])
  {
    var j: nat :| FirstFree(heap, j) && heap' == heap[j := Block(uid, addr, Rounded(size), true)];
    AddressesDiffer(heap', j);
    var back := heap'[j := heap'[j].(used := false)];
    forall k | 0 <= k < |t| && t[k].used
      ensures Backed(back, t[k])
    {
      var h :| 0 <= h < |heap| && heap[h].used && heap[h].addr == t[k].addr && heap[h].size == Rounded(t[k].size);
      assert back[h] == heap[h];
    }
  }

  // ---- the heap is shared: what the other allocations and releases do to the pools' blocks

  /** A record of some pool holds that address. */
  ghost predicate HeldAt(t: seq<Taken>, addr: u32)
  {
    exists i :: 0 <= i < |t| && t[i].used && t[i].addr == addr
  }

  /** Whatever else is allocated from the heap, the pools' blocks stay where they are. */
  lemma AllocKeepsBacking(heap: seq<Block>, heap': seq<Block>, b: Block, t: seq<Taken>)
    requires AllBacked(heap, t) && Installed(heap, heap', b)
    ensures AllBacked(heap', t)
  {
    var j: nat :| FirstFree(heap, j) && heap' == heap[j := b];
    forall i | 0 <= i < |t| && t[i].used
      ensures Backed(heap', t[i])
    {
      var k :| 0 <= k < |heap| && heap[k].used && heap[k].addr == t[i].addr && heap[k].size == Rounded(t[i].size);
      assert heap'[k] == heap[k];
    }
  }

  /** Freeing a used block leaves the pools backed exactly if it is no pool's. */
  lemma FreeBacking(heap: seq<Block>, j: nat, t: seq<Taken>)
    requires Sane(heap) && AllBacked(heap, t) && j < |heap| && heap[j].used
    ensures AllBacked(heap[j := heap[j].(used := false)], t) <==> !HeldAt(t, heap[j].addr)
  {
    var heap' := heap[j := heap[j].(used := false)];
    AddressesDiffer(heap, j);
    if !HeldAt(t, heap[j].addr) {
      forall i | 0 <= i < |t| && t[i].used
        ensures Backed(heap', t[i])
      {
        var k :| 0 <= k < |heap| && heap[k].used && heap[k].addr == t[i].addr && heap[k].size == Rounded(t[i].size);
        assert heap'[k] == heap[k];
      }
    }
  }

  /** sceKernelFreePartitionMemory keeps the pools backed exactly if the block it finds is no pool's. */
  lemma FreePartitionBacking(heap: seq<Block>, heap': seq<Block>, uid: u32, i: nat, t: seq<Taken>)
    requires Sane(heap) && AllBacked(heap, t) && FirstNamed(heap, i, uid) && Freed(heap, heap', uid)
    ensures AllBacked(heap', t) <==> !HeldAt(t, heap[i].addr)
  {
    FreeBacking(heap, i, t);
  }

  /** psp_sysmem_release keeps them backed exactly if no pool's block starts there. */
  lemma ReleaseBacking(heap: seq<Block>, heap': seq<Block>, addr: u32, t: seq<Taken>)
    requires Sane(heap) && AllBacked(heap, t) && Released(heap, heap', addr)
    ensures AllBacked(heap', t) <==> !HeldAt(t, addr)
  {
    var j: nat :| FirstAt(heap, j, addr) && heap' == heap[j := heap[j].(used := false)];
    FreeBacking(heap, j, t);
  }

  /** One change of the shared heap and the pools' records. */
  datatype Change =
    | Elsewhere(b: Block)            // any other allocation
    | FreedElsewhere(j: nat)         // any other block freed
    | PoolTakes(i: nat, taken: Taken)    // a pool's block
    | PoolGives(i: nat)

  ghost predicate Changes(c: Change, heap: seq<Block>, t: seq<Taken>, heap': seq<Block>, t': seq<Taken>)
  {
    Sane(heap') &&
    match c
    case Elsewhere(b) => t' == t && Installed(heap, heap', b)
    case FreedElsewhere(j) =>
      t' == t && j < |heap| && heap[j].used && !HeldAt(t, heap[j].addr) && heap' == heap[j := heap[j].(used := false)]
    case PoolTakes(i, b) =>
      i < |t| && !t[i].used && b.used && t' == t[i := b]
      && exists uid: u32 :: Installed(heap, heap', Block(uid, b.addr, Rounded(b.size), true))
    case PoolGives(i) =>
      i < |t| && t[i].used && t' == t[i := t[i].(used := false)] && Released(heap, heap', t[i].addr)
  }

  /** A run of changes, from one heap and its records to another. */
  ghost predicate Reaches(cs: seq<Change>, heap: seq<Block>, t: seq<Taken>, heap': seq<Block>, t': seq<Taken>)
    decreases |cs|
  {
    if cs == [] then heap' == heap && t' == t
    else exists h1: seq<Block>, t1: seq<Taken> :: Changes(cs[0], heap, t, h1, t1) && Reaches(cs[1..], h1, t1, heap', t')
  }

  lemma ChangeKeepsBacking(c: Change, heap: seq<Block>, t: seq<Taken>, heap': seq<Block>, t': seq<Taken>)
    requires Sane(heap) && AllBacked(heap, t) && Changes(c, heap, t, heap', t')
    ensures Sane(heap') && AllBacked(heap', t')
  {
    hide Sane, AllBacked, Installed, HeldAt;
    match c
    case Elsewhere(b) => AllocKeepsBacking(heap, heap', b, t);
    case FreedElsewhere(j) => FreeBacking(heap, j, t);
    case PoolTakes(i, b) =>
      var uid: u32 :| Installed(heap, heap', Block(uid, b.addr, Rounded(b.size), true));
      TakeKeepsBacking(heap, heap', uid, b.addr, t, i, b);
    case PoolGives(i) =>
      var j: nat :| FirstAt(heap, j, t[i].addr) && heap' == heap[j := heap[j].(used := false)];
      ReleaseKeepsBacking(heap, j, t, i);
  }

  /** Over all runs of the shared heap in which nobody else frees a pool's block, every pool block has a heap block to
      itself. */
  lemma {:induction false} RunKeepsBacking(cs: seq<Change>, heap: seq<Block>, t: seq<Taken>, heap': seq<Block>,
                                           t': seq<Taken>)
    requires Sane(heap) && AllBacked(heap, t) && Reaches(cs, heap, t, heap', t')
    ensures Sane(heap') && AllBacked(heap', t')
    decreases |cs|
  {
    hide Sane, AllBacked, Changes;
    if cs != [] {
      var h1: seq<Block>, t1: seq<Taken> :| Changes(cs[0], heap, t, h1, t1) && Reaches(cs[1..], h1, t1, heap', t');
      ChangeKeepsBacking(cs[0], heap, t, h1, t1);
      RunKeepsBacking(cs[1..], h1, t1, heap', t');
    }
  }

  /** It takes one call to break it: freeing, by its id, the heap block that a pool has just been given. */
  lemma FreedUnderPool(heap: seq<Block>, heap': seq<Block>, heap'': seq<Block>, uid: u32, addr: u32, t: seq<Taken>,
                       t': seq<Taken>, i: nat, vpl: nat, size: u32)
    requires Sane(heap) && Sane(heap') && AllBacked(heap, t)
    requires forall j :: 0 <= j < |heap| && heap[j].used ==> heap[j].uid != uid
    requires FirstUntaken(t, i) && t' == t[i := Taken(vpl, addr, size, true)]
    requires Installed(heap, heap', Block(uid, addr, Rounded(size), true)) && Freed(heap', heap'', uid)
    ensures AllBacked(heap', t') && !AllBacked(heap'', t')
  {
    var b := Taken(vpl, addr, size, true);
    var j: nat :| FirstFree(heap, j) && heap' == heap[j := Block(uid, addr, Rounded(size), true)];
    TakeKeepsBacking(heap, heap', uid, addr, t, i, b);
    assert FirstNamed(heap', j, uid);
    assert t'[i].used && t'[i].addr == heap'[j].addr;
    FreePartitionBacking(heap', heap'', uid, j, t');
  }

  class Pools {
    const heap: Heap
    const pools: array<Pool>
    const taken: array<Taken>
    var nextUid: nat

    ghost predicate Valid()
      reads this, heap, heap.blocks, pools, taken
    {
      && heap.Valid() && pools.Length == MAX_VPLS && taken.Length == MAX_VPL_BLOCKS
      && Named(pools[..], nextUid) && Owned(pools[..], taken[..]) && AllBacked(heap.blocks[..], taken[..])
      && forall i :: 0 <= i < pools.Length ==> Balanced(pools[i], taken[..])
    }

    /** find_vpl. */
    method Find(uid: nat) returns (k: int)
      requires pools.Length == MAX_VPLS
      ensures 0 <= k ==> k < pools.Length && pools[k].used && pools[k].uid == uid
      ensures k < 0 ==> forall i :: 0 <= i < pools.Length && pools[i].used ==> pools[i].uid != uid
    {
      for i := 0 to pools.Length
        invariant forall j :: 0 <= j < i && pools[j].used ==> pools[j].uid != uid
      {
        if pools[i].used && pools[i].uid == uid { return i; }
      }
      k := -1;
    }

    /** sceKernelCreateVpl. */
    method Create(poolSize: u32) returns (ret: nat, ghost k: int)
      requires Valid()
      modifies this, pools
      ensures Valid()
      ensures k < 0 ==> ret == NO_MEMORY && pools[..] == old(pools[..])
      ensures k < 0 ==> forall i :: 0 <= i < pools.Length ==> pools[i].used
      ensures k >= 0 ==> k < pools.Length && !old(pools[k]).used && ret == old(nextUid) &&
                         pools[..] == old(pools[..])[k := Pool(ret, poolSize, poolSize, true)]
    {
      for i := 0 to pools.Length
        invariant forall j :: 0 <= j < i ==> pools[j].used
      {
        if !pools[i].used {
          ret, k := nextUid, i;
          NewIsUntaken();
          pools[i] := Pool(nextUid, poolSize, poolSize, true);
          nextUid := nextUid + 1;
          assert pools[..] == old(pools[..])[i := Pool(ret, poolSize, poolSize, true)];
          StillOwned(old(pools[..]), pools[..], taken[..], i);
          return;
        }
      }
      ret, k := NO_MEMORY, -1;
    }

    lemma NewIsUntaken()
      requires Named(pools[..], nextUid) && Owned(pools[..], taken[..])
      ensures TakenBytes(taken[..], nextUid) == 0
    {
      NoneTaken(taken[..], nextUid);
    }

    constructor (heap: Heap)
      requires heap.Valid()
      ensures Valid() && this.heap == heap && fresh(pools) && fresh(taken)
      ensures forall i :: 0 <= i < pools.Length ==> !pools[i].used
    {
      this.heap := heap;
      pools := new Pool[MAX_VPLS](_ => Pool(0, 0, 0, false));
      taken := new Taken[MAX_VPL_BLOCKS](_ => Taken(0, 0, 0, false));
      nextUid := 0x0004_0000;
    }

    /** Enter the block in the first free record and charge the pool. */
    method Record(k: nat, addr: u32, size: u32) returns (ok: bool)
      requires k < pools.Length && pools[k].used && size <= pools[k].freeSize
      modifies pools, taken
      ensures !ok ==> pools[..] == old(pools[..]) && taken[..] == old(taken[..])
      ensures !ok ==> forall i :: 0 <= i < taken.Length ==> taken[i].used
      ensures ok ==> pools[..] == old(pools[..])[k := old(pools[k]).(freeSize := old(pools[k]).freeSize - size)]
      ensures ok ==> exists i: nat :: FirstUntaken(old(taken[..]), i) &&
                                      taken[..] == old(taken[..])[i := Taken(old(pools[k]).uid, addr, size, true)]
    {
      for i := 0 to taken.Length
        invariant taken[..] == old(taken[..]) && pools[..] == old(pools[..])
        invariant forall j :: 0 <= j < i ==> taken[j].used
      {
        if !taken[i].used {
          ghost var b := Taken(pools[k].uid, addr, size, true);
          taken[i] := Taken(pools[k].uid, addr, size, true);
          pools[k] := pools[k].(freeSize := pools[k].freeSize - size);
          assert FirstUntaken(old(taken[..]), i) && taken[..] == old(taken[..])[i := b];
          return true;
        }
      }
      ok := false;
    }

    lemma Recorded(heap0: seq<Block>, id: u32, p: seq<Pool>, t: seq<Taken>, k: nat, addr: u32, size: u32)
      requires pools.Length == MAX_VPLS && taken.Length == MAX_VPL_BLOCKS && heap.Valid()
      requires Sane(heap0) && AllBacked(heap0, t) && Named(p, nextUid) && Owned(p, t)
      requires forall j :: 0 <= j < |p| ==> Balanced(p[j], t)
      requires k < |p| && p[k].used && size <= p[k].freeSize
      requires Installed(heap0, heap.blocks[..], Block(id, addr, Rounded(size), true))
      requires pools[..] == p[k := p[k].(freeSize := p[k].freeSize - size)]
      requires exists i: nat :: FirstUntaken(t, i) && taken[..] == t[i := Taken(p[k].uid, addr, size, true)]
      ensures Valid()
    {
      var b := Taken(p[k].uid, addr, size, true);
      var i: nat :| FirstUntaken(t, i) && taken[..] == t[i := b];
      TakeKeepsBacking(heap0, heap.blocks[..], id, addr, t, i, b);
      TookBalanced(p, nextUid, t, k, i, b);
      forall j | 0 <= j < pools.Length
        ensures Balanced(pools[j], taken[..])
      {
        assert pools[j] == pools[..][j];
      }
    }

    /** A heap block for a pool that has room for it. */
    method TakeBlock(k: nat, size: u32) returns (ret: u32, addr: u32)
      requires Valid() && k < pools.Length && pools[k].used && 0 < size <= pools[k].freeSize
      modifies this, heap, heap.blocks, pools, taken
      ensures HEAP_LO + Rounded(size) < WORD ==> Valid()
      ensures ret == 0 || ret == NO_MEMORY
      ensures ret != 0 ==> pools[..] == old(pools[..]) && taken[..] == old(taken[..])
      ensures ret == 0 ==> Took(old(pools[..]), pools[..], old(taken[..]), taken[..], old(pools[k].uid), addr, size)
      ensures ret == 0 ==>
              Installed(old(heap.blocks[..]), heap.blocks[..], Block(old(heap.nextUid), addr, Rounded(size), true))
      ensures HEAP_LO + Rounded(size) < WORD && ret != 0 ==> SameLive(old(heap.blocks[..]), heap.blocks[..])
      ensures ret != 0 ==>
                Exhausted(old(heap.blocks[..]), Rounded(size)) || forall i :: 0 <= i < taken.Length ==> taken[i].used
    {
      hide Sane, AllBacked, Installed, Exhausted, Highest, Lowest, Took, FirstUntaken, SameLive;
      ghost var heap0, p0, t0, id := heap.blocks[..], pools[..], taken[..], heap.nextUid;
      addr := heap.Alloc(size, false);
      if addr == 0 { SameIsLive(heap0); return NO_MEMORY, 0; }
      var ok := Record(k, addr, size);
      if ok {
        TookNow(p0, pools[..], t0, taken[..], k, addr, size);
        if HEAP_LO + Rounded(size) < WORD { Recorded(heap0, id, p0, t0, k, addr, size); }
        ret := 0;
      } else {
        if HEAP_LO + Rounded(size) < WORD { Undone(heap0, heap.blocks[..], id, addr, size, t0); }
        heap.Release(addr);
        ret, addr := NO_MEMORY, 0;
      }
    }

    /** sceKernelAllocateVpl once its wait is over: it was in time, and the pool it began with has room now, or not. */
    method AfterWait(k: nat, want: u32, outp: u32, inTime: bool) returns (ret: u32, addr: u32, store: Store)
      requires Valid() && k < pools.Length && pools[k].used && outp != 0
               && (inTime ==> Wanted(want) <= pools[k].freeSize)
      modifies this, heap, heap.blocks, pools, taken
      ensures HEAP_LO + Rounded(Wanted(want)) < WORD ==> Valid()
      ensures ret in {0, WAIT_TIMEOUT, NO_MEMORY} && (ret == WAIT_TIMEOUT <==> !inTime)
      ensures store == if ret == 0 then Word(outp, addr) else Nowhere
      ensures ret != 0 ==> pools[..] == old(pools[..]) && taken[..] == old(taken[..])
      ensures ret == 0 ==>
              Took(old(pools[..]), pools[..], old(taken[..]), taken[..], old(pools[k].uid), addr, Wanted(want))
      ensures ret == 0 ==> Installed(old(heap.blocks[..]), heap.blocks[..],
                                     Block(old(heap.nextUid), addr, Rounded(Wanted(want)), true))
      ensures HEAP_LO + Rounded(Wanted(want)) < WORD && ret != 0 ==> SameLive(old(heap.blocks[..]), heap.blocks[..])
      ensures ret == NO_MEMORY ==>
                Exhausted(old(heap.blocks[..]), Rounded(Wanted(want))) ||
                forall i :: 0 <= i < taken.Length ==> taken[i].used
    {
      hide Sane, Owned, Named, Balanced, AllBacked, Took, Installed, Exhausted;
      if !inTime { return WAIT_TIMEOUT, 0, Nowhere; }
      ret, addr := TakeBlock(k, Wanted(want));
      store := if ret == 0 then Word(outp, addr) else Nowhere;
    }

    /** sceKernelTryAllocateVpl. */
    method TryAllocate(uid: nat, want: u32, outp: u32) returns (ret: u32, addr: u32, store: Store)
      requires Valid()
      modifies this, heap, heap.blocks, pools, taken
      ensures HEAP_LO + Rounded(Wanted(want)) < WORD ==> Valid()
      ensures ret != 0 ==> pools[..] == old(pools[..]) && taken[..] == old(taken[..])
      ensures ret == 0 ==> Took(old(pools[..]), pools[..], old(taken[..]), taken[..], uid, addr, Wanted(want))
      ensures ret == 0 ==> Installed(old(heap.blocks[..]), heap.blocks[..],
                                     Block(old(heap.nextUid), addr, Rounded(Wanted(want)), true))
      ensures store == if ret == 0 then Word(outp, addr) else Nowhere
      ensures ret in {0, UNKNOWN_UID, ILLEGAL_ADDR, WAIT_TIMEOUT, NO_MEMORY}
      ensures ret == UNKNOWN_UID <==> !Known(old(pools[..]), uid)
      ensures ret == ILLEGAL_ADDR <==> Known(old(pools[..]), uid) && outp == 0
      ensures ret == WAIT_TIMEOUT <==> outp != 0 && Short(old(pools[..]), uid, Wanted(want))
      ensures HEAP_LO + Rounded(Wanted(want)) < WORD && ret != 0 ==> SameLive(old(heap.blocks[..]), heap.blocks[..])
      ensures ret == NO_MEMORY ==>
                Exhausted(old(heap.blocks[..]), Rounded(Wanted(want))) ||
                forall i :: 0 <= i < taken.Length ==> taken[i].used
    {
      hide Sane, Owned, Named, Balanced, AllBacked, Took, Installed, Exhausted, SameLive, Rounded;
      addr, store := 0, Nowhere;
      SameIsLive(heap.blocks[..]);
      var k := Find(uid);
      if k < 0 { return UNKNOWN_UID, 0, Nowhere; }
      var size := Wanted(want);
      ShortIs(pools[..], nextUid, k, size);
      if outp == 0 { return ILLEGAL_ADDR, 0, Nowhere; }
      if pools[k].freeSize < size {
        assert pools[..][k].used;
        return WAIT_TIMEOUT, 0, Nowhere;
      }
      ret, addr := TakeBlock(k, size);
      if ret == 0 { store := Word(outp, addr); }
    }

    /** Give the i-th record's heap block back and close the record. */
    method GiveBack(i: nat)
      requires Backing() && i < taken.Length && taken[i].used
      modifies heap.blocks, taken
      ensures Backing() && taken[..] == old(taken[..])[i := old(taken[i]).(used := false)]
      ensures Released(old(heap.blocks[..]), heap.blocks[..], old(taken[i].addr))
    {
      ghost var h, t := heap.blocks[..], taken[..];
      ghost var j: nat :| j < |h| && h[j].used && h[j].addr == t[i].addr && h[j].size == Rounded(t[i].size);
      AddressesDiffer(h, j);
      heap.Release(taken[i].addr);
      ReleaseKeepsBacking(h, j, t, i);
      taken[i] := taken[i].(used := false);
      assert taken[..] == t[i := t[i].(used := false)];
    }

    /** The heap side of validity. */
    ghost predicate Backing()
      reads heap, heap.blocks, taken
    {
      heap.Valid() && AllBacked(heap.blocks[..], taken[..])
    }

    /** sceKernelFreeVpl: one block of the pool goes back to the heap, its size back to the pool. */
    method Free(uid: nat, addr: u32) returns (ret: u32)
      requires Valid()
      modifies heap.blocks, pools, taken
      ensures Valid()
      ensures ret != 0 ==>
              pools[..] == old(pools[..]) && taken[..] == old(taken[..]) && heap.blocks[..] == old(heap.blocks[..])
      ensures ret == 0 ==> Gave(old(pools[..]), pools[..], old(taken[..]), taken[..], uid, addr)
      ensures ret == 0 ==> Released(old(heap.blocks[..]), heap.blocks[..], addr)
      ensures ret in {0, UNKNOWN_UID, ILLEGAL_MEMBLOCK} && (ret == UNKNOWN_UID <==> !Known(old(pools[..]), uid))
      ensures ret == 0 <==> Known(old(pools[..]), uid) && Holds(old(taken[..]), uid, addr)
    {
      var k := Find(uid);
      if k < 0 { return UNKNOWN_UID; }
      ghost var p, t := pools[..], taken[..];
      for i := 0 to taken.Length
        invariant taken[..] == t && pools[..] == p && heap.blocks[..] == old(heap.blocks[..])
        invariant forall j :: 0 <= j < i && taken[j].used && taken[j].vpl == uid ==> taken[j].addr != addr
      {
        if taken[i].used && taken[i].vpl == uid && taken[i].addr == addr {
          Return(k, i);
          return 0;
        }
      }
      ret := ILLEGAL_MEMBLOCK;
    }

    /** Block i goes back to the heap, and its size to the pool. */
    method Return(k: nat, i: nat)
      requires Valid() && k < pools.Length && i < taken.Length && taken[i].used && pools[k].used
      requires taken[i].vpl == pools[k].uid
      modifies heap.blocks, pools, taken
      ensures Valid()
              && Gave(old(pools[..]), pools[..], old(taken[..]), taken[..], old(pools[k].uid), old(taken[i].addr))
      ensures Released(old(heap.blocks[..]), heap.blocks[..], old(taken[i].addr))
    {
      hide Named, Owned, Balanced, Backing, Valid, Released, Gave;
      Parts();
      ghost var p, t := pools[..], taken[..];
      var size := taken[i].size;
      GaveBalanced(p, nextUid, t, k, i);
      GaveNow(p, t, k, i);
      GiveBack(i);
      pools[k] := pools[k].(freeSize := Add(pools[k].freeSize, size));
      assert pools[..] == p[k := p[k].(freeSize := p[k].freeSize + size)];
      Whole();
    }

    lemma Parts()
      requires Valid()
      ensures Backing() && pools.Length == MAX_VPLS && taken.Length == MAX_VPL_BLOCKS
      ensures Named(pools[..], nextUid) && Owned(pools[..], taken[..])
      ensures forall j :: 0 <= j < |pools[..]| ==> Balanced(pools[..][j], taken[..])
    {
    }

    lemma Whole()
      requires Backing() && pools.Length == MAX_VPLS && taken.Length == MAX_VPL_BLOCKS
      requires Named(pools[..], nextUid) && Owned(pools[..], taken[..])
      requires forall j :: 0 <= j < |pools[..]| ==> Balanced(pools[..][j], taken[..])
      ensures Valid()
    {
      forall j | 0 <= j < pools.Length
        ensures Balanced(pools[j], taken[..])
      {
        assert pools[j] == pools[..][j];
      }
    }

    /** One turn of the loop over the records. */
    method CloseRecord(i: nat, uid: nat, ghost h: seq<Block>, ghost t: seq<Taken>)
      requires Backing() && i < taken.Length && AllBacked(h, t) && Sane(h)
      requires Closed(t, taken[..], uid, i) && PoolReleased(h, heap.blocks[..], t, uid, i)
      modifies heap.blocks, taken
      ensures Backing() && Closed(t, taken[..], uid, i + 1) && PoolReleased(h, heap.blocks[..], t, uid, i + 1)
    {
      assert taken[i] == taken[..][i];
      if taken[i].used && taken[i].vpl == uid {
        ghost var h1 := heap.blocks[..];
        GiveBack(i);
        OneMoreReleased(h, h1, heap.blocks[..], t, uid, i);
      }
    }

    lemma OneMoreReleased(h: seq<Block>, h1: seq<Block>, h2: seq<Block>, t: seq<Taken>, uid: nat, i: nat)
      requires Sane(h) && i < |t| && t[i].used && t[i].vpl == uid
      requires PoolReleased(h, h1, t, uid, i) && Released(h1, h2, t[i].addr)
      ensures PoolReleased(h, h2, t, uid, i + 1)
    {
      var j: nat :| FirstAt(h1, j, t[i].addr) && h2 == h1[j := h1[j].(used := false)];
      AddressesDiffer(h, j);
    }

    /** sceKernelDeleteVpl: every block of the pool goes back to the heap and the pool is gone. */
    method Delete(uid: nat) returns (ret: u32)
      requires Valid()
      modifies heap.blocks, pools, taken
      ensures Valid()
      ensures ret == (if Known(old(pools[..]), uid) then 0 else UNKNOWN_UID)
      ensures ret != 0 ==>
              pools[..] == old(pools[..]) && taken[..] == old(taken[..]) && heap.blocks[..] == old(heap.blocks[..])
      ensures ret == 0 ==> !Known(pools[..], uid) && Dropped(old(pools[..]), pools[..], uid)
      ensures ret == 0 ==> PoolReleased(old(heap.blocks[..]), heap.blocks[..], old(taken[..]), uid, taken.Length)
      ensures ret == 0 ==> Closed(old(taken[..]), taken[..], uid, taken.Length)
    {
      var k := Find(uid);
      if k < 0 { return UNKNOWN_UID; }
      ghost var h, p, t := heap.blocks[..], pools[..], taken[..];
      for i := 0 to taken.Length
        invariant taken.Length == MAX_VPL_BLOCKS && Backing() && pools[..] == p
        invariant Closed(t, taken[..], uid, i) && PoolReleased(h, heap.blocks[..], t, uid, i)
      {
        CloseRecord(i, uid, h, t);
      }
      pools[k] := pools[k].(used := false);
      assert pools[..] == p[k := p[k].(used := false)];
      ClosedBalanced(p, nextUid, t, k, taken[..]);
      forall j | 0 <= j < pools.Length
        ensures Balanced(pools[j], taken[..])
      {
        assert pools[j] == pools[..][j];
      }
      ret := 0;
    }
  }

  /** The first i records of the pool are closed; all others are as they were. */
  ghost predicate Closed(t: seq<Taken>, t': seq<Taken>, uid: nat, i: nat)
  {
    |t'| == |t| && forall j :: 0 <= j < |t| ==>
      t'[j] == if j < i && t[j].used && t[j].vpl == uid then t[j].(used := false) else t[j]
  }

  lemma {:induction false} ClosedBytes(t: seq<Taken>, t': seq<Taken>, uid: nat, other: nat)
    requires Closed(t, t', uid, |t|) && other != uid
    ensures TakenBytes(t', other) == TakenBytes(t, other)
  {
    if t != [] {
      var n := |t| - 1;
      ClosedBytes(t[..n], t'[..n], uid, other);
    }
  }

  lemma ClosedBalanced(p: seq<Pool>, nextUid: nat, t: seq<Taken>, k: nat, t': seq<Taken>)
    requires Named(p, nextUid) && Owned(p, t) && forall j :: 0 <= j < |p| ==> Balanced(p[j], t)
    requires k < |p| && p[k].used && Closed(t, t', p[k].uid, |t|)
    ensures
      var p' := p[k := p[k].(used := false)];
      Named(p', nextUid) && Owned(p', t') && forall j :: 0 <= j < |p'| ==> Balanced(p'[j], t')
  {
    var p' := p[k := p[k].(used := false)];
    forall j | 0 <= j < |p'| && p'[j].used
      ensures Balanced(p'[j], t')
    {
      assert Balanced(p[j], t);
      ClosedBytes(t, t', p[k].uid, p[j].uid);
    }
    forall j | 0 <= j < |t'| && t'[j].used
      ensures exists h :: 0 <= h < |p'| && p'[h].used && p'[h].uid == t'[j].vpl
    {
      var h :| 0 <= h < |p| && p[h].used && p[h].uid == t[j].vpl;
      assert h != k && p'[h] == p[h];
    }
  }

  /** Closing one block's record and crediting its pool keeps every pool balanced, in 32 bits too. */
  lemma GaveBalanced(p: seq<Pool>, nextUid: nat, t: seq<Taken>, k: nat, i: nat)
    requires Named(p, nextUid) && Owned(p, t) && forall j :: 0 <= j < |p| ==> Balanced(p[j], t)
    requires k < |p| && p[k].used && i < |t| && t[i].used && t[i].vpl == p[k].uid
    ensures p[k].freeSize + t[i].size <= p[k].poolSize
    ensures
      var p', t' := p[k := p[k].(freeSize := p[k].freeSize + t[i].size)], t[i := t[i].(used := false)];
      Named(p', nextUid) && Owned(p', t') && forall j :: 0 <= j < |p'| ==> Balanced(p'[j], t')
  {
    TakenUpdate(t, i, t[i].(used := false), p[k].uid);
    assert Balanced(p[k], t);
    var p', t' := p[k := p[k].(freeSize := p[k].freeSize + t[i].size)], t[i := t[i].(used := false)];
    forall j | 0 <= j < |p'|
      ensures Balanced(p'[j], t')
    {
      TakenUpdate(t, i, t[i].(used := false), p[j].uid);
      assert Balanced(p[j], t);
    }
    StillOwned(p, p', t, k);
  }

  /** One pool's record holds that address. */
  ghost predicate Holds(t: seq<Taken>, uid: nat, addr: u32)
  {
    exists i :: 0 <= i < |t| && t[i].used && t[i].vpl == uid && t[i].addr == addr
  }

  /** The pool is gone and the others are as they were. */
  ghost predicate Dropped(p: seq<Pool>, p': seq<Pool>, uid: nat)
  {
    exists k: nat :: k < |p| && p[k].used && p[k].uid == uid && p' == p[k := p[k].(used := false)]
  }

  /** Ids name one pool each. */
  lemma ShortIs(p: seq<Pool>, nextUid: nat, k: nat, size: u32)
    requires k < |p| && p[k].used && Named(p, nextUid)
    ensures Short(p, p[k].uid, size) <==> p[k].freeSize < size
  {
  }

  lemma SameIsLive(heap: seq<Block>)
    ensures SameLive(heap, heap)
  {
  }

  lemma TookNow(p: seq<Pool>, p': seq<Pool>, t: seq<Taken>, t': seq<Taken>, k: nat, addr: u32, size: u32)
    requires k < |p| && p[k].used && size <= p[k].freeSize
    requires p' == p[k := p[k].(freeSize := p[k].freeSize - size)]
    requires exists i: nat :: FirstUntaken(t, i) && t' == t[i := Taken(p[k].uid, addr, size, true)]
    ensures Took(p, p', t, t', p[k].uid, addr, size)
  {
    var i: nat :| FirstUntaken(t, i) && t' == t[i := Taken(p[k].uid, addr, size, true)];
  }

  lemma GaveNow(p: seq<Pool>, t: seq<Taken>, k: nat, i: nat)
    requires k < |p| && p[k].used && i < |t| && t[i].used && t[i].vpl == p[k].uid && p[k].freeSize + t[i].size < WORD
    ensures Gave(p, p[k := p[k].(freeSize := p[k].freeSize + t[i].size)], t, t[i := t[i].(used := false)], p[k].uid,
                 t[i].addr)
  {
  }

  /** The pool's record for that address is closed and the pool has its size back. */
  ghost predicate Gave(p: seq<Pool>, p': seq<Pool>, t: seq<Taken>, t': seq<Taken>, uid: nat, addr: u32)
  {
    exists k: nat, i: nat ::
      k < |p| && p[k].used && p[k].uid == uid && i < |t| && t[i].used && t[i].vpl == uid && t[i].addr == addr &&
      p[k].freeSize + t[i].size < WORD &&
      p' == p[k := p[k].(freeSize := p[k].freeSize + t[i].size)] && t' == t[i := t[i].(used := false)]
  }

  /** A zero request asks for one byte. */
  function Wanted(size: u32): (want: u32)
    ensures want >= 1 && want >= size && (want == size || want == 1)
  {
    if size == 0 then 1 else size
  }

  ghost predicate FirstUntaken(t: seq<Taken>, i: nat)
  {
    i < |t| && !t[i].used && forall j :: 0 <= j < i ==> t[j].used
  }

  /** A block of that size now belongs to the pool, in the first free record, and the pool has that much less. */
  ghost predicate Took(p: seq<Pool>, p': seq<Pool>, t: seq<Taken>, t': seq<Taken>, uid: nat, addr: u32, size: u32)
  {
    exists k: nat, i: nat ::
      k < |p| && p[k].used && p[k].uid == uid && size <= p[k].freeSize && FirstUntaken(t, i) &&
      p' == p[k := p[k].(freeSize := p[k].freeSize - size)] && t' == t[i := Taken(uid, addr, size, true)]
  }
}

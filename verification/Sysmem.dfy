/** sysmem.c: the user-memory allocator, first fit from either end of one heap, in 32-bit arithmetic. */
module Sysmem {

  const WORD: int := 0x1_0000_0000
  const HEAP_LO: u32 := 0x08C0_0000
  const HEAP_HI: u32 := 0x0A00_0000
  const MAX_BLOCKS: nat := 512

  type u32 = x: int | 0 <= x < 0x1_0000_0000

  function Add(x: u32, y: u32): u32 { (x + y) % WORD }

  predicate IsPow2(n: nat)
  {
    n == 1 || (n > 1 && n % 2 == 0 && IsPow2(n / 2))
  }

  type Align = a: u32 | a > 0 && IsPow2(a) witness 1

  predicate Multiple(a: int, n: nat) { n > 0 && a % n == 0 }

  /** `x & ~(align - 1)` for a power of two. */
  function Down(x: u32, align: Align): (r: u32)
    ensures r <= x < r + align && Multiple(r, align)
  {
    DownAligned(x, align);
    x - x % align
  }

  lemma DownAligned(x: u32, align: Align)
    ensures Multiple(x - x % align, align)
  {
    assert x - x % align == align * (x / align);
    MulMod(align, x / align);
  }

  lemma MulMod(a: nat, k: int)
    requires a > 0
    ensures a * k % a == 0
  {
    var d, r := k - a * k / a, a * k % a;
    assert r == a * d;
    assert d > 0 ==> a * d >= a;
    assert d < 0 ==> a * d + a <= 0;
  }

  /** `(x + align - 1) & ~(align - 1)`. */
  function Up(x: u32, align: Align): u32 { Down(Add(x, align - 1), align) }

  /** Aligning up without wrapping gives the least aligned address that is not below x. */
  lemma UpIsLeast(x: u32, align: Align, y: int)
    requires x + align <= WORD
    ensures x <= Up(x, align) < x + align && Multiple(Up(x, align), align)
    ensures x <= y && Multiple(y, align) ==> Up(x, align) <= y
  {
    hide Down, IsPow2, Multiple;
    assert Add(x, align - 1) == x + align - 1;
    if x <= y && Multiple(y, align) && y < Up(x, align) {
      NoMultipleBetween(Up(x, align), y, align);
    }
  }

  /** Multiples of `align` are at least `align` apart. */
  lemma NoMultipleBetween(hi: int, lo: int, align: nat)
    requires Multiple(hi, align) && Multiple(lo, align) && lo < hi
    ensures lo + align <= hi
  {
    assert hi == align * (hi / align) && lo == align * (lo / align);
    var d := hi / align - lo / align;
    assert hi - lo == align * d;
    assert d <= 0 ==> align * d <= 0;
    assert d >= 1 ==> align * d >= align;
  }

  // ---- blocks

  datatype Block = Block(uid: u32, addr: u32, size: u32, used: bool)
  {
    /** The test `overlaps` makes, with both ends computed in 32 bits. */
    predicate Meets(a: u32, size: u32)
    {
      used && a < Add(addr, this.size) && addr < Add(a, size)
    }
    predicate InHeap() { size > 0 && HEAP_LO <= addr && addr + size <= HEAP_HI }
    predicate Apart(b: Block) { addr + size <= b.addr || b.addr + b.size <= addr }
  }

  /** Used blocks lie inside the heap and are pairwise disjoint. */
  ghost predicate Sane(s: seq<Block>)
  {
    && (forall i :: 0 <= i < |s| && s[i].used ==> s[i].InHeap())
    && (forall i, j :: 0 <= i < j < |s| && s[i].used && s[j].used ==> s[i].Apart(s[j]))
  }

  /** The range meets no used block, on unbounded integers. */
  ghost predicate Clear(s: seq<Block>, a: int, size: nat)
  {
    forall i :: 0 <= i < |s| && s[i].used ==> a + size <= s[i].addr || s[i].addr + s[i].size <= a
  }

  /** An aligned placement that fits the heap and meets no used block. */
  ghost predicate Candidate(s: seq<Block>, size: nat, align: nat, a: int)
  {
    Multiple(a, align) && HEAP_LO <= a && a + size <= HEAP_HI && Clear(s, a, size)
  }

  /** r is the least candidate, or 0 when there is none. */
  ghost predicate Lowest(s: seq<Block>, size: nat, align: nat, r: int)
  {
    if r == 0 then forall a :: !Candidate(s, size, align, a)
    else Candidate(s, size, align, r) && forall a :: Candidate(s, size, align, a) ==> r <= a
  }

  /** r is the greatest candidate, or 0 when there is none. */
  ghost predicate Highest(s: seq<Block>, size: nat, align: nat, r: int)
  {
    if r == 0 then forall a :: !Candidate(s, size, align, a)
    else Candidate(s, size, align, r) && forall a :: Candidate(s, size, align, a) ==> a <= r
  }

  // ---- the searches

  method Overlaps(g: array<Block>, a: u32, size: u32) returns (yes: bool)
    ensures yes <==> exists i :: 0 <= i < g.Length && g[i].Meets(a, size)
  {
    for i := 0 to g.Length
      invariant forall j :: 0 <= j < i ==> !g[j].Meets(a, size)
    {
      if g[i].Meets(a, size) { return true; }
    }
    yes := false;
  }

  /** The least end of the blocks in the way, or the heap's end. */
  method SkipUp(g: array<Block>, a: u32, size: u32) returns (next: u32)
    ensures next <= HEAP_HI
    ensures forall i :: 0 <= i < g.Length && g[i].Meets(a, size) ==> next <= Add(g[i].addr, g[i].size)
    ensures next == HEAP_HI || exists i :: 0 <= i < g.Length && g[i].Meets(a, size) && next == Add(g[i].addr, g[i].size)
  {
    next := HEAP_HI;
    for i := 0 to g.Length
      invariant next <= HEAP_HI
      invariant forall j :: 0 <= j < i && g[j].Meets(a, size) ==> next <= Add(g[j].addr, g[j].size)
      invariant next == HEAP_HI || exists j :: 0 <= j < i && g[j].Meets(a, size) && next == Add(g[j].addr, g[j].size)
    {
      if g[i].Meets(a, size) && Add(g[i].addr, g[i].size) < next {
        next := Add(g[i].addr, g[i].size);
      }
    }
  }

  /** The greatest start of the blocks in the way, or the heap's start. */
  method SkipDown(g: array<Block>, a: u32, size: u32) returns (prev: u32)
    ensures prev >= HEAP_LO
    ensures forall i :: 0 <= i < g.Length && g[i].Meets(a, size) ==> g[i].addr <= prev
    ensures prev == HEAP_LO || exists i :: 0 <= i < g.Length && g[i].Meets(a, size) && prev == g[i].addr
  {
    prev := HEAP_LO;
    for i := 0 to g.Length
      invariant prev >= HEAP_LO
      invariant forall j :: 0 <= j < i && g[j].Meets(a, size) ==> g[j].addr <= prev
      invariant prev == HEAP_LO || exists j :: 0 <= j < i && g[j].Meets(a, size) && prev == g[j].addr
    {
      if g[i].Meets(a, size) && g[i].addr > prev {
        prev := g[i].addr;
      }
    }
  }

  /** With both ends below 2^32 the 32-bit test is the true one. */
  lemma MeetsIsOverlap(s: seq<Block>, a: u32, size: u32)
    requires Sane(s) && a + size < WORD
    ensures (exists i :: 0 <= i < |s| && s[i].Meets(a, size)) <==> !Clear(s, a, size)
    ensures forall i :: 0 <= i < |s| && s[i].used ==>
              (s[i].Meets(a, size) <==> !(a + size <= s[i].addr || s[i].addr + s[i].size <= a))
  {
  }

  lemma {:induction false} Pow2Gap(a: nat, b: nat)
    requires IsPow2(a) && IsPow2(b) && a < b
    ensures 2 * a <= b
  {
    if a > 1 { Pow2Gap(a / 2, b / 2); }
  }

  lemma Twice(n: nat)
    requires IsPow2(n)
    ensures IsPow2(2 * n)
  {
  }

  lemma Times256(n: nat)
    requires IsPow2(n)
    ensures IsPow2(256 * n)
  {
    hide IsPow2;
    Twice(n); Twice(2 * n); Twice(4 * n); Twice(8 * n);
    Twice(16 * n); Twice(32 * n); Twice(64 * n); Twice(128 * n);
  }

  /** An alignment that fits in 32 bits is at most 2^31, so aligning a heap address up never wraps. */
  lemma AlignBound(align: Align)
    ensures align <= 0x8000_0000
  {
    Times256(1);
    Times256(0x100);
    Times256(0x1_0000);
    Times256(0x100_0000);
    Pow2Gap(align, 0x1_0000_0000);
  }

  /** Candidates at or above a blocked position are at or above the end of any block in the way. */
  lemma SkipLosesNothing(s: seq<Block>, a: u32, size: u32, align: Align, i: nat, c: int)
    requires Sane(s) && i < |s| && s[i].Meets(a, size) && a + size < WORD
    requires Candidate(s, size, align, c)
    ensures a <= c ==> s[i].addr + s[i].size <= c
    ensures c <= a ==> c + size <= s[i].addr
  {
  }

  lemma InTheWay(s: seq<Block>, a: u32, size: u32)
    requires Sane(s)
    ensures forall i :: 0 <= i < |s| && s[i].Meets(a, size) ==>
              a < Add(s[i].addr, s[i].size) == s[i].addr + s[i].size <= HEAP_HI
  {
  }

  lemma CandidateInHeap(s: seq<Block>, size: u32, align: Align, c: int)
    requires Candidate(s, size, align, c)
    ensures HEAP_LO <= c && c + size <= HEAP_HI && Multiple(c, align)
  {
  }

  /** The next position tried: strictly above, aligned, and below no candidate that was not below the last. */
  lemma StepUp(s: seq<Block>, a: u32, size: u32, align: Align, next: u32)
    requires Sane(s) && next <= HEAP_HI
    requires exists i :: 0 <= i < |s| && s[i].Meets(a, size)
    requires forall i :: 0 <= i < |s| && s[i].Meets(a, size) ==> next <= Add(s[i].addr, s[i].size)
    requires next == HEAP_HI || exists i :: 0 <= i < |s| && s[i].Meets(a, size) && next == Add(s[i].addr, s[i].size)
    ensures a < next <= Up(next, align) <= HEAP_HI + align - 1 && Multiple(Up(next, align), align)
    ensures a + size < WORD ==> forall c :: Candidate(s, size, align, c) && a <= c ==> Up(next, align) <= c
  {
    AlignBound(align);
    UpIsLeast(next, align, 0);
    InTheWay(s, a, size);
    hide Sane, Candidate, Clear, Up, Multiple, IsPow2;
    var i :| 0 <= i < |s| && s[i].Meets(a, size);
    forall c | a + size < WORD && Candidate(s, size, align, c) && a <= c
      ensures Up(next, align) <= c
    {
      SkipLosesNothing(s, a, size, align, i, c);
      CandidateInHeap(s, size, align, c);
      UpIsLeast(next, align, c);
    }
  }

  lemma NextStaysBelow(a: u32, size: u32, align: Align, a': u32)
    requires HEAP_LO <= a && Multiple(a, align) && a + size <= HEAP_HI && a' <= HEAP_HI + align - 1
    ensures a' + size < WORD
  {
    if align > a { NoMultipleBetween(a, 0, align); }
  }

  lemma FirstUp(align: Align)
    ensures HEAP_LO <= Up(HEAP_LO, align) <= HEAP_HI + align - 1 && Multiple(Up(HEAP_LO, align), align)
    ensures forall c: int :: HEAP_LO <= c && Multiple(c, align) ==> Up(HEAP_LO, align) <= c
  {
    AlignBound(align);
    UpIsLeast(HEAP_LO, align, 0);
    forall c: int | HEAP_LO <= c && Multiple(c, align)
      ensures Up(HEAP_LO, align) <= c
    {
      UpIsLeast(HEAP_LO, align, c);
    }
  }

  /** No candidate lies below a. */
  ghost predicate NoneBelow(s: seq<Block>, size: u32, align: Align, a: int)
  {
    forall c :: Candidate(s, size, align, c) ==> a <= c
  }

  lemma WrapsLow(a: u32, size: u32)
    ensures WORD <= a + size <= WORD + HEAP_LO ==> Add(a, size) <= HEAP_HI
  {
  }

  lemma NoneBelowFirst(s: seq<Block>, size: u32, align: Align)
    ensures NoneBelow(s, size, align, Up(HEAP_LO, align))
  {
    FirstUp(align);
    hide Up;
  }

  /** When the first aligned position plus the size carries past 2^32, the request has no placement. */
  lemma WrapIsMisfit(s: seq<Block>, size: u32, align: Align)
    requires WORD <= Up(HEAP_LO, align) + size
    ensures forall c: int :: !Candidate(s, size, align, c)
    ensures forall r: u32 :: Lowest(s, size, align, r) <==> r == 0
  {
    FirstUp(align);
    hide Up;
    forall c: int
      ensures !Candidate(s, size, align, c)
    {
      if Candidate(s, size, align, c) { CandidateInHeap(s, size, align, c); }
    }
  }

  /** place_low. Where the first aligned position plus the size stays below 2^32 it is exact first fit; where
      the sum wraps to below the heap, the test sees no overlap and the first position is handed out. */
  method PlaceLow(g: array<Block>, size: u32, align: Align) returns (r: u32)
    requires Sane(g[..]) && size > 0
    ensures Up(HEAP_LO, align) + size < WORD ==> Lowest(g[..], size, align, r)
    ensures WORD <= Up(HEAP_LO, align) + size <= WORD + HEAP_LO ==> r == Up(HEAP_LO, align)
    ensures WORD <= Up(HEAP_LO, align) + size ==> (Lowest(g[..], size, align, r) <==> r == 0)
  {
    hide *;
    var a: u32 := Up(HEAP_LO, align);
    FirstUp(align);
    ghost var first, s := a, g[..];
    if WORD <= first + size { WrapIsMisfit(s, size, align); }
    NoneBelowFirst(s, size, align);
    var end: u32 := Add(a, size);
    while end <= HEAP_HI
      invariant end == Add(a, size)
      invariant first <= a <= HEAP_HI + align - 1 && Multiple(a, align)
      invariant WORD <= first + size <= WORD + HEAP_LO ==> a == first
      invariant first + size < WORD ==> a + size < WORD && NoneBelow(s, size, align, a)
      decreases HEAP_HI + align - a
    {
      var blocked := Overlaps(g, a, size);
      if !blocked {
        FreeHere(s, a, size, align, first);
        return a;
      }
      if WORD <= a + size <= WORD + HEAP_LO { WrapIsNeverBlocked(s, a, size); }
      var next := SkipUp(g, a, size);
      StepUp(s, a, size, align, next);
      var a' := Up(next, align);
      if first + size < WORD { Onward(s, a, size, align, a'); }
      a := a';
      end := Add(a, size);
    }
    r := 0;
    WrapsLow(a, size);
    if first + size < WORD { NoneFits(s, a, size, align); }
  }

  lemma Onward(s: seq<Block>, a: u32, size: u32, align: Align, a': u32)
    requires HEAP_LO <= a && Multiple(a, align) && a + size < WORD && Add(a, size) <= HEAP_HI
             && a' <= HEAP_HI + align - 1
    requires NoneBelow(s, size, align, a)
    requires forall c :: Candidate(s, size, align, c) && a <= c ==> a' <= c
    ensures a' + size < WORD && NoneBelow(s, size, align, a')
  {
    NextStaysBelow(a, size, align, a');
  }

  lemma FreeHere(s: seq<Block>, a: u32, size: u32, align: Align, first: int)
    requires Sane(s) && (forall i :: 0 <= i < |s| ==> !s[i].Meets(a, size))
    requires HEAP_LO <= a && Multiple(a, align) && Add(a, size) <= HEAP_HI
    requires a + size < WORD ==> NoneBelow(s, size, align, a)
    ensures a + size < WORD ==> Lowest(s, size, align, a)
  {
    if a + size < WORD { MeetsIsOverlap(s, a, size); }
  }

  lemma WrapIsNeverBlocked(s: seq<Block>, a: u32, size: u32)
    requires Sane(s) && WORD <= a + size <= WORD + HEAP_LO
    ensures forall i :: 0 <= i < |s| ==> !s[i].Meets(a, size)
  {
  }

  lemma NoneFits(s: seq<Block>, a: u32, size: u32, align: Align)
    requires NoneBelow(s, size, align, a) && a + size < WORD && Add(a, size) > HEAP_HI
    ensures Lowest(s, size, align, 0)
  {
  }

  // ---- from the top

  lemma DownIsGreatest(x: u32, align: Align, y: int)
    ensures y <= x && Multiple(y, align) ==> y <= Down(x, align)
  {
    if y <= x && Multiple(y, align) && Down(x, align) < y {
      NoMultipleBetween(y, Down(x, align), align);
    }
  }

  ghost predicate NoneAbove(s: seq<Block>, size: u32, align: Align, a: int)
  {
    forall c :: Candidate(s, size, align, c) ==> c <= a
  }

  /** The next position tried going down: strictly below, and above no candidate that was not above the last;
      when there is none, there was no candidate. */
  lemma StepDown(s: seq<Block>, a: u32, size: u32, align: Align, prev: u32)
    requires Sane(s) && 0 < size && a + size <= HEAP_HI && NoneAbove(s, size, align, a)
    requires exists i :: 0 <= i < |s| && s[i].Meets(a, size)
    requires forall i :: 0 <= i < |s| && s[i].Meets(a, size) ==> s[i].addr <= prev
    requires prev == HEAP_LO || exists i :: 0 <= i < |s| && s[i].Meets(a, size) && prev == s[i].addr
    ensures prev > HEAP_LO && prev >= size ==>
      Down(prev - size, align) < a && NoneAbove(s, size, align, Down(prev - size, align))
    ensures prev <= HEAP_LO || prev < size ==> Highest(s, size, align, 0)
  {
    hide Sane, Candidate, Clear, Multiple, Down;
    var i :| 0 <= i < |s| && s[i].Meets(a, size);
    var j := i;
    if prev != HEAP_LO { j :| 0 <= j < |s| && s[j].Meets(a, size) && prev == s[j].addr; }
    forall c | Candidate(s, size, align, c)
      ensures prev > HEAP_LO && size <= prev && c <= Down(prev - size, align)
    {
      SkipLosesNothing(s, a, size, align, i, c);
      SkipLosesNothing(s, a, size, align, j, c);
      CandidateInHeap(s, size, align, c);
      if prev > HEAP_LO { DownIsGreatest(prev - size, align, c); }
    }
  }

  /** place_high is exact last fit for every size and alignment: it never wraps. */
  method PlaceHigh(g: array<Block>, size: u32, align: Align) returns (r: u32)
    requires Sane(g[..]) && size > 0
    ensures Highest(g[..], size, align, r)
  {
    ghost var s := g[..];
    if size > HEAP_HI - HEAP_LO { return 0; }
    var a: u32 := Down(HEAP_HI - size, align);
    FirstDown(s, size, align);
    hide Sane, Candidate, Clear, Down, Multiple, NoneAbove;
    while a >= HEAP_LO
      invariant a + size <= HEAP_HI && Multiple(a, align) && NoneAbove(s, size, align, a)
      decreases a
    {
      var blocked := Overlaps(g, a, size);
      if !blocked {
        FreeThere(s, a, size, align);
        return a;
      }
      var prev := SkipDown(g, a, size);
      StepDown(s, a, size, align, prev);
      if prev <= HEAP_LO || prev < size { return 0; }
      a := Down(prev - size, align);
    }
    r := 0;
    NoneLow(s, size, align, a);
  }

  lemma FirstDown(s: seq<Block>, size: u32, align: Align)
    requires size <= HEAP_HI - HEAP_LO
    ensures NoneAbove(s, size, align, Down(HEAP_HI - size, align))
  {
    forall c | Candidate(s, size, align, c)
      ensures c <= Down(HEAP_HI - size, align)
    {
      DownIsGreatest(HEAP_HI - size, align, c);
    }
  }

  lemma FreeThere(s: seq<Block>, a: u32, size: u32, align: Align)
    requires Sane(s) && (forall i :: 0 <= i < |s| ==> !s[i].Meets(a, size))
    requires HEAP_LO <= a && Multiple(a, align) && a + size <= HEAP_HI && NoneAbove(s, size, align, a)
    ensures Highest(s, size, align, a)
  {
    MeetsIsOverlap(s, a, size);
  }

  lemma NoneLow(s: seq<Block>, size: u32, align: Align, a: u32)
    requires NoneAbove(s, size, align, a) && a < HEAP_LO
    ensures Highest(s, size, align, 0)
  {
  }

  /** Sizes are rounded up to 256-byte granules in 32 bits; zero asks for one granule. */
  function Rounded(size: u32): (r: u32)
    ensures r > 0
    ensures size <= 0xFFFF_FF00 ==> size <= r <= size + 0x100
    ensures size > 0xFFFF_FF00 ==> r == 0x100
  {
    var up := Add(size, 0xFF);
    var granules := up - up % 0x100;
    if granules == 0 then 0x100 else granules
  }

  /** Up to 0xFFFFFF00 the rounded size is the least multiple of 256, and not 0, that is not below the size. */
  lemma RoundedIs(size: u32)
    ensures Rounded(size) % 0x100 == 0
    ensures size == 0 ==> Rounded(size) == 0x100
    ensures 0 < size <= 0xFFFF_FF00 ==> size <= Rounded(size) < size + 0x100
  {
  }

  const GRANULE: Align := GranuleAlign()

  function GranuleAlign(): Align
  {
    Twice(1); Twice(2); Twice(4); Twice(8); Twice(16); Twice(32); Twice(64); Twice(128);
    0x100
  }

  lemma GranuleStart()
    ensures Up(HEAP_LO, GRANULE) == HEAP_LO
  {
    assert GRANULE == 0x100;
  }


  // ---- what is left

  function UsedBytes(s: seq<Block>): nat
  {
    if s == [] then 0 else UsedBytes(s[..|s| - 1]) + if s[|s| - 1].used then s[|s| - 1].size else 0
  }

  ghost function Range(lo: int, n: nat): (r: set<int>)
    ensures forall x :: x in r <==> lo <= x < lo + n
    ensures |r| == n
  {
    if n == 0 then {} else Range(lo, n - 1) + {lo + n - 1}
  }

  ghost function Covered(s: seq<Block>): set<int>
  {
    if s == [] then {}
    else Covered(s[..|s| - 1]) + if s[|s| - 1].used then Range(s[|s| - 1].addr, s[|s| - 1].size) else {}
  }

  lemma {:induction false} CoveredIs(s: seq<Block>, x: int)
    ensures x in Covered(s) <==> exists i :: 0 <= i < |s| && s[i].used && s[i].addr <= x < s[i].addr + s[i].size
  {
    if s != [] {
      var n := |s| - 1;
      CoveredIs(s[..n], x);
      assert forall i :: 0 <= i < n ==> s[i] == s[..n][i];
    }
  }

  /** Disjoint blocks cover as many bytes as their sizes say. */
  lemma {:induction false} CoveredSize(s: seq<Block>)
    requires Sane(s)
    ensures |Covered(s)| == UsedBytes(s)
  {
    if s != [] {
      var n := |s| - 1;
      CoveredSize(s[..n]);
      if s[n].used {
        forall x | x in Covered(s[..n])
          ensures x !in Range(s[n].addr, s[n].size)
        {
          CoveredIs(s[..n], x);
          var i :| 0 <= i < n && s[..n][i].used && s[..n][i].addr <= x < s[..n][i].addr + s[..n][i].size;
          assert s[..n][i] == s[i] && s[i].Apart(s[n]);
        }
      }
    }
  }

  lemma SubsetSize(a: set<int>, b: set<int>)
    requires a <= b
    ensures |a| <= |b|
  {
    assert b == a + (b - a);
  }

  /** The used bytes of a sane heap fit in it, so what is left never goes below zero. */
  lemma UsedFits(s: seq<Block>)
    requires Sane(s)
    ensures UsedBytes(s) <= HEAP_HI - HEAP_LO
  {
    CoveredSize(s);
    forall x | x in Covered(s)
      ensures x in Range(HEAP_LO, HEAP_HI - HEAP_LO)
    {
      CoveredIs(s, x);
    }
    SubsetSize(Covered(s), Range(HEAP_LO, HEAP_HI - HEAP_LO));
  }

  lemma {:induction false} UsedBytesUpdate(s: seq<Block>, i: nat, b: Block)
    requires i < |s|
    ensures UsedBytes(s[i := b]) == UsedBytes(s) - (if s[i].used then s[i].size else 0) + if b.used then b.size else 0
  {
    var n := |s| - 1;
    if i == n {
      assert s[i := b][..n] == s[..n];
    } else {
      UsedBytesUpdate(s[..n], i, b);
      assert s[i := b][..n] == s[..n][i := b];
    }
  }

  // ---- the heap

  /** The first used block with that id. */
  ghost predicate FirstNamed(s: seq<Block>, i: nat, uid: u32)
  {
    i < |s| && s[i].used && s[i].uid == uid && forall j :: 0 <= j < i && s[j].used ==> s[j].uid != uid
  }

  /** It is no longer used; nothing else changed. */
  ghost predicate Freed(before: seq<Block>, after: seq<Block>, uid: u32)
  {
    exists i: nat :: FirstNamed(before, i, uid) && after == before[i := before[i].(used := false)]
  }

  const ILLEGAL_ATTR: u32 := 0x8002_0191
  const NO_MEMORY: u32 := 0x8002_0190
  const UNKNOWN_UID: u32 := 0x8002_01A2

  const SMEM_LOW: u32 := 0
  const SMEM_HIGH: u32 := 1
  const SMEM_ADDR: u32 := 2
  const SMEM_LOW_ALIGNED: u32 := 3
  const SMEM_HIGH_ALIGNED: u32 := 4

  const ONE: Align := 1

  /** The alignment a placement type asks for; never below a granule. */
  function PlaceAlign(kind: u32, want: u32): Align
    requires kind >= SMEM_LOW_ALIGNED && kind <= SMEM_HIGH_ALIGNED && want != 0 ==> IsPow2(want)
  {
    if (kind == SMEM_LOW_ALIGNED || kind == SMEM_HIGH_ALIGNED) && want >= 0x100 then want else GRANULE
  }

  /** The request stays below 2^32 where the code adds its size to a position. */
  ghost predicate NoWrap(kind: u32, size: u32, want: u32)
  {
    && (kind == SMEM_LOW ==> HEAP_LO + size < WORD)
    && (kind == SMEM_LOW_ALIGNED ==>
          (want == 0 || IsPow2(want)) ==> Up(HEAP_LO, PlaceAlign(kind, want)) + size < WORD)
    && (kind == SMEM_ADDR ==> want + size < WORD)
  }

  /** An unknown placement type, or an alignment that is not a power of two. */
  predicate Illegal(kind: u32, want: u32)
  {
    kind > SMEM_HIGH_ALIGNED || (kind >= SMEM_LOW_ALIGNED && want != 0 && !IsPow2(want))
  }

  /** Where the block of each placement type goes. */
  ghost predicate Placed(s: seq<Block>, kind: u32, size: u32, want: u32, addr: u32)
  {
    if kind == SMEM_ADDR then addr == want && Candidate(s, size, ONE, want)
    else if kind == SMEM_LOW then Lowest(s, size, GRANULE, addr)
    else if kind == SMEM_HIGH then Highest(s, size, GRANULE, addr)
    else if Illegal(kind, want) then false
    else if kind == SMEM_LOW_ALIGNED then Lowest(s, size, PlaceAlign(kind, want), addr)
    else Highest(s, size, PlaceAlign(kind, want), addr)
  }

  /** No slot is free to record a block, or the placement type has nowhere to put one. */
  ghost predicate Refused(s: seq<Block>, kind: u32, size: u32, want: u32)
  {
    || (forall j :: 0 <= j < |s| ==> s[j].used)
    || (if kind == SMEM_ADDR then !Candidate(s, size, ONE, want) else Placed(s, kind, size, want, 0))
  }

  /** The powers of two, and nothing else. */
  lemma {:induction false} IsPow2Iff(n: nat)
    ensures IsPow2(n) <==> exists k: nat :: n == Power(k)
    decreases n
  {
    assert Power(0) == 1;
    if n > 1 {
      IsPow2Iff(n / 2);
      if IsPow2(n) {
        var k: nat :| n / 2 == Power(k);
        assert n == Power(k + 1);
      }
      if k: nat :| n == Power(k) {
        assert k > 0 && n / 2 == Power(k - 1);
      }
    } else if n == 0 {
      forall k: nat ensures n != Power(k) { PowerPositive(k); }
    }
  }

  function Power(k: nat): nat { if k == 0 then 1 else 2 * Power(k - 1) }

  lemma {:induction false} PowerPositive(k: nat)
    ensures Power(k) > 0
  {
    if k > 0 { PowerPositive(k - 1); }
  }

  /** A placement in numbers: aligned, between 0x08C00000 and 0x0A000000, and clear of every used block. */
  lemma CandidateIs(s: seq<Block>, size: nat, align: nat, a: int)
    requires align > 0
    ensures Candidate(s, size, align, a) <==>
      && a % align == 0 && 0x08C0_0000 <= a && a + size <= 0x0A00_0000
      && forall i :: 0 <= i < |s| && s[i].used ==> a + size <= s[i].addr || s[i].addr + s[i].size <= a
  {
  }

  /** The placement types by number: 0 and 1 the lowest and the highest place for a granule, 2 the address asked for,
      3 and 4 the lowest and the highest for an alignment, which is a granule at least; there are no others. */
  lemma PlacementTypes(s: seq<Block>, kind: u32, size: u32, want: u32, addr: u32)
    ensures Illegal(kind, want) <==> kind > 4 || (kind in {3, 4} && want != 0 && !IsPow2(want))
    ensures kind == 0 ==> (Placed(s, kind, size, want, addr) <==> Lowest(s, size, 0x100, addr))
    ensures kind == 1 ==> (Placed(s, kind, size, want, addr) <==> Highest(s, size, 0x100, addr))
    ensures kind == 2 ==> (Placed(s, kind, size, want, addr) <==> addr == want && Candidate(s, size, 1, want))
    ensures kind == 3 && !Illegal(kind, want) ==>
            (Placed(s, kind, size, want, addr) <==> Lowest(s, size, if want > 0x100 then want else 0x100, addr))
    ensures kind == 4 && !Illegal(kind, want) ==>
            (Placed(s, kind, size, want, addr) <==> Highest(s, size, if want > 0x100 then want else 0x100, addr))
  {
    hide Lowest, Highest, Candidate, IsPow2;
  }

  lemma WantedIsCandidate(s: seq<Block>, want: u32, size: u32)
    requires Sane(s) && size > 0 && want + size < WORD
    ensures Candidate(s, size, ONE, want) <==>
            HEAP_LO <= want && want + size <= HEAP_HI && forall i :: 0 <= i < |s| ==> !s[i].Meets(want, size)
  {
    MeetsIsOverlap(s, want, size);
  }

  /** The slot a new block goes in: the first one not in use. */
  ghost predicate FirstFree(s: seq<Block>, i: nat)
  {
    i < |s| && !s[i].used && forall j :: 0 <= j < i ==> s[j].used
  }

  /** The first used block that starts at the address. */
  ghost predicate FirstAt(s: seq<Block>, i: nat, addr: u32)
  {
    i < |s| && s[i].used && s[i].addr == addr && forall j :: 0 <= j < i && s[j].used ==> s[j].addr != addr
  }

  /** A new block adds its size to what is used. */
  lemma InstalledBytes(before: seq<Block>, after: seq<Block>, b: Block)
    requires Installed(before, after, b) && b.used
    ensures UsedBytes(after) == UsedBytes(before) + b.size
  {
    var i: nat :| FirstFree(before, i) && after == before[i := b];
    UsedBytesUpdate(before, i, b);
  }

  /** The new block is in the first free slot and nothing else changed. */
  ghost predicate Installed(before: seq<Block>, after: seq<Block>, b: Block)
  {
    exists i: nat :: FirstFree(before, i) && after == before[i := b]
  }

  /** No placement exists, or no slot is free to record one. */
  ghost predicate Exhausted(s: seq<Block>, size: nat)
  {
    (forall a :: !Candidate(s, size, GRANULE, a)) || forall j :: 0 <= j < |s| ==> s[j].used
  }

  class Heap {
    const blocks: array<Block>
    var nextUid: u32

    ghost predicate Valid()
      reads this, blocks
    {
      blocks.Length == MAX_BLOCKS && Sane(blocks[..])
    }

    constructor ()
      ensures Valid() && fresh(blocks) && UsedBytes(blocks[..]) == 0
    {
      blocks := new Block[MAX_BLOCKS](_ => Block(0, 0, 0, false));
      nextUid := 0x0001_0000;
      new;
      NothingUsed(blocks[..]);
    }

    method AllocSlot() returns (i: int)
      ensures i >= 0 ==> FirstFree(blocks[..], i)
      ensures i < 0 ==> forall j :: 0 <= j < blocks.Length ==> blocks[j].used
    {
      for k := 0 to blocks.Length
        invariant forall j :: 0 <= j < k ==> blocks[j].used
      {
        if !blocks[k].used { return k; }
      }
      i := -1;
    }

    /** Take a slot for a placed block. */
    method Install(addr: u32, size: u32) returns (ok: bool, uid: u32)
      requires blocks.Length == MAX_BLOCKS
      modifies this, blocks
      ensures !ok ==> forall j :: 0 <= j < blocks.Length ==> blocks[j].used
      ensures !ok ==> blocks[..] == old(blocks[..]) && nextUid == old(nextUid)
      ensures ok ==> uid == old(nextUid) && nextUid == Add(uid, 1) &&
                     Installed(old(blocks[..]), blocks[..], Block(uid, addr, size, true))
    {
      var i := AllocSlot();
      uid := nextUid;
      ok := i >= 0;
      if ok {
        nextUid := Add(uid, 1);
        blocks[i] := Block(uid, addr, size, true);
      }
    }

    /** psp_sysmem_alloc. From the top the placement is exact for every size; from the bottom it is exact unless
        the heap start plus the rounded size wraps. */
    method Alloc(size: u32, fromHigh: bool) returns (addr: u32)
      requires Valid()
      modifies this, blocks
      ensures fromHigh || HEAP_LO + Rounded(size) < WORD ==> Valid()
      ensures addr == 0 ==> blocks[..] == old(blocks[..]) && nextUid == old(nextUid)
      ensures addr == 0 ==> Exhausted(blocks[..], Rounded(size))
      ensures addr != 0 ==> Installed(old(blocks[..]), blocks[..], Block(old(nextUid), addr, Rounded(size), true))
      ensures UsedBytes(blocks[..]) == old(UsedBytes(blocks[..])) + if addr != 0 then Rounded(size) else 0
      ensures addr != 0 && fromHigh ==> Highest(old(blocks[..]), Rounded(size), GRANULE, addr)
      ensures addr != 0 && !fromHigh ==>
                (Lowest(old(blocks[..]), Rounded(size), GRANULE, addr) <==> HEAP_LO + Rounded(size) < WORD)
    {
      ghost var s := blocks[..];
      var rounded := Rounded(size);
      GranuleStart();
      if fromHigh {
        addr := PlaceHigh(blocks, rounded, GRANULE);
      } else {
        addr := PlaceLow(blocks, rounded, GRANULE);
      }
      if addr == 0 { return; }
      if !fromHigh && HEAP_LO + rounded >= WORD { WrapIsMisfit(s, rounded, GRANULE); }
      var ok, uid := Install(addr, rounded);
      if !ok { return 0; }
      InstalledBytes(s, blocks[..], Block(uid, addr, rounded, true));
      if fromHigh || HEAP_LO + rounded < WORD {
        ghost var i: nat :| FirstFree(s, i) && blocks[..] == s[i := Block(uid, addr, rounded, true)];
        StillSane(s, i, Block(uid, addr, rounded, true), GRANULE);
      }
    }

    /** Placement by type; 0 when there is nowhere. */
    method PlaceBy(kind: u32, size: u32, want: u32) returns (at: u32)
      requires Valid() && size > 0 && !Illegal(kind, want)
      ensures if kind == SMEM_ADDR && at == 0 then !Candidate(blocks[..], size, ONE, want)
              else Placed(blocks[..], kind, size, want, at) <==> NoWrap(kind, size, want) || at == 0
    {
      if kind == SMEM_ADDR && !NoWrap(kind, size, want) { assert !Candidate(blocks[..], size, ONE, want); }
      hide Candidate, Sane, IsPow2;
      at := 0;
      var align := PlaceAlign(kind, want);
      if kind == SMEM_LOW || kind == SMEM_LOW_ALIGNED {
        GranuleStart();
        at := PlaceLow(blocks, size, align);
      } else if kind == SMEM_HIGH || kind == SMEM_HIGH_ALIGNED {
        at := PlaceHigh(blocks, size, align);
      } else {
        if NoWrap(kind, size, want) { WantedIsCandidate(blocks[..], want, size); }
        var blocked := Overlaps(blocks, want, size);
        if want >= HEAP_LO && Add(want, size) <= HEAP_HI && !blocked { at := want; }
      }
    }

    /** A placed block may take a free slot. */
    lemma PlacedStaysSane(s: seq<Block>, i: nat, kind: u32, size: u32, want: u32, uid: u32, addr: u32)
      requires Sane(s) && i < |s| && !s[i].used && size > 0 && addr != 0 && Placed(s, kind, size, want, addr)
      ensures Sane(s[i := Block(uid, addr, size, true)])
    {
      StillSane(s, i, Block(uid, addr, size, true), if kind == SMEM_ADDR then ONE else PlaceAlign(kind, want));
    }

    /** sceKernelAllocPartitionMemory: placement by type, or at a wanted address; an alignment that is not a
        power of two, or an unknown type, is refused. */
    method AllocPartition(kind: u32, size: u32, want: u32) returns (ret: u32, ghost addr: u32)
      requires Valid()
      modifies this, blocks
      ensures NoWrap(kind, Rounded(size), want) ==> Valid()
      ensures addr == 0 ==> ret in {ILLEGAL_ATTR, NO_MEMORY} && blocks[..] == old(blocks[..]) && nextUid == old(nextUid)
      ensures addr == 0 && ret == ILLEGAL_ATTR <==> Illegal(kind, want)
      ensures addr != 0 ==>
              ret == old(nextUid) && Installed(old(blocks[..]), blocks[..], Block(ret, addr, Rounded(size), true))
      ensures UsedBytes(blocks[..]) == old(UsedBytes(blocks[..])) + if addr != 0 then Rounded(size) else 0
      ensures !Illegal(kind, want) ==>
                if addr == 0 then Refused(old(blocks[..]), kind, Rounded(size), want)
                else Placed(old(blocks[..]), kind, Rounded(size), want, addr) <==> NoWrap(kind, Rounded(size), want)
    {
      ghost var s := blocks[..];
      var rounded := Rounded(size);
      if Illegal(kind, want) { return ILLEGAL_ATTR, 0; }
      addr := 0;
      hide Placed, Candidate, Sane, NoWrap, Illegal;
      var at := PlaceBy(kind, rounded, want);
      if at == 0 { return NO_MEMORY, 0; }
      var ok, uid := Install(at, rounded);
      if !ok { return NO_MEMORY, 0; }
      ret, addr := uid, at;
      InstalledBytes(s, blocks[..], Block(uid, at, rounded, true));
      ghost var i: nat :| FirstFree(s, i) && blocks[..] == s[i := Block(uid, at, rounded, true)];
      if NoWrap(kind, rounded, want) { PlacedStaysSane(s, i, kind, rounded, want, uid, at); }
    }

    /** sceKernelFreePartitionMemory: the first used block with that id. */
    method FreePartition(uid: u32) returns (ret: u32)
      requires Valid()
      modifies blocks
      ensures Valid()
      ensures ret == UNKNOWN_UID <==>
              forall i :: 0 <= i < blocks.Length && old(blocks[i]).used ==> old(blocks[i]).uid != uid
      ensures ret == UNKNOWN_UID ==> blocks[..] == old(blocks[..])
      ensures ret != UNKNOWN_UID ==> ret == 0 && Freed(old(blocks[..]), blocks[..], uid)
      ensures forall i :: 0 <= i < blocks.Length && FirstNamed(old(blocks[..]), i, uid) ==>
                UsedBytes(blocks[..]) == old(UsedBytes(blocks[..])) - old(blocks[i].size)
    {
      for i := 0 to blocks.Length
        invariant blocks[..] == old(blocks[..])
        invariant forall j :: 0 <= j < i && blocks[j].used ==> blocks[j].uid != uid
      {
        if blocks[i].used && blocks[i].uid == uid {
          UsedBytesUpdate(blocks[..], i, blocks[i].(used := false));
          blocks[i] := blocks[i].(used := false);
          assert blocks[..] == old(blocks[..])[i := old(blocks[i]).(used := false)];
          return 0;
        }
      }
      ret := UNKNOWN_UID;
    }

    /** psp_sysmem_release: the first used block at that address, which in a sane heap is the only one. */
    method Release(addr: u32)
      requires blocks.Length == MAX_BLOCKS
      modifies blocks
      ensures old(Valid()) ==> Valid()
      ensures (forall i :: 0 <= i < blocks.Length && old(blocks[i]).used ==> old(blocks[i]).addr != addr) ==>
                blocks[..] == old(blocks[..])
      ensures forall i :: 0 <= i < blocks.Length && FirstAt(old(blocks[..]), i, addr) ==>
                && blocks[..] == old(blocks[..])[i := old(blocks[i]).(used := false)]
                && UsedBytes(blocks[..]) == old(UsedBytes(blocks[..])) - old(blocks[i].size)
    {
      ghost var s := blocks[..];
      for i := 0 to blocks.Length
        invariant blocks[..] == s
        invariant forall j :: 0 <= j < i && blocks[j].used ==> blocks[j].addr != addr
      {
        if blocks[i].used && blocks[i].addr == addr {
          UsedBytesUpdate(s, i, s[i].(used := false));
          blocks[i] := blocks[i].(used := false);
          assert blocks[..] == s[i := s[i].(used := false)];
          return;
        }
      }
    }

    /** psp_sysmem_free: heap size minus live sizes; the 32-bit subtraction never wraps. */
    method FreeBytes() returns (n: u32)
      requires Valid()
      ensures n == HEAP_HI - HEAP_LO - UsedBytes(blocks[..])
    {
      UsedFits(blocks[..]);
      var used: u32 := 0;
      for i := 0 to blocks.Length
        invariant used == UsedBytes(blocks[..i])
      {
        PrefixFits(blocks[..], i + 1);
        assert blocks[..i + 1][..i] == blocks[..i];
        if blocks[i].used { used := Add(used, blocks[i].size); }
      }
      assert blocks[..blocks.Length] == blocks[..];
      n := (HEAP_HI - HEAP_LO - used) % WORD;
    }
  }

  lemma {:induction false} NothingUsed(s: seq<Block>)
    requires forall i :: 0 <= i < |s| ==> !s[i].used
    ensures UsedBytes(s) == 0
  {
    if s != [] { NothingUsed(s[..|s| - 1]); }
  }

  lemma PrefixFits(s: seq<Block>, n: nat)
    requires Sane(s) && n <= |s|
    ensures UsedBytes(s[..n]) <= HEAP_HI - HEAP_LO
  {
    UsedFits(s[..n]);
  }

  lemma StillSane(s: seq<Block>, i: nat, b: Block, align: Align)
    requires Sane(s) && i < |s| && !s[i].used && b.used && b.size > 0 && Candidate(s, b.size, align, b.addr)
    ensures Sane(s[i := b])
  {
  }

  /** Two used blocks never start at the same address. */
  lemma AddressesDiffer(s: seq<Block>, i: nat)
    requires Sane(s) && i < |s| && s[i].used
    ensures forall j :: 0 <= j < |s| && s[j].used && s[j].addr == s[i].addr ==> j == i
    ensures FirstAt(s, i, s[i].addr)
  {
  }
}

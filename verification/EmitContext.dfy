/** emit.c's working state: the module-wide label and slot maps, and the loops that fill and read them. */
module EmitC {
  import opened Allegrex
  import opened Emitter
  import opened Recompiled
  import opened Layout

  /** is_function: binary search in the sorted list of entries. */
  method IsFunction(order: seq<nat>, addr: nat) returns (found: bool)
    requires forall i, j :: 0 <= i < j < |order| ==> order[i] < order[j]
    ensures found <==> addr in order
  {
    var lo, hi := 0, |order| - 1;
    while lo <= hi
      invariant 0 <= lo <= hi + 1 <= |order|
      invariant forall i :: 0 <= i < lo ==> order[i] < addr
      invariant forall i :: hi < i < |order| ==> addr < order[i]
    {
      var mid := (lo + hi) / 2;
      if order[mid] == addr { return true; }
      if order[mid] < addr { lo := mid + 1; } else { hi := mid - 1; }
    }
    found := false;
  }

  // ---- emission line by line: a construct is the same lines whatever follows

  lemma SlotIfAppends(m: Module, a: nat, emit: bool, k: seq<Stmt>, k': seq<Stmt>)
    ensures SlotIf(m, a, emit, k + k') == SlotIf(m, a, emit, k) + k'
  {
    if emit { Appends(SlotStmt(m, a), k, k'); }
  }

  lemma Appends(s: Stmt, k: seq<Stmt>, k': seq<Stmt>)
    ensures [s] + (k + k') == ([s] + k) + k'
  {
  }

  lemma CallAppends(callee: Stmt, ret: nat, k: seq<Stmt>, k': seq<Stmt>)
    ensures Call(callee, ret, k + k') == Call(callee, ret, k) + k'
  {
    assert Call(callee, ret, k + k') == [CallBegin(ret), callee, CallEnd(ret)] + (k + k');
    assert Call(callee, ret, k) == [CallBegin(ret), callee, CallEnd(ret)] + k;
  }

  lemma BranchesAppend(m: Module, f: nat, a: nat, b: bool, k: seq<Stmt>, k': seq<Stmt>)
    requires m.At(a).Branch?
    ensures LinkingHead(m, f, a, b, k + k') == LinkingHead(m, f, a, b, k) + k'
    ensures BranchHead(m, f, a, k + k') == BranchHead(m, f, a, k) + k'
  {
    var have, taken, insn := HaveSlot(m, f, a), TakenSlot(m, f, a), m.At(a);
    hide LinkingThen, SlotIf, Transfer, HaveSlot, TakenSlot;
    var callThn := IfC(LinkingThen(m, f, a, taken || (have && insn.likely), b));
    Appends(callThn, k, k');
    SlotIfAppends(m, a, have && !insn.likely, [callThn] + k, k');
    var linked := SlotIf(m, a, have && !insn.likely, [callThn] + k);
    Appends(Link(RA, a + 8), linked, k');
    Appends(CapCond(insn.cond), [Link(RA, a + 8)] + linked, k');
    var thn := IfC(SlotIf(m, a, taken, Transfer(m, f, insn.target)));
    Appends(thn, k, k');
    SlotIfAppends(m, a, have, [thn] + k, k');
    Appends(CapCond(insn.cond), SlotIf(m, a, have, [thn] + k), k');
    Appends(IfCond(insn.cond, SlotIf(m, a, have || taken, Transfer(m, f, insn.target))), k, k');
  }

  lemma CallsAppend(m: Module, f: nat, a: nat, k: seq<Stmt>, k': seq<Stmt>)
    requires m.At(a).Jal? || m.At(a).Jalr?
    ensures m.At(a).Jal? ==> JalHead(m, f, a, k + k') == JalHead(m, f, a, k) + k'
    ensures m.At(a).Jalr? ==> JalrHead(m, f, a, k + k') == JalrHead(m, f, a, k) + k'
  {
    var have := HaveSlot(m, f, a);
    hide Call, SlotIf, HaveSlot;
    if m.At(a).Jal? {
      var callee := StaticCall(m, m.At(a).target);
      CallAppends(callee, a + 8, k, k');
      var go := if m.At(a).IsGetPc(a) then k else Call(callee, a + 8, k);
      Appends(Link(RA, a + 8), go, k');
      SlotIfAppends(m, a, have, [Link(RA, a + 8)] + go, k');
    } else {
      var rd := m.At(a).rd;
      CallAppends(DispatchT, a + 8, k, k');
      CallAppends(DispatchT, 0, k, k');
      Appends(Link(rd, a + 8), Call(DispatchT, a + 8, k), k');
      var go := if rd != 0 then [Link(rd, a + 8)] + Call(DispatchT, a + 8, k) else Call(DispatchT, 0, k);
      SlotIfAppends(m, a, have, go, k');
      Appends(CapReg(m.At(a).rs), SlotIf(m, a, have, go), k');
    }
  }

  lemma JumpsAppend(m: Module, f: nat, a: nat, k: seq<Stmt>, k': seq<Stmt>)
    requires m.At(a).J? || m.At(a).Jr?
    ensures m.At(a).J? ==> JHead(m, f, a, k + k') == JHead(m, f, a, k) + k'
    ensures m.At(a).Jr? ==> JrHead(m, f, a, k + k') == JrHead(m, f, a, k) + k'
  {
    var emit := HaveSlot(m, f, a) || TakenSlot(m, f, a);
    hide SlotIf, HaveSlot, TakenSlot, StaticCall;
    Appends(Return, k, k');
    if m.At(a).J? {
      var t := m.At(a).target;
      Appends(StaticCall(m, t), [Return] + k, k');
      Appends(Goto(t), k, k');
      var go := if m.Owned(t, f) && t !in m.funcs then [Goto(t)] + k else [StaticCall(m, t)] + ([Return] + k);
      SlotIfAppends(m, a, emit, go, k');
    } else {
      var thn := IfRaIsJump([DispatchT] + [Return]);
      Appends(thn, [Return] + k, k');
      Appends(DispatchT, [Return] + k, k');
      var go := if m.At(a).rs == RA then [thn] + ([Return] + k) else [DispatchT] + ([Return] + k);
      SlotIfAppends(m, a, emit, go, k');
      Appends(CapReg(m.At(a).rs), SlotIf(m, a, emit, go), k');
    }
  }

  lemma HeadAppends(m: Module, f: nat, a: nat, b: bool, k: seq<Stmt>, k': seq<Stmt>)
    ensures Head(m, f, a, b, k + k') == Head(m, f, a, b, k) + k'
  {
    hide LinkingHead, BranchHead, JalHead, JalrHead, JrHead, JHead;
    match m.At(a)
    case Plain(raw) => Appends(Do(raw), k, k');
    case Branch(_, _, _, _) => BranchesAppend(m, f, a, b, k, k');
    case Jal(_) => CallsAppend(m, f, a, k, k');
    case Jalr(_, _) => CallsAppend(m, f, a, k, k');
    case Jr(_) => JumpsAppend(m, f, a, k, k');
    case J(_) => JumpsAppend(m, f, a, k, k');
  }

  lemma AliasAppends(m: Module, f: nat, a: nat, b: bool, k: seq<Stmt>)
    ensures Alias(m, f, a, b, k) == Alias(m, f, a, b, []) + k
  {
    var s := SlotStmt(m, a);
    assert [Label(a + 4)] + ([s] + k) == ([Label(a + 4)] + ([s] + [])) + k;
    Appends(Goto(a + 8), [Label(a + 4)] + ([s] + []), k);
    Appends(Return, [Label(a + 4)] + ([s] + []), k);
  }

  /** The lines the emitter writes for one construct, slot copy included. */
  function Lines(m: Module, f: nat, a: nat, slotLab: bool, resumeLab: bool): seq<Stmt>
  {
    Head(m, f, a, resumeLab, Alias(m, f, a, slotLab, []))
  }

  lemma LinesThen(m: Module, f: nat, a: nat, slotLab: bool, resumeLab: bool, k: seq<Stmt>)
    ensures Head(m, f, a, resumeLab, Alias(m, f, a, slotLab, k)) == Lines(m, f, a, slotLab, resumeLab) + k
  {
    hide Head, Alias;
    AliasAppends(m, f, a, slotLab, k);
    HeadAppends(m, f, a, resumeLab, Alias(m, f, a, slotLab, []), k);
  }

  class EmitContext {
    const m: Module
    const base: nat
    const order: seq<nat>
    const isLabel: array<bool>
    const isSlot: array<bool>
    ghost var emitted: set<nat>     // the functions whose bodies are written; each has its entry labelled

    constructor (m: Module, base: nat, nwords: nat, order: seq<nat>)
      ensures this.m == m && this.base == base && this.order == order
      ensures fresh(isLabel) && fresh(isSlot) && isLabel != isSlot && isLabel.Length == isSlot.Length == nwords
      ensures (forall i :: 0 <= i < nwords ==> !isLabel[i] && !isSlot[i]) && emitted == {}
    {
      this.m, this.base, this.order, this.emitted := m, base, order, {};
      isLabel := new bool[nwords](_ => false);
      isSlot := new bool[nwords](_ => false);
    }

    ghost predicate Shaped()
    {
      && Laid(m)
      && isLabel != isSlot && isLabel.Length == isSlot.Length
      && base % 4 == 0
      && (forall a <- m.owner :: base <= a < base + 4 * isLabel.Length)
      && (forall i, j :: 0 <= i < j < |order| ==> order[i] < order[j])
      && (forall f :: f in order <==> f in m.funcs)
    }

    function Index(a: nat): nat
      requires base <= a
    {
      (a - base) / 4
    }

    /** Every mark is one the maps should have; an entry is labelled no sooner than its body is written. */
    ghost predicate Sound()
      requires Shaped()
      reads isLabel, isSlot, `emitted
    {
      && emitted <= m.funcs.Keys
      && (forall a {:trigger isLabel[Index(a)]} :: a in m.owner && isLabel[Index(a)] ==> Marked(m, a) || a in emitted)
      && (forall a {:trigger isSlot[Index(a)]} :: a in m.owner && isSlot[Index(a)] ==> IsSlot(m, a))
    }

    /** Every mark that the instructions of f call for is there. */
    ghost predicate Complete(f: nat)
      requires Shaped()
      reads isLabel, isSlot
    {
      && (forall a {:trigger Marked(m, a)} :: m.Owned(a, f) && Marked(m, a) ==> isLabel[Index(a)])
      && (forall a {:trigger IsSlot(m, a)} :: m.Owned(a, f) && IsSlot(m, a) ==> isSlot[Index(a)])
    }

    lemma IndexInjective(a: nat, b: nat)
      requires Shaped() && a in m.owner && b in m.owner && Index(a) == Index(b)
      ensures a == b
    {
      InRange(a);
      InRange(b);
      hide Shaped;
      WordsApart(base, a, b);
    }

    lemma InRange(a: nat)
      requires Shaped() && a in m.owner
      ensures base <= a && a % 4 == 0 && base % 4 == 0
    {
    }

    static lemma WordsApart(base: nat, a: nat, b: nat)
      requires base <= a && base <= b && a % 4 == b % 4 == base % 4
      ensures (a - base) / 4 == (b - base) / 4 ==> a == b
    {
    }

    /** Marks are never taken back. */
    twostate predicate Grown()
      reads isLabel, isSlot
    {
      && (forall i :: 0 <= i < isLabel.Length && old(isLabel[i]) ==> isLabel[i])
      && (forall i :: 0 <= i < isSlot.Length && old(isSlot[i]) ==> isSlot[i])
    }

    method Label(a: nat)
      requires Shaped() && Sound() && a in m.owner && (Marked(m, a) || a in emitted)
      modifies isLabel
      ensures Sound() && isLabel[Index(a)] && Grown()
    {
      isLabel[Index(a)] := true;
      forall x | x in m.owner && isLabel[Index(x)]
        ensures Marked(m, x) || x in emitted
      {
        if Index(x) == Index(a) { IndexInjective(x, a); }
      }
    }

    method Slot(a: nat)
      requires Shaped() && Sound() && a in m.owner && IsSlot(m, a)
      modifies isSlot
      ensures Sound() && isSlot[Index(a)] && Grown()
    {
      isSlot[Index(a)] := true;
      forall x | x in m.owner && isSlot[Index(x)]
        ensures IsSlot(m, x)
      {
        if Index(x) == Index(a) { IndexInjective(x, a); }
      }
    }

    /** What one owned instruction of f marks in the body of f. */
    ghost predicate Marks(f: nat, a: nat)
      requires Shaped()
      reads isLabel, isSlot
    {
      && (forall x {:trigger Names(m, a, x)} :: m.Owned(x, f) && Names(m, a, x) ==> isLabel[Index(x)])
      && (m.At(a).HasDelaySlot() && m.Owned(a + 4, f) ==> isSlot[Index(a + 4)])
    }

    method MarkInsn(f: nat, a: nat)
      requires Shaped() && Sound() && m.Owned(a, f)
      modifies isLabel, isSlot
      ensures Sound() && Grown() && Marks(f, a)
    {
      Bounded();
      hide Sound, Shaped, Lab, IsSlot;
      MarkTarget(f, a);
      MarkSlot(f, a);
      MarkReturn(f, a);
    }

    lemma Bounded()
      requires Shaped()
      ensures isLabel != isSlot && isLabel.Length == isSlot.Length
      ensures forall a {:trigger a in m.owner} :: a in m.owner ==> base <= a && Index(a) < isLabel.Length
    {
    }

    /** The target of a branch or a direct jump or call, when it is this body's and no entry. */
    method MarkTarget(f: nat, a: nat)
      requires Shaped() && Sound() && m.Owned(a, f)
      modifies isLabel
      ensures Sound() && Grown()
      ensures var insn := m.At(a);
              (insn.Branch? || ((insn.J? || insn.Jal?) && insn.target !in m.funcs)) && m.Owned(insn.target, f)
              ==> isLabel[Index(insn.target)]
    {
      Orderly();
      hide Sound, Shaped;
      var insn := m.At(a);
      if insn.Branch? && m.Owned(insn.target, f) {
        assert Names(m, a, insn.target);
        Label(insn.target);
      }
      if (insn.J? || insn.Jal?) && m.Owned(insn.target, f) {
        var entry := IsFunction(order, insn.target);
        if !entry {
          assert Names(m, a, insn.target);
          Label(insn.target);
        }
      }
    }

    lemma Orderly()
      requires Shaped()
      ensures forall i, j :: 0 <= i < j < |order| ==> order[i] < order[j]
      ensures forall f :: f in order <==> f in m.funcs
    {
    }

    method MarkSlot(f: nat, a: nat)
      requires Shaped() && Sound() && m.Owned(a, f)
      modifies isSlot
      ensures Sound() && Grown()
      ensures m.At(a).HasDelaySlot() && m.Owned(a + 4, f) ==> isSlot[Index(a + 4)]
    {
      hide Sound, Shaped;
      if m.At(a).HasDelaySlot() && m.Owned(a + 4, f) {
        Slot(a + 4);
      }
    }

    /** The place a call resumes at. */
    method MarkReturn(f: nat, a: nat)
      requires Shaped() && Sound() && m.Owned(a, f)
      modifies isLabel
      ensures Sound() && Grown()
      ensures m.At(a).IsCall() && !m.At(a).IsGetPc(a) && m.Owned(a + 8, f) ==> isLabel[Index(a + 8)]
    {
      hide Sound, Shaped;
      var insn := m.At(a);
      if insn.IsCall() && !insn.IsGetPc(a) && m.Owned(a + 8, f) {
        assert Names(m, a, a + 8);
        Label(a + 8);
      }
    }

    ghost predicate MarksBelow(f: nat, a: int)
      requires Shaped()
      reads isLabel, isSlot
    {
      forall b: nat :: m.Owned(b, f) && b < a ==> Marks(f, b)
    }

    ghost predicate ChainedUpTo(f: nat, a: int)
      requires Shaped()
      reads isLabel, isSlot
    {
      forall b: nat {:trigger Marked(m, b)} :: m.Owned(b, f) && b <= a && Marked(m, b) ==> isLabel[Index(b)]
    }

    predicate Aligned(a: int) { a % 4 == 0 }

    /** Words are four bytes apart. */
    lemma NextWord(f: nat, b: nat, a: int)
      requires Shaped() && m.Owned(b, f) && Aligned(a)
      ensures b < a + 4 ==> b <= a
      ensures b <= a + 4 ==> b <= a || b == a + 4
    {
    }

    lemma Bounds(f: nat)
      requires Shaped() && f in m.funcs
      ensures m.funcs[f].start % 4 == 0 && m.funcs[f].end % 4 == 0 && m.funcs[f].start <= f < m.funcs[f].end
      ensures MarksBelow(f, m.funcs[f].start)
    {
    }

    method MarkWord(f: nat, a: nat)
      requires Shaped() && Sound() && a % 4 == 0 && MarksBelow(f, a)
      modifies isLabel, isSlot
      ensures Sound() && Grown() && MarksBelow(f, a + 4)
    {
      if m.Owned(a, f) {
        MarkInsn(f, a);
      }
      forall b: nat | m.Owned(b, f) && b < a + 4
        ensures Marks(f, b)
      {
        NextWord(f, b, a);
      }
    }

    /** First pass of mark_labels: what the instructions themselves name. */
    method MarkNamed(f: nat)
      requires Shaped() && Sound() && f in m.funcs
      modifies isLabel, isSlot
      ensures Sound() && Grown()
      ensures MarksBelow(f, m.funcs[f].end)
    {
      hide Sound, MarksBelow, Shaped;
      var a: int, end: int := m.funcs[f].start, m.funcs[f].end;
      Bounds(f);
      while a < end
        invariant 0 <= a <= end && a % 4 == 0 && Sound() && Grown()
        invariant MarksBelow(f, a)
      {
        MarkWord(f, a);
        a := a + 4;
      }
    }

    lemma MarkedBefore(f: nat, a: nat)
      requires Shaped() && m.Owned(a, f) && f in m.funcs && MarksBelow(f, m.funcs[f].end)
      requires a >= 4 && m.Owned(a - 4, f) && Marked(m, a - 4) ==> isLabel[Index(a - 4)]
      ensures Marked(m, a) ==>
              isLabel[Index(a)] || (a >= 4 && m.Owned(a - 4, f) && isSlot[Index(a - 4)] && isLabel[Index(a - 4)])
    {
      if Named(m, a) {
        var b: nat :| m.Owned(b, f) && Names(m, b, a);
        assert Marks(f, b);
      } else if Marked(m, a) {
        assert IsSlot(m, a - 4) && Marks(f, a - 8);
      }
    }

    lemma AfterSlotMarked(f: nat, a: nat)
      requires Shaped() && Sound() && m.Owned(a, f) && m.Owned(a + 4, f) && f !in emitted
      requires isSlot[Index(a)] && isLabel[Index(a)]
      ensures Marked(m, a + 4)
    {
    }

    /** What follows a slot that is itself a label becomes one: the slot's standalone copy is jumped over. */
    method MarkAfterSlot(f: nat, a: nat)
      requires Shaped() && Sound() && f in m.funcs && f !in emitted && a % 4 == 0
      requires MarksBelow(f, m.funcs[f].end) && ChainedUpTo(f, a)
      modifies isLabel
      ensures Sound() && Grown()
      ensures MarksBelow(f, m.funcs[f].end) && ChainedUpTo(f, a + 4)
    {
      hide Shaped, Sound, Lab, IsSlot;
      Bounded();
      if m.Owned(a + 4, f) {
        MarkedBefore(f, a + 4);
        if m.Owned(a, f) && isSlot[Index(a)] && isLabel[Index(a)] {
          AfterSlotMarked(f, a);
          Label(a + 4);
        }
      }
      forall b: nat | m.Owned(b, f) && b <= a + 4 && Marked(m, b)
        ensures isLabel[Index(b)]
      {
        NextWord(f, b, a);
      }
    }

    /** mark_labels: the marks of one function, on top of whatever other functions have marked. */
    method MarkLabels(f: nat)
      requires Shaped() && Sound() && f in m.funcs && f !in emitted
      modifies isLabel, isSlot
      ensures Sound() && Grown() && Complete(f)
    {
      MarkNamed(f);
      var a: int, end: int := m.funcs[f].start, m.funcs[f].end;
      assert a % 4 == 0 && end % 4 == 0;
      MarkedFirst(f);
      while a + 4 < end
        invariant m.funcs[f].start <= a && a % 4 == 0 && Sound() && Grown()
        invariant MarksBelow(f, end) && ChainedUpTo(f, a)
        invariant a >= end - 4 || a + 4 < end
      {
        hide Sound, MarksBelow, ChainedUpTo, Complete, Marked;
        MarkAfterSlot(f, a);
        a := a + 4;
      }
      AllMarked(f);
    }

    /** Nothing below the first word of the body is owned, so the chain starts with what is named. */
    lemma MarkedFirst(f: nat)
      requires Shaped() && f in m.funcs && MarksBelow(f, m.funcs[f].end)
      ensures ChainedUpTo(f, m.funcs[f].start)
    {
      forall b: nat | m.Owned(b, f) && b <= m.funcs[f].start && Marked(m, b)
        ensures isLabel[Index(b)]
      {
        MarkedBefore(f, b);
      }
    }

    lemma AllMarked(f: nat)
      requires Shaped() && f in m.funcs && MarksBelow(f, m.funcs[f].end)
      requires ChainedUpTo(f, m.funcs[f].end - 4)
      ensures Complete(f)
    {
      Bounds(f);
      var end := m.funcs[f].end;
      forall a: nat | m.Owned(a, f)
        ensures a < end && a <= end - 4
        ensures IsSlot(m, a) ==> isSlot[Index(a)]
      {
        BeforeEnd(f, a);
        if IsSlot(m, a) { SlotMarked(f, a); }
      }
    }

    lemma BeforeEnd(f: nat, a: nat)
      requires Shaped() && f in m.funcs && m.Owned(a, f)
      ensures a < m.funcs[f].end && a <= m.funcs[f].end - 4
    {
    }

    lemma SlotMarked(f: nat, a: nat)
      requires Shaped() && f in m.funcs && MarksBelow(f, m.funcs[f].end) && m.Owned(a, f) && IsSlot(m, a)
      ensures isSlot[Index(a)]
    {
      assert Marks(f, a - 4);
    }

    // ---- the module-wide map, the header, the bodies, the registrations

    ghost predicate AllComplete()
      requires Shaped()
      reads isLabel, isSlot
    {
      forall f <- m.funcs :: Complete(f)
    }

    /** The maps are right and complete for the whole module. */
    ghost predicate Whole()
      reads isLabel, isSlot, `emitted
    {
      Shaped() && Sound() && AllComplete()
    }

    twostate lemma CompleteKept(f: nat)
      requires Shaped() && old(Complete(f)) && Grown()
      ensures Complete(f)
    {
    }

    /** The map is complete for the whole module, in whatever order the functions were marked. */
    method MarkModule()
      requires Shaped() && Sound() && emitted == {}
      modifies isLabel, isSlot
      ensures Sound() && Grown() && AllComplete()
    {
      hide Sound, Complete;
      var i := 0;
      while i < |order|
        invariant 0 <= i <= |order| && Sound() && Grown()
        invariant forall j :: 0 <= j < i ==> Complete(order[j])
      {
        label Before:
        assert order[i] in m.funcs by { assert order[i] in order; }
        MarkLabels(order[i]);
        forall j | 0 <= j < i
          ensures Complete(order[j])
        {
          CompleteKept@Before(order[j]);
        }
        i := i + 1;
      }
      forall f | f in m.funcs
        ensures Complete(f)
      {
        assert f in order;
      }
    }

    /** The maps answer for the words of f. */
    ghost predicate Answers(f: nat)
      requires Shaped()
      reads isLabel, isSlot
    {
      && (forall a {:trigger isLabel[Index(a)]} :: m.Owned(a, f) ==> (isLabel[Index(a)] <==> Lab(m, a)))
      && (forall a {:trigger isSlot[Index(a)]} :: m.Owned(a, f) ==> (isSlot[Index(a)] <==> IsSlot(m, a)))
    }

    lemma AnswersOnceLabelled(f: nat)
      requires Shaped() && Sound() && Complete(f) && f in m.funcs && isLabel[Index(f)]
      ensures Answers(f)
    {
    }

    /** Reading the maps at a word of f. */
    lemma Read(f: nat, a: nat)
      requires Shaped() && f in m.funcs && m.Owned(a, f)
      requires Answers(f) || (Sound() && Complete(f) && a != f)
      ensures base <= a && Index(a) < isLabel.Length && Index(a) < isSlot.Length
      ensures (isLabel[Index(a)] <==> Lab(m, a)) && (isSlot[Index(a)] <==> IsSlot(m, a))
      ensures Thunk(m, a) <==> isLabel[Index(a)] && !isSlot[Index(a)] && a != f
    {
      if a in m.funcs { assert m.Owned(a, a); }
    }

    /** Interior labels that get a thunk: the header declares them and the body's loop defines them alike. */
    method ThunksOf(f: nat) returns (thunks: seq<nat>)
      requires Shaped() && f in m.funcs && (Answers(f) || (Sound() && Complete(f)))
      ensures thunks == ThunkList(m, f, m.funcs[f].end, m.funcs[f].start)
    {
      hide Shaped, Sound, Complete, Answers, Thunk, ThunkList, MarksBelow;
      Bounds(f);
      thunks := [];
      var a: int, end: int := m.funcs[f].start, m.funcs[f].end;
      while a < end
        invariant 0 <= a
        invariant thunks + ThunkList(m, f, end, a) == ThunkList(m, f, end, m.funcs[f].start)
      {
        var found := false;
        if m.Owned(a, f) && a != f {
          Read(f, a);
          found := isLabel[Index(a)] && !isSlot[Index(a)];
        }
        EntryIsNoThunk(f);
        ThunkListStep(f, a, found, thunks);
        if found { thunks := thunks + [a]; }
        a := a + 4;
      }
      ThunkListEnd(f, a, thunks);
    }

    lemma ThunkListStep(f: nat, a: nat, found: bool, thunks: seq<nat>)
      requires f in m.funcs && a < m.funcs[f].end && found == (m.Owned(a, f) && Thunk(m, a))
      ensures thunks + ThunkList(m, f, m.funcs[f].end, a)
           == (if found then thunks + [a] else thunks) + ThunkList(m, f, m.funcs[f].end, a + 4)
    {
      hide Thunk;
      assert thunks + ([a] + ThunkList(m, f, m.funcs[f].end, a + 4)) ==
             (thunks + [a]) + ThunkList(m, f, m.funcs[f].end, a + 4);
    }

    lemma ThunkListEnd(f: nat, a: nat, thunks: seq<nat>)
      requires f in m.funcs && a >= m.funcs[f].end
      ensures thunks + ThunkList(m, f, m.funcs[f].end, a) == thunks
    {
    }

    lemma EntryOwned(f: nat)
      requires Shaped() && f in m.funcs
      ensures m.Owned(f, f) && Lab(m, f)
    {
    }

    lemma EntryIsNoThunk(f: nat)
      requires f in m.funcs
      ensures !Thunk(m, f)
    {
    }

    ghost predicate OtherBelow(f: nat, a: int)
      requires f in m.funcs
    {
      exists x: nat :: x != f && m.Owned(x, f) && Lab(m, x) && m.funcs[f].start <= x < a
    }

    lemma OtherStep(f: nat, a: nat)
      requires Shaped() && f in m.funcs && Aligned(a) && a >= m.funcs[f].start
      ensures OtherBelow(f, a + 4) <==> OtherBelow(f, a) || (a != f && m.Owned(a, f) && Lab(m, a))
      ensures f < a + 4 <==> f <= a
      ensures Aligned(a + 4)
    {
      forall x: nat | m.Owned(x, f) && x < a + 4
        ensures x <= a
      {
        NextWord(f, x, a);
      }
      NextWord(f, f, a);
    }

    /** Whether the body is started with a switch. */
    method HasSwitch(f: nat) returns (yes: bool)
      requires Shaped() && Answers(f) && f in m.funcs
      ensures yes <==> NeedsSwitch(m, f)
    {
      Bounds(f);
      EntryOwned(f);
      var start: int, end: int := m.funcs[f].start, m.funcs[f].end;
      assert !OtherBelow(f, start) && Aligned(start) && (OtherBelow(f, end) || start != f <==> NeedsSwitch(m, f));
      hide Shaped, Answers, Lab, Aligned, OtherBelow, NeedsSwitch;
      var nlabels := 0;
      ghost var others := 0;
      var a := start;
      while a < end
        invariant start <= a <= end && Aligned(a)
        invariant others >= 0 && nlabels == others + if f < a then 1 else 0
        invariant others > 0 <==> OtherBelow(f, a)
      {
        OtherStep(f, a);
        if m.Owned(a, f) {
          Read(f, a);
          if isLabel[Index(a)] {
            nlabels := nlabels + 1;
            if a != f { others := others + 1; }
          }
        }
        LastWord(a, end);
        a := a + 4;
      }
      yes := nlabels > 1 || start != f;
    }

    lemma LastWord(a: int, end: int)
      requires Aligned(a) && end % 4 == 0 && a < end
      ensures a + 4 <= end
    {
    }

    method SwitchCases(f: nat) returns (cases: seq<nat>)
      requires Shaped() && Answers(f) && f in m.funcs
      ensures cases == Cases(m, f, m.funcs[f].end, m.funcs[f].start)
    {
      cases := [];
      hide Shaped, Answers, Lab, Thunk;
      var a: int, end: int := m.funcs[f].start, m.funcs[f].end;
      while a < end
        invariant 0 <= a
        invariant cases + Cases(m, f, end, a) == Cases(m, f, end, m.funcs[f].start)
      {
        if m.Owned(a, f) {
          Read(f, a);
          if isLabel[Index(a)] && !isSlot[Index(a)] {
            assert cases + ([a] + Cases(m, f, end, a + 4)) == (cases + [a]) + Cases(m, f, end, a + 4);
            cases := cases + [a];
          }
        }
        a := a + 4;
      }
    }

    /** The lines for an owned word that is not a slot. */
    method EmitConstruct(f: nat, a: nat) returns (lines: seq<Stmt>)
      requires Shaped() && Answers(f) && f in m.funcs && m.Owned(a, f) && !IsSlot(m, a)
      ensures forall last :: (EmitFrom(m, f, m.funcs[f].end, a, last) ==
                              lines + EmitFrom(m, f, m.funcs[f].end, Next(m, f, a), m.At(a).Terminal()))
    {
      Read(f, a);
      var slotLab, resumeLab := false, false;
      if m.Owned(a + 4, f) {
        Read(f, a + 4);
        slotLab := isLabel[Index(a + 4)];
      }
      if m.Owned(a + 8, f) {
        Read(f, a + 8);
        resumeLab := isLabel[Index(a + 8)];
      }
      var body := Lines(m, f, a, slotLab, resumeLab);
      lines := if isLabel[Index(a)] then [Stmt.Label(a)] + body else body;
      ConstructIs(f, a, slotLab, resumeLab);
    }

    lemma ConstructIs(f: nat, a: nat, slotLab: bool, resumeLab: bool)
      requires Shaped() && f in m.funcs && m.Owned(a, f) && !IsSlot(m, a)
      requires m.Owned(a + 4, f) ==> (slotLab <==> Lab(m, a + 4))
      requires m.Owned(a + 8, f) ==> (resumeLab <==> Lab(m, a + 8))
      ensures
        var body := Lines(m, f, a, slotLab, resumeLab);
        forall last :: (EmitFrom(m, f, m.funcs[f].end, a, last) ==
                        (if Lab(m, a) then [Stmt.Label(a)] + body else body) +
                        EmitFrom(m, f, m.funcs[f].end, Next(m, f, a), m.At(a).Terminal()))
    {
      BeforeEnd(f, a);
      var k := EmitFrom(m, f, m.funcs[f].end, Next(m, f, a), m.At(a).Terminal());
      LinesThen(m, f, a, slotLab, resumeLab, k);
      SameLines(m, f, a, slotLab, Lab(m, a + 4), resumeLab, Lab(m, a + 8), k);
      Appends(Stmt.Label(a), Lines(m, f, a, slotLab, resumeLab), k);
    }

    /** The fall-through past the body's last word. */
    method EmitEnd(f: nat, last: bool) returns (lines: seq<Stmt>)
      requires Shaped() && Sound() && AllComplete() && f in m.funcs
      ensures lines == AtEnd(m, m.funcs[f].end, last)
    {
      var next := m.funcs[f].end;
      lines := [];
      if !last {
        InOrder(next);
        var entry := IsFunction(order, next);
        if entry {
          lines := [CallFunc(next)];
        } else if next in m.owner {
          Read(m.owner[next], next);
          if !isSlot[Index(next)] && isLabel[Index(next)] {
            lines := [CallAt(next)];
          }
        }
      }
    }

    lemma InOrder(a: nat)
      requires Shaped()
      ensures a in order <==> a in m.funcs
    {
    }

    /** The walk over the body: each owned word once, gaps left by an explicit transfer, slots with their branch. */
    method EmitWalk(f: nat) returns (out: seq<Stmt>)
      requires Shaped() && Sound() && AllComplete() && Answers(f) && f in m.funcs
      ensures out == Walked(m, f)
    {
      var end: int := m.funcs[f].end;
      Bounds(f);
      hide Shaped, Sound, AllComplete, Answers, EmitFrom;
      var a: int := m.funcs[f].start;
      var last := false;
      out := [];
      while a < end
        invariant 0 <= a
        invariant out + EmitFrom(m, f, end, a, last) == Walked(m, f)
        decreases end - a
      {
        var lines, next, terminal := EmitWord(f, a, last);
        GluedTo(out, lines, EmitFrom(m, f, end, next, terminal));
        out, a, last := out + lines, next, terminal;
      }
      EndLines(f, a, last);
      var tail := EmitEnd(f, last);
      out := out + tail;
    }

    lemma EndLines(f: nat, a: nat, last: bool)
      requires f in m.funcs && a >= m.funcs[f].end
      ensures EmitFrom(m, f, m.funcs[f].end, a, last) == AtEnd(m, m.funcs[f].end, last)
    {
      hide AtEnd;
    }

    /** One turn of the walk: a gap, a slot that its transfer has emitted already, or a construct. */
    method EmitWord(f: nat, a: nat, last: bool) returns (lines: seq<Stmt>, next: nat, terminal: bool)
      requires Shaped() && Sound() && AllComplete() && Answers(f) && f in m.funcs && a < m.funcs[f].end
      ensures next > a
      ensures EmitFrom(m, f, m.funcs[f].end, a, last) == lines + EmitFrom(m, f, m.funcs[f].end, next, terminal)
    {
      hide Shaped, Sound, AllComplete, Answers, Lab, IsSlot, StaticCall, Next, AtEnd;
      lines, next, terminal := [], a + 4, last;
      if !m.Owned(a, f) {
        if !last {
          GapLines(f, a);
          lines, terminal := [StaticCall(m, a), Return], true;
        }
      } else {
        Read(f, a);
        if !isSlot[Index(a)] {
          NextGrows(f, a);
          lines := EmitConstruct(f, a);
          next, terminal := Next(m, f, a), m.At(a).Terminal();
        }
      }
    }

    lemma NextGrows(f: nat, a: nat)
      ensures Next(m, f, a) > a
    {
    }

    lemma GapLines(f: nat, a: nat)
      requires f in m.funcs && !m.Owned(a, f) && a < m.funcs[f].end
      ensures EmitFrom(m, f, m.funcs[f].end, a, false) ==
              [StaticCall(m, a), Return] + EmitFrom(m, f, m.funcs[f].end, a + 4, true)
    {
    }

    lemma GluedTo(out: seq<Stmt>, lines: seq<Stmt>, k: seq<Stmt>)
      ensures out + (lines + k) == (out + lines) + k
    {
    }

    /** emit_function: the body's text, the thunks it defines, and its entry labelled. */
    method EmitFunction(f: nat) returns (body: seq<Stmt>, thunks: seq<nat>)
      requires Whole() && f in m.funcs && f !in emitted
      modifies isLabel, isSlot, `emitted
      ensures Whole() && Grown() && emitted == old(emitted) + {f}
      ensures body == Body(m, f)
      ensures thunks == ThunkList(m, f, m.funcs[f].end, m.funcs[f].start)
    {
      hide Shaped, Sound, Complete, Answers, Walked, Cases, ThunkList, Lab, IsSlot;
      MarkLabels(f);
      label Marked:
      EntryOwned(f);
      StartEmitting(f);
      Label(f);
      forall g | g in m.funcs
        ensures Complete(g)
      {
        CompleteKept(g);
      }
      AnswersOnceLabelled(f);
      var needsSwitch := HasSwitch(f);
      body := EmitWalk(f);
      if needsSwitch {
        var cases := SwitchCases(f);
        body := [Switch(cases)] + body;
      }
      thunks := ThunksOf(f);
    }

    ghost method StartEmitting(f: nat)
      requires Shaped() && Sound() && f in m.funcs
      modifies `emitted
      ensures Sound() && emitted == old(emitted) + {f}
    {
      emitted := emitted + {f};
    }

    /** emit_header's thunk declarations, before any body is emitted. */
    method DeclareModule() returns (declared: seq<nat>)
      requires Whole()
      ensures (forall j :: 0 <= j < |order| ==> order[j] in m.funcs) && declared == AllThunks(m, order, 0)
    {
      Ordered();
      hide Sound, AllComplete, ThunkList;
      declared := [];
      var i := 0;
      while i < |order|
        invariant 0 <= i <= |order|
        invariant declared + AllThunks(m, order, i) == AllThunks(m, order, 0)
      {
        var thunks := ThunksOf(order[i]);
        GluedAddrs(declared, thunks, AllThunks(m, order, i + 1));
        declared := declared + thunks;
        i := i + 1;
      }
    }

    lemma Ordered()
      requires Shaped()
      ensures forall j :: 0 <= j < |order| ==> order[j] in m.funcs
    {
      forall j | 0 <= j < |order|
        ensures order[j] in m.funcs
      {
        InOrder(order[j]);
      }
    }

    lemma GluedAddrs(out: seq<nat>, lines: seq<nat>, k: seq<nat>)
      ensures out + (lines + k) == (out + lines) + k
    {
    }

    lemma ThunksStep(i: nat, before: seq<nat>, thunks: seq<nat>)
      requires i < |order| && forall j :: 0 <= j < |order| ==> order[j] in m.funcs
      requires thunks == ThunkList(m, order[i], m.funcs[order[i]].end, m.funcs[order[i]].start)
      ensures before + AllThunks(m, order, i) == (before + thunks) + AllThunks(m, order, i + 1)
    {
      GluedAddrs(before, thunks, AllThunks(m, order, i + 1));
    }

    lemma ThunksEnd(before: seq<nat>)
      requires forall j :: 0 <= j < |order| ==> order[j] in m.funcs
      ensures before + AllThunks(m, order, |order|) == before
    {
    }

    /** The first n functions' bodies, in order. */
    ghost predicate BodiesAre(bodies: seq<seq<Stmt>>, n: nat)
    {
      |bodies| == n <= |order|
      && forall j: nat :: j < n ==> order[j] in m.funcs && bodies[j] == Body(m, order[j])
    }

    lemma MoreBodies(bodies: seq<seq<Stmt>>, n: nat)
      requires BodiesAre(bodies, n) && n < |order| && order[n] in m.funcs
      ensures BodiesAre(bodies + [Body(m, order[n])], n + 1)
    {
      hide Body;
    }

    lemma NoBodies()
      ensures BodiesAre([], 0)
    {
    }

    /** The loop over the units: every body, and the interior entries in the order their thunks were written. */
    method EmitBodies() returns (bodies: seq<seq<Stmt>>, entries: seq<nat>)
      requires Whole() && emitted == {} && forall j :: 0 <= j < |order| ==> order[j] in m.funcs
      modifies isLabel, isSlot, `emitted
      ensures BodiesAre(bodies, |order|) && entries == AllThunks(m, order, 0)
    {
      hide *;
      bodies, entries := [], [];
      var i := 0;
      NoBodies();
      NoneWritten();
      while i < |order|
        invariant 0 <= i <= |order| && Whole() && BodiesAre(bodies, i) && emitted == Written(i)
        invariant entries + AllThunks(m, order, i) == AllThunks(m, order, 0)
      {
        NotYet(i);
        var body, thunks := EmitFunction(order[i]);
        ThunksStep(i, entries, thunks);
        MoreBodies(bodies, i);
        bodies := bodies + [body];
        entries := entries + thunks;
        i := i + 1;
      }
      ThunksEnd(entries);
    }

    ghost function Written(n: nat): set<nat>
      requires n <= |order|
    {
      set j | 0 <= j < n :: order[j]
    }

    /** No function is emitted twice. */
    lemma NotYet(i: nat)
      requires Whole() && i < |order|
      ensures order[i] !in Written(i) && Written(i + 1) == Written(i) + {order[i]}
    {
      Orderly();
    }

    lemma NoneWritten()
      ensures Written(0) == {}
    {
    }

    /** a_emit: the map first, then the header, then the bodies; what the header declares is what the bodies
        define and what gets registered, for any order in which the functions were found. */
    method Emit() returns (bodies: seq<seq<Stmt>>, declared: seq<nat>, registered: seq<nat>)
      requires Shaped() && Sound() && emitted == {}
      modifies isLabel, isSlot, `emitted
      ensures |bodies| == |order| && forall j: nat :: j < |order| ==>
              order[j] in m.funcs && bodies[j] == Body(m, order[j])
      ensures (forall j :: 0 <= j < |order| ==> order[j] in m.funcs) && declared == registered == AllThunks(m, order, 0)
    {
      Ordered();
      hide Body, AllThunks, Whole, Shaped, Sound;
      MarkModule();
      declared := DeclareModule();
      bodies, registered := EmitBodies();
    }
  }

  /** Labels of words another body owns make no difference to a construct's lines. */
  lemma SameLines(m: Module, f: nat, a: nat, s: bool, s': bool, r: bool, r': bool, k: seq<Stmt>)
    requires m.Owned(a + 4, f) ==> (s <==> s')
    requires m.Owned(a + 8, f) ==> (r <==> r')
    ensures Head(m, f, a, r, Alias(m, f, a, s, k)) == Head(m, f, a, r', Alias(m, f, a, s', k))
  {
  }
}

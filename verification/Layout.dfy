/** Where things are in an emitted body, and the side conditions under which emission is faithful. */
module Layout {
  import opened Allegrex
  import opened Emitter
  import opened Recompiled

  // ---- side conditions under which the emitter is faithful

  /** Linking after the instruction is linking before it: it neither reads nor writes the link register, as far as
      this return address shows. */
  ghost predicate Ignores(isa: Isa, raw: nat, reg: RegIndex, v: nat)
  {
    forall c: Cpu :: isa.exec(raw, SetReg(c, reg, v)) == SetReg(isa.exec(raw, c), reg, v)
  }

  /** The instruction leaves the return address in $ra. */
  ghost predicate Keeps(isa: Isa, raw: nat, v: nat)
  {
    forall c: Cpu :: isa.exec(raw, SetReg(c, RA, v)).r[RA] == v
  }

  /** What discovery hands over: words have decoded instructions, lie inside their owner's range and outside
      the import stubs, and every function owns its own entry. */
  ghost predicate Laid(m: Module)
  {
    && m.owner.Keys <= m.code.Keys
    && (forall a <- m.owner ::
          && m.owner[a] in m.funcs && a % 4 == 0 && !m.Import(a)
          && m.funcs[m.owner[a]].start <= a < m.funcs[m.owner[a]].end)
    && (forall f <- m.funcs :: m.Owned(f, f) && m.funcs[f].start % 4 == 0 && m.funcs[f].end % 4 == 0)
  }

  /** No transfer sits in a delay slot, and slots are part of the image. */
  ghost predicate PlainSlots(m: Module)
  {
    forall a {:trigger a in m.owner} :: a in m.owner && m.At(a).HasDelaySlot() ==>
      a + 4 in m.code && m.At(a + 4).Plain? && !m.Import(a + 4)
  }

  /** A fall-through past a body's last word is emitted only into an entry or a non-slot label. */
  ghost predicate EndLands(m: Module, end: nat)
  {
    end in m.funcs || (end in m.owner && !IsSlot(m, end) && Lab(m, end))
  }

  ghost predicate InsnOk(isa: Isa, m: Module, a: nat)
    requires a in m.owner && m.owner[a] in m.funcs
  {
    var f, insn, slot := m.owner[a], m.At(a), m.At(a + 4);
    && (insn.Branch? ==>
          && !insn.cond.VfpuTrue? && !insn.cond.VfpuFalse?
          && (insn.likely ==> m.Owned(a + 4, f))
          && (insn.linking && m.Owned(insn.target, f) ==> !IsSlot(m, insn.target))
          && (insn.linking && m.Import(insn.target) && slot.Plain? ==> Keeps(isa, slot.raw, a + 8)))
    && (insn.Jal? && insn.target != a + 8 ==> m.Owned(a + 4, f))
    && (insn.Jal? && m.Owned(a + 4, f) && slot.Plain? ==> Ignores(isa, slot.raw, RA, a + 8))
    && (insn.Jalr? ==> m.Owned(a + 4, f) && m.Owned(a + 8, f) && insn.rd != 0 &&
                       (slot.Plain? ==> Ignores(isa, slot.raw, insn.rd, a + 8)))
    && (insn.HasDelaySlot() && m.Owned(a + 4, f) && Lab(m, a + 4) ==> m.Owned(a + 8, f))
    && (insn.FallsThrough() && !IsSlot(m, a) && Next(m, f, a) == m.funcs[f].end ==> EndLands(m, m.funcs[f].end))
  }

  ghost predicate WellFormed(isa: Isa, m: Module)
  {
    && Laid(m) && PlainSlots(m)
    && (forall a {:trigger InsnOk(isa, m, a)} :: a in m.owner ==> InsnOk(isa, m, a))
    && (forall f <- m.funcs :: !IsSlot(m, f))
  }

  /** A 32-bit register read as a signed number. */
  function Signed(v: nat): int { if v < 0x8000_0000 then v else v - 0x1_0000_0000 }

  /** What a condition asks, in numbers: equality, the sign of the register, the FPU's flag. Opposite branches are never
      both taken, and one of them is. */
  lemma ConditionMeans(s: RegIndex, t: RegIndex, c: Cpu)
    requires c.r[s] < 0x1_0000_0000 && c.r[t] < 0x1_0000_0000
    ensures EmittedHolds(Eq(s, t), c) <==> c.r[s] == c.r[t]
    ensures EmittedHolds(Ne(s, t), c) <==> c.r[s] != c.r[t]
    ensures EmittedHolds(Lez(s), c) <==> Signed(c.r[s]) <= 0
    ensures EmittedHolds(Gtz(s), c) <==> Signed(c.r[s]) > 0
    ensures EmittedHolds(Ltz(s), c) <==> Signed(c.r[s]) < 0
    ensures EmittedHolds(Gez(s), c) <==> Signed(c.r[s]) >= 0
    ensures EmittedHolds(FpuTrue, c) <==> c.fpuCond
    ensures EmittedHolds(FpuFalse, c) <==> !c.fpuCond
    ensures Holds(VfpuTrue, c) == c.vfpuCond && Holds(VfpuFalse, c) == !c.vfpuCond
  {
  }

  /** A jal, and a linking branch taken or not, leave the address after their slot in register 31. */
  lemma LinksReturn(c: Cpu, cond: Cond, t: nat, likely: bool, pc: nat)
    ensures Linked(c, Jal(t), pc).r[31] == pc + 8 && Linked(c, Branch(cond, t, likely, true), pc).r[31] == pc + 8
    ensures Linked(c, Branch(cond, t, likely, false), pc) == Linked(c, J(t), pc) == c
  {
  }

  /** A write changes its register and nothing else; register 0 keeps its 0. */
  lemma SetRegWrites(c: Cpu, rd: RegIndex, v: nat)
    ensures var c' := SetReg(c, rd, v);
      && c' == c.(r := c'.r) && c'.r[rd] == (if rd == 0 then 0 else v)
      && forall i: RegIndex :: i != rd ==> c'.r[i] == c.r[i]
  {
  }

  /** A branch's emitted condition is the machine's on every state, unless it tests the VFPU; then it is never taken. */
  lemma ConditionFaithful(cond: Cond)
    ensures (forall c: Cpu :: EmittedHolds(cond, c) == Holds(cond, c)) <==> !cond.VfpuTrue? && !cond.VfpuFalse?
  {
    var zero: Cpu := CpuState(seq(32, _ => 0), map[], false, false, []);
    var on: Cpu := zero.(vfpuCond := true);
    assert cond.VfpuTrue? ==> EmittedHolds(cond, on) != Holds(cond, on);
    assert cond.VfpuFalse? ==> EmittedHolds(cond, zero) != Holds(cond, zero);
  }

  // ---- where a label is in a body

  ghost function Code(m: Module, f: nat, a: nat): seq<Stmt>
    requires f in m.funcs
  {
    EmitFrom(m, f, m.funcs[f].end, a, false)
  }

  /** The lines a jump to the owned label `a` continues with: its construct, or its standalone slot copy. */
  ghost function Spot(m: Module, f: nat, a: nat): seq<Stmt>
    requires f in m.funcs
  {
    if IsSlot(m, a) then [Label(a)] + ([SlotStmt(m, a - 4)] + Code(m, f, a + 4)) else Code(m, f, a)
  }

  lemma Skip(s: Stmt, k: seq<Stmt>, l: nat)
    requires s != Label(l)
    ensures After([s] + k, l) == After(k, l)
  {
  }

  lemma SkipSlot(m: Module, a: nat, emit: bool, k: seq<Stmt>, l: nat)
    ensures After(SlotIf(m, a, emit, k), l) == After(k, l)
  {
    if emit { Skip(SlotStmt(m, a), k, l); }
  }

  lemma CallHasNoLabel(callee: Stmt, ret: nat, k: seq<Stmt>, l: nat)
    requires !callee.Label?
    ensures After(Call(callee, ret, k), l) == After(k, l)
  {
    Skip(CallEnd(ret), k, l);
    Skip(callee, [CallEnd(ret)] + k, l);
    Skip(CallBegin(ret), [callee] + ([CallEnd(ret)] + k), l);
  }

  lemma BranchesHaveNoLabel(m: Module, f: nat, a: nat, b: bool, k: seq<Stmt>, l: nat)
    requires m.At(a).Branch?
    ensures After(LinkingHead(m, f, a, b, k), l) == After(BranchHead(m, f, a, k), l) == After(k, l)
  {
    var have, taken, insn := HaveSlot(m, f, a), TakenSlot(m, f, a), m.At(a);
    var callThn := IfC(LinkingThen(m, f, a, taken || (have && insn.likely), b));
    Skip(callThn, k, l);
    SkipSlot(m, a, have && !insn.likely, [callThn] + k, l);
    var linked := SlotIf(m, a, have && !insn.likely, [callThn] + k);
    Skip(Link(RA, a + 8), linked, l);
    Skip(CapCond(insn.cond), [Link(RA, a + 8)] + linked, l);
    Skip(IfCond(insn.cond, SlotIf(m, a, have || taken, Transfer(m, f, insn.target))), k, l);
    var thn := IfC(SlotIf(m, a, taken, Transfer(m, f, insn.target)));
    Skip(thn, k, l);
    SkipSlot(m, a, have, [thn] + k, l);
    Skip(CapCond(insn.cond), SlotIf(m, a, have, [thn] + k), l);
  }

  lemma CallsHaveNoLabel(m: Module, f: nat, a: nat, k: seq<Stmt>, l: nat)
    requires m.At(a).Jal? || m.At(a).Jalr?
    ensures m.At(a).Jal? ==> After(JalHead(m, f, a, k), l) == After(k, l)
    ensures m.At(a).Jalr? ==> After(JalrHead(m, f, a, k), l) == After(k, l)
  {
    var have := HaveSlot(m, f, a);
    if m.At(a).Jal? {
      var callee := StaticCall(m, m.At(a).target);
      CallHasNoLabel(callee, a + 8, k, l);
      var go := if m.At(a).IsGetPc(a) then k else Call(callee, a + 8, k);
      Skip(Link(RA, a + 8), go, l);
      SkipSlot(m, a, have, [Link(RA, a + 8)] + go, l);
    } else {
      var rd := m.At(a).rd;
      CallHasNoLabel(DispatchT, a + 8, k, l);
      CallHasNoLabel(DispatchT, 0, k, l);
      Skip(Link(rd, a + 8), Call(DispatchT, a + 8, k), l);
      var go := if rd != 0 then [Link(rd, a + 8)] + Call(DispatchT, a + 8, k) else Call(DispatchT, 0, k);
      SkipSlot(m, a, have, go, l);
      Skip(CapReg(m.At(a).rs), SlotIf(m, a, have, go), l);
    }
  }

  lemma JumpsHaveNoLabel(m: Module, f: nat, a: nat, k: seq<Stmt>, l: nat)
    requires m.At(a).J? || m.At(a).Jr?
    ensures m.At(a).J? ==> After(JHead(m, f, a, k), l) == After(k, l)
    ensures m.At(a).Jr? ==> After(JrHead(m, f, a, k), l) == After(k, l)
  {
    var emit := HaveSlot(m, f, a) || TakenSlot(m, f, a);
    Skip(Return, k, l);
    var ret := [Return] + k;
    if m.At(a).J? {
      var t := m.At(a).target;
      Skip(StaticCall(m, t), ret, l);
      Skip(Goto(t), k, l);
      SkipSlot(m, a, emit, if m.Owned(t, f) && t !in m.funcs then [Goto(t)] + k else [StaticCall(m, t)] + ret, l);
    } else {
      Skip(IfRaIsJump([DispatchT] + [Return]), ret, l);
      Skip(DispatchT, ret, l);
      var go := if m.At(a).rs == RA then [IfRaIsJump([DispatchT] + [Return])] + ret else [DispatchT] + ret;
      SkipSlot(m, a, emit, go, l);
      Skip(CapReg(m.At(a).rs), SlotIf(m, a, emit, go), l);
    }
  }

  lemma HeadHasNoLabel(m: Module, f: nat, a: nat, b: bool, k: seq<Stmt>, l: nat)
    ensures After(Head(m, f, a, b, k), l) == After(k, l)
  {
    match m.At(a)
    case Plain(raw) => Skip(Do(raw), k, l);
    case Branch(_, _, _, _) => BranchesHaveNoLabel(m, f, a, b, k, l);
    case Jal(_) => CallsHaveNoLabel(m, f, a, k, l);
    case Jalr(_, _) => CallsHaveNoLabel(m, f, a, k, l);
    case Jr(_) => JumpsHaveNoLabel(m, f, a, k, l);
    case J(_) => JumpsHaveNoLabel(m, f, a, k, l);
  }

  /** A standalone slot copy is found by its own label only. */
  lemma AliasFound(m: Module, f: nat, a: nat, b: bool, k: seq<Stmt>, l: nat)
    ensures After(Alias(m, f, a, b, k), l) ==
            if HaveSlot(m, f, a) && b && l == a + 4 then [Label(l)] + ([SlotStmt(m, a)] + k) else After(k, l)
  {
    if HaveSlot(m, f, a) && b {
      var copy := [Label(a + 4)] + ([SlotStmt(m, a)] + k);
      Skip(Goto(a + 8), copy, l);
      Skip(Return, copy, l);
      if l != a + 4 {
        Skip(SlotStmt(m, a), k, l);
        Skip(Label(a + 4), [SlotStmt(m, a)] + k, l);
      }
    }
  }

  /** Two slots never follow each other, so what follows a construct is not a slot. */
  lemma NextIsNoSlot(m: Module, f: nat, a: nat)
    requires Laid(m) && PlainSlots(m) && m.Owned(a, f)
    requires m.Owned(Next(m, f, a), f) && (m.At(a).FallsThrough() || HaveSlot(m, f, a))
    ensures !IsSlot(m, Next(m, f, a))
  {
  }

  ghost function Following(m: Module, f: nat, a: nat): seq<Stmt>
    requires f in m.funcs
  {
    EmitFrom(m, f, m.funcs[f].end, Next(m, f, a), m.At(a).Terminal())
  }

  /** Searching from a construct either finds its own label, or its slot copy, or goes on. */
  lemma ConstructFound(m: Module, f: nat, a: nat, terminal: bool, l: nat)
    requires f in m.funcs && m.Owned(a, f) && !IsSlot(m, a) && a < m.funcs[f].end
    ensures After(EmitFrom(m, f, m.funcs[f].end, a, terminal), l) ==
            if l == a && Lab(m, a) then Code(m, f, a)
            else if HaveSlot(m, f, a) && Lab(m, a + 4) && l == a + 4
              then [Label(l)] + ([SlotStmt(m, a)] + Following(m, f, a))
            else After(Following(m, f, a), l)
  {
    var k := Alias(m, f, a, Lab(m, a + 4), Following(m, f, a));
    AliasFound(m, f, a, Lab(m, a + 4), Following(m, f, a), l);
    HeadHasNoLabel(m, f, a, Lab(m, a + 8), k, l);
    if l != a && Lab(m, a) {
      Skip(Label(a), Head(m, f, a, Lab(m, a + 8), k), l);
    }
  }

  lemma GapFound(m: Module, f: nat, a: nat, terminal: bool, l: nat)
    requires f in m.funcs && !m.Owned(a, f) && a < m.funcs[f].end
    ensures After(EmitFrom(m, f, m.funcs[f].end, a, terminal), l) ==
            After(EmitFrom(m, f, m.funcs[f].end, a + 4, true), l)
  {
    var k := EmitFrom(m, f, m.funcs[f].end, a + 4, true);
    Skip(Return, k, l);
    Skip(StaticCall(m, a), [Return] + k, l);
  }

  lemma NotSkipped(m: Module, f: nat, a: nat, p: nat)
    requires Laid(m) && m.Owned(p, f) && !IsSlot(m, p) && m.Owned(a, f) && a < p
    ensures Next(m, f, a) <= p && Next(m, f, a) % 4 == 0
  {
  }

  lemma PastConstruct(m: Module, f: nat, a: nat, terminal: bool, p: nat, l: nat)
    requires Laid(m) && f in m.funcs && m.Owned(p, f) && !IsSlot(m, p)
    requires l == p || (l == p + 4 && HaveSlot(m, f, p))
    requires m.Owned(a, f) && !IsSlot(m, a) && a < p
    ensures After(EmitFrom(m, f, m.funcs[f].end, a, terminal), l) == After(Following(m, f, a), l)
  {
    ConstructFound(m, f, a, terminal, l);
  }

  /** One step of the walk from a towards p, for a search that p's construct ends. */
  lemma WalkStep(m: Module, f: nat, a: nat, terminal: bool, p: nat, l: nat) returns (next: nat, last: bool)
    requires Laid(m) && PlainSlots(m)
    requires m.Owned(p, f) && !IsSlot(m, p) && f in m.funcs
    requires l == p || (l == p + 4 && HaveSlot(m, f, p))
    requires a % 4 == 0 && m.funcs[f].start <= a < p
    ensures a < next <= p && next % 4 == 0
    ensures After(EmitFrom(m, f, m.funcs[f].end, a, terminal), l) ==
            After(EmitFrom(m, f, m.funcs[f].end, next, last), l)
  {
    hide Laid, PlainSlots, EmitFrom, After, Next, Lab, IsSlot, HaveSlot;
    OwnedInside(m, f, p);
    if !m.Owned(a, f) {
      GapFound(m, f, a, terminal, l);
      next, last := a + 4, true;
    } else if IsSlot(m, a) {
      SlotSkipped(m, f, a, terminal);
      next, last := a + 4, terminal;
    } else {
      PastConstruct(m, f, a, terminal, p, l);
      NotSkipped(m, f, a, p);
      next, last := Next(m, f, a), m.At(a).Terminal();
      NextIsLater(m, f, a);
    }
  }

  lemma OwnedInside(m: Module, f: nat, p: nat)
    requires Laid(m) && m.Owned(p, f) && f in m.funcs
    ensures p % 4 == 0 && p < m.funcs[f].end
  {
  }

  lemma SlotSkipped(m: Module, f: nat, a: nat, terminal: bool)
    requires f in m.funcs && m.Owned(a, f) && IsSlot(m, a) && a < m.funcs[f].end
    ensures EmitFrom(m, f, m.funcs[f].end, a, terminal) == EmitFrom(m, f, m.funcs[f].end, a + 4, terminal)
  {
    hide IsSlot, Lab, Alias, Head, StaticCall, Next;
  }

  lemma NextIsLater(m: Module, f: nat, a: nat)
    ensures Next(m, f, a) > a
  {
  }

  lemma {:induction false} Walk(m: Module, f: nat, a: nat, terminal: bool, p: nat, l: nat)
    requires Laid(m) && PlainSlots(m)
    requires m.Owned(p, f) && !IsSlot(m, p) && f in m.funcs
    requires l == p || (l == p + 4 && HaveSlot(m, f, p))
    requires a % 4 == 0 && m.funcs[f].start <= a <= p
    ensures After(EmitFrom(m, f, m.funcs[f].end, a, terminal), l) == After(Code(m, f, p), l)
    decreases p - a
  {
    if a == p {
      assert EmitFrom(m, f, m.funcs[f].end, a, terminal) == Code(m, f, p);
    } else {
      var next, last := WalkStep(m, f, a, terminal, p, l);
      Walk(m, f, next, last, p, l);
    }
  }

  // ---- a place in a body has one address

  /** A construct's first line is neither a label nor a transfer. */
  predicate Opens(s: Stmt)
  {
    s.Do? || s.CapCond? || s.CapReg? || s.IfCond? || s.Link?
  }

  lemma HeadOpens(m: Module, f: nat, a: nat, b: bool, k: seq<Stmt>)
    requires Laid(m) && PlainSlots(m) && m.Owned(a, f)
    ensures Head(m, f, a, b, k) != [] && Opens(Head(m, f, a, b, k)[0])
  {
  }

  /** Emission never gets longer on the way to p, and each construct adds a line. */
  lemma {:induction false} Shrinks(m: Module, f: nat, a: nat, terminal: bool, p: nat)
    requires Laid(m) && PlainSlots(m) && f in m.funcs && m.Owned(p, f) && !IsSlot(m, p)
    requires a % 4 == 0 && a <= p
    ensures |EmitFrom(m, f, m.funcs[f].end, a, terminal)| >= |Code(m, f, p)|
    ensures a < p && m.Owned(a, f) && !IsSlot(m, a) ==> |EmitFrom(m, f, m.funcs[f].end, a, terminal)| > |Code(m, f, p)|
    decreases p - a
  {
    hide Laid, PlainSlots, Head, Alias, Lab, IsSlot, Next;
    OwnedInside(m, f, p);
    if a == p {
      assert EmitFrom(m, f, m.funcs[f].end, a, terminal) == Code(m, f, p);
    } else if !m.Owned(a, f) {
      Shrinks(m, f, a + 4, true, p);
    } else if IsSlot(m, a) {
      SlotSkipped(m, f, a, terminal);
      Shrinks(m, f, a + 4, terminal, p);
    } else {
      NotSkipped(m, f, a, p);
      NextIsLater(m, f, a);
      Shrinks(m, f, Next(m, f, a), m.At(a).Terminal(), p);
      HeadGrows(m, f, a, Lab(m, a + 8), Alias(m, f, a, Lab(m, a + 4), Following(m, f, a)));
      AliasGrows(m, f, a, Lab(m, a + 4), Following(m, f, a));
    }
  }

  lemma HeadGrows(m: Module, f: nat, a: nat, b: bool, k: seq<Stmt>)
    ensures |Head(m, f, a, b, k)| > |k|
  {
  }

  lemma AliasGrows(m: Module, f: nat, a: nat, b: bool, k: seq<Stmt>)
    ensures |Alias(m, f, a, b, k)| >= |k|
  {
  }

  lemma CodeOpens(m: Module, f: nat, a: nat)
    requires Laid(m) && PlainSlots(m) && f in m.funcs && m.Owned(a, f) && !IsSlot(m, a)
    ensures Code(m, f, a) != []
    ensures if Lab(m, a) then Code(m, f, a)[0] == Label(a) else Opens(Code(m, f, a)[0])
  {
    OwnedInside(m, f, a);
    HeadOpens(m, f, a, Lab(m, a + 8), Alias(m, f, a, Lab(m, a + 4), Following(m, f, a)));
    hide Laid, PlainSlots, Head, Alias, Lab, IsSlot, Next;
  }

  /** Two constructs of a body are never emitted to the same lines up to the end. */
  lemma CodeIsOnce(m: Module, f: nat, a: nat, b: nat)
    requires Laid(m) && PlainSlots(m) && f in m.funcs
    requires m.Owned(a, f) && !IsSlot(m, a) && m.Owned(b, f) && !IsSlot(m, b) && Code(m, f, a) == Code(m, f, b)
    ensures a == b
  {
    OwnedInside(m, f, a);
    OwnedInside(m, f, b);
    if a < b { Shrinks(m, f, a, false, b); }
    if b < a { Shrinks(m, f, b, false, a); }
  }

  lemma LandPlain(m: Module, f: nat, l: nat)
    requires Laid(m) && PlainSlots(m) && f in m.funcs
    requires m.Owned(l, f) && Lab(m, l) && !IsSlot(m, l)
    ensures After(Walked(m, f), l) == Code(m, f, l)
  {
    Walk(m, f, m.funcs[f].start, false, l, l);
    ConstructFound(m, f, l, false, l);
  }

  lemma LandSlot(isa: Isa, m: Module, f: nat, l: nat)
    requires WellFormed(isa, m) && f in m.funcs
    requires m.Owned(l, f) && Lab(m, l) && IsSlot(m, l)
    ensures After(Walked(m, f), l) == Spot(m, f, l)
  {
    var p := l - 4;
    assert InsnOk(isa, m, p);
    NextIsNoSlot(m, f, p);
    SlotFound(m, f, p);
    assert Following(m, f, p) == Code(m, f, l + 4);
  }

  lemma SlotFound(m: Module, f: nat, p: nat)
    requires Laid(m) && PlainSlots(m) && f in m.funcs
    requires m.Owned(p, f) && HaveSlot(m, f, p) && Lab(m, p + 4)
    ensures After(Walked(m, f), p + 4) == [Label(p + 4)] + ([SlotStmt(m, p)] + Following(m, f, p))
  {
    Walk(m, f, m.funcs[f].start, false, p, p + 4);
    ConstructFound(m, f, p, false, p + 4);
  }

  /** A jump to an owned label finds exactly that label's lines. */
  lemma Land(isa: Isa, m: Module, f: nat, l: nat)
    requires WellFormed(isa, m) && f in m.funcs
    requires m.Owned(l, f) && Lab(m, l)
    ensures After(Body(m, f), l) == Spot(m, f, l)
  {
    if NeedsSwitch(m, f) {
      Skip(Switch(Cases(m, f, m.funcs[f].end, m.funcs[f].start)), Walked(m, f), l);
    }
    if IsSlot(m, l) {
      LandSlot(isa, m, f, l);
    } else {
      LandPlain(m, f, l);
    }
  }
}

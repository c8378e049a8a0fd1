/** What happens where a side condition of the emitter does not hold. */
module Necessity {
  import opened Allegrex
  import opened Emitter
  import opened Recompiled
  import opened Layout
  import opened Simulation
  import opened Constructs

  // ---- jalr with rd 0

  /** The call of a jalr that links nothing: the callee is entered under a frame whose return site is 0. */
  lemma ZeroLinkCalls(isa: Isa, m: Module, h: Config, f: nat, a: nat, k: seq<Stmt>) returns (n: nat, h': Config)
    requires m.At(a).Jalr? && m.At(a).rd == 0 && HaveSlot(m, f, a) && m.At(a + 4).Plain?
    requires h.top.rest == JalrHead(m, f, a, k) && h.cpu.r[m.At(a).rs] in m.funcs
    ensures
      var t := h.cpu.r[m.At(a).rs];
      var waiting := h.top.(rest := [CallEnd(0)] + k, t := t, prev := h.frames);
      && HRun(isa, m, Running(h), n) == Running(h')
      && h' == h.(top := Act(t, Body(m, t), false, 0, [], t), stack := [waiting] + h.stack, frames := [0] + h.frames,
                  cpu := SlotCpu(isa, m, a, h.cpu))
  {
    hide HRun, HStep, CStep, Body;
    var rs := m.At(a).rs;
    var t, call := h.cpu.r[rs], Call(DispatchT, 0, k);
    var n1 := JrLines(isa, m, h, a, rs, call);
    var h1 := With(h.(top := h.top.(t := t)), call, SlotCpu(isa, m, a, h.cpu));
    h' := PushSteps(isa, m, h1, 0, k);
    HRunAdd(isa, m, Running(h), n1, 2);
    n := n1 + 2;
  }

  lemma PushSteps(isa: Isa, m: Module, h: Config, ret: nat, k: seq<Stmt>) returns (h': Config)
    requires h.top.rest == Call(DispatchT, ret, k) && h.top.t in m.funcs
    ensures
      var t, waiting := h.top.t, h.top.(rest := [CallEnd(ret)] + k, prev := h.frames);
      && HRun(isa, m, Running(h), 2) == Running(h')
      && h' == h.(top := Act(t, Body(m, t), false, 0, [], t), stack := [waiting] + h.stack, frames := [ret] + h.frames)
  {
    hide Body;
    var h1 := h.(top := h.top.(rest := [DispatchT] + ([CallEnd(ret)] + k), prev := h.frames),
                 frames := [ret] + h.frames);
    assert CStep(isa, m, h) == Running(h1);
    assert h1.top.rest[1..] == [CallEnd(ret)] + k;
    h' := h.(top := Act(h.top.t, Body(m, h.top.t), false, 0, [], h.top.t),
             stack := [h1.top.(rest := [CallEnd(ret)] + k)] + h.stack, frames := [ret] + h.frames);
    assert CStep(isa, m, h1) == Running(h');
    HRunZero(isa, m, Running(h));
    Extend(isa, m, h, 0, h, Running(h1));
    Extend(isa, m, h, 1, h1, Running(h'));
  }

  /** Under it every jr $ra of the callee goes back to the call, whatever $ra holds. */
  lemma ZeroFrameReturns(isa: Isa, m: Module, h: Config, thn: seq<Stmt>, k: seq<Stmt>, k': seq<Stmt>)
    requires h.frames != [] && h.frames[0] == 0 && h.unwind == 0
    requires h.top.rest == [IfRaIsJump(thn)] + ([Return] + k)
    requires h.stack != [] && h.stack[0].rest == [CallEnd(0)] + k'
    ensures HRun(isa, m, Running(h), 3) ==
            Running(h.(top := h.stack[0].(rest := k'), stack := h.stack[1..], frames := h.stack[0].prev))
  {
    var h1 := With(h, [Return] + k, h.cpu);
    var h2 := h.(top := h.stack[0], stack := h.stack[1..]);
    RaIsJumpSteps(isa, m, h, thn, [Return] + k);
    HRunZero(isa, m, Running(h));
    Extend(isa, m, h, 0, h, Running(h1));
    assert CStep(isa, m, h1) == Running(h2);
    Extend(isa, m, h, 1, h1, Running(h2));
    Extend(isa, m, h, 2, h2, Running(h2.(top := h2.top.(rest := k'), frames := h2.top.prev)));
  }

  /** A jalr that links nothing, to a function that returns at once: the C program resumes after the call, and the
      machine goes where $ra points. */
  ghost predicate ZeroLink(m: Module, f: nat, a: nat, t: nat)
  {
    && Laid(m) && PlainSlots(m) && f in m.funcs && m.Owned(a, f) && m.Owned(a + 4, f) && m.Owned(a + 8, f)
    && m.At(a).Jalr? && m.At(a).rd == 0 && !Lab(m, a + 4)
    && t in m.funcs && !IsSlot(m, t) && m.At(t) == Jr(RA)
  }

  lemma ZeroLinkParts(isa: Isa, m: Module, g: Guest, h: Config, f: nat) returns (n: nat, h': Config)
    requires m.At(g.pc).Jalr? && ZeroLink(m, f, g.pc, g.cpu.r[m.At(g.pc).rs]) && h.top.body == f && h.cpu == g.cpu
             && h.unwind == 0
    requires g.npc == g.pc + 4 && h.top.rest == JalrHead(m, f, g.pc, Rest(m, f, g.pc))
    ensures HRun(isa, m, Running(h), n) == Running(h') && Reaches(m, h'.top.body, h'.top.rest, g.pc + 8)
    ensures
      var g' := Run(isa, m, g, 4);
      h'.cpu == g'.cpu && g'.pc == SlotCpu(isa, m, g.pc, g.cpu).r[RA] &&
      (Reaches(m, h'.top.body, h'.top.rest, g'.pc) <==> g'.pc == g.pc + 8)
  {
    hide HRun, Run, Step, CStep, HStep, Code, Rest, Body, IsSlot, Lab, Laid, PlainSlots, SlotIf, SlotCpu, Reaches,
         ZeroLink, JalrHead;
    var a, t := g.pc, g.cpu.r[m.At(g.pc).rs];
    ZeroLinkGuest(isa, m, g, f);
    ZeroLinkBack(m, f, a, t);
    ZeroLinkSlots(m, f, a, t);
    var k := Rest(m, f, a);
    var n1, h1 := ZeroLinkCalls(isa, m, h, f, a, k);
    var n2, h2 := Leaves(isa, m, h1, t);
    var k2 := Rest(m, t, t);
    ZeroFrameReturns(isa, m, h2, [DispatchT] + [Return], k2, k);
    h' := HRun(isa, m, Running(h2), 3).at;
    HRunAdd(isa, m, Running(h), n1, n2);
    HRunAdd(isa, m, Running(h), n1 + n2, 3);
    n := n1 + n2 + 3;
    if Reaches(m, h'.top.body, h'.top.rest, Run(isa, m, g, 4).pc) {
      ReachesOne(m, f, k, Run(isa, m, g, 4).pc, a + 8);
    }
  }

  lemma ZeroLinkSlots(m: Module, f: nat, a: nat, t: nat)
    requires ZeroLink(m, f, a, t)
    ensures Laid(m) && PlainSlots(m) && m.At(a).Jalr? && m.At(a).rd == 0 && HaveSlot(m, f, a) && m.At(a + 4).Plain?
    ensures t in m.funcs && !IsSlot(m, t) && m.At(t) == Jr(RA)
  {
  }

  lemma ZeroLinkBack(m: Module, f: nat, a: nat, t: nat)
    requires ZeroLink(m, f, a, t)
    ensures f in m.funcs && Reaches(m, f, Rest(m, f, a), a + 8)
  {
    assert Names(m, a, a + 8) && Named(m, a + 8);
    NextIsNoSlot(m, f, a);
    CodeAnyway(m, f, a + 8, true);
  }

  lemma CodeAnyway(m: Module, f: nat, a: nat, last: bool)
    requires f in m.funcs && m.Owned(a, f) && Laid(m)
    ensures EmitFrom(m, f, m.funcs[f].end, a, last) ==
            if IsSlot(m, a) then EmitFrom(m, f, m.funcs[f].end, a, last) else Code(m, f, a)
  {
    hide Head, Alias, Lab, IsSlot;
  }

  lemma ZeroLinkGuest(isa: Isa, m: Module, g: Guest, f: nat)
    requires m.At(g.pc).Jalr? && ZeroLink(m, f, g.pc, g.cpu.r[m.At(g.pc).rs]) && g.npc == g.pc + 4
    ensures
      var a, t := g.pc, g.cpu.r[m.At(g.pc).rs];
      var c := SlotCpu(isa, m, a, g.cpu);
      Run(isa, m, g, 4) == Guest(c.r[RA], c.r[RA] + 4, SlotCpu(isa, m, t, c))
  {
    var a, t := g.pc, g.cpu.r[m.At(g.pc).rs];
    var g2 := AfterSlot(isa, m, g);
    TwoSteps(isa, m, g);
    assert m.Owned(t, t);
    TwoSteps(isa, m, g2);
    RunAdd(isa, m, g, 2, 2);
  }

  /** A function that returns at once, from its start to its jr $ra. */
  lemma Leaves(isa: Isa, m: Module, h: Config, t: nat) returns (n: nat, h': Config)
    requires Laid(m) && PlainSlots(m) && t in m.funcs && !IsSlot(m, t) && m.At(t) == Jr(RA)
    requires h.top.body == t && h.top.entry == t && h.top.rest == Body(m, t)
    ensures HRun(isa, m, Running(h), n) == Running(h')
    ensures h' == With(h.(top := h.top.(t := h.cpu.r[RA])),
                       [IfRaIsJump([DispatchT] + [Return])] + ([Return] + Rest(m, t, t)), SlotCpu(isa, m, t, h.cpu))
  {
    hide HRun, CStep, HStep, Code, Rest, Body, IsSlot, Lab, Laid, PlainSlots, SlotIf, SlotCpu;
    var go := [IfRaIsJump([DispatchT] + [Return])] + ([Return] + Rest(m, t, t));
    LeafLines(m, t);
    var n1 := EnterBody(isa, m, h);
    var h1 := With(h, Code(m, t, t), h.cpu);
    var h2 := With(h, [CapReg(RA)] + SlotIf(m, t, true, go), h.cpu);
    LabelSteps(isa, m, h1, t, h2.top.rest);
    Extend(isa, m, h, n1, h1, Running(h2));
    var n2 := JrLines(isa, m, h2, t, RA, go);
    HRunAdd(isa, m, Running(h), n1 + 1, n2);
    n := n1 + 1 + n2;
    h' := HRun(isa, m, Running(h2), n2).at;
  }

  lemma LeafLines(m: Module, t: nat)
    requires Laid(m) && PlainSlots(m) && t in m.funcs && !IsSlot(m, t) && m.At(t) == Jr(RA)
    ensures Code(m, t, t) == [Label(t)] + ([CapReg(RA)] +
              SlotIf(m, t, true, [IfRaIsJump([DispatchT] + [Return])] + ([Return] + Rest(m, t, t))))
    ensures m.At(t + 4).Plain? && m.Owned(t, t) && Lab(m, t)
  {
    assert m.Owned(t, t) && t < m.funcs[t].end;
    hide Alias;
  }

  // ---- falling out of a body

  /** What is emitted past a body's last word takes the guest on exactly if the address there has a name; if not, the
      body ends, and the C program returns to the innermost call or to the host. */
  lemma FallOutReturns(isa: Isa, m: Module, h: Config)
    requires Laid(m) && h.top.body in m.funcs
    requires var end := m.funcs[h.top.body].end; h.top.rest == EmitFrom(m, h.top.body, end, end, false)
    ensures Reaches(m, h.top.body, h.top.rest, m.funcs[h.top.body].end) <==> EndLands(m, m.funcs[h.top.body].end)
    ensures !EndLands(m, m.funcs[h.top.body].end) ==> HStep(isa, m, Running(h)) == Leave(h)
  {
    hide IsSlot, Lab;
  }

  // ---- slots of other bodies

  /** A likely branch whose slot another body owns matches the machine exactly if it is taken. Taken, a copy of the slot
      has run; not taken, the C program goes on at the slot, and the machine after it. */
  lemma ForeignLikelyExactly(isa: Isa, m: Module, outer: seq<nat>, g: Guest, h: Config, f: nat, cond: Cond, t: nat)
    returns (i: nat, n: nat)
    requires Laid(m) && PlainSlots(m) && f in m.funcs && h.top.body == f && m.Owned(g.pc, f) && g.npc == g.pc + 4
    requires m.At(g.pc) == Branch(cond, t, true, false) && !cond.VfpuTrue? && !cond.VfpuFalse?
    requires !m.Owned(g.pc + 4, f) && h.cpu == g.cpu && h.unwind == 0 && Chained(m, h.stack, h.frames, outer)
    requires h.top.rest == BranchHead(m, f, g.pc, Rest(m, f, g.pc))
    ensures i == if Holds(cond, g.cpu) then 2 else 1
    ensures Advances(isa, m, outer, g, Running(h), i, n) <==> Holds(cond, g.cpu)
    ensures !Holds(cond, g.cpu) ==> HRun(isa, m, Running(h), n) == Running(With(h, Code(m, f, g.pc + 4), h.cpu))
  {
    hide Match, Code, Rest, HRun, Run;
    if Holds(cond, g.cpu) {
      i := 2;
      n := ForeignLikelyTaken(isa, m, outer, g, h, f, cond, t);
    } else {
      i, n := 1, 1;
      ForeignLikelyParts(isa, m, outer, g, h, f, cond, t);
      OneStep(isa, m, g);
      HRunOne(isa, m, Running(h));
    }
  }

  lemma ForeignLikelyTaken(isa: Isa, m: Module, outer: seq<nat>, g: Guest, h: Config, f: nat, cond: Cond, t: nat)
    returns (n: nat)
    requires Laid(m) && PlainSlots(m) && f in m.funcs && h.top.body == f && m.Owned(g.pc, f) && g.npc == g.pc + 4
    requires m.At(g.pc) == Branch(cond, t, true, false) && !cond.VfpuTrue? && !cond.VfpuFalse?
    requires Holds(cond, g.cpu) && !m.Owned(g.pc + 4, f) && h.cpu == g.cpu && h.unwind == 0
    requires Chained(m, h.stack, h.frames, outer) && h.top.rest == BranchHead(m, f, g.pc, Rest(m, f, g.pc))
    ensures Advances(isa, m, outer, g, Running(h), 2, n)
  {
    hide Rest, Chained, HRun, Run, CStep, HStep, Match, Lab;
    var a, k := g.pc, Rest(m, f, g.pc);
    var tail := Transfer(m, f, t);
    var thn := SlotIf(m, a, true, tail);
    LikelyLines(m, f, a, k);
    TakenCopy(m, f, a);
    IfCondSteps(isa, m, h, cond, thn, k);
    HRunZero(isa, m, Running(h));
    var h1 := With(h, thn + k, h.cpu);
    Extend(isa, m, h, 0, h, Running(h1));
    n := ExtendSlot(isa, m, h, 1, h1, a, true, tail, k);
    TwoSteps(isa, m, g);
    BranchLabels(m, f, a);
    TransferTogether(m, outer, AfterSlot(isa, m, g), With(h1, tail + k, SlotCpu(isa, m, a, h1.cpu)), f, t, k);
  }

  lemma TakenCopy(m: Module, f: nat, a: nat)
    requires PlainSlots(m) && Laid(m) && m.Owned(a, f) && !m.Owned(a + 4, f) && m.At(a).HasDelaySlot()
    ensures TakenSlot(m, f, a) && !HaveSlot(m, f, a) && m.At(a + 4).Plain?
  {
  }

  lemma BranchLabels(m: Module, f: nat, a: nat)
    requires m.Owned(a, f) && m.At(a).Branch?
    ensures m.Owned(m.At(a).target, f) ==> Lab(m, m.At(a).target)
  {
    if m.Owned(m.At(a).target, f) { assert Names(m, a, m.At(a).target); }
  }

  /** Not taken: what follows in the body is not for the address after the slot. */
  lemma ForeignLikelyParts(isa: Isa, m: Module, outer: seq<nat>, g: Guest, h: Config, f: nat, cond: Cond, t: nat)
    requires Laid(m) && PlainSlots(m) && f in m.funcs && h.top.body == f && m.Owned(g.pc, f) && g.npc == g.pc + 4
    requires m.At(g.pc) == Branch(cond, t, true, false) && !cond.VfpuTrue? && !cond.VfpuFalse?
    requires !Holds(cond, g.cpu) && h.cpu == g.cpu && !m.Owned(g.pc + 4, f)
    requires h.top.rest == BranchHead(m, f, g.pc, Rest(m, f, g.pc))
    ensures HStep(isa, m, Running(h)) == Running(With(h, Code(m, f, g.pc + 4), h.cpu))
    ensures !Match(m, outer, Step(isa, m, g), HStep(isa, m, Running(h)))
  {
    hide Reaches, EmitFrom, Chained, Code, Rest, Step, CStep, Laid, PlainSlots, BranchHead, Match;
    var a := g.pc;
    LikelyRest(m, f, a);
    LikelySkips(isa, m, g, cond, t);
    LikelyLines(m, f, a, Rest(m, f, a));
    IfCondSteps(isa, m, h, cond, SlotIf(m, a, HaveSlot(m, f, a) || TakenSlot(m, f, a), Transfer(m, f, t)),
                Rest(m, f, a));
    NotPastGap(m, f, a + 4, a + 8);
    MatchReaches(m, outer, Step(isa, m, g), With(h, Code(m, f, a + 4), h.cpu));
  }

  /** At an address the body does not own its lines go there, or nowhere. */
  lemma NotPastGap(m: Module, f: nat, a: nat, b: nat)
    requires Laid(m) && PlainSlots(m) && f in m.funcs && !m.Owned(a, f) && a != b
    requires a >= 4 && m.Owned(a - 4, f)
    ensures !Reaches(m, f, Code(m, f, a), b)
  {
    if a < m.funcs[f].end {
      FallsIntoGap(m, f, a);
      ReachesNoOther(m, f, Code(m, f, a), a, b);
    } else {
      assert a == m.funcs[f].end;
      NotPastEnd(m, f, b);
    }
  }

  lemma NotPastEnd(m: Module, f: nat, b: nat)
    requires Laid(m) && PlainSlots(m) && f in m.funcs && b != m.funcs[f].end
    ensures !Reaches(m, f, Code(m, f, m.funcs[f].end), b)
  {
    var end := m.funcs[f].end;
    if EndLands(m, end) {
      FallsPastEnd(m, f, end);
      ReachesNoOther(m, f, Code(m, f, end), end, b);
    } else {
      NowhereToGo(m, f, b);
      assert Code(m, f, end) == [];
    }
  }

  lemma NowhereToGo(m: Module, f: nat, b: nat)
    requires Laid(m) && PlainSlots(m) && f in m.funcs
    ensures !Reaches(m, f, [], b)
  {
    if AtCode(m, f, [], b) { CodeOpens(m, f, b); }
    hide Code, Laid, PlainSlots;
  }

  lemma LikelyLines(m: Module, f: nat, a: nat, k: seq<Stmt>)
    requires m.At(a).Branch? && m.At(a).likely
    ensures BranchHead(m, f, a, k) ==
            [IfCond(m.At(a).cond,
                    SlotIf(m, a, HaveSlot(m, f, a) || TakenSlot(m, f, a), Transfer(m, f, m.At(a).target)))] + k
  {
  }

  lemma MatchReaches(m: Module, outer: seq<nat>, g: Guest, h: Config)
    ensures Match(m, outer, g, Running(h)) ==> Reaches(m, h.top.body, h.top.rest, g.pc)
  {
    hide Reaches, Chained;
  }

  lemma LikelyRest(m: Module, f: nat, a: nat)
    requires f in m.funcs && m.At(a).Branch? && !m.Owned(a + 4, f)
    ensures Rest(m, f, a) == Code(m, f, a + 4)
  {
    hide EmitFrom, Lab;
  }

  lemma LikelySkips(isa: Isa, m: Module, g: Guest, cond: Cond, t: nat)
    requires Laid(m) && g.pc in m.owner && g.npc == g.pc + 4
    requires m.At(g.pc) == Branch(cond, t, true, false) && !Holds(cond, g.cpu)
    ensures Step(isa, m, g).pc == g.pc + 8
  {
  }

  /** A jal whose slot another body owns does not run it: at the call the registers are the machine's exactly if the
      slot changes nothing. */
  lemma ForeignJalSkipsSlot(isa: Isa, m: Module, g: Guest, h: Config, f: nat, t: nat, k: seq<Stmt>)
    requires Laid(m) && PlainSlots(m) && m.Owned(g.pc, f) && g.npc == g.pc + 4 && h.cpu == g.cpu
    requires m.At(g.pc) == Jal(t) && t != g.pc + 8 && !m.Owned(g.pc + 4, f) && h.top.rest == JalHead(m, f, g.pc, k)
    ensures HStep(isa, m, Running(h)) ==
            Running(With(h, Call(StaticCall(m, t), g.pc + 8, k), SetReg(h.cpu, RA, g.pc + 8)))
    ensures SetReg(h.cpu, RA, g.pc + 8) == Run(isa, m, g, 2).cpu <==>
            SlotCpu(isa, m, g.pc, SetReg(h.cpu, RA, g.pc + 8)) == SetReg(h.cpu, RA, g.pc + 8)
  {
    TwoSteps(isa, m, g);
    hide Run;
    LinkSteps(isa, m, h, RA, g.pc + 8, Call(StaticCall(m, t), g.pc + 8, k));
  }

  /** A jal that owns its slot links after it: at the call the registers are the machine's, whatever they were, exactly
      if linking and slot can change places. */
  lemma JalLinksLast(isa: Isa, m: Module, f: nat, a: nat)
    requires Laid(m) && PlainSlots(m) && m.Owned(a, f) && m.Owned(a + 4, f) && m.At(a).Jal?
    ensures (forall c: Cpu :: LinkedLast(isa, m, a, c) == Run(isa, m, Guest(a, a + 4, c), 2).cpu)
            <==> Ignores(isa, m.At(a + 4).raw, RA, a + 8)
  {
    assert m.At(a + 4).Plain?;
    LinkOrder(isa, m, a);
    hide Run, SetReg, Laid, PlainSlots, Ignores, LinkedLast, LinkedFirst;
    forall c: Cpu
      ensures Run(isa, m, Guest(a, a + 4, c), 2).cpu == LinkedFirst(isa, m, a, c)
    {
      JalGuest(isa, m, f, a, c);
    }
    if forall c: Cpu :: LinkedLast(isa, m, a, c) == Run(isa, m, Guest(a, a + 4, c), 2).cpu {
      forall c: Cpu ensures LinkedLast(isa, m, a, c) == LinkedFirst(isa, m, a, c) {}
    }
  }

  lemma JalGuest(isa: Isa, m: Module, f: nat, a: nat, c: Cpu)
    requires Laid(m) && PlainSlots(m) && m.Owned(a, f) && m.At(a).Jal?
    ensures Run(isa, m, Guest(a, a + 4, c), 2).cpu == LinkedFirst(isa, m, a, c)
  {
    TwoSteps(isa, m, Guest(a, a + 4, c));
  }

  lemma LinkOrder(isa: Isa, m: Module, a: nat)
    requires m.At(a + 4).Plain?
    ensures (forall c: Cpu :: LinkedLast(isa, m, a, c) == LinkedFirst(isa, m, a, c)) <==>
            Ignores(isa, m.At(a + 4).raw, RA, a + 8)
  {
    hide SetReg;
    if !Ignores(isa, m.At(a + 4).raw, RA, a + 8) {
      var c: Cpu :| isa.exec(m.At(a + 4).raw, SetReg(c, RA, a + 8)) != SetReg(isa.exec(m.At(a + 4).raw, c), RA, a + 8);
      assert LinkedLast(isa, m, a, c) != LinkedFirst(isa, m, a, c);
    }
  }

  /** The registers a jal's lines leave before its call, and those the machine has there. */
  function LinkedLast(isa: Isa, m: Module, a: nat, c: Cpu): Cpu { SetReg(SlotCpu(isa, m, a, c), RA, a + 8) }

  function LinkedFirst(isa: Isa, m: Module, a: nat, c: Cpu): Cpu { SlotCpu(isa, m, a, SetReg(c, RA, a + 8)) }

  // ---- a labelled slot whose next word is not the body's

  /** A construct that falls through, with a labelled slot of its own, jumps over the slot's copy to the next word if
      the body has it; if not, it returns. */
  lemma LabelledSlotFalls(m: Module, f: nat, a: nat)
    requires Laid(m) && PlainSlots(m) && f in m.funcs && m.Owned(a, f) && HaveSlot(m, f, a)
    requires m.At(a).FallsThrough() && Lab(m, a + 4) && a + 4 !in m.funcs
    ensures Reaches(m, f, Rest(m, f, a), a + 8) <==> m.Owned(a + 8, f)
    ensures !m.Owned(a + 8, f) ==> Rest(m, f, a) != [] && Rest(m, f, a)[0] == Return
  {
    hide Following, Lab, Code;
    if m.Owned(a + 8, f) { SlotLabels(m, f, a); } else { ReturnsNowhere(m, f, Rest(m, f, a), a + 8); }
  }

  lemma SlotLabels(m: Module, f: nat, a: nat)
    requires m.Owned(a, f) && HaveSlot(m, f, a) && Lab(m, a + 4) && a + 4 !in m.funcs && m.Owned(a + 8, f)
    ensures Lab(m, a + 8)
  {
    assert IsSlot(m, a + 4) && Marked(m, a + 4);
  }

  lemma ReturnsNowhere(m: Module, f: nat, rest: seq<Stmt>, b: nat)
    requires Laid(m) && PlainSlots(m) && rest != [] && rest[0] == Return
    ensures !Reaches(m, f, rest, b)
  {
    hide *;
    if Reaches(m, f, rest, b) {
      FirstLine(m, f, rest, b);
      NotNamed(m, f, b);
    }
  }

  lemma NotNamed(m: Module, f: nat, b: nat)
    ensures !Opens(Return) && !LineNames(m, f, Return, b)
  {
  }

  /** After the copy of a jump's labelled slot the lines lead to the next word only if the body has it; if not, they
      lead to a later construct of the body, or nowhere. */
  lemma LabelledSlotAfterJump(m: Module, f: nat, a: nat)
    requires Laid(m) && PlainSlots(m) && f in m.funcs && m.Owned(a, f) && HaveSlot(m, f, a) && Lab(m, a + 4)
    requires m.At(a).J? || m.At(a).Jr?
    ensures After(Walked(m, f), a + 4) == [Label(a + 4)] + ([SlotStmt(m, a)] + Following(m, f, a))
    ensures Reaches(m, f, Following(m, f, a), a + 8) <==> m.Owned(a + 8, f)
  {
    SlotFound(m, f, a);
    if m.Owned(a + 8, f) {
      NextIsNoSlot(m, f, a);
      assert Following(m, f, a) == Code(m, f, a + 8);
    } else {
      var q := SkippedTo(m, f, a + 8);
      if Following(m, f, a) == [] {
        NowhereToGo(m, f, a + 8);
      } else {
        ReachesNoOther(m, f, Following(m, f, a), q, a + 8);
      }
    }
  }

  /** Past a jump, a gap is left out: the lines are those of the next construct, if there is one. */
  lemma {:induction false} SkippedTo(m: Module, f: nat, a: nat) returns (q: nat)
    requires f in m.funcs
    ensures EmitFrom(m, f, m.funcs[f].end, a, true) == [] ||
            (AtCode(m, f, EmitFrom(m, f, m.funcs[f].end, a, true), q) && q >= a)
    decreases m.funcs[f].end - a
  {
    hide Head, Alias, Lab, IsSlot, StaticCall;
    q := a;
    if a < m.funcs[f].end && (!m.Owned(a, f) || IsSlot(m, a)) { q := SkippedTo(m, f, a + 4); }
  }

  // ---- a jalr that links nothing, in a module

  /** 0x100 calls through register 4 without linking, and returns; 0x200 returns. */
  function Unlinked(): Module {
    Module(map a: nat | a < 0x208 && UnlinkedWord(a) ::
             if a == 0x100 then Jalr(4, 0) else if a == 0x108 || a == 0x200 then Jr(RA) else Plain(0),
           map a: nat | a < 0x208 && UnlinkedWord(a) :: if a < 0x200 then 0x100 else 0x200,
           map[0x100 := Func(0x100, 0x110), 0x200 := Func(0x200, 0x208)], 0, 0)
  }

  predicate UnlinkedWord(a: nat) { a % 4 == 0 && (0x100 <= a < 0x110 || 0x200 <= a < 0x208) }

  lemma UnlinkedIsZeroLink()
    ensures ZeroLink(Unlinked(), 0x100, 0x100, 0x200)
  {
    UnlinkedIsLaid();
    UnlinkedLabels();
    UnlinkedWords();
    hide Laid, PlainSlots, Lab, IsSlot, Unlinked;
  }

  lemma UnlinkedIsLaid()
    ensures Laid(Unlinked()) && PlainSlots(Unlinked())
  {
    UnlinkedSlots();
    hide PlainSlots, Insn.HasDelaySlot, Module.At;
  }

  lemma UnlinkedSlots()
    ensures PlainSlots(Unlinked())
  {
    var m := Unlinked();
    forall a {:trigger a in m.owner} | a in m.owner && m.At(a).HasDelaySlot()
      ensures a + 4 in m.code && m.At(a + 4).Plain? && !m.Import(a + 4)
    {
      assert a == 0x100 || a == 0x108 || a == 0x200;
    }
  }

  lemma UnlinkedWords()
    ensures var m := Unlinked();
      && m.Owned(0x100, 0x100) && m.Owned(0x104, 0x100) && m.Owned(0x108, 0x100) && 0x100 in m.funcs && 0x200 in m.funcs
      && m.At(0x100) == Jalr(4, 0) && m.At(0x200) == Jr(RA) && !IsSlot(m, 0x200)
  {
  }

  lemma UnlinkedLabels()
    ensures !Lab(Unlinked(), 0x104)
  {
    var m := Unlinked();
    assert !Named(m, 0x104) && !IsSlot(m, 0x100);
    hide Named;
    assert !Marked(m, 0x104);
  }
}

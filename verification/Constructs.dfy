/** Each emitted construct does what the machine does for the instruction and its delay slot. */
module Constructs {
  import opened Allegrex
  import opened Emitter
  import opened Recompiled
  import opened Layout
  import opened Simulation

  // ---- pieces of a construct

  /** Running `rest` instead, on the given registers. */
  function With(h: Config, rest: seq<Stmt>, cpu: Cpu): Config
  {
    h.(top := h.top.(rest := rest), cpu := cpu)
  }

  function SlotCpu(isa: Isa, m: Module, a: nat, cpu: Cpu): Cpu
  {
    if m.At(a + 4).Plain? then isa.exec(m.At(a + 4).raw, cpu) else cpu
  }

  lemma SlotRuns(isa: Isa, m: Module, h: Config, a: nat, emit: bool, k: seq<Stmt>, k': seq<Stmt>) returns (n: nat)
    requires m.At(a + 4).Plain? && h.top.rest == SlotIf(m, a, emit, k) + k'
    ensures HRun(isa, m, Running(h), n) == Running(With(h, k + k', if emit then SlotCpu(isa, m, a, h.cpu) else h.cpu))
  {
    if emit {
      n := 1;
      assert h.top.rest == [SlotStmt(m, a)] + (k + k');
      HRunOne(isa, m, Running(h));
    } else {
      n := 0;
    }
  }

  lemma GuestSlot(isa: Isa, m: Module, a: nat, t: nat, cpu: Cpu)
    requires PlainSlots(m) && a in m.owner && m.At(a).HasDelaySlot()
    ensures Step(isa, m, Guest(a + 4, t, cpu)) == Guest(t, t + 4, SlotCpu(isa, m, a, cpu))
  {
  }

  lemma FallsInside(m: Module, f: nat, a: nat)
    requires Laid(m) && PlainSlots(m) && f in m.funcs && m.Owned(a, f) && m.At(a).FallsThrough()
    requires m.Owned(Next(m, f, a), f)
    ensures Reaches(m, f, Following(m, f, a), Next(m, f, a))
  {
    NextIsNoSlot(m, f, a);
    assert Following(m, f, a) == Code(m, f, Next(m, f, a));
  }

  lemma FallsIntoGap(m: Module, f: nat, n: nat)
    requires f in m.funcs && !m.Owned(n, f) && n < m.funcs[f].end
    ensures Reaches(m, f, Code(m, f, n), n)
  {
    var k := EmitFrom(m, f, m.funcs[f].end, n + 4, true);
    assert Code(m, f, n) == [StaticCall(m, n)] + ([Return] + k);
    assert ([StaticCall(m, n)] + ([Return] + k))[1..] == [Return] + k;
  }

  /** After a construct that can fall through, the lines that follow take the guest to the next address. */
  lemma Falls(isa: Isa, m: Module, f: nat, a: nat)
    requires WellFormed(isa, m) && f in m.funcs && m.Owned(a, f) && m.At(a).FallsThrough() && !IsSlot(m, a)
    ensures Reaches(m, f, Following(m, f, a), Next(m, f, a))
  {
    var n, end := Next(m, f, a), m.funcs[f].end;
    OkAt(isa, m, f, a);
    if m.Owned(n, f) {
      FallsInside(m, f, a);
    } else {
      hide *;
      OutOfBody(isa, m, f, a);
      if n < end { FallsIntoGap(m, f, n); } else { FallsPastEnd(m, f, end); }
    }
  }

  lemma OkAt(isa: Isa, m: Module, f: nat, a: nat)
    requires WellFormed(isa, m) && m.Owned(a, f)
    ensures f in m.funcs && Laid(m) && PlainSlots(m) && InsnOk(isa, m, a) && a < m.funcs[f].end
    ensures a % 4 == 0 && m.funcs[f].end % 4 == 0
  {
    hide InsnOk, PlainSlots, IsSlot;
  }

  /** Control that falls out of the owned words is at a gap, or at the body's end on an address that has a name. */
  lemma OutOfBody(isa: Isa, m: Module, f: nat, a: nat)
    requires f in m.funcs && m.Owned(a, f) && InsnOk(isa, m, a) && m.At(a).FallsThrough() && !IsSlot(m, a)
    requires Laid(m)
    requires !m.Owned(Next(m, f, a), f)
    ensures Following(m, f, a) == Code(m, f, Next(m, f, a))
    ensures Next(m, f, a) < m.funcs[f].end || (Next(m, f, a) == m.funcs[f].end && EndLands(m, m.funcs[f].end))
  {
    hide EndLands, EmitFrom, Lab, IsSlot;
    assert !m.At(a).Terminal();
    LastOwned(m, f, a);
  }

  /** The slot of the last construct is the body's own, so the construct ends no later than the body. */
  lemma LastOwned(m: Module, f: nat, a: nat)
    requires f in m.funcs && m.Owned(a, f) && Laid(m)
    ensures Next(m, f, a) <= m.funcs[f].end || m.At(a).J? || m.At(a).Jr?
  {
  }

  lemma FallsPastEnd(m: Module, f: nat, end: nat)
    requires f in m.funcs && m.funcs[f].end == end && EndLands(m, end)
    ensures Reaches(m, f, EmitFrom(m, f, end, end, false), end)
  {
    hide IsSlot, Lab;
  }

  lemma FallsPastAlias(isa: Isa, m: Module, f: nat, a: nat)
    requires WellFormed(isa, m) && f in m.funcs && m.Owned(a, f) && m.At(a).FallsThrough() && !IsSlot(m, a)
    ensures Reaches(m, f, Alias(m, f, a, Lab(m, a + 4), Following(m, f, a)), Next(m, f, a))
  {
    Falls(isa, m, f, a);
    assert InsnOk(isa, m, a);
    if HaveSlot(m, f, a) && Lab(m, a + 4) {
      assert IsSlot(m, a + 4) && !(a + 4 in m.funcs);
      assert Marked(m, a + 8);
    }
  }

  lemma TransferReaches(m: Module, f: nat, t: nat, k: seq<Stmt>)
    requires f in m.funcs && (m.Owned(t, f) ==> Lab(m, t))
    ensures Reaches(m, f, Transfer(m, f, t) + k, t)
  {
    if !m.Owned(t, f) {
      assert (Transfer(m, f, t) + k)[1..] == [Return] + k;
    }
  }

  /** What running one construct, or one slot copy, achieves: the guest has moved and the host is with it again. */
  ghost predicate Advances(isa: Isa, m: Module, outer: seq<nat>, g: Guest, h: Host, i: nat, n: nat)
  {
    Match(m, outer, Run(isa, m, g, i), HRun(isa, m, h, n))
  }

  /** The guest has moved to an address that dispatch does not find, and the host has missed there. */
  ghost predicate Misses(isa: Isa, m: Module, g: Guest, h: Host, i: nat, n: nat)
  {
    Missing(m, Run(isa, m, g, i), HRun(isa, m, h, n))
  }

  lemma Compose(isa: Isa, m: Module, outer: seq<nat>, g: Guest, h: Host, i: nat, n: nat, i': nat, n': nat)
    requires Advances(isa, m, outer, Run(isa, m, g, i), HRun(isa, m, h, n), i', n')
    ensures Advances(isa, m, outer, g, h, i + i', n + n')
  {
    RunAdd(isa, m, g, i, i');
    HRunAdd(isa, m, h, n, n');
  }

  lemma ComposeMiss(isa: Isa, m: Module, g: Guest, h: Host, i: nat, n: nat, i': nat, n': nat)
    requires Misses(isa, m, Run(isa, m, g, i), HRun(isa, m, h, n), i', n')
    ensures Misses(isa, m, g, h, i + i', n + n')
  {
    RunAdd(isa, m, g, i, i');
    HRunAdd(isa, m, h, n, n');
  }

  // ---- calls

  /** PSP_CALL_BEGIN, the callee, PSP_CALL_END: the callee starts under a frame that resumes at ret. */
  lemma CallStarts(isa: Isa, m: Module, outer: seq<nat>, g: Guest, h: Config, callee: Stmt, ret: nat, k: seq<Stmt>)
    returns (h1: Config)
    requires h.top.rest == Call(callee, ret, k) && ret != 0
    requires h.unwind == 0 && h.cpu == g.cpu && g.npc == g.pc + 4
    requires Reaches(m, h.top.body, k, ret) && Chained(m, h.stack, h.frames, outer)
    ensures HStep(isa, m, Running(h)) == Running(h1)
    ensures h1.top.rest != [] && h1.top.rest[0] == callee && h1.top.t == h.top.t && h1.top.body == h.top.body
    ensures h1.frames == [ret] + h.frames
    ensures Ready(m, outer, g, h1, h1.top.rest[1..])
  {
    hide Call, Reaches;
    CallLines(callee, ret, k);
    h1 := h.(top := h.top.(rest := [callee] + ([CallEnd(ret)] + k), prev := h.frames), frames := [ret] + h.frames);
    assert CStep(isa, m, h) == Running(h1);
    hide CStep;
    var waiting := h1.top.(rest := [CallEnd(ret)] + k);
    assert h1.top.rest[1..] == [CallEnd(ret)] + k;
    assert ([waiting] + h1.stack)[1..] == h.stack;
    assert waiting.rest[1..] == k;
  }

  lemma FirmwareSteps(isa: Isa, m: Module, h: Config, a: nat, ret: nat, k: seq<Stmt>)
    requires h.top.rest == Call(CallImport(a), ret, k) && h.unwind == 0
    ensures HRun(isa, m, Running(h), 3) ==
            Running(h.(top := h.top.(rest := k, prev := h.frames), cpu := isa.firmware(a, h.cpu)))
  {
    hide Call;
    CallLines(CallImport(a), ret, k);
    var inside := h.(top := h.top.(rest := [CallImport(a)] + ([CallEnd(ret)] + k), prev := h.frames),
                     frames := [ret] + h.frames);
    var back := inside.(top := inside.top.(rest := [CallEnd(ret)] + k), cpu := isa.firmware(a, h.cpu));
    var done := h.(top := h.top.(rest := k, prev := h.frames), cpu := isa.firmware(a, h.cpu));
    assert CStep(isa, m, h) == Running(inside);
    assert CStep(isa, m, inside) == Running(back);
    assert CStep(isa, m, back) == Running(done);
    hide CStep;
    HRunThree(isa, m, Running(h));
  }

  lemma CallLines(callee: Stmt, ret: nat, k: seq<Stmt>)
    ensures Call(callee, ret, k) == [CallBegin(ret)] + ([callee] + ([CallEnd(ret)] + k))
  {
  }

  /** A call to firmware comes back to its own return site, which is where $ra points. */
  lemma FirmwareReturns(isa: Isa, m: Module, outer: seq<nat>, g: Guest, h: Config, ret: nat, k: seq<Stmt>)
    requires h.top.rest == Call(CallImport(g.pc), ret, k)
    requires m.Import(g.pc) && h.unwind == 0 && h.cpu == g.cpu && g.cpu.r[RA] == ret
    requires Reaches(m, h.top.body, k, ret) && Chained(m, h.stack, h.frames, outer)
    ensures Match(m, outer, Step(isa, m, g), HRun(isa, m, Running(h), 3))
  {
    FirmwareSteps(isa, m, h, g.pc, ret, k);
  }

  lemma HRunStep(isa: Isa, m: Module, h: Host, i: nat)
    ensures HRun(isa, m, h, 1 + i) == HRun(isa, m, HStep(isa, m, h), i)
  {
  }

  lemma HRunThree(isa: Isa, m: Module, h: Host)
    ensures HRun(isa, m, h, 3) == HStep(isa, m, HStep(isa, m, HStep(isa, m, h)))
  {
    HRunAdd(isa, m, h, 1, 2);
    HRunAdd(isa, m, HStep(isa, m, h), 1, 1);
    HRunOne(isa, m, h);
    HRunOne(isa, m, HStep(isa, m, h));
    HRunOne(isa, m, HStep(isa, m, HStep(isa, m, h)));
  }

  lemma CalleeArrives(isa: Isa, m: Module, outer: seq<nat>, g: Guest, h: Config) returns (n: nat)
    requires WellFormed(isa, m) && h.top.rest != [] && Ready(m, outer, g, h, h.top.rest[1..])
    requires (HandsOver(m, h.top.body, h.top.rest[0], g.pc) && !h.top.rest[0].CallImport?) ||
             (h.top.rest[0] == DispatchT && h.top.t == g.pc)
    ensures Arrived(m, outer, g, HRun(isa, m, Running(h), n))
  {
    if h.top.rest[0] == DispatchT {
      var i := DispatchArrives(isa, m, outer, g, h, h.top.rest[1..]);
      DispatchTSteps(isa, m, h);
      HRunOne(isa, m, Running(h));
      HRunAdd(isa, m, Running(h), 1, i);
      n := 1 + i;
    } else {
      n := HandOverArrives(isa, m, outer, g, h);
    }
  }

  lemma DispatchTSteps(isa: Isa, m: Module, h: Config)
    requires h.top.rest != [] && h.top.rest[0] == DispatchT
    ensures HStep(isa, m, Running(h)) == Dispatched(m, h, h.top.rest[1..], h.top.t)
  {
  }

  lemma CallEnters(isa: Isa, m: Module, outer: seq<nat>, g: Guest, h: Config, callee: Stmt, ret: nat, k: seq<Stmt>)
    returns (n: nat)
    requires WellFormed(isa, m) && h.top.rest == Call(callee, ret, k) && ret != 0
    requires (HandsOver(m, h.top.body, callee, g.pc) && !callee.CallImport?) || (callee == DispatchT && h.top.t == g.pc)
    requires h.unwind == 0 && h.cpu == g.cpu && g.npc == g.pc + 4
    requires Reaches(m, h.top.body, k, ret) && Chained(m, h.stack, h.frames, outer)
    ensures Arrived(m, outer, g, HRun(isa, m, Running(h), n))
  {
    hide *;
    var h1 := CallStarts(isa, m, outer, g, h, callee, ret, k);
    var i := CalleeArrives(isa, m, outer, g, h1);
    HRunStep(isa, m, Running(h), i);
    n := 1 + i;
  }

  /** A call to a static or a captured target arrives there; through firmware it has already come back. */
  lemma CallArrives(isa: Isa, m: Module, outer: seq<nat>, g: Guest, h: Config, callee: Stmt, ret: nat, k: seq<Stmt>)
    returns (i: nat, n: nat)
    requires WellFormed(isa, m) && h.top.rest == Call(callee, ret, k) && ret != 0
    requires HandsOver(m, h.top.body, callee, g.pc) || (callee == DispatchT && h.top.t == g.pc)
    requires h.unwind == 0 && h.cpu == g.cpu && g.npc == g.pc + 4
    requires Reaches(m, h.top.body, k, ret) && Chained(m, h.stack, h.frames, outer)
    requires callee.CallImport? ==> g.cpu.r[RA] == ret
    ensures Advances(isa, m, outer, g, Running(h), i, n) || (i == 0 && Misses(isa, m, g, Running(h), 0, n))
  {
    if callee.CallImport? {
      FirmwareReturns(isa, m, outer, g, h, ret, k);
      i, n := 1, 3;
    } else {
      i := 0;
      n := CallEnters(isa, m, outer, g, h, callee, ret, k);
      GuestZero(isa, m, g);
    }
  }

  // ---- constructs

  ghost function Rest(m: Module, f: nat, a: nat): seq<Stmt>
    requires f in m.funcs
  {
    Alias(m, f, a, Lab(m, a + 4), Following(m, f, a))
  }

  /** The host is about to run the construct for the instruction at the guest's pc. */
  ghost predicate AtHead(isa: Isa, m: Module, outer: seq<nat>, g: Guest, h: Config)
  {
    && WellFormed(isa, m)
    && h.unwind == 0 && h.cpu == g.cpu && g.npc == g.pc + 4
    && h.top.body in m.funcs && m.Owned(g.pc, h.top.body) && !IsSlot(m, g.pc)
    && h.top.rest == Head(m, h.top.body, g.pc, Lab(m, g.pc + 8), Rest(m, h.top.body, g.pc))
    && Chained(m, h.stack, h.frames, outer)
    && InsnOk(isa, m, g.pc) && !m.Import(g.pc) && g.pc in m.code
  }

  lemma PlainRuns(isa: Isa, m: Module, outer: seq<nat>, g: Guest, h: Config)
    requires AtHead(isa, m, outer, g, h) && m.At(g.pc).Plain?
    ensures Advances(isa, m, outer, g, Running(h), 1, 1)
  {
    hide InsnOk, Reaches, Alias, Following, Lab, IsSlot, Chained;
    FallsPastAlias(isa, m, h.top.body, g.pc);
    HRunOne(isa, m, Running(h));
  }

  /** The slot, and where control is after the instruction and its slot. */
  function AfterSlot(isa: Isa, m: Module, g: Guest): Guest
  {
    var insn := m.At(g.pc);
    var t := Target(g.cpu, insn, g.pc + 8);
    Guest(t, t + 4, SlotCpu(isa, m, g.pc, Linked(g.cpu, insn, g.pc)))
  }

  lemma TwoSteps(isa: Isa, m: Module, g: Guest)
    requires PlainSlots(m) && g.pc in m.owner && g.pc in m.code && !m.Import(g.pc) && g.npc == g.pc + 4
    requires m.At(g.pc).HasDelaySlot()
    requires m.At(g.pc).Branch? && m.At(g.pc).likely ==> Holds(m.At(g.pc).cond, g.cpu)
    ensures Run(isa, m, g, 2) == AfterSlot(isa, m, g)
  {
    GuestSlot(isa, m, g.pc, Target(g.cpu, m.At(g.pc), g.pc + 8), Linked(g.cpu, m.At(g.pc), g.pc));
    RunAdd(isa, m, g, 1, 1);
  }

  // -- branches

  /** h after n steps stands at h1, and one more statement leads to h2. */
  lemma Extend(isa: Isa, m: Module, h: Config, n: nat, h1: Config, h2: Host)
    requires HRun(isa, m, Running(h), n) == Running(h1) && CStep(isa, m, h1) == h2
    ensures HRun(isa, m, Running(h), n + 1) == h2
  {
    HRunAdd(isa, m, Running(h), n, 1);
    HRunOne(isa, m, Running(h1));
  }

  lemma ExtendSlot(isa: Isa, m: Module, h: Config, n: nat, h1: Config, a: nat, emit: bool, k: seq<Stmt>, k': seq<Stmt>)
    returns (n': nat)
    requires HRun(isa, m, Running(h), n) == Running(h1)
    requires m.At(a + 4).Plain? && h1.top.rest == SlotIf(m, a, emit, k) + k'
    ensures HRun(isa, m, Running(h), n') ==
            Running(With(h1, k + k', if emit then SlotCpu(isa, m, a, h1.cpu) else h1.cpu))
  {
    var i := SlotRuns(isa, m, h1, a, emit, k, k');
    HRunAdd(isa, m, Running(h), n, i);
    n' := n + i;
  }

  function Capture(h: Config, c: bool): Config { h.(top := h.top.(c := c)) }

  lemma HRunZero(isa: Isa, m: Module, h: Host)
    ensures HRun(isa, m, h, 0) == h
  {
  }

  lemma IfSteps(isa: Isa, m: Module, h: Config, thn: seq<Stmt>, k: seq<Stmt>)
    requires h.top.rest == [IfC(thn)] + k
    ensures CStep(isa, m, h) == Running(With(h, if h.top.c then thn + k else k, h.cpu))
  {
  }

  lemma CapCondSteps(isa: Isa, m: Module, h: Config, cond: Cond, k: seq<Stmt>)
    requires h.top.rest == [CapCond(cond)] + k && !cond.VfpuTrue? && !cond.VfpuFalse?
    ensures CStep(isa, m, h) == Running(With(Capture(h, Holds(cond, h.cpu)), k, h.cpu))
  {
  }

  lemma LinkSteps(isa: Isa, m: Module, h: Config, rd: RegIndex, v: nat, k: seq<Stmt>)
    requires h.top.rest == [Link(rd, v)] + k
    ensures CStep(isa, m, h) == Running(With(h, k, SetReg(h.cpu, rd, v)))
  {
  }

  lemma CapRegSteps(isa: Isa, m: Module, h: Config, reg: RegIndex, k: seq<Stmt>)
    requires h.top.rest == [CapReg(reg)] + k
    ensures CStep(isa, m, h) == Running(With(h.(top := h.top.(t := h.cpu.r[reg])), k, h.cpu))
  {
  }

  /** An ordinary branch up to its test: the condition is captured before the slot runs. */
  lemma BranchTest(isa: Isa, m: Module, h: Config, a: nat, cond: Cond, have: bool, test: seq<Stmt>) returns (n: nat)
    requires m.At(a + 4).Plain? && !cond.VfpuTrue? && !cond.VfpuFalse?
    requires h.top.rest == [CapCond(cond)] + SlotIf(m, a, have, test)
    ensures HRun(isa, m, Running(h), n) ==
            Running(With(Capture(h, Holds(cond, h.cpu)), test, if have then SlotCpu(isa, m, a, h.cpu) else h.cpu))
  {
    hide CStep, HRun, HStep;
    var h1 := With(Capture(h, Holds(cond, h.cpu)), SlotIf(m, a, have, test), h.cpu);
    CapCondSteps(isa, m, h, cond, SlotIf(m, a, have, test));
    HRunZero(isa, m, Running(h));
    Extend(isa, m, h, 0, h, Running(h1));
    assert SlotIf(m, a, have, test) == SlotIf(m, a, have, test) + [];
    n := ExtendSlot(isa, m, h, 1, h1, a, have, test, []);
    assert test + [] == test;
  }

  /** The test itself; a foreign slot is copied onto the taken path. */
  lemma BranchGoes(isa: Isa, m: Module, h: Config, a: nat, foreign: bool, tail: seq<Stmt>, k: seq<Stmt>)
      returns (n: nat)
    requires m.At(a + 4).Plain? && h.top.rest == [IfC(SlotIf(m, a, foreign, tail))] + k
    ensures HRun(isa, m, Running(h), n) ==
            Running(With(h, if h.top.c then tail + k else k,
                         if h.top.c && foreign then SlotCpu(isa, m, a, h.cpu) else h.cpu))
  {
    hide CStep, HRun, HStep;
    var thn := SlotIf(m, a, foreign, tail);
    var h1 := With(h, if h.top.c then thn + k else k, h.cpu);
    IfSteps(isa, m, h, thn, k);
    HRunZero(isa, m, Running(h));
    Extend(isa, m, h, 0, h, Running(h1));
    n := 1;
    if h.top.c {
      n := ExtendSlot(isa, m, h, 1, h1, a, foreign, tail, k);
    }
  }

  /** The lines of an ordinary branch; its slot is its own body's, or copied onto the taken path. */
  lemma BranchLines(m: Module, f: nat, a: nat, k: seq<Stmt>)
    requires m.At(a).Branch? && !m.At(a).likely && m.At(a + 4).Plain? && SlotDecoded(m, a)
    ensures TakenSlot(m, f, a) == !HaveSlot(m, f, a)
    ensures BranchHead(m, f, a, k) ==
            [CapCond(m.At(a).cond)] +
            SlotIf(m, a, HaveSlot(m, f, a),
                   [IfC(SlotIf(m, a, TakenSlot(m, f, a), Transfer(m, f, m.At(a).target)))] + k)
  {
    hide SlotIf, Transfer;
  }

  lemma BranchSteps(isa: Isa, m: Module, h: Config, f: nat, a: nat, k: seq<Stmt>) returns (n: nat)
    requires m.At(a).Branch? && !m.At(a).likely && m.At(a + 4).Plain? && SlotDecoded(m, a)
    requires !m.At(a).cond.VfpuTrue? && !m.At(a).cond.VfpuFalse?
    requires h.top.rest == BranchHead(m, f, a, k)
    ensures
      var taken := Holds(m.At(a).cond, h.cpu);
      HRun(isa, m, Running(h), n) ==
        Running(With(Capture(h, taken), if taken then Transfer(m, f, m.At(a).target) + k else k,
                     if taken || HaveSlot(m, f, a) then SlotCpu(isa, m, a, h.cpu) else h.cpu))
  {
    hide HRun, HStep, CStep, SlotIf, Transfer, BranchHead, HaveSlot, TakenSlot, SlotDecoded, SlotCpu, Holds;
    var have, foreign, insn := HaveSlot(m, f, a), TakenSlot(m, f, a), m.At(a);
    var tail := Transfer(m, f, insn.target);
    var test := [IfC(SlotIf(m, a, foreign, tail))] + k;
    BranchLines(m, f, a, k);
    n := BranchTest(isa, m, h, a, insn.cond, have, test);
    var h1 := HRun(isa, m, Running(h), n).at;
    var j := BranchGoes(isa, m, h1, a, foreign, tail, k);
    HRunAdd(isa, m, Running(h), n, j);
    n := n + j;
  }

  /** What a fall-through of the whole construct needs to be together again at the next address. */
  lemma FallsTogether(isa: Isa, m: Module, outer: seq<nat>, g: Guest, g': Guest, h: Config, h': Config)
    requires AtHead(isa, m, outer, g, h) && m.At(g.pc).FallsThrough()
    requires g'.pc == Next(m, h.top.body, g.pc) && g'.npc == g'.pc + 4
    requires h' == With(h.(top := h'.top), Rest(m, h.top.body, g.pc), g'.cpu) && h'.top.body == h.top.body
    ensures Match(m, outer, g', Running(h'))
  {
    hide WellFormed, InsnOk, Reaches, Head, Alias, Following, Lab, IsSlot, Next, Chained;
    FallsPastAlias(isa, m, h.top.body, g.pc);
  }

  lemma TransferTogether(m: Module, outer: seq<nat>, g': Guest, h': Config, f: nat, t: nat, k: seq<Stmt>)
    requires f in m.funcs && h'.top.body == f && h'.top.rest == Transfer(m, f, t) + k
    requires m.Owned(t, f) ==> Lab(m, t)
    requires g'.pc == t && g'.npc == t + 4 && h'.cpu == g'.cpu && h'.unwind == 0
    requires Chained(m, h'.stack, h'.frames, outer)
    ensures Match(m, outer, g', Running(h'))
  {
    TransferReaches(m, f, t, k);
  }

  lemma OneStep(isa: Isa, m: Module, g: Guest)
    ensures Run(isa, m, g, 1) == Step(isa, m, g)
  {
  }

  lemma BranchRuns(isa: Isa, m: Module, outer: seq<nat>, g: Guest, h: Config) returns (i: nat, n: nat)
    requires AtHead(isa, m, outer, g, h)
    requires m.At(g.pc).Branch? && !m.At(g.pc).linking && !m.At(g.pc).likely
    ensures i > 0 && Advances(isa, m, outer, g, Running(h), i, n)
  {
    var f, a := h.top.body, g.pc;
    var insn, k := m.At(a), Rest(m, f, a);
    var taken := Holds(insn.cond, g.cpu);
    n := BranchSteps(isa, m, h, f, a, k);
    var h' := HRun(isa, m, Running(h), n).at;
    if taken {
      i := 2;
      TwoSteps(isa, m, g);
      if m.Owned(insn.target, f) { assert Names(m, a, insn.target); }
      TransferTogether(m, outer, AfterSlot(isa, m, g), h', f, insn.target, k);
    } else if HaveSlot(m, f, a) {
      i := 2;
      TwoSteps(isa, m, g);
      FallsTogether(isa, m, outer, g, AfterSlot(isa, m, g), h, h');
    } else {
      i := 1;
      OneStep(isa, m, g);
      FallsTogether(isa, m, outer, g, Step(isa, m, g), h, h');
    }
  }

  /** A likely branch: the slot runs on the taken path only, and is nullified on the other. */
  lemma LikelyRuns(isa: Isa, m: Module, outer: seq<nat>, g: Guest, h: Config) returns (i: nat, n: nat)
    requires AtHead(isa, m, outer, g, h)
    requires m.At(g.pc).Branch? && !m.At(g.pc).linking && m.At(g.pc).likely
    ensures i > 0 && Advances(isa, m, outer, g, Running(h), i, n)
  {
    var f, a := h.top.body, g.pc;
    var insn, k := m.At(a), Rest(m, f, a);
    var tail := Transfer(m, f, insn.target);
    var thn := SlotIf(m, a, true, tail);
    assert h.top.rest == [IfCond(insn.cond, thn)] + k;
    IfCondSteps(isa, m, h, insn.cond, thn, k);
    HRunZero(isa, m, Running(h));
    if Holds(insn.cond, g.cpu) {
      var h1 := With(h, thn + k, h.cpu);
      Extend(isa, m, h, 0, h, Running(h1));
      n := ExtendSlot(isa, m, h, 1, h1, a, true, tail, k);
      i := 2;
      TwoSteps(isa, m, g);
      if m.Owned(insn.target, f) { assert Names(m, a, insn.target); }
      TransferTogether(m, outer, AfterSlot(isa, m, g), HRun(isa, m, Running(h), n).at, f, insn.target, k);
    } else {
      i, n := 1, 1;
      OneStep(isa, m, g);
      Extend(isa, m, h, 0, h, Running(With(h, k, h.cpu)));
      FallsTogether(isa, m, outer, g, Step(isa, m, g), h, With(h, k, h.cpu));
    }
  }

  lemma IfCondSteps(isa: Isa, m: Module, h: Config, cond: Cond, thn: seq<Stmt>, k: seq<Stmt>)
    requires h.top.rest == [IfCond(cond, thn)] + k && !cond.VfpuTrue? && !cond.VfpuFalse?
    ensures CStep(isa, m, h) == Running(With(h, if Holds(cond, h.cpu) then thn + k else k, h.cpu))
  {
  }

  // -- linking branches

  /** The slot sits inside the taken path. */
  predicate SlotInside(m: Module, f: nat, a: nat)
  {
    TakenSlot(m, f, a) || (HaveSlot(m, f, a) && m.At(a).Branch? && m.At(a).likely)
  }

  /** The lines of a linking branch up to its test: the link register is set on both paths, before the slot. */
  lemma LinkingTest(isa: Isa, m: Module, h: Config, f: nat, a: nat, b: bool, k: seq<Stmt>) returns (n: nat)
    requires m.At(a).Branch? && m.At(a + 4).Plain?
    requires !m.At(a).cond.VfpuTrue? && !m.At(a).cond.VfpuFalse?
    requires h.top.rest == LinkingHead(m, f, a, b, k)
    ensures
      var linked := SetReg(h.cpu, RA, a + 8);
      HRun(isa, m, Running(h), n) ==
        Running(With(Capture(h, Holds(m.At(a).cond, h.cpu)), [IfC(LinkingThen(m, f, a, SlotInside(m, f, a), b))] + k,
                     if HaveSlot(m, f, a) && !m.At(a).likely then SlotCpu(isa, m, a, linked) else linked))
  {
    var insn, outside := m.At(a), HaveSlot(m, f, a) && !m.At(a).likely;
    var test := [IfC(LinkingThen(m, f, a, SlotInside(m, f, a), b))] + k;
    var rest := SlotIf(m, a, outside, test);
    var h1 := With(Capture(h, Holds(insn.cond, h.cpu)), [Link(RA, a + 8)] + rest, h.cpu);
    var h2 := With(h1, rest, SetReg(h.cpu, RA, a + 8));
    hide CStep, HRun, HStep, LinkingThen, HaveSlot, TakenSlot;
    CapCondSteps(isa, m, h, insn.cond, [Link(RA, a + 8)] + rest);
    HRunZero(isa, m, Running(h));
    Extend(isa, m, h, 0, h, Running(h1));
    LinkSteps(isa, m, h1, RA, a + 8, rest);
    Extend(isa, m, h, 1, h1, Running(h2));
    assert rest == rest + [];
    n := ExtendSlot(isa, m, h, 2, h2, a, outside, test, []);
    assert test + [] == test;
  }

  /** A taken linking branch goes on as a call that resumes after the slot. */
  lemma LinkingTaken(isa: Isa, m: Module, h: Config, f: nat, a: nat, b: bool, k: seq<Stmt>) returns (n: nat)
    requires m.At(a).Branch? && m.At(a + 4).Plain? && h.top.c
    requires h.top.rest == [IfC(LinkingThen(m, f, a, SlotInside(m, f, a), b))] + k
    ensures HRun(isa, m, Running(h), n) ==
      Running(With(h, Call(LinkingCallee(m, f, m.At(a).target), a + 8, Resume(m, f, a, b) + k),
                   if SlotInside(m, f, a) then SlotCpu(isa, m, a, h.cpu) else h.cpu))
  {
    var inside, callee, resume := SlotInside(m, f, a), LinkingCallee(m, f, m.At(a).target), Resume(m, f, a, b);
    var thn := LinkingThen(m, f, a, inside, b);
    var call := [CallBegin(a + 8)] + ([callee] + ([CallEnd(a + 8)] + resume));
    var h1 := With(h, thn + k, h.cpu);
    hide CStep, HRun, HStep, SlotInside, LinkingCallee, Resume, SlotCpu, SlotIf, Lab;
    IfSteps(isa, m, h, thn, k);
    HRunZero(isa, m, Running(h));
    Extend(isa, m, h, 0, h, Running(h1));
    n := ExtendSlot(isa, m, h, 1, h1, a, inside, call, k);
    assert call + k == Call(callee, a + 8, resume + k);
  }

  lemma DispatchBack(m: Module, f: nat, a: nat, k: seq<Stmt>)
    requires !m.Owned(a, f)
    ensures Reaches(m, f, ([Dispatch(a)] + [Return]) + k, a)
  {
    assert (([Dispatch(a)] + [Return]) + k)[1..] == [Return] + k;
  }

  lemma ResumeReaches(isa: Isa, m: Module, outer: seq<nat>, g: Guest, h: Config)
    requires AtHead(isa, m, outer, g, h) && m.At(g.pc).Branch? && m.At(g.pc).linking
    ensures Reaches(m, h.top.body, Resume(m, h.top.body, g.pc, Lab(m, g.pc + 8)) + Rest(m, h.top.body, g.pc), g.pc + 8)
  {
    hide WellFormed, InsnOk, Reaches, Head, Alias, Following, Lab, IsSlot, Next, Chained, HaveSlot, Resume, Rest;
    var f, a := h.top.body, g.pc;
    FallsPastAlias(isa, m, f, a);
    PastSlot(m, f, a);
    CallLabelled(m, f, a);
    ResumeGoes(m, f, a, Rest(m, f, a));
  }

  lemma CallLabelled(m: Module, f: nat, a: nat)
    requires m.Owned(a, f) && m.At(a).IsCall() && !m.At(a).IsGetPc(a)
    ensures m.Owned(a + 8, f) ==> Lab(m, a + 8)
  {
    assert Names(m, a, a + 8);
  }

  lemma PastSlot(m: Module, f: nat, a: nat)
    requires f in m.funcs
    ensures HaveSlot(m, f, a) ==> Next(m, f, a) == a + 8
    ensures Rest(m, f, a) == Alias(m, f, a, Lab(m, a + 4), Following(m, f, a))
  {
    hide Alias, Following, Lab;
  }

  lemma ResumeGoes(m: Module, f: nat, a: nat, k: seq<Stmt>)
    requires f in m.funcs && (HaveSlot(m, f, a) ==> Reaches(m, f, k, a + 8)) && (m.Owned(a + 8, f) ==> Lab(m, a + 8))
    ensures Reaches(m, f, Resume(m, f, a, Lab(m, a + 8)) + k, a + 8)
  {
    hide Reaches, Lab, HaveSlot;
    if HaveSlot(m, f, a) {
      assert [] + k == k;
    } else if !(m.Owned(a + 8, f) && Lab(m, a + 8)) {
      DispatchBack(m, f, a + 8, k);
    } else {
      GotoReaches(m, f, a + 8, k);
    }
  }

  lemma GotoReaches(m: Module, f: nat, a: nat, k: seq<Stmt>)
    requires f in m.funcs && m.Owned(a, f) && Lab(m, a)
    ensures Reaches(m, f, [Goto(a)] + k, a)
  {
  }

  lemma LinkingHandsOver(isa: Isa, m: Module, outer: seq<nat>, g: Guest, h: Config)
    requires AtHead(isa, m, outer, g, h) && m.At(g.pc).Branch? && m.At(g.pc).linking
    ensures HandsOver(m, h.top.body, LinkingCallee(m, h.top.body, m.At(g.pc).target), m.At(g.pc).target)
  {
    var t := m.At(g.pc).target;
    if !m.Import(t) && t !in m.funcs && m.Owned(t, h.top.body) {
      assert Names(m, g.pc, t);
      assert Thunk(m, t);
    }
  }

  /** Where a linking branch's test leaves the host. */
  ghost function Tested(isa: Isa, m: Module, g: Guest, h: Config): Config
    requires h.top.body in m.funcs && m.At(g.pc).Branch?
  {
    var f, a := h.top.body, g.pc;
    var linked := SetReg(h.cpu, RA, a + 8);
    With(Capture(h, Holds(m.At(a).cond, h.cpu)),
         [IfC(LinkingThen(m, f, a, SlotInside(m, f, a), Lab(m, a + 8)))] + Rest(m, f, a),
         if HaveSlot(m, f, a) && !m.At(a).likely then SlotCpu(isa, m, a, linked) else linked)
  }

  /** Where a taken linking branch stands when its call begins. */
  ghost function Calling(isa: Isa, m: Module, g: Guest, h: Config): Config
    requires h.top.body in m.funcs && m.At(g.pc).Branch?
  {
    var f, a := h.top.body, g.pc;
    With(Capture(h, true),
         Call(LinkingCallee(m, f, m.At(a).target), a + 8, Resume(m, f, a, Lab(m, a + 8)) + Rest(m, f, a)),
         SlotCpu(isa, m, a, SetReg(h.cpu, RA, a + 8)))
  }

  lemma TestReady(isa: Isa, m: Module, outer: seq<nat>, g: Guest, h: Config)
    requires AtHead(isa, m, outer, g, h) && m.At(g.pc).Branch? && m.At(g.pc).linking
    ensures h.top.body in m.funcs && m.At(g.pc + 4).Plain?
    ensures !m.At(g.pc).cond.VfpuTrue? && !m.At(g.pc).cond.VfpuFalse?
    ensures h.top.rest == LinkingHead(m, h.top.body, g.pc, Lab(m, g.pc + 8), Rest(m, h.top.body, g.pc))
  {
    hide LinkingHead, Lab, Rest, Chained, IsSlot;
  }

  lemma TestedSteps(isa: Isa, m: Module, outer: seq<nat>, g: Guest, h: Config) returns (n: nat)
    requires AtHead(isa, m, outer, g, h) && m.At(g.pc).Branch? && m.At(g.pc).linking
    ensures HRun(isa, m, Running(h), n) == Running(Tested(isa, m, g, h))
  {
    hide AtHead, WellFormed, InsnOk, Chained, HRun, Lab, Rest, LinkingHead, HaveSlot, SlotInside, LinkingThen, SlotCpu,
         Holds, SetReg, With, Capture;
    TestReady(isa, m, outer, g, h);
    n := LinkingTest(isa, m, h, h.top.body, g.pc, Lab(m, g.pc + 8), Rest(m, h.top.body, g.pc));
  }

  lemma CallingSteps(isa: Isa, m: Module, outer: seq<nat>, g: Guest, h: Config) returns (n: nat)
    requires AtHead(isa, m, outer, g, h) && m.At(g.pc).Branch? && m.At(g.pc).linking
    requires Holds(m.At(g.pc).cond, h.cpu)
    ensures HRun(isa, m, Running(Tested(isa, m, g, h)), n) == Running(Calling(isa, m, g, h))
  {
    n := LinkingTaken(isa, m, Tested(isa, m, g, h), h.top.body, g.pc, Lab(m, g.pc + 8), Rest(m, h.top.body, g.pc));
  }

  lemma TakenGuest(isa: Isa, m: Module, outer: seq<nat>, g: Guest, h: Config)
    requires AtHead(isa, m, outer, g, h) && m.At(g.pc).HasDelaySlot()
    requires m.At(g.pc).Branch? ==> Holds(m.At(g.pc).cond, h.cpu)
    ensures Run(isa, m, g, 2) == AfterSlot(isa, m, g)
    ensures AfterSlot(isa, m, g).pc == Target(h.cpu, m.At(g.pc), g.pc + 8)
    ensures AfterSlot(isa, m, g).npc == AfterSlot(isa, m, g).pc + 4
    ensures AfterSlot(isa, m, g).cpu == SlotCpu(isa, m, g.pc, Linked(h.cpu, m.At(g.pc), g.pc))
    ensures m.At(g.pc + 4).Plain? && SlotDecoded(m, g.pc)
  {
    TwoSteps(isa, m, g);
  }

  lemma HeadParts(isa: Isa, m: Module, outer: seq<nat>, g: Guest, h: Config)
    requires AtHead(isa, m, outer, g, h)
    ensures WellFormed(isa, m) && InsnOk(isa, m, g.pc) && Chained(m, h.stack, h.frames, outer)
    ensures h.cpu == g.cpu && h.unwind == 0 && h.top.body in m.funcs && m.Owned(g.pc, h.top.body)
  {
  }

  lemma CallingParts(isa: Isa, m: Module, g: Guest, h: Config)
    requires h.top.body in m.funcs && m.At(g.pc).Branch? && m.At(g.pc).linking && m.At(g.pc + 4).Plain?
    requires Holds(m.At(g.pc).cond, h.cpu) && g.cpu == h.cpu
    requires m.Import(m.At(g.pc).target) ==> Keeps(isa, m.At(g.pc + 4).raw, g.pc + 8)
    ensures
      var t, h2, g2, f := m.At(g.pc).target, Calling(isa, m, g, h), AfterSlot(isa, m, g), h.top.body;
      && h2.top.rest == Call(LinkingCallee(m, f, t), g.pc + 8, Resume(m, f, g.pc, Lab(m, g.pc + 8)) + Rest(m, f, g.pc))
      && h2.cpu == g2.cpu && g2.pc == t
      && h2.unwind == h.unwind && h2.top.body == f && h2.stack == h.stack && h2.frames == h.frames
      && (LinkingCallee(m, f, t).CallImport? ==> g2.cpu.r[RA] == g.pc + 8)
  {
    hide Call, Resume, Rest, Lab, SlotCpu, SetReg, Keeps;
    CallingCpu(isa, m, g);
    CalleeIsImport(m, h.top.body, m.At(g.pc).target);
  }

  lemma CallingCpu(isa: Isa, m: Module, g: Guest)
    requires m.At(g.pc).Branch? && m.At(g.pc).linking && m.At(g.pc + 4).Plain? && Holds(m.At(g.pc).cond, g.cpu)
    ensures AfterSlot(isa, m, g).pc == m.At(g.pc).target
    ensures AfterSlot(isa, m, g).cpu == SlotCpu(isa, m, g.pc, SetReg(g.cpu, RA, g.pc + 8))
    ensures Keeps(isa, m.At(g.pc + 4).raw, g.pc + 8) ==> AfterSlot(isa, m, g).cpu.r[RA] == g.pc + 8
  {
    hide SetReg;
  }

  lemma CalleeIsImport(m: Module, f: nat, t: nat)
    ensures LinkingCallee(m, f, t).CallImport? ==> m.Import(t)
  {
  }

  lemma SlotLeavesLink(isa: Isa, m: Module, a: nat)
    requires a in m.owner && m.owner[a] in m.funcs && InsnOk(isa, m, a) && m.At(a + 4).Plain?
    requires m.At(a).Branch? && m.At(a).linking && m.Import(m.At(a).target)
    ensures Keeps(isa, m.At(a + 4).raw, a + 8)
  {
  }

  lemma LinkingTakenRuns(isa: Isa, m: Module, outer: seq<nat>, g: Guest, h: Config) returns (i: nat, n: nat)
    requires AtHead(isa, m, outer, g, h) && m.At(g.pc).Branch? && m.At(g.pc).linking
    requires Holds(m.At(g.pc).cond, h.cpu) && h.top.body in m.funcs
    ensures Advances(isa, m, outer, Run(isa, m, g, 2), Running(Calling(isa, m, g, h)), i, n) ||
            (i == 0 && Misses(isa, m, Run(isa, m, g, 2), Running(Calling(isa, m, g, h)), 0, n))
  {
    hide *;
    var f, a, t := h.top.body, g.pc, m.At(g.pc).target;
    TakenGuest(isa, m, outer, g, h);
    HeadParts(isa, m, outer, g, h);
    if m.Import(t) { SlotLeavesLink(isa, m, a); }
    CallingParts(isa, m, g, h);
    ResumeReaches(isa, m, outer, g, h);
    LinkingHandsOver(isa, m, outer, g, h);
    i, n := CallArrives(isa, m, outer, AfterSlot(isa, m, g), Calling(isa, m, g, h), LinkingCallee(m, f, t), a + 8,
                        Resume(m, f, a, Lab(m, a + 8)) + Rest(m, f, a));
  }

  lemma ComposeHost(isa: Isa, m: Module, outer: seq<nat>, g: Guest, h: Host, n: nat, i': nat, n': nat)
    requires Advances(isa, m, outer, g, HRun(isa, m, h, n), i', n')
    ensures Advances(isa, m, outer, g, h, i', n + n')
  {
    HRunAdd(isa, m, h, n, n');
  }

  lemma MissHost(isa: Isa, m: Module, g: Guest, h: Host, n: nat, i': nat, n': nat)
    requires Misses(isa, m, g, HRun(isa, m, h, n), i', n')
    ensures Misses(isa, m, g, h, i', n + n')
  {
    HRunAdd(isa, m, h, n, n');
  }

  /** A call has missed: its target is computed, or a static one that is not a construct of this body. */
  ghost predicate CallMisses(isa: Isa, m: Module, g: Guest, h: Config, n: nat)
  {
    && Misses(isa, m, g, Running(h), 2, n)
    && MissDue(m, h.top.body, m.At(g.pc))
  }

  ghost predicate MissDue(m: Module, f: nat, insn: Insn)
  {
    insn.Jr? || insn.Jalr? || ((insn.Jal? || insn.Branch?) && Outside(m, f, insn.target))
  }

  lemma MissIsDue(isa: Isa, m: Module, outer: seq<nat>, g: Guest, h: Config, n: nat)
    requires AtHead(isa, m, outer, g, h) && m.At(g.pc).IsCall() && !m.At(g.pc).IsGetPc(g.pc)
    requires Misses(isa, m, g, Running(h), 2, n)
    requires Run(isa, m, g, 2) == AfterSlot(isa, m, g)
    requires m.At(g.pc).Branch? ==> Holds(m.At(g.pc).cond, g.cpu)
    ensures CallMisses(isa, m, g, h, n)
  {
    hide HRun, Run, Head, Rest;
    var insn := m.At(g.pc);
    if !insn.Jalr? && m.Owned(insn.target, h.top.body) && insn.target !in m.funcs {
      assert Names(m, g.pc, insn.target);
      assert Named(m, insn.target);
    }
  }

  lemma LinkingSkipped(isa: Isa, m: Module, outer: seq<nat>, g: Guest, h: Config) returns (i: nat, n: nat)
    requires AtHead(isa, m, outer, g, h) && m.At(g.pc).Branch? && m.At(g.pc).linking
    requires !Holds(m.At(g.pc).cond, h.cpu)
    ensures i > 0 && Advances(isa, m, outer, g, Running(Tested(isa, m, g, h)), i, n)
  {
    hide AtHead, HRun, Run, Step, AfterSlot, LinkingThen, SlotInside, HaveSlot, SlotCpu, SetReg, Rest, Next, Tested;
    HeadParts(isa, m, outer, g, h);
    var f, a, h1 := h.top.body, g.pc, Tested(isa, m, g, h);
    SkippedGuest(isa, m, outer, g, h);
    SkippedHost(isa, m, outer, g, h);
    n := 1;
    i := if m.At(a).likely || !HaveSlot(m, f, a) then 1 else 2;
    FallsTogether(isa, m, outer, g, Run(isa, m, g, i), h, With(h1, Rest(m, f, a), h1.cpu));
  }

  lemma SkippedHost(isa: Isa, m: Module, outer: seq<nat>, g: Guest, h: Config)
    requires AtHead(isa, m, outer, g, h) && m.At(g.pc).Branch? && m.At(g.pc).linking
    requires !Holds(m.At(g.pc).cond, h.cpu)
    ensures var h1 := Tested(isa, m, g, h);
      && h1.top.body == h.top.body && m.At(g.pc).FallsThrough()
      && HRun(isa, m, Running(h1), 1) == Running(With(h1, Rest(m, h.top.body, g.pc), h1.cpu))
      && h1 == With(h.(top := h1.top), h1.top.rest, h1.cpu)
  {
    hide HRun, Chained, Reaches, Rest, LinkingThen, SlotInside, HaveSlot, SlotCpu, SetReg, Head;
    var f, a, h1 := h.top.body, g.pc, Tested(isa, m, g, h);
    IfSteps(isa, m, h1, LinkingThen(m, f, a, SlotInside(m, f, a), Lab(m, a + 8)), Rest(m, f, a));
    HRunOne(isa, m, Running(h1));
  }

  lemma SkippedGuest(isa: Isa, m: Module, outer: seq<nat>, g: Guest, h: Config)
    requires AtHead(isa, m, outer, g, h) && m.At(g.pc).Branch? && m.At(g.pc).linking
    requires !Holds(m.At(g.pc).cond, h.cpu)
    ensures var g' := Run(isa, m, g, if m.At(g.pc).likely || !HaveSlot(m, h.top.body, g.pc) then 1 else 2);
      && g'.pc == Next(m, h.top.body, g.pc) && g'.npc == g'.pc + 4 && g'.cpu == Tested(isa, m, g, h).cpu
  {
    hide Run, Chained, Reaches, Rest, Head, LinkingThen, SlotInside;
    if m.At(g.pc).likely || !HaveSlot(m, h.top.body, g.pc) {
      OneStep(isa, m, g);
    } else {
      TwoSteps(isa, m, g);
    }
  }

  lemma LinkingMissDue(isa: Isa, m: Module, outer: seq<nat>, g: Guest, h: Config, n: nat)
    requires AtHead(isa, m, outer, g, h) && m.At(g.pc).Branch? && m.At(g.pc).linking
    requires Holds(m.At(g.pc).cond, h.cpu) && Misses(isa, m, g, Running(h), 2, n)
    ensures CallMisses(isa, m, g, h, n)
  {
    hide Misses, CallMisses, Run, HRun, Head, Rest;
    TakenGuest(isa, m, outer, g, h);
    MissIsDue(isa, m, outer, g, h, n);
  }

  lemma LinkingRuns(isa: Isa, m: Module, outer: seq<nat>, g: Guest, h: Config) returns (i: nat, n: nat)
    requires AtHead(isa, m, outer, g, h) && m.At(g.pc).Branch? && m.At(g.pc).linking
    requires h.top.body in m.funcs
    ensures i > 0 && (Advances(isa, m, outer, g, Running(h), i, n) || (i == 2 && CallMisses(isa, m, g, h, n)))
  {
    hide *;
    var n1 := TestedSteps(isa, m, outer, g, h);
    if Holds(m.At(g.pc).cond, h.cpu) {
      var n2 := CallingSteps(isa, m, outer, g, h);
      var i3, n3 := LinkingTakenRuns(isa, m, outer, g, h);
      i, n := 2 + i3, n1 + (n2 + n3);
      if Advances(isa, m, outer, Run(isa, m, g, 2), Running(Calling(isa, m, g, h)), i3, n3) {
        ComposeHost(isa, m, outer, Run(isa, m, g, 2), Running(Tested(isa, m, g, h)), n2, i3, n3);
        Compose(isa, m, outer, g, Running(h), 2, n1, i3, n2 + n3);
      } else {
        MissHost(isa, m, Run(isa, m, g, 2), Running(Tested(isa, m, g, h)), n2, 0, n3);
        ComposeMiss(isa, m, g, Running(h), 2, n1, 0, n2 + n3);
        LinkingMissDue(isa, m, outer, g, h, n);
      }
    } else {
      var n2: nat;
      i, n2 := LinkingSkipped(isa, m, outer, g, h);
      n := n1 + n2;
      ComposeHost(isa, m, outer, g, Running(h), n1, i, n2);
    }
  }

  /** A slot that leaves the link register alone commutes with linking. */
  lemma LinkedReturn(isa: Isa, m: Module, a: nat, rd: RegIndex, cpu: Cpu)
    requires m.At(a + 4).Plain? && rd != 0
    ensures Ignores(isa, m.At(a + 4).raw, rd, a + 8) ==>
      SlotCpu(isa, m, a, SetReg(cpu, rd, a + 8)) == SetReg(SlotCpu(isa, m, a, cpu), rd, a + 8)
    ensures SetReg(SlotCpu(isa, m, a, cpu), rd, a + 8).r[rd] == a + 8
  {
  }

  // -- jal and jalr

  /** `jal .+8` only links: the slot and the link commute. */
  lemma GetPcRuns(isa: Isa, m: Module, outer: seq<nat>, g: Guest, h: Config) returns (i: nat, n: nat)
    requires AtHead(isa, m, outer, g, h) && m.At(g.pc).IsGetPc(g.pc)
    ensures i > 0 && Advances(isa, m, outer, g, Running(h), i, n)
  {
    hide AtHead, HRun, Run, SlotIf, SlotCpu, Reaches, Chained, Rest, Next, HaveSlot, Step, AfterSlot;
    GetPcGoes(isa, m, outer, g, h);
    var f, a := h.top.body, g.pc;
    var have, k := HaveSlot(m, f, a), Rest(m, f, a);
    GetPcStarts(isa, m, outer, g, h);
    n := LinkedSteps(isa, m, h, a, have, RA, k);
    var h' := HRun(isa, m, Running(h), n).at;
    if have {
      i := 2;
      FallsTogether(isa, m, outer, g, AfterSlot(isa, m, g), h, h');
    } else {
      i := 1;
      FallsTogether(isa, m, outer, g, Step(isa, m, g), h, h');
    }
  }

  lemma GetPcGoes(isa: Isa, m: Module, outer: seq<nat>, g: Guest, h: Config)
    requires AtHead(isa, m, outer, g, h) && m.At(g.pc).IsGetPc(g.pc)
    ensures h.top.body in m.funcs && m.Owned(g.pc, h.top.body) && h.cpu == g.cpu
    ensures m.At(g.pc).FallsThrough() && m.At(g.pc + 4).Plain?
    ensures Run(isa, m, g, 1) == Step(isa, m, g) && Run(isa, m, g, 2) == AfterSlot(isa, m, g)
  {
    hide Chained, Reaches, Rest, Head, SlotCpu, Run, Step, AfterSlot;
    OneStep(isa, m, g);
    TwoSteps(isa, m, g);
  }

  lemma GetPcStarts(isa: Isa, m: Module, outer: seq<nat>, g: Guest, h: Config)
    requires AtHead(isa, m, outer, g, h) && m.At(g.pc).IsGetPc(g.pc)
    ensures var f, a := h.top.body, g.pc;
      var have := HaveSlot(m, f, a);
      var g' := if have then AfterSlot(isa, m, g) else Step(isa, m, g);
      && h.top.rest == SlotIf(m, a, have, [Link(RA, a + 8)] + Rest(m, f, a))
      && g'.pc == Next(m, f, a) && g'.npc == g'.pc + 4
      && g'.cpu == SetReg(if have then SlotCpu(isa, m, a, g.cpu) else g.cpu, RA, a + 8)
  {
    hide Chained, Reaches, Rest;
    LinkedReturn(isa, m, g.pc, RA, g.cpu);
  }

  lemma LinkedSteps(isa: Isa, m: Module, h: Config, a: nat, have: bool, rd: RegIndex, k: seq<Stmt>) returns (n: nat)
    requires m.At(a + 4).Plain? && h.top.rest == SlotIf(m, a, have, [Link(rd, a + 8)] + k)
    ensures HRun(isa, m, Running(h), n) ==
            Running(With(h, k, SetReg(if have then SlotCpu(isa, m, a, h.cpu) else h.cpu, rd, a + 8)))
  {
    hide CStep, HRun, HStep;
    var linked := [Link(rd, a + 8)] + k;
    HRunZero(isa, m, Running(h));
    assert SlotIf(m, a, have, linked) == SlotIf(m, a, have, linked) + [];
    n := ExtendSlot(isa, m, h, 0, h, a, have, linked, []);
    assert linked + [] == linked;
    var h1 := With(h, linked, if have then SlotCpu(isa, m, a, h.cpu) else h.cpu);
    LinkSteps(isa, m, h1, rd, a + 8, k);
    Extend(isa, m, h, n, h1, Running(With(h, k, SetReg(h1.cpu, rd, a + 8))));
    n := n + 1;
  }

  /** A call at its PSP_CALL_BEGIN, the guest already at the callee. */
  ghost predicate AtCall(isa: Isa, m: Module, outer: seq<nat>, g: Guest, h: Config, callee: Stmt, ret: nat,
                         k: seq<Stmt>)
  {
    && WellFormed(isa, m) && h.top.rest == Call(callee, ret, k) && ret != 0
    && (HandsOver(m, h.top.body, callee, g.pc) || (callee == DispatchT && h.top.t == g.pc))
    && h.unwind == 0 && h.cpu == g.cpu && g.npc == g.pc + 4
    && Reaches(m, h.top.body, k, ret) && Chained(m, h.stack, h.frames, outer)
    && (callee.CallImport? ==> g.cpu.r[RA] == ret)
  }

  lemma JalSteps(isa: Isa, m: Module, outer: seq<nat>, g: Guest, h: Config) returns (n: nat)
    requires AtHead(isa, m, outer, g, h) && m.At(g.pc).Jal? && !m.At(g.pc).IsGetPc(g.pc)
    ensures
      var h' := HRun(isa, m, Running(h), n);
      h'.Running? && AtCall(isa, m, outer, AfterSlot(isa, m, g), h'.at, StaticCall(m, m.At(g.pc).target), g.pc + 8,
                            Rest(m, h.top.body, g.pc))
  {
    var f, a := h.top.body, g.pc;
    n := LinkedSteps(isa, m, h, a, true, RA, Call(StaticCall(m, m.At(a).target), a + 8, Rest(m, f, a)));
    LinkedReturn(isa, m, a, RA, g.cpu);
    FallsPastAlias(isa, m, f, a);
  }

  lemma JalRuns(isa: Isa, m: Module, outer: seq<nat>, g: Guest, h: Config) returns (i: nat, n: nat)
    requires AtHead(isa, m, outer, g, h) && m.At(g.pc).Jal? && !m.At(g.pc).IsGetPc(g.pc) && h.top.body in m.funcs
    ensures i > 0 && (Advances(isa, m, outer, g, Running(h), i, n) || (i == 2 && CallMisses(isa, m, g, h, n)))
  {
    hide *;
    CallHasSlot(m, g.pc);
    var n1 := JalSteps(isa, m, outer, g, h);
    TakenGuest(isa, m, outer, g, h);
    var i2, n2 := AtCallArrives(isa, m, outer, AfterSlot(isa, m, g), HRun(isa, m, Running(h), n1).at,
                                StaticCall(m, m.At(g.pc).target), g.pc + 8, Rest(m, h.top.body, g.pc));
    i, n := 2 + i2, n1 + n2;
    CallComposes(isa, m, outer, g, h, n1, i2, n2);
  }

  /** A jal or jalr whose call has arrived, or missed. */
  lemma CallComposes(isa: Isa, m: Module, outer: seq<nat>, g: Guest, h: Config, n1: nat, i2: nat, n2: nat)
    requires AtHead(isa, m, outer, g, h) && Run(isa, m, g, 2) == AfterSlot(isa, m, g)
    requires (m.At(g.pc).Jal? && !m.At(g.pc).IsGetPc(g.pc)) || m.At(g.pc).Jalr?
    requires var g1, h1 := AfterSlot(isa, m, g), HRun(isa, m, Running(h), n1);
             Advances(isa, m, outer, g1, h1, i2, n2) || (i2 == 0 && Misses(isa, m, g1, h1, 0, n2))
    ensures Advances(isa, m, outer, g, Running(h), 2 + i2, n1 + n2) || (i2 == 0 && CallMisses(isa, m, g, h, n1 + n2))
  {
    hide AtHead, Advances, Misses, CallMisses, AfterSlot, Run, HRun;
    if Advances(isa, m, outer, AfterSlot(isa, m, g), HRun(isa, m, Running(h), n1), i2, n2) {
      Compose(isa, m, outer, g, Running(h), 2, n1, i2, n2);
    } else {
      ComposeMiss(isa, m, g, Running(h), 2, n1, 0, n2);
      MissIsDue(isa, m, outer, g, h, n1 + n2);
    }
  }

  lemma AtCallArrives(isa: Isa, m: Module, outer: seq<nat>, g: Guest, h: Config, callee: Stmt, ret: nat, k: seq<Stmt>)
    returns (i: nat, n: nat)
    requires AtCall(isa, m, outer, g, h, callee, ret, k)
    ensures Advances(isa, m, outer, g, Running(h), i, n) || (i == 0 && Misses(isa, m, g, Running(h), 0, n))
  {
    hide WellFormed, Reaches, Chained, HandsOver, Call, Advances, Misses;
    i, n := CallArrives(isa, m, outer, g, h, callee, ret, k);
  }

  lemma CallHasSlot(m: Module, a: nat)
    ensures !m.At(a).Plain? ==> m.At(a).HasDelaySlot()
  {
  }

  /** The lines of a jalr before its call: the target register is read before the slot runs. */
  lemma JalrLines(isa: Isa, m: Module, h: Config, a: nat, rs: RegIndex, rd: RegIndex, k: seq<Stmt>) returns (n: nat)
    requires m.At(a + 4).Plain?
    requires h.top.rest == [CapReg(rs)] + SlotIf(m, a, true, [Link(rd, a + 8)] + k)
    ensures HRun(isa, m, Running(h), n) ==
            Running(With(h.(top := h.top.(t := h.cpu.r[rs])), k, SetReg(SlotCpu(isa, m, a, h.cpu), rd, a + 8)))
  {
    hide CStep, HRun, HStep, SlotIf;
    var linked := SlotIf(m, a, true, [Link(rd, a + 8)] + k);
    var h1 := With(h.(top := h.top.(t := h.cpu.r[rs])), linked, h.cpu);
    CapRegSteps(isa, m, h, rs, linked);
    HRunZero(isa, m, Running(h));
    Extend(isa, m, h, 0, h, Running(h1));
    var j := LinkedSteps(isa, m, h1, a, true, rd, k);
    HRunAdd(isa, m, Running(h), 1, j);
    n := 1 + j;
  }

  lemma JalrSteps(isa: Isa, m: Module, outer: seq<nat>, g: Guest, h: Config) returns (n: nat)
    requires AtHead(isa, m, outer, g, h) && m.At(g.pc).Jalr?
    ensures
      var h' := HRun(isa, m, Running(h), n);
      h'.Running? && AtCall(isa, m, outer, AfterSlot(isa, m, g), h'.at, DispatchT, g.pc + 8, Rest(m, h.top.body, g.pc))
  {
    var f, a := h.top.body, g.pc;
    var insn, k := m.At(a), Rest(m, f, a);
    n := JalrLines(isa, m, h, a, insn.rs, insn.rd, Call(DispatchT, a + 8, k));
    LinkedReturn(isa, m, a, insn.rd, g.cpu);
    FallsPastAlias(isa, m, f, a);
  }

  lemma JalrRuns(isa: Isa, m: Module, outer: seq<nat>, g: Guest, h: Config) returns (i: nat, n: nat)
    requires AtHead(isa, m, outer, g, h) && m.At(g.pc).Jalr? && h.top.body in m.funcs
    ensures i > 0 && (Advances(isa, m, outer, g, Running(h), i, n) || (i == 2 && CallMisses(isa, m, g, h, n)))
  {
    hide *;
    CallHasSlot(m, g.pc);
    var n1 := JalrSteps(isa, m, outer, g, h);
    TakenGuest(isa, m, outer, g, h);
    var i2, n2 := AtCallArrives(isa, m, outer, AfterSlot(isa, m, g), HRun(isa, m, Running(h), n1).at, DispatchT,
                                g.pc + 8, Rest(m, h.top.body, g.pc));
    i, n := 2 + i2, n1 + n2;
    CallComposes(isa, m, outer, g, h, n1, i2, n2);
  }

  // -- jr and j

  /** The host has run a jr's slot: _t holds the guest's pc and only the transfer is left. */
  ghost predicate Departing(isa: Isa, m: Module, outer: seq<nat>, g: Guest, h: Config)
  {
    && WellFormed(isa, m) && h.top.t == g.pc && g.npc == g.pc + 4
    && h.unwind == 0 && h.cpu == g.cpu && Chained(m, h.stack, h.frames, outer)
  }

  lemma JrLines(isa: Isa, m: Module, h: Config, a: nat, rs: RegIndex, go: seq<Stmt>) returns (n: nat)
    requires m.At(a + 4).Plain? && h.top.rest == [CapReg(rs)] + SlotIf(m, a, true, go)
    ensures HRun(isa, m, Running(h), n) ==
            Running(With(h.(top := h.top.(t := h.cpu.r[rs])), go, SlotCpu(isa, m, a, h.cpu)))
  {
    hide CStep, HRun, HStep;
    var h1 := With(h.(top := h.top.(t := h.cpu.r[rs])), SlotIf(m, a, true, go), h.cpu);
    CapRegSteps(isa, m, h, rs, SlotIf(m, a, true, go));
    HRunZero(isa, m, Running(h));
    Extend(isa, m, h, 0, h, Running(h1));
    assert SlotIf(m, a, true, go) == SlotIf(m, a, true, go) + [];
    n := ExtendSlot(isa, m, h, 1, h1, a, true, go, []);
    assert go + [] == go;
  }

  /** A computed jump goes through dispatch in tail position. */
  lemma DispatchTRuns(isa: Isa, m: Module, outer: seq<nat>, g: Guest, h: Config, k: seq<Stmt>) returns (n: nat)
    requires Departing(isa, m, outer, g, h) && h.top.rest == [DispatchT] + k && Tail(k)
    ensures Arrived(m, outer, g, HRun(isa, m, Running(h), n))
    ensures var h' := HRun(isa, m, Running(h), n); h'.Running? ==> h'.at.frames == h.frames
  {
    TailPushed(m, outer, h, k);
    DispatchTSteps(isa, m, h);
    assert h.top.rest[1..] == k;
    hide HStep, HRun, Chained, Dispatched, Arrived;
    var i := DispatchArrives(isa, m, outer, g, h, k);
    HRunStep(isa, m, Running(h), i);
    n := 1 + i;
  }

  lemma RaIsJumpSteps(isa: Isa, m: Module, h: Config, thn: seq<Stmt>, k: seq<Stmt>)
    requires h.top.rest == [IfRaIsJump(thn)] + k
    ensures CStep(isa, m, h) ==
      match RaIsJump(h.frames, h.top.t)
      case Returns => Running(With(h, k, h.cpu))
      case Unwinds => Running(With(h, k, h.cpu).(unwind := h.top.t))
      case Jumps => Running(With(h, thn + k, h.cpu))
  {
  }

  lemma {:induction false} SegmentIsNonZero(frames: seq<nat>, ra: nat)
    requires InSegment(frames, ra)
    ensures ra != 0 && ra in frames
  {
    if frames[0] != ra { SegmentIsNonZero(frames[1..], ra); }
  }

  /** A return, with or without an unwind pending, ends at the innermost call that owns the return site, or
      under a host frame in the host. */
  lemma ReturnRuns(isa: Isa, m: Module, outer: seq<nat>, g: Guest, h: Config, k: seq<Stmt>) returns (n: nat)
    requires h.top.rest == [Return] + k && h.cpu == g.cpu && g.npc == g.pc + 4 && Chained(m, h.stack, h.frames, outer)
    requires (h.unwind == 0 && (h.frames[0] == 0 || h.frames[0] == g.pc))
             || (h.unwind == g.pc && InSegment(h.frames, g.pc))
    ensures
      var h' := HRun(isa, m, Running(h), n);
      if h.frames[0] == 0 then h' == Done(g.cpu, [0] + outer, 0)
      else InSegment(h.frames, g.pc) && ResumedAt(m, outer, h, h', g.pc)
  {
    hide Chained, ResumedAt, HRun;
    var i;
    if h.unwind == 0 && h.frames[0] == 0 {
      i := LeaveToHost(isa, m, outer, h);
    } else {
      SegmentIsNonZero(h.frames, g.pc);
      i := LeaveResumes(isa, m, outer, h, g.pc);
    }
    assert HStep(isa, m, Running(h)) == Leave(h);
    HRunStep(isa, m, Running(h), i);
    n := 1 + i;
  }

  /** jr $ra refines a plain jump. Under a host frame it is a return to the host, whatever $ra holds. Under a
      guest frame, when a call of this host segment owns $ra, control resumes at the innermost such call with
      the frame chain cut exactly below it and nothing pending; when none does, it is a jump that keeps the chain. */
  lemma JrRaRefinesJump(isa: Isa, m: Module, outer: seq<nat>, g: Guest, h: Config, k: seq<Stmt>) returns (n: nat)
    requires Departing(isa, m, outer, g, h) && h.frames != []
    requires h.top.rest == [IfRaIsJump([DispatchT] + [Return])] + ([Return] + k)
    ensures
      var h' := HRun(isa, m, Running(h), n);
      if h.frames[0] == 0 then h' == Done(g.cpu, [0] + outer, 0)
      else if InSegment(h.frames, g.pc) then ResumedAt(m, outer, h, h', g.pc)
      else Arrived(m, outer, g, h') && (h'.Running? ==> h'.at.frames == h.frames)
  {
    var thn, ret := [DispatchT] + [Return], [Return] + k;
    RaIsJumpSteps(isa, m, h, thn, ret);
    HRunOne(isa, m, Running(h));
    var i: nat;
    if RaIsJump(h.frames, h.top.t).Jumps? {
      assert thn + ret == [DispatchT] + ([Return] + ret);
      i := DispatchTRuns(isa, m, outer, g, With(h, thn + ret, h.cpu), [Return] + ret);
    } else {
      var u := if RaIsJump(h.frames, h.top.t).Unwinds? then h.top.t else 0;
      i := ReturnRuns(isa, m, outer, g, With(h, ret, h.cpu).(unwind := u), k);
    }
    HRunStep(isa, m, Running(h), i);
    n := 1 + i;
  }

  lemma JrRuns(isa: Isa, m: Module, outer: seq<nat>, g: Guest, h: Config) returns (i: nat, n: nat)
    requires AtHead(isa, m, outer, g, h) && m.At(g.pc).Jr? && h.top.body in m.funcs
    ensures i == 2
    ensures Advances(isa, m, outer, g, Running(h), i, n) || CallMisses(isa, m, g, h, n)
            || Returned(isa, m, outer, g, h, n)
  {
    hide *;
    var n1 := JrDeparts(isa, m, outer, g, h);
    CallHasSlot(m, g.pc);
    TakenGuest(isa, m, outer, g, h);
    var h1 := HRun(isa, m, Running(h), n1).at;
    var g1 := AfterSlot(isa, m, g);
    var n2 := DepartureRuns(isa, m, outer, g1, h1, m.At(g.pc).rs == RA, Rest(m, h.top.body, g.pc));
    i, n := 2, n1 + n2;
    if Advances(isa, m, outer, g1, Running(h1), 0, n2) {
      Compose(isa, m, outer, g, Running(h), 2, n1, 0, n2);
    } else if Misses(isa, m, g1, Running(h1), 0, n2) {
      ComposeMiss(isa, m, g, Running(h), 2, n1, 0, n2);
      JrMissDue(isa, m, g, h, n);
    } else {
      HRunAdd(isa, m, Running(h), n1, n2);
      JrReturned(isa, m, outer, g, h, n);
    }
  }

  lemma JrMissDue(isa: Isa, m: Module, g: Guest, h: Config, n: nat)
    requires m.At(g.pc).Jr? && Misses(isa, m, g, Running(h), 2, n)
    ensures CallMisses(isa, m, g, h, n)
  {
    hide Misses;
  }

  /** A jr $ra under a host frame has gone back to the host, with the chain the host pushed and nothing pending. */
  ghost predicate Returned(isa: Isa, m: Module, outer: seq<nat>, g: Guest, h: Config, n: nat)
  {
    && m.At(g.pc) == Jr(RA) && !m.Import(g.pc) && h.frames != [] && h.frames[0] == 0
    && HRun(isa, m, Running(h), n) == Done(Run(isa, m, g, 2).cpu, [0] + outer, 0)
  }

  lemma JrReturned(isa: Isa, m: Module, outer: seq<nat>, g: Guest, h: Config, n: nat)
    requires AtHead(isa, m, outer, g, h) && m.At(g.pc).Jr? && m.At(g.pc).rs == RA
    requires h.frames != [] && h.frames[0] == 0
    requires HRun(isa, m, Running(h), n) == Done(Run(isa, m, g, 2).cpu, [0] + outer, 0)
    ensures Returned(isa, m, outer, g, h, n)
  {
    hide Run, HRun, Head, Rest;
  }

  /** The transfer a jr ends in. */
  function Departure(isReturn: bool, k: seq<Stmt>): seq<Stmt>
  {
    if isReturn then [IfRaIsJump([DispatchT] + [Return])] + ([Return] + k) else [DispatchT] + ([Return] + k)
  }

  lemma JrDeparts(isa: Isa, m: Module, outer: seq<nat>, g: Guest, h: Config) returns (n: nat)
    requires AtHead(isa, m, outer, g, h) && m.At(g.pc).Jr?
    ensures
      var h' := HRun(isa, m, Running(h), n);
      && h'.Running? && Departing(isa, m, outer, AfterSlot(isa, m, g), h'.at) && h'.at.frames == h.frames
      && h'.at.top.rest == Departure(m.At(g.pc).rs == RA, Rest(m, h.top.body, g.pc))
  {
    n := JrLines(isa, m, h, g.pc, m.At(g.pc).rs, Departure(m.At(g.pc).rs == RA, Rest(m, h.top.body, g.pc)));
  }

  lemma DepartureRuns(isa: Isa, m: Module, outer: seq<nat>, g: Guest, h: Config, isReturn: bool, k: seq<Stmt>)
      returns (n: nat)
    requires Departing(isa, m, outer, g, h) && h.top.rest == Departure(isReturn, k)
    ensures Advances(isa, m, outer, g, Running(h), 0, n) || Misses(isa, m, g, Running(h), 0, n) ||
            (isReturn && h.frames != [] && h.frames[0] == 0
              && HRun(isa, m, Running(h), n) == Done(g.cpu, [0] + outer, 0))
  {
    hide HStep, HRun, WellFormed;
    GuestZero(isa, m, g);
    if isReturn {
      n := JrRaRefinesJump(isa, m, outer, g, h, k);
    } else {
      n := DispatchTRuns(isa, m, outer, g, h, [Return] + k);
    }
  }

  lemma GuestZero(isa: Isa, m: Module, g: Guest)
    ensures Run(isa, m, g, 0) == g
  {
  }

  /** The lines of a j after its slot. */
  ghost function JumpLines(m: Module, f: nat, t: nat, k: seq<Stmt>): seq<Stmt>
  {
    if m.Owned(t, f) && t !in m.funcs then [Goto(t)] + k else [StaticCall(m, t)] + ([Return] + k)
  }

  lemma JStarts(isa: Isa, m: Module, outer: seq<nat>, g: Guest, h: Config)
    requires AtHead(isa, m, outer, g, h) && m.At(g.pc).J?
    ensures h.top.body in m.funcs && m.At(g.pc + 4).Plain?
    ensures h.top.rest == SlotIf(m, g.pc, true, JumpLines(m, h.top.body, m.At(g.pc).target, Rest(m, h.top.body, g.pc)))
  {
    hide Rest, Chained, IsSlot, Lab, InsnOk, StaticCall;
  }

  lemma JumpReaches(m: Module, f: nat, a: nat, k: seq<Stmt>)
    requires f in m.funcs && m.Owned(a, f) && m.At(a).J?
    ensures Reaches(m, f, JumpLines(m, f, m.At(a).target, k), m.At(a).target)
  {
    var t := m.At(a).target;
    if m.Owned(t, f) && t !in m.funcs {
      assert Names(m, a, t);
      hide StaticCall;
    } else {
      assert JumpLines(m, f, t, k)[1..] == [Return] + k;
      hide Code, Spot, Lab;
    }
  }

  lemma JRuns(isa: Isa, m: Module, outer: seq<nat>, g: Guest, h: Config) returns (i: nat, n: nat)
    requires AtHead(isa, m, outer, g, h) && m.At(g.pc).J?
    ensures i == 2 && Advances(isa, m, outer, g, Running(h), i, n)
    ensures HRun(isa, m, Running(h), n) ==
            Running(With(h, JumpLines(m, h.top.body, m.At(g.pc).target, Rest(m, h.top.body, g.pc)),
                         SlotCpu(isa, m, g.pc, h.cpu)))
  {
    hide AtHead, Rest, JumpLines, HRun, Run, SlotIf, SlotCpu, Reaches, Chained, WellFormed, InsnOk, IsSlot, Lab;
    var f, a := h.top.body, g.pc;
    JStarts(isa, m, outer, g, h);
    HeadParts(isa, m, outer, g, h);
    var go := JumpLines(m, f, m.At(a).target, Rest(m, f, a));
    assert SlotIf(m, a, true, go) + [] == SlotIf(m, a, true, go) && go + [] == go;
    n := SlotRuns(isa, m, h, a, true, go, []);
    i := 2;
    TakenGuest(isa, m, outer, g, h);
    JumpReaches(m, f, a, Rest(m, f, a));
  }

  /** The standalone copy of a slot runs it as an ordinary instruction. */
  lemma SlotCopyRuns(isa: Isa, m: Module, outer: seq<nat>, g: Guest, h: Config) returns (i: nat, n: nat)
    requires WellFormed(isa, m) && Standing(m, outer, g, Running(h)) && IsSlot(m, g.pc)
    ensures i > 0 && Advances(isa, m, outer, g, Running(h), i, n)
  {
    hide HRun, HStep, CStep, EmitFrom;
    var f, a := h.top.body, g.pc;
    assert InsnOk(isa, m, a - 4);
    NextIsNoSlot(m, f, a - 4);
    var k := Code(m, f, a + 4);
    var h1 := With(h, [SlotStmt(m, a - 4)] + k, h.cpu);
    LabelSteps(isa, m, h, a, [SlotStmt(m, a - 4)] + k);
    DoSteps(isa, m, h1, m.At(a).raw, k);
    HRunZero(isa, m, Running(h));
    Extend(isa, m, h, 0, h, Running(h1));
    Extend(isa, m, h, 1, h1, Running(With(h1, k, isa.exec(m.At(a).raw, h.cpu))));
    i, n := 1, 2;
    OneStep(isa, m, g);
  }

  lemma LabelSteps(isa: Isa, m: Module, h: Config, a: nat, k: seq<Stmt>)
    requires h.top.rest == [Label(a)] + k
    ensures CStep(isa, m, h) == Running(With(h, k, h.cpu))
  {
  }

  lemma DoSteps(isa: Isa, m: Module, h: Config, raw: nat, k: seq<Stmt>)
    requires h.top.rest == [Do(raw)] + k
    ensures CStep(isa, m, h) == Running(With(h, k, isa.exec(raw, h.cpu)))
  {
  }
}

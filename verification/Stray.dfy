/** Firmware reached by a tail transfer, with $ra moved in its slot: the run in which C program and machine part. */
module Stray {
  import opened Allegrex
  import opened Emitter
  import opened Recompiled
  import opened Layout
  import opened Simulation
  import opened Constructs
  import opened Preservation

  // 0x100 calls 0x200 and returns; 0x200 jumps to the stub at 0x1000, and its slot writes $ra.
  const CALLER: nat := 0x100
  const CALLEE: nat := 0x200
  const STUB: nat := 0x1000
  const ELSEWHERE: nat := 0x300

  predicate Word(a: nat) { a % 4 == 0 && (CALLER <= a < CALLER + 0x10 || CALLEE <= a < CALLEE + 8) }

  function LineAt(a: nat): Insn {
    if a == CALLER then Jal(CALLEE) else if a == CALLER + 8 then Jr(RA) else if a == CALLEE then J(STUB)
    else if a == CALLEE + 4 then Plain(1) else Plain(0)
  }

  function TailCall(): Module {
    Module(map a: nat | a < CALLEE + 8 && Word(a) :: LineAt(a),
           map a: nat | a < CALLEE + 8 && Word(a) :: if a < CALLEE then CALLER else CALLEE,
           map[CALLER := Func(CALLER, CALLER + 0x10), CALLEE := Func(CALLEE, CALLEE + 8)], STUB, 4)
  }

  /** Instruction 1 moves $ra; any other, and the firmware, does nothing. */
  function Moves(): Isa {
    Isa((raw, c: Cpu) => if raw == 1 then SetReg(c, RA, ELSEWHERE) else c, (a, c) => c)
  }

  lemma TailCallIsWellFormed()
    ensures WellFormed(Moves(), TailCall())
  {
    hide Laid, PlainSlots, InsnOk, LineAt, Insn.HasDelaySlot;
    TailCallIsLaid();
    TailCallEntries();
    var m := TailCall();
    forall a {:trigger InsnOk(Moves(), m, a)} | a in m.owner ensures InsnOk(Moves(), m, a) { TailCallIsOk(a); }
  }

  lemma TailCallEntries()
    ensures forall f <- TailCall().funcs :: !IsSlot(TailCall(), f)
  {
  }

  lemma TailCallIsLaid()
    ensures Laid(TailCall()) && PlainSlots(TailCall())
  {
    hide TailCall, PlainSlots;
    TailCallSlots();
    TailCallOwners();
    TailCallFuncs();
  }

  lemma TailCallOwners()
    ensures var m := TailCall();
      && m.owner.Keys <= m.code.Keys
      && forall a <- m.owner ::
           && m.owner[a] in m.funcs && a % 4 == 0 && !m.Import(a)
           && m.funcs[m.owner[a]].start <= a < m.funcs[m.owner[a]].end
  {
    hide LineAt;
  }

  lemma TailCallFuncs()
    ensures var m := TailCall();
      forall f <- m.funcs :: m.Owned(f, f) && m.funcs[f].start % 4 == 0 && m.funcs[f].end % 4 == 0
  {
    hide LineAt;
  }

  lemma TailCallSlots()
    ensures PlainSlots(TailCall())
  {
    var m := TailCall();
    forall a {:trigger a in m.owner} | a in m.owner && m.At(a).HasDelaySlot()
      ensures a + 4 in m.code && m.At(a + 4).Plain? && !m.Import(a + 4)
    {
      assert a == CALLER || a == CALLER + 8 || a == CALLEE;
    }
  }

  lemma TailCallIsOk(a: nat)
    requires a in TailCall().owner
    ensures TailCall().owner[a] in TailCall().funcs && InsnOk(Moves(), TailCall(), a)
  {
    var m := TailCall();
    assert Ignores(Moves(), 0, RA, CALLER + 8);
    assert a == CALLER + 4 || a == CALLER + 0xC || a == CALLEE + 4 ==> IsSlot(m, a);
    if m.At(a).HasDelaySlot() { NoSlotLabels(a + 4); }
  }

  /** No slot is a label. */
  lemma NoSlotLabels(a: nat)
    requires a == CALLER + 4 || a == CALLER + 0xC || a == CALLEE + 4
    ensures !Lab(TailCall(), a)
  {
  }

  // ---- the run

  /** Where the guest is after four steps: at the stub, with $ra moved. */
  lemma GuestAtStub(cpu: Cpu)
    ensures Run(Moves(), TailCall(), Guest(CALLER, CALLER + 4, cpu), 4)
         == Guest(STUB, STUB + 4, SetReg(SetReg(cpu, RA, CALLER + 8), RA, ELSEWHERE))
  {
    var isa, m := Moves(), TailCall();
    var g1 := Guest(CALLER + 4, CALLEE, SetReg(cpu, RA, CALLER + 8));
    var g2 := Guest(CALLEE, CALLEE + 4, g1.cpu);
    var g3 := Guest(CALLEE + 4, STUB, g1.cpu);
    assert Step(isa, m, Guest(CALLER, CALLER + 4, cpu)) == g1;
    assert Step(isa, m, g1) == g2;
    assert Step(isa, m, g2) == g3;
    RunAdd(isa, m, Guest(CALLER, CALLER + 4, cpu), 2, 2);
    RunAdd(isa, m, g2, 1, 1);
    RunAdd(isa, m, Guest(CALLER, CALLER + 4, cpu), 1, 1);
  }

  /** A registered address is reached. */
  lemma Enters(outer: seq<nat>, g: Guest, h: Config) returns (n: nat, h': Config)
    requires h.top.rest != [] && HandsOver(TailCall(), h.top.body, h.top.rest[0], g.pc) && !h.top.rest[0].CallImport?
    requires Ready(TailCall(), outer, g, h, h.top.rest[1..]) && (g.pc == CALLER || g.pc == CALLEE)
    ensures HRun(Moves(), TailCall(), Running(h), n) == Running(h') && h'.frames == h.frames
    ensures AtHead(Moves(), TailCall(), outer, g, h') && h'.top.body in TailCall().funcs && h'.top.body == g.pc
  {
    var isa, m := Moves(), TailCall();
    TailCallIsWellFormed();
    assert g.pc in m.funcs && !IsSlot(m, g.pc);
    hide *;
    n, h' := EntersWell(isa, m, outer, g, h);
  }

  lemma EntersWell(isa: Isa, m: Module, outer: seq<nat>, g: Guest, h: Config) returns (n: nat, h': Config)
    requires WellFormed(isa, m) && g.pc in m.funcs && !IsSlot(m, g.pc)
    requires h.top.rest != [] && HandsOver(m, h.top.body, h.top.rest[0], g.pc) && !h.top.rest[0].CallImport?
    requires Ready(m, outer, g, h, h.top.rest[1..])
    ensures HRun(isa, m, Running(h), n) == Running(h') && h'.frames == h.frames
    ensures AtHead(isa, m, outer, g, h') && h'.top.body in m.funcs && h'.top.body == g.pc
  {
    hide IsSlot, Ready, HRun, AtHead;
    HandOverDispatches(isa, m, h, g.pc);
    var i := DispatchArrives(isa, m, outer, g, h, h.top.rest[1..]);
    var h1 := HRun(isa, m, Dispatched(m, h, h.top.rest[1..], g.pc), i);
    assert Standing(m, outer, g, h1);
    assert h1 == Running(h1.at) && h1.at.top.body == g.pc;
    HRunStep(isa, m, Running(h), i);
    var j: nat;
    j, h' := Unlabelled(isa, m, outer, g, h1.at);
    HRunAdd(isa, m, Running(h), 1 + i, j);
    n := 1 + i + j;
  }

  /** From psp_call_from_host at 0x100 the host comes to the stub by a tail transfer, under the frame of the call. */
  lemma StrayReached(cpu: Cpu, outer: seq<nat>) returns (n: nat)
    ensures StrayImport(TailCall(), outer, Run(Moves(), TailCall(), Guest(CALLER, CALLER + 4, cpu), 4),
                        HRun(Moves(), TailCall(), CallFromHost(CALLER, cpu, outer), n))
  {
    hide *;
    HostReady(cpu, outer);
    CallerStep(cpu);
    var isa, m, g, h := Moves(), TailCall(), Guest(CALLER, CALLER + 4, cpu), CallFromHost(CALLER, cpu, outer).at;
    var n1, h1 := Enters(outer, g, h);
    var n2, h2 := Calls(outer, g, h1);
    var g2 := AfterSlot(isa, m, g);
    var n3, h3 := Enters(outer, g2, h2);
    var n4 := Jumps(outer, g2, h3);
    HRunAdd(isa, m, Running(h), n1, n2);
    HRunAdd(isa, m, Running(h), n1 + n2, n3);
    HRunAdd(isa, m, Running(h), n1 + n2 + n3, n4);
    n := n1 + n2 + n3 + n4;
    GuestAtStub(cpu);
  }

  lemma CallerStep(cpu: Cpu)
    ensures AfterSlot(Moves(), TailCall(), Guest(CALLER, CALLER + 4, cpu))
         == Guest(CALLEE, CALLEE + 4, SetReg(cpu, RA, CALLER + 8))
    ensures AfterSlot(Moves(), TailCall(), Guest(CALLEE, CALLEE + 4, SetReg(cpu, RA, CALLER + 8)))
         == Guest(STUB, STUB + 4, SetReg(SetReg(cpu, RA, CALLER + 8), RA, ELSEWHERE))
  {
  }

  lemma HostReady(cpu: Cpu, outer: seq<nat>)
    ensures CallFromHost(CALLER, cpu, outer).Running?
    ensures var h := CallFromHost(CALLER, cpu, outer).at;
      && h.top.rest != [] && HandsOver(TailCall(), h.top.body, h.top.rest[0], CALLER) && !h.top.rest[0].CallImport?
      && Ready(TailCall(), outer, Guest(CALLER, CALLER + 4, cpu), h, h.top.rest[1..])
  {
    var h := CallFromHost(CALLER, cpu, outer).at;
    TailPushed(TailCall(), outer, h, []);
  }

  lemma CallerCalls()
    ensures var m := TailCall();
      m.At(CALLER) == Jal(CALLEE) && m.At(CALLER).Jal? && !m.At(CALLER).IsGetPc(CALLER) &&
      StaticCall(m, CALLEE) == CallFunc(CALLEE) &&
      forall f :: HandsOver(m, f, CallFunc(CALLEE), CALLEE)
  {
  }

  lemma CallerBody(outer: seq<nat>, g: Guest, h: Config)
    requires AtHead(Moves(), TailCall(), outer, g, h)
    ensures h.top.body in TailCall().funcs
  {
  }

  lemma CallParts(isa: Isa, m: Module, outer: seq<nat>, g: Guest, h: Config, callee: Stmt, ret: nat, k: seq<Stmt>)
    requires AtCall(isa, m, outer, g, h, callee, ret, k)
    ensures h.top.rest == Call(callee, ret, k) && ret != 0 && h.unwind == 0 && h.cpu == g.cpu && g.npc == g.pc + 4
    ensures Reaches(m, h.top.body, k, ret) && Chained(m, h.stack, h.frames, outer)
  {
  }

  /** The jal, up to the call of the function. */
  lemma Calls(outer: seq<nat>, g: Guest, h: Config) returns (n: nat, h': Config)
    requires AtHead(Moves(), TailCall(), outer, g, h) && g.pc == CALLER
    ensures HRun(Moves(), TailCall(), Running(h), n) == Running(h') && h'.frames != [] && h'.frames[0] == CALLER + 8
    ensures h'.top.rest != [] && h'.top.rest[0].CallFunc? && HandsOver(TailCall(), h'.top.body, h'.top.rest[0], CALLEE)
    ensures Ready(TailCall(), outer, AfterSlot(Moves(), TailCall(), g), h', h'.top.rest[1..])
  {
    hide *;
    var isa, m := Moves(), TailCall();
    CallerCalls();
    CallerBody(outer, g, h);
    var n1 := JalSteps(isa, m, outer, g, h);
    var h1 := HRun(isa, m, Running(h), n1).at;
    CallParts(isa, m, outer, AfterSlot(isa, m, g), h1, CallFunc(CALLEE), CALLER + 8, Rest(m, h.top.body, CALLER));
    h' := CallStarts(isa, m, outer, AfterSlot(isa, m, g), h1, CallFunc(CALLEE), CALLER + 8,
                     Rest(m, h.top.body, CALLER));
    HRunAdd(isa, m, Running(h), n1, 1);
    HRunOne(isa, m, Running(h1));
    n := n1 + 1;
  }

  /** The jump to the stub, up to the firmware call. */
  lemma Jumps(outer: seq<nat>, g: Guest, h: Config) returns (n: nat)
    requires AtHead(Moves(), TailCall(), outer, g, h) && g.pc == CALLEE && h.top.body in TailCall().funcs
    requires h.frames != [] && h.frames[0] == CALLER + 8
    ensures StrayImport(TailCall(), outer, AfterSlot(Moves(), TailCall(), g), HRun(Moves(), TailCall(), Running(h), n))
  {
    hide *;
    var isa, m := Moves(), TailCall();
    CalleeJumps(h.top.body, Rest(m, h.top.body, CALLEE));
    var i: nat;
    i, n := JRuns(isa, m, outer, g, h);
    TakenGuest(isa, m, outer, g, h);
    JumpStrays(outer, g, h, n);
  }

  lemma CalleeJumps(f: nat, k: seq<Stmt>)
    ensures var m := TailCall();
      m.At(CALLEE) == J(STUB) && m.At(CALLEE).J? && m.At(CALLEE).HasDelaySlot() && m.Import(STUB)
      && JumpLines(m, f, STUB, k) == [CallImport(STUB)] + ([Return] + k)
  {
  }

  lemma JumpStrays(outer: seq<nat>, g: Guest, h: Config, n: nat)
    requires var isa, m := Moves(), TailCall();
      && Advances(isa, m, outer, g, Running(h), 2, n) && Run(isa, m, g, 2) == AfterSlot(isa, m, g)
      && h.top.body in m.funcs && m.At(g.pc) == J(STUB) && m.Import(STUB) && g.pc == CALLEE
      && JumpLines(m, h.top.body, STUB, Rest(m, h.top.body, g.pc)) ==
         [CallImport(STUB)] + ([Return] + Rest(m, h.top.body, g.pc))
      && HRun(isa, m, Running(h), n) ==
         Running(With(h, JumpLines(m, h.top.body, STUB, Rest(m, h.top.body, g.pc)), SlotCpu(isa, m, g.pc, h.cpu)))
    requires h.frames != [] && h.frames[0] == CALLER + 8
    ensures StrayImport(TailCall(), outer, AfterSlot(Moves(), TailCall(), g), HRun(Moves(), TailCall(), Running(h), n))
  {
    hide Run, HRun, JumpLines, Rest, Match;
    MovedLink(g);
  }

  lemma MovedLink(g: Guest)
    requires g.pc == CALLEE
    ensures AfterSlot(Moves(), TailCall(), g).pc == STUB && AfterSlot(Moves(), TailCall(), g).cpu.r[RA] == ELSEWHERE
  {
  }

  /** A well-formed module on which a run from the host parts from the machine. */
  lemma RunParts(cpu: Cpu, outer: seq<nat>) returns (n: nat)
    ensures WellFormed(Moves(), TailCall())
    ensures !Advances(Moves(), TailCall(), outer, Guest(CALLER, CALLER + 4, cpu), CallFromHost(CALLER, cpu, outer), 5,
                      n)
    ensures HRun(Moves(), TailCall(), CallFromHost(CALLER, cpu, outer), n).Running?
  {
    hide *;
    var isa, m, g, h := Moves(), TailCall(), Guest(CALLER, CALLER + 4, cpu), CallFromHost(CALLER, cpu, outer);
    TailCallIsWellFormed();
    var n1 := StrayReached(cpu, outer);
    var n2 := StrayImportParts(isa, m, outer, Run(isa, m, g, 4), HRun(isa, m, h, n1));
    RunAdd(isa, m, g, 4, 1);
    OneStep(isa, m, Run(isa, m, g, 4));
    HRunAdd(isa, m, h, n1, n2);
    n := n1 + n2;
    NotThere(isa, m, outer, g, h, 5, n);
  }

  lemma NotThere(isa: Isa, m: Module, outer: seq<nat>, g: Guest, h: Host, i: nat, n: nat)
    requires !Match(m, outer, Run(isa, m, g, i), HRun(isa, m, h, n))
    ensures !Advances(isa, m, outer, g, h, i, n)
  {
  }
}

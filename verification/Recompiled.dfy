/** The generated C program as it runs on the host: C activations, the frame chain, the unwind word. */
module Recompiled {
  import opened Allegrex
  import opened Emitter

  /** A C activation of a body: the statements left to run, the locals _c, _t and _f.prev, and the address the
      body was asked to start at. */
  datatype Act = Act(body: nat, rest: seq<Stmt>, c: bool, t: nat, prev: seq<nat>, entry: nat)

  /** `frames` is psp_cpu.frame as the list of `ret` words from the innermost frame out; 0 marks a host frame. */
  datatype Config = Config(top: Act, stack: seq<Act>, cpu: Cpu, frames: seq<nat>, unwind: nat)

  /** Running, back in the host caller, stopped by the miss handler (which names the address), or trapped. */
  datatype Host =
    | Running(at: Config)
    | Done(result: Cpu, chain: seq<nat>, pending: nat)
    | Missed(addr: nat, state: Cpu)
    | Trapped

  /** branch_cond has no case for the VFPU branches, so their condition is written as 0. */
  predicate EmittedHolds(cond: Cond, cpu: Cpu)
  {
    !cond.VfpuTrue? && !cond.VfpuFalse? && Holds(cond, cpu)
  }

  // ---- psp_ra_is_jump

  datatype RaUse = Returns | Unwinds | Jumps

  /** Some frame of this host segment, up to the first host frame, has return site ra. */
  predicate InSegment(frames: seq<nat>, ra: nat)
  {
    frames != [] && frames[0] != 0 && (frames[0] == ra || InSegment(frames[1..], ra))
  }

  function RaIsJump(frames: seq<nat>, ra: nat): RaUse
  {
    if frames == [] || frames[0] == 0 || ra == frames[0] then Returns
    else if InSegment(frames[1..], ra) then Unwinds
    else Jumps
  }

  // ---- bodies

  ghost function After(code: seq<Stmt>, a: nat): seq<Stmt>
  {
    if code == [] || code[0] == Label(a) then code else After(code[1..], a)
  }

  ghost function Cases(m: Module, f: nat, end: nat, a: nat): seq<nat>
    decreases end - a
  {
    if a >= end then []
    else if m.Owned(a, f) && Lab(m, a) && !IsSlot(m, a) then [a] + Cases(m, f, end, a + 4)
    else Cases(m, f, end, a + 4)
  }

  /** The body is started with a switch unless its entry is its only label and its lowest word. */
  ghost predicate NeedsSwitch(m: Module, f: nat)
    requires f in m.funcs
  {
    m.funcs[f].start != f ||
    exists a: nat :: a != f && m.Owned(a, f) && Lab(m, a) && m.funcs[f].start <= a < m.funcs[f].end
  }

  ghost function Walked(m: Module, f: nat): seq<Stmt>
    requires f in m.funcs
  {
    EmitFrom(m, f, m.funcs[f].end, m.funcs[f].start, false)
  }

  ghost function Body(m: Module, f: nat): seq<Stmt>
    requires f in m.funcs
  {
    if NeedsSwitch(m, f) then [Switch(Cases(m, f, m.funcs[f].end, m.funcs[f].start))] + Walked(m, f)
    else Walked(m, f)
  }

  // ---- one host step

  function Leave(h: Config): Host
  {
    if h.stack == [] then Done(h.cpu, h.frames, h.unwind)
    else Running(h.(top := h.stack[0], stack := h.stack[1..]))
  }

  ghost function Enter(m: Module, h: Config, k: seq<Stmt>, f: nat, entry: nat): Host
    requires f in m.funcs
  {
    Running(h.(top := Act(f, Body(m, f), false, 0, [], entry), stack := [h.top.(rest := k)] + h.stack))
  }

  /** psp_dispatch: function entries and interior-label thunks are registered; anything else is a named miss. */
  ghost function Dispatched(m: Module, h: Config, k: seq<Stmt>, a: nat): Host
  {
    if a in m.funcs then Enter(m, h, k, a, a)
    else if Thunk(m, a) && m.owner[a] in m.funcs then Enter(m, h, k, m.owner[a], a)
    else Missed(a, h.cpu)
  }

  ghost function JumpTo(m: Module, h: Config, k: seq<Stmt>, a: nat): Config
  {
    h.(top := h.top.(rest := if h.top.body in m.funcs then After(Body(m, h.top.body), a) else k))
  }

  ghost function CStep(isa: Isa, m: Module, h: Config): Host
  {
    if h.top.rest == [] then Leave(h)
    else
      var k := h.top.rest[1..];
      var go := h.(top := h.top.(rest := k));
      match h.top.rest[0]
      case Label(_) => Running(go)
      case Do(raw) => Running(go.(cpu := isa.exec(raw, h.cpu)))
      case Trap(_) => Trapped
      case CapCond(cond) => Running(go.(top := go.top.(c := EmittedHolds(cond, h.cpu))))
      case CapReg(reg) => Running(go.(top := go.top.(t := Reg(h.cpu, reg))))
      case IfC(thn) => Running(if h.top.c then go.(top := go.top.(rest := thn + k)) else go)
      case IfCond(cond, thn) =>
        Running(if EmittedHolds(cond, h.cpu) then go.(top := go.top.(rest := thn + k)) else go)
      case Goto(a) => Running(JumpTo(m, h, k, a))
      case Link(rd, v) => Running(go.(cpu := SetReg(h.cpu, rd, v)))
      case CallBegin(ret) => Running(go.(top := go.top.(prev := h.frames), frames := [ret] + h.frames))
      case CallEnd(ret) =>
        var popped := go.(frames := h.top.prev);
        if h.unwind == 0 then Running(popped)
        else if h.unwind == ret then Running(popped.(unwind := 0))
        else Leave(popped)
      case CallFunc(a) => if a in m.funcs then Enter(m, h, k, a, a) else Missed(a, h.cpu)
      case CallAt(a) =>
        if Thunk(m, a) && m.owner[a] in m.funcs then Enter(m, h, k, m.owner[a], a) else Missed(a, h.cpu)
      case CallImport(a) => Running(go.(cpu := isa.firmware(a, h.cpu)))
      case Dispatch(a) => Dispatched(m, h, k, a)
      case DispatchT => Dispatched(m, h, k, h.top.t)
      case IfRaIsJump(thn) =>
        (match RaIsJump(h.frames, h.top.t)
         case Returns => Running(go)
         case Unwinds => Running(go.(unwind := h.top.t))
         case Jumps => Running(go.(top := go.top.(rest := thn + k))))
      case Return => Leave(h)
      case Switch(cases) => Running(if h.top.entry in cases then JumpTo(m, h, k, h.top.entry) else go)
  }

  ghost function HStep(isa: Isa, m: Module, h: Host): Host
  {
    match h
    case Running(at) => CStep(isa, m, at)
    case _ => h
  }

  ghost function HRun(isa: Isa, m: Module, h: Host, n: nat): Host
    decreases n
  {
    if n == 0 then h else HRun(isa, m, HStep(isa, m, h), n - 1)
  }

  lemma {:induction false} HRunAdd(isa: Isa, m: Module, h: Host, i: nat, j: nat)
    ensures HRun(isa, m, h, i + j) == HRun(isa, m, HRun(isa, m, h, i), j)
    decreases i
  {
    if i > 0 {
      HRunAdd(isa, m, HStep(isa, m, h), i - 1, j);
    }
  }

  /** psp_call_from_host(addr), up to the point where the dispatched code has returned: it pushes a host frame
      in front of whatever chain the host was called under. The call belongs to no body; it is filed under addr. */
  function CallFromHost(addr: nat, cpu: Cpu, outer: seq<nat>): Host
  {
    Running(Config(Act(addr, [Dispatch(addr)], false, 0, [], 0), [], cpu, [0] + outer, 0))
  }
}

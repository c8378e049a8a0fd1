/** The Allegrex guest: decoded instructions and the delay-slot machine (pc, next pc). */
module Allegrex {

  const RA := 31

  /** Registers, memory, and everything else an ordinary operation may touch. */
  datatype CpuState = CpuState(r: seq<nat>, mem: map<nat, bv8>, fpuCond: bool, vfpuCond: bool, other: seq<nat>)

  type Cpu = c: CpuState | |c.r| == 32 && c.r[0] == 0
    witness CpuState(seq(32, _ => 0), map[], false, false, [])

  /** Writes to register 0 are discarded. */
  function SetReg(c: Cpu, rd: nat, v: nat): (c': Cpu)
    requires rd < 32
  {
    if rd == 0 then c else c.(r := c.r[rd := v])
  }

  /** The operations that do not transfer control stay abstract: any effect of an instruction word on the
      guest state, and any effect of a firmware call reached through an import stub. */
  datatype Isa = Isa(exec: (nat, Cpu) -> Cpu, firmware: (nat, Cpu) -> Cpu)

  datatype Cond =
    | Eq(rs: nat, rt: nat) | Ne(rs: nat, rt: nat)
    | Lez(rs: nat) | Gtz(rs: nat) | Ltz(rs: nat) | Gez(rs: nat)
    | FpuTrue | FpuFalse
    | VfpuTrue | VfpuFalse

  predicate Negative(v: nat) { v >= 0x8000_0000 }

  function Reg(c: Cpu, i: nat): nat { if i < 32 then c.r[i] else 0 }

  predicate Holds(cond: Cond, c: Cpu)
  {
    match cond
    case Eq(s, t) => Reg(c, s) == Reg(c, t)
    case Ne(s, t) => Reg(c, s) != Reg(c, t)
    case Lez(s) => Negative(Reg(c, s)) || Reg(c, s) == 0
    case Gtz(s) => !Negative(Reg(c, s)) && Reg(c, s) != 0
    case Ltz(s) => Negative(Reg(c, s))
    case Gez(s) => !Negative(Reg(c, s))
    case FpuTrue => c.fpuCond
    case FpuFalse => !c.fpuCond
    case VfpuTrue => c.vfpuCond
    case VfpuFalse => !c.vfpuCond
  }

  type RegIndex = i: nat | i < 32

  /** What the decoder's flags distinguish. `linking` marks the *AL branches; `jal .+8` is Jal whose target is
      its own return address. */
  datatype Insn =
    | Plain(raw: nat)
    | Branch(cond: Cond, target: nat, likely: bool, linking: bool)
    | J(target: nat)
    | Jal(target: nat)
    | Jalr(rs: RegIndex, rd: RegIndex)
    | Jr(rs: RegIndex)
  {
    predicate HasDelaySlot() { !Plain? }
    predicate IsCall() { Jal? || Jalr? || (Branch? && linking) }
    predicate IsGetPc(a: nat) { Jal? && target == a + 8 }
    /** Control may continue at the address after the construct. */
    predicate FallsThrough() { !J? && !Jr? }
    /** The emitter's last_terminal; a jalr counts because it is indirect. */
    predicate Terminal() { J? || Jr? || Jalr? }
  }

  datatype Func = Func(start: nat, end: nat)

  /** A discovered module: decoded words, which function owns each word, the functions by entry address and
      the extent of the import stubs. */
  datatype Module = Module(code: map<nat, Insn>, owner: map<nat, nat>, funcs: map<nat, Func>, stubLo: nat,
                           stubSize: nat)
  {
    predicate Import(a: nat) { stubSize != 0 && stubLo <= a < stubLo + stubSize }
    predicate Owned(a: nat, f: nat) { a in owner && owner[a] == f }
    function At(a: nat): Insn { if a in code then code[a] else Plain(0) }
  }

  // ---- the delay-slot machine

  datatype Guest = Guest(pc: nat, npc: nat, cpu: Cpu)

  function Target(cpu: Cpu, insn: Insn, next: nat): nat
  {
    match insn
    case Branch(c, t, _, _) => if Holds(c, cpu) then t else next
    case J(t) => t
    case Jal(t) => t
    case Jalr(rs, _) => cpu.r[rs]
    case Jr(rs) => cpu.r[rs]
    case Plain(_) => next
  }

  /** The link register written by a transfer at `pc`, if any; *AL branches link even when not taken. */
  function Linked(cpu: Cpu, insn: Insn, pc: nat): Cpu
  {
    match insn
    case Branch(_, _, _, linking) => if linking then SetReg(cpu, RA, pc + 8) else cpu
    case Jal(_) => SetReg(cpu, RA, pc + 8)
    case Jalr(_, rd) => SetReg(cpu, rd, pc + 8)
    case _ => cpu
  }

  /** One machine step. A likely branch that is not taken nullifies its slot. An import stub runs firmware and
      goes back to $ra. Outside the image the machine does not move. */
  function Step(isa: Isa, m: Module, g: Guest): Guest
  {
    if m.Import(g.pc) then
      Guest(g.cpu.r[RA], g.cpu.r[RA] + 4, isa.firmware(g.pc, g.cpu))
    else if g.pc !in m.code then g
    else
      var insn := m.code[g.pc];
      if insn.Plain? then
        Guest(g.npc, g.npc + 4, isa.exec(insn.raw, g.cpu))
      else if insn.Branch? && insn.likely && !Holds(insn.cond, g.cpu) then
        Guest(g.npc + 4, g.npc + 8, Linked(g.cpu, insn, g.pc))
      else
        Guest(g.npc, Target(g.cpu, insn, g.npc + 4), Linked(g.cpu, insn, g.pc))
  }

  function Run(isa: Isa, m: Module, g: Guest, n: nat): Guest
    decreases n
  {
    if n == 0 then g else Run(isa, m, Step(isa, m, g), n - 1)
  }

  lemma {:induction false} RunAdd(isa: Isa, m: Module, g: Guest, i: nat, j: nat)
    ensures Run(isa, m, g, i + j) == Run(isa, m, Run(isa, m, g, i), j)
    decreases i
  {
    if i > 0 {
      RunAdd(isa, m, Step(isa, m, g), i - 1, j);
    }
  }
}

/** The C emitter: delay-slot code to structured C. The emitted body is an AST; one Stmt is one emitted line
    (or one macro) that has an effect, and trace macros are dropped. */
module Emitter {
  import opened Allegrex

  datatype Stmt =
    | Label(a: nat)                       // L_a:
    | Do(raw: nat)                        // one ordinary instruction
    | Trap(a: nat)                        // psp_unimplemented: a transfer sitting in a slot
    | CapCond(cond: Cond)                 // int _c = (cond);
    | CapReg(reg: nat)                    // uint32_t _t = reg;
    | IfC(thn: seq<Stmt>)                 // if (_c) { ... }
    | IfCond(cond: Cond, thn: seq<Stmt>)  // if (cond) { ... }
    | Goto(a: nat)
    | Link(rd: RegIndex, v: nat)
    | CallBegin(ret: nat)
    | CallEnd(ret: nat)
    | CallFunc(a: nat)                    // psp_func_a();
    | CallAt(a: nat)                      // psp_at_a();
    | CallImport(a: nat)                  // psp_import_a();
    | Dispatch(a: nat)                    // psp_dispatch(a);
    | DispatchT                           // psp_dispatch(_t);
    | IfRaIsJump(thn: seq<Stmt>)          // if (psp_ra_is_jump(_t)) { ... }
    | Return
    | Switch(cases: seq<nat>)             // switch (_entry) { case a: goto L_a; ... }

  // ---- the label and delay-slot map

  /** The word is consumed as a delay slot by the body that owns it. */
  predicate IsSlot(m: Module, a: nat)
  {
    a >= 4 && a in m.owner && m.Owned(a - 4, m.owner[a]) && m.At(a - 4).HasDelaySlot()
  }

  /** The instruction at b makes the address a (of its own body) a label. */
  predicate Names(m: Module, b: nat, a: nat)
  {
    var insn := m.At(b);
    || (insn.Branch? && insn.target == a)
    || ((insn.J? || insn.Jal?) && insn.target == a && a !in m.funcs)
    || (insn.IsCall() && !insn.IsGetPc(b) && a == b + 8)
  }

  ghost predicate Named(m: Module, a: nat)
  {
    a in m.owner && exists b :: m.Owned(b, m.owner[a]) && Names(m, b, a)
  }

  /** The marks mark_labels leaves: named addresses, and what follows a slot that is itself marked. */
  ghost predicate Marked(m: Module, a: nat)
    decreases a
  {
    || Named(m, a)
    || (a >= 4 && a in m.owner && m.Owned(a - 4, m.owner[a]) && IsSlot(m, a - 4) && Marked(m, a - 4))
  }

  /** Labels as emission sees them: marks, and the entry of every function. */
  ghost predicate Lab(m: Module, a: nat) { Marked(m, a) || a in m.funcs }

  /** An interior label that gets a dispatch thunk psp_at_a. */
  ghost predicate Thunk(m: Module, a: nat) { a in m.owner && Lab(m, a) && !IsSlot(m, a) && a !in m.funcs }

  // ---- constructs, in the order their lines are written, followed by `k`

  predicate SlotDecoded(m: Module, a: nat) { m.At(a).HasDelaySlot() && a + 4 in m.code }
  predicate HaveSlot(m: Module, f: nat, a: nat) { SlotDecoded(m, a) && m.Owned(a + 4, f) }
  predicate TakenSlot(m: Module, f: nat, a: nat)
  {
    SlotDecoded(m, a) && !m.Owned(a + 4, f) && m.At(a + 4).Plain?
  }

  function SlotStmt(m: Module, a: nat): Stmt
  {
    if m.At(a + 4).Plain? then Do(m.At(a + 4).raw) else Trap(a + 4)
  }

  function SlotIf(m: Module, a: nat, emit: bool, k: seq<Stmt>): seq<Stmt>
  {
    if emit then [SlotStmt(m, a)] + k else k
  }

  /** emit_static_call and emit_static_call_tail: what a static target is called by. */
  function StaticCall(m: Module, t: nat): Stmt
  {
    if m.Import(t) then CallImport(t) else if t in m.funcs then CallFunc(t) else Dispatch(t)
  }

  function LinkingCallee(m: Module, f: nat, t: nat): Stmt
  {
    if m.Import(t) then CallImport(t)
    else if t in m.funcs then CallFunc(t)
    else if m.Owned(t, f) then CallAt(t)
    else Dispatch(t)
  }

  function Transfer(m: Module, f: nat, t: nat): seq<Stmt>
  {
    if m.Owned(t, f) then [Goto(t)] else [StaticCall(m, t)] + [Return]
  }

  /** Where the taken path of a linking branch resumes when its slot belongs to another body. */
  function Resume(m: Module, f: nat, a: nat, resumeLab: bool): seq<Stmt>
  {
    if HaveSlot(m, f, a) then []
    else if m.Owned(a + 8, f) && resumeLab then [Goto(a + 8)]
    else [Dispatch(a + 8)] + [Return]
  }

  function LinkingThen(m: Module, f: nat, a: nat, slot: bool, resumeLab: bool): seq<Stmt>
    requires m.At(a).Branch?
  {
    SlotIf(m, a, slot, [CallBegin(a + 8)] + ([LinkingCallee(m, f, m.At(a).target)] +
                       ([CallEnd(a + 8)] + Resume(m, f, a, resumeLab))))
  }

  /** bltzal, bgezal and their likely forms: a conditional call. */
  function LinkingHead(m: Module, f: nat, a: nat, resumeLab: bool, k: seq<Stmt>): seq<Stmt>
    requires m.At(a).Branch?
  {
    var have, taken, likely := HaveSlot(m, f, a), TakenSlot(m, f, a), m.At(a).likely;
    [CapCond(m.At(a).cond)] + ([Link(RA, a + 8)] +
      SlotIf(m, a, have && !likely,
        [IfC(LinkingThen(m, f, a, taken || (have && likely), resumeLab))] + k))
  }

  /** The other branches. The likely forms run their slot on the taken path only. */
  function BranchHead(m: Module, f: nat, a: nat, k: seq<Stmt>): seq<Stmt>
    requires m.At(a).Branch?
  {
    var have, taken, insn := HaveSlot(m, f, a), TakenSlot(m, f, a), m.At(a);
    if insn.likely then
      [IfCond(insn.cond, SlotIf(m, a, have || taken, Transfer(m, f, insn.target)))] + k
    else
      [CapCond(insn.cond)] + SlotIf(m, a, have, [IfC(SlotIf(m, a, taken, Transfer(m, f, insn.target)))] + k)
  }

  /** A call proper: the frame is pushed, the callee called, the frame popped. */
  function Call(callee: Stmt, ret: nat, k: seq<Stmt>): seq<Stmt>
  {
    [CallBegin(ret)] + ([callee] + ([CallEnd(ret)] + k))
  }

  function JalHead(m: Module, f: nat, a: nat, k: seq<Stmt>): seq<Stmt>
    requires m.At(a).Jal?
  {
    SlotIf(m, a, HaveSlot(m, f, a), [Link(RA, a + 8)] +
      (if m.At(a).IsGetPc(a) then k else Call(StaticCall(m, m.At(a).target), a + 8, k)))
  }

  function JalrHead(m: Module, f: nat, a: nat, k: seq<Stmt>): seq<Stmt>
    requires m.At(a).Jalr?
  {
    var rd := m.At(a).rd;
    [CapReg(m.At(a).rs)] + SlotIf(m, a, HaveSlot(m, f, a),
      if rd != 0 then [Link(rd, a + 8)] + Call(DispatchT, a + 8, k) else Call(DispatchT, 0, k))
  }

  function JrHead(m: Module, f: nat, a: nat, k: seq<Stmt>): seq<Stmt>
    requires m.At(a).Jr?
  {
    [CapReg(m.At(a).rs)] + SlotIf(m, a, HaveSlot(m, f, a) || TakenSlot(m, f, a),
      if m.At(a).rs == RA then [IfRaIsJump([DispatchT] + [Return])] + ([Return] + k)
      else [DispatchT] + ([Return] + k))
  }

  function JHead(m: Module, f: nat, a: nat, k: seq<Stmt>): seq<Stmt>
    requires m.At(a).J?
  {
    var t := m.At(a).target;
    SlotIf(m, a, HaveSlot(m, f, a) || TakenSlot(m, f, a),
      if m.Owned(t, f) && t !in m.funcs then [Goto(t)] + k else [StaticCall(m, t)] + ([Return] + k))
  }

  /** The lines for the construct at a, without its label and without a standalone slot copy. */
  function Head(m: Module, f: nat, a: nat, resumeLab: bool, k: seq<Stmt>): seq<Stmt>
  {
    match m.At(a)
    case Plain(raw) => [Do(raw)] + k
    case Branch(_, _, _, linking) => if linking then LinkingHead(m, f, a, resumeLab, k) else BranchHead(m, f, a, k)
    case Jal(_) => JalHead(m, f, a, k)
    case Jalr(_, _) => JalrHead(m, f, a, k)
    case Jr(_) => JrHead(m, f, a, k)
    case J(_) => JHead(m, f, a, k)
  }

  /** emit_slot_alias: the labelled copy of a slot that is also a branch target. */
  function Alias(m: Module, f: nat, a: nat, slotLab: bool, k: seq<Stmt>): seq<Stmt>
  {
    if !HaveSlot(m, f, a) || !slotLab then k
    else
      var copy := [Label(a + 4)] + ([SlotStmt(m, a)] + k);
      if !m.At(a).FallsThrough() then copy
      else if m.Owned(a + 8, f) then [Goto(a + 8)] + copy
      else [Return] + copy
  }

  /** The next address the walk visits. */
  function Next(m: Module, f: nat, a: nat): nat
  {
    if m.At(a).J? || m.At(a).Jr? || HaveSlot(m, f, a) then a + 8 else a + 4
  }

  /** The fall-through past the body's last word. */
  ghost function AtEnd(m: Module, end: nat, terminal: bool): seq<Stmt>
  {
    if terminal then []
    else if end in m.funcs then [CallFunc(end)]
    else if end in m.owner && !IsSlot(m, end) && Lab(m, end) then [CallAt(end)]
    else []
  }

  /** The lines emitted from address a on; `terminal` is last_terminal. */
  ghost function EmitFrom(m: Module, f: nat, end: nat, a: nat, terminal: bool): seq<Stmt>
    decreases end - a
  {
    if a >= end then AtEnd(m, end, terminal)
    else if !m.Owned(a, f) then
      if terminal then EmitFrom(m, f, end, a + 4, true)
      else [StaticCall(m, a)] + ([Return] + EmitFrom(m, f, end, a + 4, true))
    else if IsSlot(m, a) then EmitFrom(m, f, end, a + 4, terminal)
    else
      var body := Head(m, f, a, Lab(m, a + 8), Alias(m, f, a, Lab(m, a + 4),
                       EmitFrom(m, f, end, Next(m, f, a), m.At(a).Terminal())));
      if Lab(m, a) then [Label(a)] + body else body
  }

  /** The interior labels of f that get a thunk, in address order. */
  ghost function ThunkList(m: Module, f: nat, end: nat, a: nat): seq<nat>
    decreases end - a
  {
    if a >= end then []
    else if m.Owned(a, f) && Thunk(m, a) then [a] + ThunkList(m, f, end, a + 4)
    else ThunkList(m, f, end, a + 4)
  }

  /** The thunks of the functions from the i-th on. */
  ghost function AllThunks(m: Module, order: seq<nat>, i: nat): seq<nat>
    requires i <= |order| && forall j :: 0 <= j < |order| ==> order[j] in m.funcs
    decreases |order| - i
  {
    if i == |order| then []
    else ThunkList(m, order[i], m.funcs[order[i]].end, m.funcs[order[i]].start) + AllThunks(m, order, i + 1)
  }
}

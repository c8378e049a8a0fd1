/** Generated names are closed: every goto finds its label, every thunk or function called exists. */
module Closure {
  import opened Allegrex
  import opened Emitter
  import opened Recompiled
  import opened Layout
  import C = EmitC

  /** Every name a line of the body f uses is one the generated program has. */
  ghost predicate Closed(m: Module, f: nat, s: Stmt)
    decreases s
  {
    match s
    case Goto(a) => m.Owned(a, f) && Lab(m, a)
    case CallFunc(a) => a in m.funcs
    case CallAt(a) => Thunk(m, a)
    case CallImport(a) => m.Import(a)
    case IfC(thn) => forall i :: 0 <= i < |thn| ==> Closed(m, f, thn[i])
    case IfCond(_, thn) => forall i :: 0 <= i < |thn| ==> Closed(m, f, thn[i])
    case IfRaIsJump(thn) => forall i :: 0 <= i < |thn| ==> Closed(m, f, thn[i])
    case Switch(cases) => forall i :: 0 <= i < |cases| ==>
      m.Owned(cases[i], f) && Lab(m, cases[i]) && !IsSlot(m, cases[i])
    case _ => true
  }

  ghost predicate AllClosed(m: Module, f: nat, code: seq<Stmt>)
  {
    forall i :: 0 <= i < |code| ==> Closed(m, f, code[i])
  }

  lemma ClosedThen(m: Module, f: nat, s: Stmt, k: seq<Stmt>)
    requires Closed(m, f, s) && AllClosed(m, f, k)
    ensures AllClosed(m, f, [s] + k)
  {
  }

  lemma SlotClosed(m: Module, f: nat, a: nat, emit: bool, k: seq<Stmt>)
    requires AllClosed(m, f, k)
    ensures AllClosed(m, f, SlotIf(m, a, emit, k))
  {
  }

  lemma TransferClosed(m: Module, f: nat, t: nat)
    requires m.Owned(t, f) ==> Lab(m, t)
    ensures AllClosed(m, f, Transfer(m, f, t)) && Closed(m, f, StaticCall(m, t))
  {
  }

  lemma CallClosed(m: Module, f: nat, callee: Stmt, ret: nat, k: seq<Stmt>)
    requires Closed(m, f, callee) && AllClosed(m, f, k)
    ensures AllClosed(m, f, Call(callee, ret, k))
  {
    ClosedThen(m, f, CallEnd(ret), k);
    ClosedThen(m, f, callee, [CallEnd(ret)] + k);
  }

  lemma LinkingThenClosed(m: Module, f: nat, a: nat, inside: bool, b: bool)
    requires m.At(a).Branch? && Closed(m, f, LinkingCallee(m, f, m.At(a).target))
    requires m.Owned(a + 8, f) && b ==> Lab(m, a + 8)
    ensures AllClosed(m, f, LinkingThen(m, f, a, inside, b))
  {
    var callee, resume := LinkingCallee(m, f, m.At(a).target), Resume(m, f, a, b);
    CallClosed(m, f, callee, a + 8, resume);
    SlotClosed(m, f, a, inside, Call(callee, a + 8, resume));
  }

  lemma BranchesClosed(m: Module, f: nat, a: nat, k: seq<Stmt>)
    requires m.At(a).Branch? && m.Owned(a, f) && AllClosed(m, f, k)
    requires m.At(a).linking && CallsOwn(m, f, m.At(a).target) ==> !IsSlot(m, m.At(a).target)
    ensures AllClosed(m, f, if m.At(a).linking then LinkingHead(m, f, a, Lab(m, a + 8), k) else BranchHead(m, f, a, k))
  {
    var have, taken, insn := HaveSlot(m, f, a), TakenSlot(m, f, a), m.At(a);
    if m.Owned(insn.target, f) { assert Names(m, a, insn.target); }
    TransferClosed(m, f, insn.target);
    hide LinkingThen, SlotIf, Transfer, HaveSlot, TakenSlot, Lab, IsSlot;
    if insn.linking {
      var inside := taken || (have && insn.likely);
      LinkingCalleeClosed(m, f, a);
      LinkingThenClosed(m, f, a, inside, Lab(m, a + 8));
      var thn := IfC(LinkingThen(m, f, a, inside, Lab(m, a + 8)));
      ClosedThen(m, f, thn, k);
      SlotClosed(m, f, a, have && !insn.likely, [thn] + k);
      var rest := SlotIf(m, a, have && !insn.likely, [thn] + k);
      ClosedThen(m, f, Link(RA, a + 8), rest);
      ClosedThen(m, f, CapCond(insn.cond), [Link(RA, a + 8)] + rest);
    } else {
      SlotClosed(m, f, a, have || taken, Transfer(m, f, insn.target));
      ClosedThen(m, f, IfCond(insn.cond, SlotIf(m, a, have || taken, Transfer(m, f, insn.target))), k);
      SlotClosed(m, f, a, taken, Transfer(m, f, insn.target));
      var thn := IfC(SlotIf(m, a, taken, Transfer(m, f, insn.target)));
      ClosedThen(m, f, thn, k);
      SlotClosed(m, f, a, have, [thn] + k);
      ClosedThen(m, f, CapCond(insn.cond), SlotIf(m, a, have, [thn] + k));
    }
  }

  lemma LinkingCalleeClosed(m: Module, f: nat, a: nat)
    requires m.At(a).Branch? && m.Owned(a, f) && (CallsOwn(m, f, m.At(a).target) ==> !IsSlot(m, m.At(a).target))
    ensures Closed(m, f, LinkingCallee(m, f, m.At(a).target))
  {
    var t := m.At(a).target;
    if m.Owned(t, f) {
      assert Names(m, a, t);
      assert Named(m, t);
    }
  }

  lemma OthersClosed(m: Module, f: nat, a: nat, k: seq<Stmt>)
    requires m.Owned(a, f) && AllClosed(m, f, k) && !m.At(a).Branch?
    ensures AllClosed(m, f, Head(m, f, a, Lab(m, a + 8), k))
  {
    hide AllClosed, JalHead, JalrHead, JrHead, JHead, Lab;
    match m.At(a)
    case Plain(raw) => ClosedThen(m, f, Do(raw), k);
    case Jal(t) => JalClosed(m, f, a, k);
    case Jalr(rs, rd) => JalrClosed(m, f, a, k);
    case Jr(rs) => JrClosed(m, f, a, k);
    case J(t) => JClosed(m, f, a, k);
  }

  lemma JalClosed(m: Module, f: nat, a: nat, k: seq<Stmt>)
    requires AllClosed(m, f, k) && m.At(a).Jal?
    ensures AllClosed(m, f, JalHead(m, f, a, k))
  {
    hide AllClosed, SlotIf, HaveSlot, Call;
    var t := m.At(a).target;
    StaticClosed(m, f, t);
    CallClosed(m, f, StaticCall(m, t), a + 8, k);
    var go := if t == a + 8 then k else Call(StaticCall(m, t), a + 8, k);
    ClosedThen(m, f, Link(RA, a + 8), go);
    SlotClosed(m, f, a, HaveSlot(m, f, a), [Link(RA, a + 8)] + go);
  }

  lemma StaticClosed(m: Module, f: nat, t: nat)
    ensures Closed(m, f, StaticCall(m, t))
  {
  }

  lemma JalrClosed(m: Module, f: nat, a: nat, k: seq<Stmt>)
    requires AllClosed(m, f, k) && m.At(a).Jalr?
    ensures AllClosed(m, f, JalrHead(m, f, a, k))
  {
    hide AllClosed, SlotIf, HaveSlot, Call;
    var rs, rd := m.At(a).rs, m.At(a).rd;
    CallClosed(m, f, DispatchT, a + 8, k);
    CallClosed(m, f, DispatchT, 0, k);
    ClosedThen(m, f, Link(rd, a + 8), Call(DispatchT, a + 8, k));
    var go := if rd != 0 then [Link(rd, a + 8)] + Call(DispatchT, a + 8, k) else Call(DispatchT, 0, k);
    SlotClosed(m, f, a, HaveSlot(m, f, a), go);
    ClosedThen(m, f, CapReg(rs), SlotIf(m, a, HaveSlot(m, f, a), go));
  }

  lemma JrClosed(m: Module, f: nat, a: nat, k: seq<Stmt>)
    requires AllClosed(m, f, k) && m.At(a).Jr?
    ensures AllClosed(m, f, JrHead(m, f, a, k))
  {
    hide AllClosed, SlotIf, HaveSlot, TakenSlot;
    var emit := HaveSlot(m, f, a) || TakenSlot(m, f, a);
    var thn := IfRaIsJump([DispatchT] + [Return]);
    ClosedThen(m, f, Return, k);
    ClosedThen(m, f, thn, [Return] + k);
    ClosedThen(m, f, DispatchT, [Return] + k);
    var go := if m.At(a).rs == RA then [thn] + ([Return] + k) else [DispatchT] + ([Return] + k);
    SlotClosed(m, f, a, emit, go);
    ClosedThen(m, f, CapReg(m.At(a).rs), SlotIf(m, a, emit, go));
  }

  lemma JClosed(m: Module, f: nat, a: nat, k: seq<Stmt>)
    requires m.Owned(a, f) && AllClosed(m, f, k) && m.At(a).J?
    ensures AllClosed(m, f, JHead(m, f, a, k))
  {
    var t, emit := m.At(a).target, HaveSlot(m, f, a) || TakenSlot(m, f, a);
    hide AllClosed, SlotIf, HaveSlot, TakenSlot, Lab, StaticCall;
    JumpLabelled(m, f, a);
    StaticClosed(m, f, t);
    ClosedThen(m, f, Return, k);
    ClosedThen(m, f, StaticCall(m, t), [Return] + k);
    if m.Owned(t, f) && t !in m.funcs { ClosedThen(m, f, Goto(t), k); }
    SlotClosed(m, f, a, emit,
      if m.Owned(t, f) && t !in m.funcs then [Goto(t)] + k else [StaticCall(m, t)] + ([Return] + k));
  }

  lemma JumpLabelled(m: Module, f: nat, a: nat)
    requires m.At(a).J? && m.Owned(a, f)
    ensures m.Owned(m.At(a).target, f) ==> Lab(m, m.At(a).target)
  {
    if m.Owned(m.At(a).target, f) && m.At(a).target !in m.funcs { assert Names(m, a, m.At(a).target); }
  }

  /** What the names of a body hang on: no linking branch calls a slot of its own body, whose copy has no thunk; and
      if the body's entry is its own slot and falls through, the word after it is labelled. */
  ghost predicate NamesExist(m: Module, f: nat)
  {
    && (forall a {:trigger m.At(a)} ::
          m.Owned(a, f) && m.At(a).Branch? && m.At(a).linking && CallsOwn(m, f, m.At(a).target) ==>
          !IsSlot(m, m.At(a).target))
    && (IsSlot(m, f) && m.At(f - 4).FallsThrough() && m.Owned(f + 4, f) ==> Lab(m, f + 4))
  }

  predicate CallsOwn(m: Module, f: nat, t: nat) { m.Owned(t, f) && t !in m.funcs }

  lemma AliasClosed(m: Module, f: nat, a: nat, k: seq<Stmt>)
    requires Laid(m) && NamesExist(m, f) && m.Owned(a, f) && f in m.funcs && AllClosed(m, f, k)
    ensures AllClosed(m, f, Alias(m, f, a, Lab(m, a + 4), k))
  {
    if HaveSlot(m, f, a) && Lab(m, a + 4) {
      assert IsSlot(m, a + 4) && (a + 4 in m.funcs ==> a + 4 == f);
      assert m.Owned(a + 8, f) && Marked(m, a + 4) ==> Marked(m, a + 8);
      var copy := [Label(a + 4)] + ([SlotStmt(m, a)] + k);
      ClosedThen(m, f, SlotStmt(m, a), k);
      ClosedThen(m, f, Label(a + 4), [SlotStmt(m, a)] + k);
      if m.Owned(a + 8, f) && m.At(a).FallsThrough() { ClosedThen(m, f, Goto(a + 8), copy); }
      ClosedThen(m, f, Return, copy);
    }
  }

  lemma ConstructClosed(m: Module, f: nat, a: nat, k: seq<Stmt>)
    requires Laid(m) && NamesExist(m, f) && m.Owned(a, f) && f in m.funcs && AllClosed(m, f, k)
    ensures AllClosed(m, f, Head(m, f, a, Lab(m, a + 8), Alias(m, f, a, Lab(m, a + 4), k)))
  {
    AliasClosed(m, f, a, k);
    var k' := Alias(m, f, a, Lab(m, a + 4), k);
    hide Alias, Lab, IsSlot, LinkingHead, BranchHead;
    if m.At(a).Branch? {
      BranchesClosed(m, f, a, k');
    } else {
      OthersClosed(m, f, a, k');
    }
  }

  lemma {:induction false} WalkClosed(m: Module, f: nat, a: nat, last: bool)
    requires Laid(m) && NamesExist(m, f) && f in m.funcs
    ensures AllClosed(m, f, EmitFrom(m, f, m.funcs[f].end, a, last))
    decreases m.funcs[f].end - a
  {
    hide Laid, NamesExist, Head, Alias, IsSlot, Lab;
    var end := m.funcs[f].end;
    if a < end {
      if !m.Owned(a, f) {
        var k := EmitFrom(m, f, end, a + 4, true);
        WalkClosed(m, f, a + 4, true);
        ClosedThen(m, f, Return, k);
        ClosedThen(m, f, StaticCall(m, a), [Return] + k);
      } else if IsSlot(m, a) {
        WalkClosed(m, f, a + 4, last);
      } else {
        var k := EmitFrom(m, f, end, Next(m, f, a), m.At(a).Terminal());
        WalkClosed(m, f, Next(m, f, a), m.At(a).Terminal());
        ConstructClosed(m, f, a, k);
        ClosedThen(m, f, Label(a), Head(m, f, a, Lab(m, a + 8), Alias(m, f, a, Lab(m, a + 4), k)));
      }
    }
  }

  // ---- and the other way: a name that is missing is used by some line

  lemma ClosedLater(m: Module, f: nat, lines: seq<Stmt>, k: seq<Stmt>)
    requires AllClosed(m, f, lines + k)
    ensures AllClosed(m, f, k)
  {
    forall i | 0 <= i < |k|
      ensures Closed(m, f, k[i])
    {
      assert (lines + k)[|lines| + i] == k[i];
    }
  }

  ghost function ConstructAt(m: Module, f: nat, a: nat): seq<Stmt>
    requires f in m.funcs
  {
    Head(m, f, a, Lab(m, a + 8), Alias(m, f, a, Lab(m, a + 4), Following(m, f, a)))
  }

  lemma OneWordOn(m: Module, f: nat, a: nat, last: bool) returns (next: nat, last': bool)
    requires f in m.funcs && a < m.funcs[f].end && AllClosed(m, f, EmitFrom(m, f, m.funcs[f].end, a, last))
    ensures m.Owned(a, f) && !IsSlot(m, a) ==> next == Next(m, f, a) && AllClosed(m, f, ConstructAt(m, f, a))
    ensures !m.Owned(a, f) || IsSlot(m, a) ==> next == a + 4
    ensures AllClosed(m, f, EmitFrom(m, f, m.funcs[f].end, next, last'))
  {
    var end := m.funcs[f].end;
    next, last' := a + 4, last;
    if !m.Owned(a, f) {
      last' := true;
      var k := EmitFrom(m, f, end, a + 4, true);
      if !last {
        assert [StaticCall(m, a)] + ([Return] + k) == ([StaticCall(m, a)] + [Return]) + k;
        ClosedLater(m, f, [StaticCall(m, a)] + [Return], k);
      }
    } else if !IsSlot(m, a) {
      next, last' := Next(m, f, a), m.At(a).Terminal();
      ClosedLater(m, f, if Lab(m, a) then [Label(a)] else [], ConstructAt(m, f, a));
      C.LinesThen(m, f, a, Lab(m, a + 4), Lab(m, a + 8), Following(m, f, a));
      ClosedLater(m, f, C.Lines(m, f, a, Lab(m, a + 4), Lab(m, a + 8)), Following(m, f, a));
    }
  }

  lemma {:induction false} ReachedClosed(m: Module, f: nat, a: nat, last: bool, p: nat)
    requires Laid(m) && PlainSlots(m) && f in m.funcs && m.Owned(p, f) && !IsSlot(m, p)
    requires a % 4 == 0 && a <= p && AllClosed(m, f, EmitFrom(m, f, m.funcs[f].end, a, last))
    ensures AllClosed(m, f, ConstructAt(m, f, p))
    decreases p - a
  {
    hide Laid, PlainSlots, AllClosed, EmitFrom, ConstructAt, IsSlot, Next;
    OwnedInside(m, f, p);
    var next, last' := OneWordOn(m, f, a, last);
    if a < p {
      if m.Owned(a, f) && !IsSlot(m, a) {
        NotSkipped(m, f, a, p);
        NextIsLater(m, f, a);
      }
      ReachedClosed(m, f, next, last', p);
    }
  }

  lemma CalleeClosed(m: Module, f: nat, a: nat, k: seq<Stmt>)
    requires m.At(a).Branch? && m.At(a).linking && AllClosed(m, f, Head(m, f, a, Lab(m, a + 8), k))
    ensures Closed(m, f, LinkingCallee(m, f, m.At(a).target))
  {
    var have, taken, likely := HaveSlot(m, f, a), TakenSlot(m, f, a), m.At(a).likely;
    var inside := taken || (have && likely);
    var thn := LinkingThen(m, f, a, inside, Lab(m, a + 8));
    var code := LinkingHead(m, f, a, Lab(m, a + 8), k);
    assert code[if have && !likely then 3 else 2] == IfC(thn);
    assert thn[if inside then 2 else 1] == LinkingCallee(m, f, m.At(a).target);
  }

  lemma AfterAliasClosed(m: Module, f: nat, a: nat, b: bool, k: seq<Stmt>)
    requires AllClosed(m, f, Head(m, f, a, b, Alias(m, f, a, true, k)))
    requires HaveSlot(m, f, a) && m.At(a).FallsThrough() && m.Owned(a + 8, f)
    ensures Lab(m, a + 8)
  {
    var alias := Alias(m, f, a, true, k);
    C.HeadAppends(m, f, a, b, [], alias);
    assert [] + alias == alias;
    ClosedLater(m, f, Head(m, f, a, b, []), alias);
    assert alias[0] == Goto(a + 8);
  }

  lemma CalledOwnIsNoSlot(m: Module, f: nat, a: nat)
    requires Laid(m) && PlainSlots(m) && f in m.funcs && AllClosed(m, f, Walked(m, f))
    requires m.Owned(a, f) && m.At(a).Branch? && m.At(a).linking && CallsOwn(m, f, m.At(a).target)
    ensures !IsSlot(m, m.At(a).target)
  {
    assert !IsSlot(m, a) && m.funcs[f].start % 4 == 0 && m.funcs[f].start <= a && !m.Import(m.At(a).target);
    hide Laid, PlainSlots, AllClosed, Head, Alias, IsSlot, Lab, EmitFrom;
    ReachedClosed(m, f, m.funcs[f].start, false, a);
    CalleeClosed(m, f, a, Alias(m, f, a, Lab(m, a + 4), Following(m, f, a)));
  }

  lemma AfterEntryLabelled(m: Module, f: nat)
    requires Laid(m) && PlainSlots(m) && f in m.funcs && AllClosed(m, f, Walked(m, f))
    requires IsSlot(m, f) && m.At(f - 4).FallsThrough() && m.Owned(f + 4, f)
    ensures Lab(m, f + 4)
  {
    var a := f - 4;
    assert m.Owned(a, f) && !IsSlot(m, a) && HaveSlot(m, f, a) && m.funcs[f].start % 4 == 0 && m.funcs[f].start <= a;
    hide Laid, PlainSlots, AllClosed, Head, Alias, IsSlot, HaveSlot, EmitFrom;
    ReachedClosed(m, f, m.funcs[f].start, false, a);
    AfterAliasClosed(m, f, a, Lab(m, a + 8), Following(m, f, a));
  }

  lemma ClosedNamesExist(m: Module, f: nat)
    requires Laid(m) && PlainSlots(m) && f in m.funcs && AllClosed(m, f, Walked(m, f))
    ensures NamesExist(m, f)
  {
    assert IsSlot(m, f) ==> f >= 4;
    hide Laid, PlainSlots, AllClosed, IsSlot, Lab, Walked;
    forall a: nat {:trigger m.At(a)} | m.Owned(a, f) && m.At(a).Branch? && m.At(a).linking
      && CallsOwn(m, f, m.At(a).target)
      ensures !IsSlot(m, m.At(a).target)
    {
      CalledOwnIsNoSlot(m, f, a);
    }
    if IsSlot(m, f) && m.At(f - 4).FallsThrough() && m.Owned(f + 4, f) {
      AfterEntryLabelled(m, f);
    }
  }

  lemma {:induction false} CasesClosed(m: Module, f: nat, end: nat, a: nat)
    ensures Closed(m, f, Switch(Cases(m, f, end, a)))
    decreases end - a
  {
    if a < end { CasesClosed(m, f, end, a + 4); }
  }

  /** Every name a body uses exists exactly when NamesExist says; and every owned label is a line of its body, so a
      goto and an entry case land in it. */
  lemma BodyClosed(m: Module, f: nat, a: nat)
    requires Laid(m) && PlainSlots(m) && f in m.funcs
    ensures AllClosed(m, f, Body(m, f)) <==> NamesExist(m, f)
    ensures m.Owned(a, f) && Lab(m, a) ==> Label(a) in Body(m, f)
  {
    var cases := if NeedsSwitch(m, f) then [Switch(Cases(m, f, m.funcs[f].end, m.funcs[f].start))] else [];
    assert Body(m, f) == cases + Walked(m, f);
    if NamesExist(m, f) {
      WalkClosed(m, f, m.funcs[f].start, false);
      CasesClosed(m, f, m.funcs[f].end, m.funcs[f].start);
      ClosedThen(m, f, Switch(Cases(m, f, m.funcs[f].end, m.funcs[f].start)), Walked(m, f));
    }
    if AllClosed(m, f, Body(m, f)) {
      ClosedLater(m, f, cases, Walked(m, f));
      ClosedNamesExist(m, f);
    }
    if m.Owned(a, f) && Lab(m, a) {
      LabelWritten(m, f, a);
      FoundIn(Walked(m, f), a);
    }
  }

  lemma LabelWritten(m: Module, f: nat, a: nat)
    requires Laid(m) && PlainSlots(m) && f in m.funcs && m.Owned(a, f) && Lab(m, a)
    ensures After(Walked(m, f), a) != []
  {
    if IsSlot(m, a) {
      SlotFound(m, f, a - 4);
    } else {
      LandPlain(m, f, a);
      SpotLabelled(m, f, a);
    }
  }

  lemma SpotLabelled(m: Module, f: nat, a: nat)
    requires Laid(m) && f in m.funcs && m.Owned(a, f) && Lab(m, a)
    ensures Spot(m, f, a) != [] && Spot(m, f, a)[0] == Label(a)
  {
  }

  lemma {:induction false} FoundIn(code: seq<Stmt>, a: nat)
    requires After(code, a) != []
    ensures Label(a) in code
  {
    if code[0] != Label(a) { FoundIn(code[1..], a); }
  }

  /** A loop whose head, at 0x100, lies below the entry 0x104 and has it for its slot:
      0x100 branches on, 0x108 back to 0x100, 0x110 returns. */
  function SlotEntry(): Module {
    Module(map a: nat | 0x100 <= a < 0x118 && a % 4 == 0 :: LoopAt(a),
           map a: nat | 0x100 <= a < 0x118 && a % 4 == 0 :: 0x104, map[0x104 := Func(0x100, 0x118)], 0, 0)
  }

  function LoopAt(a: nat): Insn {
    if a == 0x100 then Branch(Ne(1, 0), 0x110, false, false)
    else if a == 0x108 then Branch(Ne(2, 0), 0x100, false, false)
    else if a == 0x110 then Jr(RA)
    else Plain(a)
  }

  /** There the jump over the entry's own copy goes to a label that is not written. */
  lemma SlotEntryIsOpen()
    ensures var m := SlotEntry(); Laid(m) && PlainSlots(m) && !AllClosed(m, 0x104, Body(m, 0x104))
  {
    hide *;
    SlotEntryIsLaid();
    SlotEntryLacksName();
    BodyClosed(SlotEntry(), 0x104, 0);
  }

  lemma SlotEntryIsLaid()
    ensures Laid(SlotEntry()) && PlainSlots(SlotEntry()) && 0x104 in SlotEntry().funcs
  {
    SlotEntrySlots();
    hide PlainSlots, LoopAt;
  }

  lemma SlotEntrySlots()
    ensures PlainSlots(SlotEntry())
  {
    hide SlotEntry, Module.At, Module.Import;
    var m := SlotEntry();
    forall a {:trigger a in m.owner} | a in m.owner && m.At(a).HasDelaySlot()
      ensures a + 4 in m.code && m.At(a + 4).Plain? && !m.Import(a + 4)
    {
      SlotEntryAt(a);
      SlotEntryAt(a + 4);
    }
  }

  lemma SlotEntryAt(a: nat)
    ensures var m := SlotEntry();
      (a in m.owner <==> 0x100 <= a < 0x118 && a % 4 == 0) && m.owner.Keys == m.code.Keys && !m.Import(a)
      && (a in m.owner ==> m.At(a) == LoopAt(a))
  {
  }

  lemma SlotEntryLacksName()
    ensures !NamesExist(SlotEntry(), 0x104)
  {
    var m := SlotEntry();
    NotNamed(m, 0x104);
    NotNamed(m, 0x108);
    assert IsSlot(m, 0x104) && !IsSlot(m, 0x100);
    hide Named;
    assert !Marked(m, 0x104) && !Marked(m, 0x108);
  }

  lemma NotNamed(m: Module, a: nat)
    requires m == SlotEntry() && (a == 0x104 || a == 0x108)
    ensures !Named(m, a)
  {
    forall b: nat | m.Owned(b, 0x104)
      ensures !Names(m, b, a)
    {
    }
  }
}

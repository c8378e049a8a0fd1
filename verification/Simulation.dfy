/** The emitted program simulates the delay-slot machine, call protocol included. */
module Simulation {
  import opened Allegrex
  import opened Emitter
  import opened Recompiled
  import opened Layout

  // ---- entering a body

  lemma {:induction false} CasesAre(m: Module, f: nat, end: nat, a: nat, x: nat)
    requires a % 4 == 0 && x % 4 == 0
    ensures x in Cases(m, f, end, a) <==> a <= x < end && m.Owned(x, f) && Lab(m, x) && !IsSlot(m, x)
    decreases end - a
  {
    if a < end { CasesAre(m, f, end, a + 4, x); }
  }

  /** A body asked to start at one of its labels reaches that label's construct. */
  lemma EnterBody(isa: Isa, m: Module, h: Config) returns (n: nat)
    requires Laid(m) && PlainSlots(m)
    requires h.top.body in m.funcs && h.top.rest == Body(m, h.top.body)
    requires m.Owned(h.top.entry, h.top.body) && Lab(m, h.top.entry) && !IsSlot(m, h.top.entry)
    ensures HRun(isa, m, Running(h), n) == Running(h.(top := h.top.(rest := Code(m, h.top.body, h.top.entry))))
  {
    var f, e := h.top.body, h.top.entry;
    if NeedsSwitch(m, f) {
      CasesAre(m, f, m.funcs[f].end, m.funcs[f].start, e);
      LandPlain(m, f, e);
      Skip(Switch(Cases(m, f, m.funcs[f].end, m.funcs[f].start)), Walked(m, f), e);
      n := 1;
      SwitchLands(isa, m, h, Cases(m, f, m.funcs[f].end, m.funcs[f].start), Walked(m, f));
      hide CStep, Laid, PlainSlots, Lab, IsSlot, Code, Spot, After, Walked, Cases;
      assert HRun(isa, m, Running(h), 1) == CStep(isa, m, h);
    } else {
      n := 0;
    }
  }

  /** The entry switch, when the entry has a case. */
  lemma SwitchLands(isa: Isa, m: Module, h: Config, cases: seq<nat>, k: seq<Stmt>)
    requires h.top.rest == [Switch(cases)] + k && h.top.entry in cases && h.top.body in m.funcs
    ensures CStep(isa, m, h) == Running(h.(top := h.top.(rest := After(Body(m, h.top.body), h.top.entry))))
  {
    hide After, Body;
  }

  /** An entry has a case of its body's switch, or is where the body begins, exactly when it is not its own body's
      slot; when it is, a call of the function starts at the lowest word instead. */
  lemma EntryHasCase(isa: Isa, m: Module, h: Config)
    requires Laid(m) && h.top.body in m.funcs && h.top.entry == h.top.body && h.top.rest == Body(m, h.top.body)
    ensures
      var f := h.top.body;
      && (f in Cases(m, f, m.funcs[f].end, m.funcs[f].start) <==> !IsSlot(m, f))
      && (IsSlot(m, f) ==>
            m.funcs[f].start < f && HStep(isa, m, Running(h)) == Running(h.(top := h.top.(rest := Walked(m, f)))))
  {
    var f := h.top.body;
    assert m.Owned(f, f) && m.funcs[f].start % 4 == 0 && f % 4 == 0 && m.funcs[f].start <= f < m.funcs[f].end;
    CasesAre(m, f, m.funcs[f].end, m.funcs[f].start, f);
    if IsSlot(m, f) {
      assert m.Owned(f - 4, f);
      assert m.funcs[f].start <= f - 4;
      assert NeedsSwitch(m, f);
      hide Laid, Cases, Walked, IsSlot, Lab;
      assert h.top.rest[1..] == Walked(m, f);
    }
  }

  // ---- what the guest's pc is to the host

  /** The address has a function or a thunk that dispatch finds. */
  ghost predicate Registered(m: Module, a: nat) { a in m.funcs || Thunk(m, a) }

  /** The address is not the body's, or is a slot of it. */
  ghost predicate Outside(m: Module, f: nat, a: nat) { m.Owned(a, f) ==> IsSlot(m, a) }

  /** The statement, a line of the body f, hands control to the guest address a and keeps nothing of its own. An
      address that dispatch would miss is handed to it only from outside. */
  ghost predicate HandsOver(m: Module, f: nat, s: Stmt, a: nat)
  {
    || (s == Dispatch(a) && (Registered(m, a) || Outside(m, f, a)))
    || (s == CallFunc(a) && a in m.funcs)
    || (s == CallAt(a) && Thunk(m, a))
    || (s == CallImport(a) && m.Import(a))
  }

  /** Nothing but a return is left. */
  ghost predicate Tail(rest: seq<Stmt>) { rest == [] || rest[0] == Return }

  /** Running `rest` in the body f takes the guest to the address pc next. */
  ghost predicate Reaches(m: Module, f: nat, rest: seq<Stmt>, pc: nat)
  {
    || AtCode(m, f, rest, pc)
    || (f in m.funcs && rest == Spot(m, f, pc) && m.Owned(pc, f) && IsSlot(m, pc) && Lab(m, pc))
    || (f in m.funcs && rest != [] && rest[0] == Goto(pc) && m.Owned(pc, f) && Lab(m, pc))
    || (rest != [] && HandsOver(m, f, rest[0], pc) && Tail(rest[1..]))
  }

  /** What a body is about to run takes the guest to one address only. */
  lemma ReachesOne(m: Module, f: nat, rest: seq<Stmt>, a: nat, b: nat)
    requires Laid(m) && PlainSlots(m) && Reaches(m, f, rest, a) && Reaches(m, f, rest, b)
    ensures a == b
  {
    hide *;
    FirstLine(m, f, rest, a);
    FirstLine(m, f, rest, b);
    if Opens(rest[0]) { SameCode(m, f, rest, a, b); } else { NamesOne(m, f, rest[0], a, b); }
  }

  lemma ReachesNoOther(m: Module, f: nat, rest: seq<Stmt>, a: nat, b: nat)
    requires Laid(m) && PlainSlots(m) && Reaches(m, f, rest, a) && a != b
    ensures !Reaches(m, f, rest, b)
  {
    hide *;
    if Reaches(m, f, rest, b) { ReachesOne(m, f, rest, a, b); }
  }

  /** The first line names the address, or opens its construct. */
  lemma FirstLine(m: Module, f: nat, rest: seq<Stmt>, a: nat)
    requires Laid(m) && PlainSlots(m) && Reaches(m, f, rest, a)
    ensures rest != [] && if Opens(rest[0]) then AtCode(m, f, rest, a) else LineNames(m, f, rest[0], a)
  {
    if AtCode(m, f, rest, a) { CodeOpens(m, f, a); }
    hide Code, Lab, IsSlot, Laid, PlainSlots;
  }

  ghost predicate LineNames(m: Module, f: nat, s: Stmt, a: nat)
  {
    s == Label(a) || s == Goto(a) || HandsOver(m, f, s, a)
  }

  lemma NamesOne(m: Module, f: nat, s: Stmt, a: nat, b: nat)
    requires LineNames(m, f, s, a) && LineNames(m, f, s, b)
    ensures a == b
  {
  }

  lemma SameCode(m: Module, f: nat, rest: seq<Stmt>, a: nat, b: nat)
    requires Laid(m) && PlainSlots(m) && AtCode(m, f, rest, a) && AtCode(m, f, rest, b)
    ensures a == b
  {
    CodeIsOnce(m, f, a, b);
  }

  ghost predicate AtCode(m: Module, f: nat, rest: seq<Stmt>, pc: nat)
  {
    f in m.funcs && rest == Code(m, f, pc) && m.Owned(pc, f) && !IsSlot(m, pc)
  }

  /** The suspended activations against the frame chain: each waiting call's frame is the next one out, carries
      the address it resumes at, and saved the chain below it; tail transfers push none; the outermost frame is
      the host's. */
  ghost predicate Chained(m: Module, stack: seq<Act>, frames: seq<nat>, outer: seq<nat>)
    ensures Chained(m, stack, frames, outer) ==> frames != []
    decreases stack
  {
    if stack == [] then frames == [0] + outer
    else
      var k := stack[0];
      if Tail(k.rest) then Chained(m, stack[1..], frames, outer)
      else
        && k.rest[0].CallEnd? && k.rest[0].ret != 0
        && frames == [k.rest[0].ret] + k.prev
        && Reaches(m, k.body, k.rest[1..], k.rest[0].ret)
        && Chained(m, stack[1..], k.prev, outer)
  }

  ghost predicate Match(m: Module, outer: seq<nat>, g: Guest, h: Host)
  {
    && h.Running? && h.at.unwind == 0 && h.at.cpu == g.cpu && g.npc == g.pc + 4
    && Reaches(m, h.at.top.body, h.at.top.rest, g.pc)
    && Chained(m, h.at.stack, h.at.frames, outer)
  }

  /** The host is at a firmware call in tail position whose guest return address is not the frame's. */
  ghost predicate StrayImport(m: Module, outer: seq<nat>, g: Guest, h: Host)
  {
    && Match(m, outer, g, h) && m.Import(g.pc)
    && h.at.top.rest != [] && h.at.top.rest[0] == CallImport(g.pc)
    && h.at.frames != [] && h.at.frames[0] != 0 && g.cpu.r[RA] != h.at.frames[0]
  }

  // ---- leaving: returns, unwinds, and the way back to the host

  /** The chain below the innermost frame whose return site is ra. */
  ghost function Below(frames: seq<nat>, ra: nat): seq<nat>
  {
    if frames == [] then [] else if frames[0] == ra then frames[1..] else Below(frames[1..], ra)
  }

  ghost predicate ResumedAt(m: Module, outer: seq<nat>, h: Config, h': Host, ra: nat)
  {
    && h'.Running? && h'.at.unwind == 0 && h'.at.cpu == h.cpu
    && h'.at.frames == Below(h.frames, ra)
    && Reaches(m, h'.at.top.body, h'.at.top.rest, ra)
    && Chained(m, h'.at.stack, h'.at.frames, outer)
  }

  /** An activation that leaves with a return site pending ends at the innermost call that owns it, with the
      chain cut exactly there; with nothing pending it ends at the innermost call. */
  lemma {:induction false} LeaveResumes(isa: Isa, m: Module, outer: seq<nat>, h: Config, ra: nat) returns (n: nat)
    requires Chained(m, h.stack, h.frames, outer)
    requires ra != 0 && InSegment(h.frames, ra)
    requires h.unwind == ra || (h.unwind == 0 && h.frames[0] == ra)
    ensures ResumedAt(m, outer, h, HRun(isa, m, Leave(h), n), ra)
    decreases h.stack
  {
    hide Chained, ResumedAt, HRun, HStep, InSegment, Reaches, Tail, Leave;
    SomeoneWaits(m, outer, h, ra);
    var k := h.stack[0];
    var h1 := Leave(h).at;
    if Tail(k.rest) {
      LeavesTail(isa, m, outer, h);
      var i := LeaveResumes(isa, m, outer, h1, ra);
      HRunAdd(isa, m, Running(h1), 1, i);
      n := 1 + i;
      ResumedToo(m, outer, h, h1, HRun(isa, m, Running(h1), n), ra);
    } else {
      var popped := h1.(top := k.(rest := k.rest[1..]), frames := k.prev);
      LeavesCall(isa, m, outer, h, ra);
      if h.frames[0] == ra {
        n := 1;
      } else {
        var i := LeaveResumes(isa, m, outer, popped, ra);
        HRunAdd(isa, m, Running(h1), 1, i);
        n := 1 + i;
        ResumedToo(m, outer, h, popped, HRun(isa, m, Running(h1), n), ra);
      }
    }
  }

  /** A segment that owns a return site has a call waiting for it. */
  lemma SomeoneWaits(m: Module, outer: seq<nat>, h: Config, ra: nat)
    requires Chained(m, h.stack, h.frames, outer) && InSegment(h.frames, ra)
    ensures h.stack != [] && Leave(h) == Running(Leave(h).at) && Leave(h).at.stack == h.stack[1..]
    ensures Leave(h).at.cpu == h.cpu && Leave(h).at.unwind == h.unwind && h.frames != []
    ensures !Tail(h.stack[0].rest) ==> h.stack[0].rest != []
  {
    hide Reaches;
  }

  lemma ResumedToo(m: Module, outer: seq<nat>, h: Config, h1: Config, h': Host, ra: nat)
    requires ResumedAt(m, outer, h1, h', ra) && h1.cpu == h.cpu && h.frames != []
    requires h1.frames == h.frames || (h.frames[0] != ra && h1.frames == h.frames[1..])
    ensures ResumedAt(m, outer, h, h', ra)
  {
    hide Reaches, Chained;
  }

  /** A suspended tail transfer leaves in turn. */
  lemma LeavesTail(isa: Isa, m: Module, outer: seq<nat>, h: Config)
    requires Chained(m, h.stack, h.frames, outer) && h.stack != [] && Tail(h.stack[0].rest)
    ensures var h1 := Leave(h).at;
      && Leave(h) == Running(h1) && Chained(m, h1.stack, h1.frames, outer) && h1.frames == h.frames
      && HRun(isa, m, Running(h1), 1) == Leave(h1)
  {
    var h1 := Leave(h).at;
    assert HStep(isa, m, Running(h1)) == Leave(h1);
  }

  /** A suspended call pops its frame, and resumes if what is pending, or nothing, is its own. */
  lemma LeavesCall(isa: Isa, m: Module, outer: seq<nat>, h: Config, ra: nat)
    requires Chained(m, h.stack, h.frames, outer) && h.stack != [] && !Tail(h.stack[0].rest)
    requires ra != 0 && InSegment(h.frames, ra) && (h.unwind == ra || (h.unwind == 0 && h.frames[0] == ra))
    ensures
      var k, h1 := h.stack[0], Leave(h).at;
      var popped := h1.(top := k.(rest := k.rest[1..]), frames := k.prev);
      && Leave(h) == Running(h1) && Chained(m, popped.stack, popped.frames, outer) && k.prev == h.frames[1..]
      && (if h.frames[0] == ra then ResumedAt(m, outer, h, HRun(isa, m, Running(h1), 1), ra)
          else InSegment(popped.frames, ra) && popped.unwind == ra && HRun(isa, m, Running(h1), 1) == Leave(popped))
  {
    hide Reaches;
    var k, h1 := h.stack[0], Leave(h).at;
    var popped := h1.(top := k.(rest := k.rest[1..]), frames := k.prev);
    if h.frames[0] == ra {
      assert HStep(isa, m, Running(h1)) == Running(popped.(unwind := 0));
    } else {
      assert HStep(isa, m, Running(h1)) == Leave(popped);
    }
    assert HRun(isa, m, Running(h1), 1) == HStep(isa, m, Running(h1));
  }

  /** Under a host frame everything that is left is tail transfers, and control goes back to the host with the
      chain it pushed and nothing pending. */
  lemma {:induction false} LeaveToHost(isa: Isa, m: Module, outer: seq<nat>, h: Config) returns (n: nat)
    requires Chained(m, h.stack, h.frames, outer) && h.frames[0] == 0 && h.unwind == 0
    ensures HRun(isa, m, Leave(h), n) == Done(h.cpu, [0] + outer, 0)
    decreases h.stack
  {
    if h.stack == [] {
      n := 0;
    } else {
      var h1 := Leave(h).at;
      n := LeaveToHost(isa, m, outer, h1);
      n := n + 1;
      assert HStep(isa, m, Running(h1)) == Leave(h1);
    }
  }

  // ---- arriving

  /** The host stands at the construct (or the standalone slot copy) for the guest's pc. */
  ghost predicate Standing(m: Module, outer: seq<nat>, g: Guest, h: Host)
  {
    && Match(m, outer, g, h) && h.at.top.body in m.funcs && m.Owned(g.pc, h.at.top.body)
    && h.at.top.rest == Spot(m, h.at.top.body, g.pc)
    && (IsSlot(m, g.pc) ==> Lab(m, g.pc))
  }

  /** Dispatch names the guest's address, which is no entry and no registered label. */
  ghost predicate Missing(m: Module, g: Guest, h: Host)
  {
    h == Missed(g.pc, g.cpu) && !Registered(m, g.pc)
  }

  ghost predicate Arrived(m: Module, outer: seq<nat>, g: Guest, h: Host)
  {
    Standing(m, outer, g, h) || Missing(m, g, h)
  }

  ghost predicate Ready(m: Module, outer: seq<nat>, g: Guest, h: Config, k: seq<Stmt>)
  {
    && h.unwind == 0 && h.cpu == g.cpu && g.npc == g.pc + 4
    && Chained(m, [h.top.(rest := k)] + h.stack, h.frames, outer)
  }

  lemma EnterArrives(isa: Isa, m: Module, outer: seq<nat>, g: Guest, h: Config, k: seq<Stmt>, f: nat) returns (n: nat)
    requires WellFormed(isa, m) && Ready(m, outer, g, h, k)
    requires f in m.funcs && m.Owned(g.pc, f) && Lab(m, g.pc) && !IsSlot(m, g.pc)
    ensures Standing(m, outer, g, HRun(isa, m, Enter(m, h, k, f, g.pc), n))
    ensures HRun(isa, m, Enter(m, h, k, f, g.pc), n).at.frames == h.frames
  {
    n := EnterBody(isa, m, Enter(m, h, k, f, g.pc).at);
  }

  lemma DispatchArrives(isa: Isa, m: Module, outer: seq<nat>, g: Guest, h: Config, k: seq<Stmt>) returns (n: nat)
    requires WellFormed(isa, m) && Ready(m, outer, g, h, k)
    ensures Arrived(m, outer, g, HRun(isa, m, Dispatched(m, h, k, g.pc), n))
    ensures var h' := HRun(isa, m, Dispatched(m, h, k, g.pc), n); h'.Running? ==> h'.at.frames == h.frames
  {
    if g.pc in m.funcs {
      n := EnterArrives(isa, m, outer, g, h, k, g.pc);
    } else if Thunk(m, g.pc) {
      n := EnterArrives(isa, m, outer, g, h, k, m.owner[g.pc]);
    } else {
      n := 0;
    }
  }

  lemma HandOverDispatches(isa: Isa, m: Module, h: Config, a: nat)
    requires Laid(m) && h.top.rest != [] && HandsOver(m, h.top.body, h.top.rest[0], a) && !h.top.rest[0].CallImport?
    ensures HStep(isa, m, Running(h)) == Dispatched(m, h, h.top.rest[1..], a)
  {
  }

  /** A hand-over statement, in tail position or inside a call, arrives at its address. */
  lemma HandOverArrives(isa: Isa, m: Module, outer: seq<nat>, g: Guest, h: Config) returns (n: nat)
    requires WellFormed(isa, m)
    requires h.top.rest != [] && HandsOver(m, h.top.body, h.top.rest[0], g.pc) && !h.top.rest[0].CallImport?
    requires Ready(m, outer, g, h, h.top.rest[1..])
    ensures Arrived(m, outer, g, HRun(isa, m, Running(h), n))
  {
    hide WellFormed, HRun, HStep, Ready, HandsOver, Dispatched, Arrived;
    WellLaid(isa, m);
    HandOverDispatches(isa, m, h, g.pc);
    var i := DispatchArrives(isa, m, outer, g, h, h.top.rest[1..]);
    n := i + 1;
    HRunAdd(isa, m, Running(h), 1, i);
    HRunOne(isa, m, Running(h));
  }

  lemma WellLaid(isa: Isa, m: Module)
    requires WellFormed(isa, m)
    ensures Laid(m) && PlainSlots(m)
  {
  }

  lemma HRunOne(isa: Isa, m: Module, h: Host)
    ensures HRun(isa, m, h, 1) == HStep(isa, m, h)
  {
  }

  lemma GotoLands(isa: Isa, m: Module, h: Config, a: nat)
    requires WellFormed(isa, m) && h.top.body in m.funcs
    requires h.top.rest != [] && h.top.rest[0] == Goto(a) && m.Owned(a, h.top.body) && Lab(m, a)
    ensures HStep(isa, m, Running(h)) == Running(h.(top := h.top.(rest := Spot(m, h.top.body, a))))
  {
    Land(isa, m, h.top.body, a);
  }

  lemma TailPushed(m: Module, outer: seq<nat>, h: Config, k: seq<Stmt>)
    requires Tail(k)
    ensures Chained(m, [h.top.(rest := k)] + h.stack, h.frames, outer) == Chained(m, h.stack, h.frames, outer)
  {
    assert ([h.top.(rest := k)] + h.stack)[1..] == h.stack;
  }

  /** From any matching state the host arrives, or stands before a firmware call in tail position. It misses only on
      a static dispatch from outside. */
  lemma Arrive(isa: Isa, m: Module, outer: seq<nat>, g: Guest, h: Host) returns (n: nat)
    requires WellFormed(isa, m) && Match(m, outer, g, h)
    ensures Missing(m, g, HRun(isa, m, h, n)) ==> Outside(m, h.at.top.body, g.pc)
    ensures Arrived(m, outer, g, HRun(isa, m, h, n)) ||
            (n == 0 && h.at.top.rest != [] && h.at.top.rest[0] == CallImport(g.pc) && m.Import(g.pc)
              && Tail(h.at.top.rest[1..]))
  {
    var rest, f := h.at.top.rest, h.at.top.body;
    n := 0;
    if rest != [] && HandsOver(m, f, rest[0], g.pc) && Tail(rest[1..]) {
      if !rest[0].CallImport? {
        TailPushed(m, outer, h.at, rest[1..]);
        n := HandOverArrives(isa, m, outer, g, h.at);
      }
    } else if rest != [] && f in m.funcs && rest[0] == Goto(g.pc) && m.Owned(g.pc, f) && Lab(m, g.pc) {
      n := 1;
      GotoLands(isa, m, h.at, g.pc);
      HRunOne(isa, m, h);
    }
  }
}

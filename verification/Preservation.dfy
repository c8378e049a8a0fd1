/** Semantic preservation, for whole runs of a recompiled module. */
module Preservation {
  import opened Allegrex
  import opened Emitter
  import opened Recompiled
  import opened Layout
  import opened Simulation
  import opened Constructs

  // ---- one construct

  ghost function Construct(m: Module, f: nat, a: nat): seq<Stmt>
    requires f in m.funcs
  {
    Head(m, f, a, Lab(m, a + 8), Rest(m, f, a))
  }

  lemma CodeIsConstruct(m: Module, f: nat, a: nat)
    requires f in m.funcs && m.Owned(a, f) && !IsSlot(m, a) && a < m.funcs[f].end
    ensures Code(m, f, a) == if Lab(m, a) then [Label(a)] + Construct(m, f, a) else Construct(m, f, a)
  {
  }

  lemma HeadStands(isa: Isa, m: Module, outer: seq<nat>, g: Guest, h: Config)
    requires WellFormed(isa, m) && Standing(m, outer, g, Running(h)) && !IsSlot(m, g.pc) && h.top.body in m.funcs
    ensures AtHead(isa, m, outer, g, With(h, Construct(m, h.top.body, g.pc), h.cpu))
    ensures h.top.rest == Code(m, h.top.body, g.pc) && g.pc < m.funcs[h.top.body].end && m.Owned(g.pc, h.top.body)
  {
    hide Code, Head, Rest, Lab, Chained;
    assert InsnOk(isa, m, g.pc);
  }

  lemma StandingBody(m: Module, outer: seq<nat>, g: Guest, h: Config)
    requires Standing(m, outer, g, Running(h))
    ensures h.top.body in m.funcs
  {
  }

  lemma Unlabelled(isa: Isa, m: Module, outer: seq<nat>, g: Guest, h: Config) returns (n: nat, h': Config)
    requires WellFormed(isa, m) && Standing(m, outer, g, Running(h)) && !IsSlot(m, g.pc)
    ensures HRun(isa, m, Running(h), n) == Running(h')
    ensures AtHead(isa, m, outer, g, h') && h'.top.body in m.funcs && h'.top.body == h.top.body && h'.frames == h.frames
  {
    hide *;
    StandingBody(m, outer, g, h);
    var f, a := h.top.body, g.pc;
    HeadStands(isa, m, outer, g, h);
    CodeIsConstruct(m, f, a);
    n, h' := DropLabel(isa, m, h, a, Lab(m, a), Construct(m, f, a));
  }

  lemma DropLabel(isa: Isa, m: Module, h: Config, a: nat, labelled: bool, k: seq<Stmt>) returns (n: nat, h': Config)
    requires h.top.rest == if labelled then [Label(a)] + k else k
    ensures h' == With(h, k, h.cpu) && HRun(isa, m, Running(h), n) == Running(h')
    ensures h'.top.body == h.top.body && h'.frames == h.frames
  {
    h' := With(h, k, h.cpu);
    HRunZero(isa, m, Running(h));
    n := 0;
    if labelled {
      LabelSteps(isa, m, h, a, k);
      Extend(isa, m, h, 0, h, Running(h'));
      n := 1;
    }
  }

  lemma HeadRuns(isa: Isa, m: Module, outer: seq<nat>, g: Guest, h: Config) returns (i: nat, n: nat)
    requires AtHead(isa, m, outer, g, h) && h.top.body in m.funcs
    ensures i > 0
    ensures Advances(isa, m, outer, g, Running(h), i, n) ||
            (i == 2 && (CallMisses(isa, m, g, h, n) || Returned(isa, m, outer, g, h, n)))
  {
    hide AtHead, Advances, CallMisses, Returned, Run, HRun;
    match m.At(g.pc)
    case Plain(_) =>
      i, n := 1, 1;
      PlainRuns(isa, m, outer, g, h);
    case Branch(_, _, likely, linking) =>
      if linking { i, n := LinkingRuns(isa, m, outer, g, h); }
      else if likely { i, n := LikelyRuns(isa, m, outer, g, h); }
      else { i, n := BranchRuns(isa, m, outer, g, h); }
    case Jal(t) =>
      if t == g.pc + 8 { i, n := GetPcRuns(isa, m, outer, g, h); } else { i, n := JalRuns(isa, m, outer, g, h); }
    case Jalr(_, _) => i, n := JalrRuns(isa, m, outer, g, h);
    case Jr(_) => i, n := JrRuns(isa, m, outer, g, h);
    case J(_) => i, n := JRuns(isa, m, outer, g, h);
  }

  lemma StandingRuns(isa: Isa, m: Module, outer: seq<nat>, g: Guest, h: Config) returns (i: nat, n: nat)
    requires WellFormed(isa, m) && Standing(m, outer, g, Running(h))
    ensures i > 0
    ensures Advances(isa, m, outer, g, Running(h), i, n) ||
            (i == 2 && (CallMisses(isa, m, g, h, n) || Returned(isa, m, outer, g, h, n)))
  {
    hide *;
    if IsSlot(m, g.pc) {
      i, n := SlotCopyRuns(isa, m, outer, g, h);
    } else {
      var n1, h1 := Unlabelled(isa, m, outer, g, h);
      var n2: nat;
      i, n2 := HeadRuns(isa, m, outer, g, h1);
      n := n1 + n2;
      if Advances(isa, m, outer, g, Running(h1), i, n2) {
        ComposeHost(isa, m, outer, g, Running(h), n1, i, n2);
      } else {
        HRunAdd(isa, m, Running(h), n1, n2);
        StoppedLater(isa, m, outer, g, h, h1, n, n2);
      }
    }
  }

  lemma StoppedLater(isa: Isa, m: Module, outer: seq<nat>, g: Guest, h: Config, h1: Config, n: nat, n1: nat)
    requires h1.top.body == h.top.body && h1.frames == h.frames
             && HRun(isa, m, Running(h), n) == HRun(isa, m, Running(h1), n1)
    ensures CallMisses(isa, m, g, h1, n1) ==> CallMisses(isa, m, g, h, n)
    ensures Returned(isa, m, outer, g, h1, n1) ==> Returned(isa, m, outer, g, h, n)
  {
    hide HRun, Run, Missing, MissDue;
  }

  // ---- firmware reached by a tail transfer

  lemma FirmwareTailSteps(isa: Isa, m: Module, h: Config, a: nat)
    requires h.top.rest != [] && h.top.rest[0] == CallImport(a) && Tail(h.top.rest[1..])
    ensures HRun(isa, m, Running(h), 2) ==
            Leave(h.(top := h.top.(rest := h.top.rest[1..]), cpu := isa.firmware(a, h.cpu)))
  {
    var h1 := h.(top := h.top.(rest := h.top.rest[1..]), cpu := isa.firmware(a, h.cpu));
    assert HStep(isa, m, Running(h)) == Running(h1);
    assert HStep(isa, m, Running(h1)) == Leave(h1);
    HRunStep(isa, m, Running(h), 1);
    HRunOne(isa, m, Running(h1));
  }

  lemma FramedOrHosted(m: Module, outer: seq<nat>, h: Config)
    requires Chained(m, h.stack, h.frames, outer)
    ensures h.frames != [] && (h.frames[0] != 0 ==> InSegment(h.frames, h.frames[0]))
  {
  }

  /** A firmware call in tail position goes back to the innermost call's return site; the machine goes to $ra. */
  lemma FirmwareTail(isa: Isa, m: Module, outer: seq<nat>, g: Guest, h: Config) returns (n: nat)
    requires Match(m, outer, g, Running(h)) && m.Import(g.pc)
    requires h.top.rest != [] && h.top.rest[0] == CallImport(g.pc) && Tail(h.top.rest[1..])
    ensures
      var g', h' := Step(isa, m, g), HRun(isa, m, Running(h), n);
      && g'.pc == g.cpu.r[RA]
      && if h.frames[0] == 0 then h' == Done(g'.cpu, [0] + outer, 0)
         else ResumedAt(m, outer, h.(cpu := g'.cpu), h', h.frames[0])
  {
    hide Chained, ResumedAt, Reaches, HRun, Leave, Tail;
    var h1 := h.(top := h.top.(rest := h.top.rest[1..]), cpu := isa.firmware(g.pc, h.cpu));
    FirmwareTailSteps(isa, m, h, g.pc);
    FramedOrHosted(m, outer, h);
    var i: nat;
    if h.frames[0] == 0 {
      i := LeaveToHost(isa, m, outer, h1);
    } else {
      i := LeaveResumes(isa, m, outer, h1, h.frames[0]);
      ResumedToo(m, outer, h.(cpu := h1.cpu), h1, HRun(isa, m, Leave(h1), i), h.frames[0]);
    }
    HRunAdd(isa, m, Running(h), 2, i);
    n := 2 + i;
  }

  // ---- blocks and runs

  /** Why the host has come to rest, read off the state where it last stood with the guest: dispatch has missed at
      the guest's address, reached from outside the body or by a computed transfer; or control is back in the host
      caller, by a jr $ra or a firmware call in tail position under a host frame. */
  ghost predicate Rests(isa: Isa, m: Module, outer: seq<nat>, g: Guest, h: Host, i: nat, n: nat)
  {
    && Match(m, outer, g, h)
    && (|| (i == 0 && Misses(isa, m, g, h, 0, n) && Outside(m, h.at.top.body, g.pc))
        || (i == 2 && CallMisses(isa, m, g, h.at, n))
        || (i == 2 && Returned(isa, m, outer, g, h.at, n))
        || (i == 1 && FirmwareReturned(isa, m, outer, g, h.at, n)))
  }

  ghost predicate FirmwareReturned(isa: Isa, m: Module, outer: seq<nat>, g: Guest, h: Config, n: nat)
  {
    && m.Import(g.pc) && h.top.rest != [] && h.top.rest[0] == CallImport(g.pc) && Tail(h.top.rest[1..])
    && h.frames != [] && h.frames[0] == 0
    && HRun(isa, m, Running(h), n) == Done(Run(isa, m, g, 1).cpu, [0] + outer, 0)
  }

  /** The host has come to rest in the course of a run: j guest steps and k host steps on it still stood with the
      guest, and there the reason is found. */
  ghost predicate RestsAfter(isa: Isa, m: Module, outer: seq<nat>, g: Guest, h: Host, i: nat, n: nat, j: nat, k: nat)
  {
    j <= i && k <= n && Rests(isa, m, outer, Run(isa, m, g, j), HRun(isa, m, h, k), i - j, n - k)
  }

  /** The run is over: the host has come to rest, for its reason, or is at a firmware call whose return the frame
      chain does not own. */
  ghost predicate Ended(isa: Isa, m: Module, outer: seq<nat>, g: Guest, h: Host, i: nat, n: nat)
  {
    || (exists j: nat, k: nat :: RestsAfter(isa, m, outer, g, h, i, n, j, k))
    || StrayImport(m, outer, Run(isa, m, g, i), HRun(isa, m, h, n))
  }

  lemma FirmwareTailRuns(isa: Isa, m: Module, outer: seq<nat>, g: Guest, h: Config) returns (n: nat)
    requires Match(m, outer, g, Running(h)) && m.Import(g.pc) && !StrayImport(m, outer, g, Running(h))
    requires h.top.rest != [] && h.top.rest[0] == CallImport(g.pc) && Tail(h.top.rest[1..])
    ensures Advances(isa, m, outer, g, Running(h), 1, n) || FirmwareReturned(isa, m, outer, g, h, n)
  {
    n := FirmwareTail(isa, m, outer, g, h);
    OneStep(isa, m, g);
  }

  lemma FirmwareRests(isa: Isa, m: Module, outer: seq<nat>, g: Guest, h: Config, n: nat)
    requires Match(m, outer, g, Running(h)) && FirmwareReturned(isa, m, outer, g, h, n)
    ensures Rests(isa, m, outer, g, Running(h), 1, n)
  {
    hide FirmwareReturned, Match;
  }

  lemma Block(isa: Isa, m: Module, outer: seq<nat>, g: Guest, h: Host) returns (i: nat, n: nat)
    requires WellFormed(isa, m) && Match(m, outer, g, h) && !StrayImport(m, outer, g, h)
    ensures (i > 0 && Advances(isa, m, outer, g, h, i, n)) || Ended(isa, m, outer, g, h, i, n)
  {
    hide WellFormed, StrayImport, Arrived, Standing, Missing, HRun, Run, Rests, Outside;
    assert h.Running?;
    var n1 := Arrive(isa, m, outer, g, h);
    var h1 := HRun(isa, m, h, n1);
    HRunZero(isa, m, h);
    GuestZero(isa, m, g);
    if Missing(m, g, h1) {
      i, n := 0, n1;
      MissRests(isa, m, outer, g, h, n);
      assert RestsAfter(isa, m, outer, g, h, 0, n, 0, 0);
    } else if Arrived(m, outer, g, h1) {
      i, n := BlockStands(isa, m, outer, g, h, n1);
    } else {
      i := 1;
      n := FirmwareTailRuns(isa, m, outer, g, h.at);
      if !Advances(isa, m, outer, g, h, 1, n) {
        FirmwareRests(isa, m, outer, g, h.at, n);
        assert RestsAfter(isa, m, outer, g, h, 1, n, 0, 0);
      }
    }
  }

  lemma MissRests(isa: Isa, m: Module, outer: seq<nat>, g: Guest, h: Host, n: nat)
    requires Match(m, outer, g, h) && Misses(isa, m, g, h, 0, n) && Outside(m, h.at.top.body, g.pc)
    ensures Rests(isa, m, outer, g, h, 0, n)
  {
  }

  lemma BlockStands(isa: Isa, m: Module, outer: seq<nat>, g: Guest, h: Host, n1: nat) returns (i: nat, n: nat)
    requires WellFormed(isa, m) && Match(m, outer, g, h)
    requires Arrived(m, outer, g, HRun(isa, m, h, n1)) && !Missing(m, g, HRun(isa, m, h, n1))
    ensures (i > 0 && Advances(isa, m, outer, g, h, i, n)) || Ended(isa, m, outer, g, h, i, n)
  {
    var h1 := HRun(isa, m, h, n1);
    hide *;
    StandingNow(m, outer, g, h1);
    var n2: nat;
    i, n2 := StandingRuns(isa, m, outer, g, h1.at);
    n := n1 + n2;
    if Advances(isa, m, outer, g, h1, i, n2) {
      ComposeHost(isa, m, outer, g, h, n1, i, n2);
    } else {
      GuestZero(isa, m, g);
      StopRests(isa, m, outer, g, h, h1.at, n1, n2);
    }
  }

  lemma StandingNow(m: Module, outer: seq<nat>, g: Guest, h: Host)
    requires Arrived(m, outer, g, h) && !Missing(m, g, h)
    ensures h.Running? && h == Running(h.at) && Standing(m, outer, g, h) && Match(m, outer, g, h)
  {
  }

  lemma StopRests(isa: Isa, m: Module, outer: seq<nat>, g: Guest, h: Host, h1: Config, n1: nat, n2: nat)
    requires HRun(isa, m, h, n1) == Running(h1) && Match(m, outer, g, Running(h1)) && Run(isa, m, g, 0) == g
    requires CallMisses(isa, m, g, h1, n2) || Returned(isa, m, outer, g, h1, n2)
    ensures Ended(isa, m, outer, g, h, 2, n1 + n2)
  {
    hide CallMisses, Returned, Match, Run, HRun;
    assert RestsAfter(isa, m, outer, g, h, 2, n1 + n2, 0, n1);
  }

  lemma RestsLater(isa: Isa, m: Module, outer: seq<nat>, g: Guest, h: Host, i: nat, n: nat, i': nat, n': nat,
                   j: nat, k: nat)
    requires RestsAfter(isa, m, outer, Run(isa, m, g, i), HRun(isa, m, h, n), i', n', j, k)
    ensures RestsAfter(isa, m, outer, g, h, i + i', n + n', i + j, n + k)
  {
    hide Rests, Run, HRun;
    RunAdd(isa, m, g, i, j);
    HRunAdd(isa, m, h, n, k);
  }

  lemma EndedLater(isa: Isa, m: Module, outer: seq<nat>, g: Guest, h: Host, i: nat, n: nat, i': nat, n': nat)
    requires Ended(isa, m, outer, Run(isa, m, g, i), HRun(isa, m, h, n), i', n')
    ensures Ended(isa, m, outer, g, h, i + i', n + n')
  {
    hide RestsAfter, StrayImport, Run, HRun;
    if StrayImport(m, outer, Run(isa, m, Run(isa, m, g, i), i'), HRun(isa, m, HRun(isa, m, h, n), n')) {
      RunAdd(isa, m, g, i, i');
      HRunAdd(isa, m, h, n, n');
    } else {
      var j: nat, k: nat :| RestsAfter(isa, m, outer, Run(isa, m, g, i), HRun(isa, m, h, n), i', n', j, k);
      RestsLater(isa, m, outer, g, h, i, n, i', n', j, k);
    }
  }

  /** Semantic preservation. However many steps the guest takes, the host follows: it stands with the guest at
      a state at least that far on, with the same registers and memory and with every suspended call resuming
      where the guest would; or it has come to rest earlier, with the guest's registers, for one of the reasons. */
  lemma {:induction false} Preserves(isa: Isa, m: Module, outer: seq<nat>, g: Guest, h: Host, k: nat)
      returns (i: nat, n: nat)
    requires WellFormed(isa, m) && Match(m, outer, g, h)
    ensures (i >= k && Advances(isa, m, outer, g, h, i, n)) || Ended(isa, m, outer, g, h, i, n)
    decreases k
  {
    hide *;
    if k == 0 || StrayImport(m, outer, g, h) {
      i, n := 0, 0;
      GuestZero(isa, m, g);
      HRunZero(isa, m, h);
      StartsThere(isa, m, outer, g, h);
    } else {
      i, n := Block(isa, m, outer, g, h);
      if i > 0 && Advances(isa, m, outer, g, h, i, n) {
        MatchThere(isa, m, outer, g, h, i, n);
        var i2, n2 := Preserves(isa, m, outer, Run(isa, m, g, i), HRun(isa, m, h, n), k - 1);
        if i2 >= k - 1 && Advances(isa, m, outer, Run(isa, m, g, i), HRun(isa, m, h, n), i2, n2) {
          Compose(isa, m, outer, g, h, i, n, i2, n2);
        } else {
          EndedLater(isa, m, outer, g, h, i, n, i2, n2);
        }
        i, n := i + i2, n + n2;
      }
    }
  }

  lemma StartsThere(isa: Isa, m: Module, outer: seq<nat>, g: Guest, h: Host)
    requires Match(m, outer, g, h) && Run(isa, m, g, 0) == g && HRun(isa, m, h, 0) == h
    ensures Advances(isa, m, outer, g, h, 0, 0) && (StrayImport(m, outer, g, h) ==> Ended(isa, m, outer, g, h, 0, 0))
  {
  }

  lemma MatchThere(isa: Isa, m: Module, outer: seq<nat>, g: Guest, h: Host, i: nat, n: nat)
    requires Advances(isa, m, outer, g, h, i, n)
    ensures Match(m, outer, Run(isa, m, g, i), HRun(isa, m, h, n))
  {
  }

  /** The same from psp_call_from_host: any address, any registers, any chain the host was called under. */
  lemma CallFromHostPreserves(isa: Isa, m: Module, addr: nat, cpu: Cpu, outer: seq<nat>, k: nat)
      returns (i: nat, n: nat)
    requires WellFormed(isa, m)
    ensures
      var g, h := Guest(addr, addr + 4, cpu), CallFromHost(addr, cpu, outer);
      (i >= k && Advances(isa, m, outer, g, h, i, n)) || Ended(isa, m, outer, g, h, i, n)
  {
    CallFromHostMatches(isa, m, addr, cpu, outer);
    i, n := Preserves(isa, m, outer, Guest(addr, addr + 4, cpu), CallFromHost(addr, cpu, outer), k);
  }

  lemma CallFromHostMatches(isa: Isa, m: Module, addr: nat, cpu: Cpu, outer: seq<nat>)
    requires WellFormed(isa, m)
    ensures Match(m, outer, Guest(addr, addr + 4, cpu), CallFromHost(addr, cpu, outer))
  {
  }

  /** The one way the two part: a firmware call in tail position with $ra elsewhere than the frame's return site
      resumes at the return site, where the guest is not: the two no longer match. */
  lemma StrayImportParts(isa: Isa, m: Module, outer: seq<nat>, g: Guest, h: Host) returns (n: nat)
    requires WellFormed(isa, m) && StrayImport(m, outer, g, h)
    ensures
      var g', h' := Step(isa, m, g), HRun(isa, m, h, n);
      h'.Running? && Reaches(m, h'.at.top.body, h'.at.top.rest, h.at.frames[0]) && g'.pc != h.at.frames[0] &&
      !Match(m, outer, g', h')
  {
    n := FirmwareTail(isa, m, outer, g, h.at);
    var g', h' := Step(isa, m, g), HRun(isa, m, h, n);
    ReachesNoOther(m, h'.at.top.body, h'.at.top.rest, h.at.frames[0], g'.pc);
  }
}

/** The baton protocol of the guest threads as steps of many host threads (threadman.c, real-threads mode). */
module Scheduler {
  import opened Options
  import opened Allegrex

  const TICK_US := 1000

  /** Where a host thread is. `step` is the virtual time of the park it is in. */
  datatype Phase =
    | Idle                              // not started, or ended
    | Spawned                           // its host thread exists and has not asked for the CPU yet
    | Queued                            // in baton_acquire, waiting
    | First                             // has the CPU for the first time, not announced yet
    | Running                           // executes guest code
    | Leaving(step: nat)                // registers saved, baton still held
    | Parked(step: nat, woken: bool)    // baton given away
    | Back(step: nat)                   // woken or timed out
    | Handing(step: nat)                // in the handover: somebody wanted the CPU
    | Late(step: nat)                   // the handover cap was reached
    | Resuming(step: nat)               // has the baton again, registers not restored yet

  /** A guest wait on a semaphore; deadline 0 stands for none. */
  datatype Wait = Wait(sema: nat, need: nat, deadline: nat)

  /** A semaphore with its history: what was supplied, what waits took, what clamping and cancelling lost. */
  datatype Sema = Sema(count: nat, max: nat, supplied: nat, taken: nat, lost: nat)

  datatype State = State(
    phase: seq<Phase>, pending: seq<bool>, ctx: seq<Cpu>, wait: seq<Option<Wait>>,
    owned: bool, waiters: nat, cpu: Cpu, vtime: nat, semas: seq<Sema>)

  /** The record arrays have one length. */
  predicate Shaped(s: State) { |s.phase| == |s.pending| == |s.ctx| == |s.wait| }

  /** The phases in which a thread may touch psp_cpu and the records: it holds the baton. */
  predicate Owns(p: Phase) { p.First? || p.Running? || p.Leaving? || p.Resuming? }

  /** cpu_wanted_locked. */
  predicate Wanted(s: State) { s.owned || s.waiters > 0 || true in s.pending }

  datatype Action =
    | Start(i: nat, j: nat) | Enter(i: nat) | Take(i: nat) | Begin(i: nat, regs: Cpu)
    | Compute(i: nat, regs: Cpu) | Delay(i: nat, step: nat) | Give(i: nat) | Wake(i: nat) | TimeUp(i: nat)
    | Ask(i: nat) | Recheck(i: nat) | Expire(i: nat) | TakeLate(i: nat) | Restore(i: nat) | Exit(i: nat)
    | WaitSema(i: nat, sema: nat, need: nat, timeout: nat) | Check(i: nat) | GiveUp(i: nat)
    | Signal(i: nat, sema: nat, n: nat) | Poll(i: nat, sema: nat, need: nat) | Cancel(i: nat, sema: nat, c: nat)

  function To(s: State, i: nat, p: Phase): State
    requires i < |s.phase|
  {
    s.(phase := s.phase[i := p])
  }

  /** Taking a free baton back, on the way to restoring the registers. */
  function Retake(s: State, i: nat): State
    requires i < |s.phase|
  {
    To(s, i, Resuming(Step(s.phase[i]))).(owned := true)
  }

  function Step(p: Phase): nat {
    match p
    case Leaving(step) => step
    case Parked(step, _) => step
    case Back(step) => step
    case Handing(step) => step
    case Late(step) => step
    case Resuming(step) => step
    case _ => 0
  }

  /** wake_waiters(W_SEMA): every thread parked in a semaphore wait is told. */
  function WakeSema(s: State): State
    requires Shaped(s)
  {
    s.(phase := seq(|s.phase|, i requires 0 <= i < |s.phase| =>
      if s.phase[i].Parked? && s.wait[i].Some? then Parked(s.phase[i].step, true) else s.phase[i]))
  }

  /** How long the next park of a wait lasts: a tick, or what is left to the deadline. */
  function ParkStep(w: Wait, vtime: nat): nat
    requires w.deadline != 0 ==> vtime < w.deadline
  {
    if w.deadline != 0 && w.deadline - vtime < TICK_US then w.deadline - vtime else TICK_US
  }

  predicate Due(w: Wait, vtime: nat) { w.deadline != 0 && vtime >= w.deadline }

  function SaveFor(s: State, i: nat, step: nat): State
    requires Shaped(s) && i < |s.phase|
  {
    To(s, i, Leaving(step)).(ctx := s.ctx[i := s.cpu])
  }

  function TakeFrom(m: Sema, need: nat): Sema
    requires m.count >= need
  {
    m.(count := m.count - need, taken := m.taken + need)
  }

  /** A signal, clamped to the maximum when there is one. */
  function Raise(m: Sema, n: nat): Sema {
    var c := m.count + n;
    if m.max > 0 && c > m.max then m.(count := m.max, supplied := m.supplied + n, lost := m.lost + (c - m.max))
    else m.(count := c, supplied := m.supplied + n)
  }

  function Reset(m: Sema, c: nat): Sema {
    if c >= m.count then m.(count := c, supplied := m.supplied + (c - m.count))
    else m.(count := c, lost := m.lost + (m.count - c))
  }

  function AtLeastOne(need: nat): nat { if need < 1 then 1 else need }

  /** Starting a thread, its turns at the CPU, and its end. */
  function TurnStep(s: State, a: Action): Option<State>
    requires Shaped(s) && a.i < |s.phase|
  {
    var p := s.phase[a.i];
    match a
    case Start(i, j) =>
      if p.Running? && j < |s.phase| && s.phase[j].Idle?
      then Some(To(s, j, Spawned).(pending := s.pending[j := true], wait := s.wait[j := None])) else None
    case Enter(i) =>
      if !p.Spawned? then None
      else if s.owned then Some(To(s, i, Queued).(waiters := s.waiters + 1)) else Some(To(s, i, First).(owned := true))
    case Take(i) =>
      if p.Queued? && !s.owned && s.waiters > 0
      then Some(To(s, i, First).(owned := true, waiters := s.waiters - 1)) else None
    case Begin(i, regs) =>
      if p.First? then Some(To(s, i, Running).(cpu := regs, pending := s.pending[i := false])) else None
    case Compute(i, regs) =>
      if p.Running? then Some(s.(cpu := regs)) else None
    case Exit(i) =>
      if p.Running? then Some(To(s, i, Idle).(owned := false, wait := s.wait[i := None])) else None
    case _ => None
  }

  /** A park: registers saved, the CPU given away, the timed wait. */
  function LeaveStep(s: State, a: Action): Option<State>
    requires Shaped(s) && a.i < |s.phase|
  {
    var p := s.phase[a.i];
    match a
    case Delay(i, step) =>
      if p.Running? && s.wait[i].None? && step > 0 then Some(SaveFor(s, i, step)) else None
    case Give(i) =>
      if p.Leaving? then Some(To(s, i, Parked(p.step, false)).(owned := false)) else None
    case Wake(i) =>
      if p.Parked? && p.woken then Some(To(s, i, Back(p.step))) else None
    case TimeUp(i) =>
      if p.Parked? then Some(To(s, i, Back(p.step))) else None
    case _ => None
  }

  /** Taking the CPU back: the handover, its cap, and the registers restored. */
  function BackStep(s: State, a: Action): Option<State>
    requires Shaped(s) && a.i < |s.phase|
  {
    var p := s.phase[a.i];
    match a
    case Ask(i) =>
      if !p.Back? then None else if Wanted(s) then Some(To(s, i, Handing(p.step))) else Some(Retake(s, i))
    case Recheck(i) =>
      if p.Handing? && !Wanted(s) then Some(Retake(s, i)) else None
    case Expire(i) =>
      if !p.Handing? then None else if s.owned then Some(To(s, i, Late(p.step))) else Some(Retake(s, i))
    case TakeLate(i) =>
      if p.Late? && !s.owned then Some(Retake(s, i)) else None
    case Restore(i) =>
      if p.Resuming? then Some(To(s, i, Running).(cpu := s.ctx[i], vtime := s.vtime + p.step)) else None
    case _ => None
  }

  /** The semaphore calls of the running thread. */
  function SemaStep(s: State, a: Action): Option<State>
    requires Shaped(s) && a.i < |s.phase|
  {
    if !s.phase[a.i].Running? then None else
      match a
      case WaitSema(i, k, need, timeout) =>
        if s.wait[i].None? && k < |s.semas|
        then Some(s.(wait := s.wait[i := Some(Wait(k, AtLeastOne(need),
                                                   if timeout == 0 then 0 else s.vtime + timeout))]))
        else None
      case Check(i) =>
        if s.wait[i].None? || s.wait[i].value.sema >= |s.semas| then None else
          var w := s.wait[i].value;
          var m := s.semas[w.sema];
          if m.count >= w.need then Some(s.(semas := s.semas[w.sema := TakeFrom(m, w.need)], wait := s.wait[i := None]))
          else if Due(w, s.vtime) then Some(s.(wait := s.wait[i := None]))
          else Some(SaveFor(s, i, ParkStep(w, s.vtime)))
      case GiveUp(i) =>
        if s.wait[i].Some? && s.wait[i].value.deadline == 0 then Some(s.(wait := s.wait[i := None])) else None
      case Signal(i, k, n) =>
        if k < |s.semas| then Some(WakeSema(s.(semas := s.semas[k := Raise(s.semas[k], n)]))) else None
      case Poll(i, k, need) =>
        if k >= |s.semas| then None
        else if s.semas[k].count < AtLeastOne(need) then Some(s)
        else Some(s.(semas := s.semas[k := TakeFrom(s.semas[k], AtLeastOne(need))]))
      case Cancel(i, k, c) =>
        if k < |s.semas| then Some(WakeSema(s.(semas := s.semas[k := Reset(s.semas[k], c)]))) else None
      case _ => None
  }

  predicate IsTurn(a: Action) { a.Start? || a.Enter? || a.Take? || a.Begin? || a.Compute? || a.Exit? }

  predicate IsSema(a: Action) { a.WaitSema? || a.Check? || a.GiveUp? || a.Signal? || a.Poll? || a.Cancel? }

  predicate IsLeave(a: Action) { a.Delay? || a.Give? || a.Wake? || a.TimeUp? }

  /** One atomic step of the host threads; none when it is not enabled. */
  function Next(s: State, a: Action): Option<State>
    requires Shaped(s)
  {
    if a.i >= |s.phase| then None
    else if IsTurn(a) then TurnStep(s, a)
    else if IsSema(a) then SemaStep(s, a)
    else if IsLeave(a) then LeaveStep(s, a)
    else BackStep(s, a)
  }

  /** The states of a run; it stops counting at a step that is not enabled. */
  function Run(s: State, actions: seq<Action>): Option<State>
    requires Shaped(s)
    decreases |actions|
  {
    if actions == [] then Some(s) else
      match Next(s, actions[0])
      case None => None
      case Some(t) => if Shaped(t) then Run(t, actions[1..]) else None
  }

  // ---- the baton: who holds it, and the two shapes of wanting it

  /** At most one holder, and the flag says whether there is one. */
  ghost predicate OneHolder(s: State) {
    && (forall i: nat, j: nat :: i < |s.phase| && j < |s.phase| && Owns(s.phase[i]) && Owns(s.phase[j]) ==> i == j)
    && (s.owned <==> exists i: nat :: i < |s.phase| && Owns(s.phase[i]))
  }

  /** The waiter count is the number of queued threads. */
  ghost predicate WaitersCounted(s: State) { s.waiters == multiset(s.phase)[Queued] }

  /** cpu_pending says exactly which threads were started and have not had a turn. */
  ghost predicate PendingRight(s: State)
    requires Shaped(s)
  {
    forall i: nat :: i < |s.phase| ==>
      s.pending[i] == Awaits(s.phase[i])
  }

  /** The semaphore the thread waits for, if any, would not let it through. */
  ghost predicate InNeed(s: State, i: nat)
    requires Shaped(s) && i < |s.phase|
  {
    s.wait[i].Some? && s.wait[i].value.sema < |s.semas| ==> s.semas[s.wait[i].value.sema].count < s.wait[i].value.need
  }

  /** No lost wakeup: a thread that is leaving, or parked and not told, is still in need. */
  ghost predicate NoLostWakeup(s: State)
    requires Shaped(s)
  {
    forall i: nat :: i < |s.phase| && (s.phase[i].Leaving? || (s.phase[i].Parked? && !s.phase[i].woken)) ==>
      InNeed(s, i)
  }

  /** Counts stay in range and every unit is accounted for. */
  ghost predicate SemaFair(m: Sema) {
    m.count + m.taken + m.lost == m.supplied && (m.max > 0 ==> m.count <= m.max)
  }

  ghost predicate Safe(s: State)
    requires Shaped(s)
  {
    && OneHolder(s) && WaitersCounted(s) && PendingRight(s) && NoLostWakeup(s)
    && (forall k: nat :: k < |s.semas| ==> SemaFair(s.semas[k]))
  }

  /** A cancel gives a count the semaphore allows. */
  predicate Allowed(s: State, a: Action) {
    a.Cancel? && a.sema < |s.semas| && s.semas[a.sema].max > 0 ==> a.c <= s.semas[a.sema].max
  }

  // ---- every step keeps them

  lemma HolderMoves(s: State, t: State, i: nat, p: Phase)
    requires OneHolder(s) && i < |s.phase| && t.phase == s.phase[i := p]
    requires if Owns(p) then t.owned && (s.owned ==> Owns(s.phase[i])) else t.owned == (s.owned && !Owns(s.phase[i]))
    ensures OneHolder(t)
  {
    hide Owns;
    forall a: nat, b: nat | a < |t.phase| && b < |t.phase| && Owns(t.phase[a]) && Owns(t.phase[b])
      ensures a == b
    {
      assert a != i ==> Owns(s.phase[a]);
      assert b != i ==> Owns(s.phase[b]);
    }
    if t.owned {
      if Owns(p) {
        assert Owns(t.phase[i]);
      } else {
        var h: nat :| h < |s.phase| && Owns(s.phase[h]);
        assert Owns(t.phase[h]);
      }
    } else {
      forall h: nat | h < |t.phase| ensures !Owns(t.phase[h]) {
        assert h != i ==> t.phase[h] == s.phase[h];
      }
    }
  }

  lemma HolderStays(s: State, t: State)
    requires OneHolder(s) && |t.phase| == |s.phase| && t.owned == s.owned
    requires forall i: nat :: i < |s.phase| ==> Owns(t.phase[i]) == Owns(s.phase[i])
    ensures OneHolder(t)
  {
    hide Owns;
    if t.owned {
      var h: nat :| h < |s.phase| && Owns(s.phase[h]);
      assert Owns(t.phase[h]);
    }
  }

  lemma {:induction false} SameCount(p: seq<Phase>, q: seq<Phase>)
    requires |p| == |q| && forall i: nat :: i < |p| ==> (p[i] == Queued <==> q[i] == Queued)
    ensures multiset(p)[Queued] == multiset(q)[Queued]
  {
    if p != [] {
      var n := |p| - 1;
      assert p == p[..n] + [p[n]] && q == q[..n] + [q[n]];
      SameCount(p[..n], q[..n]);
    }
  }

  lemma CountMoves(p: seq<Phase>, i: nat, q: Phase)
    requires i < |p|
    ensures multiset(p[i := q])[Queued]
         == multiset(p)[Queued] - (if p[i] == Queued then 1 else 0) + (if q == Queued then 1 else 0)
  {
  }

  /** Steps that change the phase of one thread, the one acting (or the one started). */
  predicate Single(a: Action) { !a.Signal? && !a.Cancel? }

  function Moved(a: Action): nat { if a.Start? then a.j else a.i }

  /** The thread was started and has not had a turn. */
  predicate Awaits(p: Phase) { p.Spawned? || p.Queued? || p.First? }

  /** What a step about one thread leaves alone: every other record. */
  ghost predicate Local(s: State, a: Action, t: State)
    requires Shaped(s)
  {
    var i := Moved(a);
    && Shaped(t) && i < |s.phase| && a.i < |s.phase| && |t.phase| == |s.phase|
    && t.phase == s.phase[i := t.phase[i]] && t.pending == s.pending[i := t.pending[i]]
    && t.ctx == s.ctx[i := t.ctx[i]] && t.wait == s.wait[i := t.wait[i]]
  }

  /** What it does to the baton, the counters and psp_cpu. */
  ghost predicate Counts(s: State, a: Action, t: State)
    requires Shaped(s) && Shaped(t) && a.i < |s.phase| && Moved(a) < |s.phase| && Moved(a) < |t.phase|
  {
    var i := Moved(a);
    && FlagMoves(s.owned, t.owned, s.phase[i], t.phase[i])
    && (s.pending[i] == Awaits(s.phase[i]) ==> t.pending[i] == Awaits(t.phase[i]))
    && t.waiters == s.waiters - (if s.phase[i] == Queued then 1 else 0) + (if t.phase[i] == Queued then 1 else 0)
    && t.vtime >= s.vtime && (t.cpu == s.cpu || (Owns(s.phase[a.i]) && i == a.i))
  }

  ghost predicate Moves(s: State, a: Action, t: State)
    requires Shaped(s)
  {
    Local(s, a, t) && Counts(s, a, t)
  }

  /** Taking the baton needs it free, unless the thread has it already; and only the holder gives it away. */
  predicate FlagMoves(owned: bool, owned': bool, p: Phase, q: Phase) {
    (Owns(p) ==> owned) ==>
      if Owns(q) then owned' && (owned ==> Owns(p)) else owned' == (owned && !Owns(p))
  }

  lemma SetSame<T>(q: seq<T>, i: nat)
    requires i < |q|
    ensures q[i := q[i]] == q
  {
  }

  /** Writing a thread's own fields back changes nothing. */
  lemma SetAllSame(s: State, i: nat)
    requires Shaped(s) && i < |s.phase|
    ensures s.phase[i := s.phase[i]] == s.phase && s.pending[i := s.pending[i]] == s.pending
    ensures s.ctx[i := s.ctx[i]] == s.ctx && s.wait[i := s.wait[i]] == s.wait
  {
    SetSame(s.phase, i);
    SetSame(s.pending, i);
    SetSame(s.ctx, i);
    SetSame(s.wait, i);
  }

  lemma TurnLocal(s: State, a: Action)
    requires Shaped(s) && a.i < |s.phase| && TurnStep(s, a).Some?
    ensures Single(a) && Local(s, a, TurnStep(s, a).value) && TurnStep(s, a).value.semas == s.semas
  {
    hide Wanted, Step;
    if Moved(a) < |s.phase| { SetAllSame(s, Moved(a)); }
  }

  lemma TurnMoves(s: State, a: Action)
    requires Shaped(s) && a.i < |s.phase| && TurnStep(s, a).Some?
    ensures Single(a) && Moves(s, a, TurnStep(s, a).value)
    ensures TurnStep(s, a).value.semas == s.semas
  {
    hide Local, Wanted;
    TurnLocal(s, a);
    HandWanted(s, a);
  }

  lemma LeaveLocal(s: State, a: Action)
    requires Shaped(s) && a.i < |s.phase| && LeaveStep(s, a).Some?
    ensures Single(a) && Local(s, a, LeaveStep(s, a).value) && LeaveStep(s, a).value.semas == s.semas
  {
    hide Wanted, Step;
    if Moved(a) < |s.phase| { SetAllSame(s, Moved(a)); }
  }

  lemma LeaveMoves(s: State, a: Action)
    requires Shaped(s) && a.i < |s.phase| && LeaveStep(s, a).Some?
    ensures Single(a) && Moves(s, a, LeaveStep(s, a).value)
    ensures LeaveStep(s, a).value.semas == s.semas
  {
    hide Local, Wanted;
    LeaveLocal(s, a);
    HandWanted(s, a);
  }

  lemma BackLocal(s: State, a: Action)
    requires Shaped(s) && a.i < |s.phase| && BackStep(s, a).Some?
    ensures Single(a) && Local(s, a, BackStep(s, a).value) && BackStep(s, a).value.semas == s.semas
  {
    hide Wanted, Step;
    if Moved(a) < |s.phase| { SetAllSame(s, Moved(a)); }
  }

  lemma BackMoves(s: State, a: Action)
    requires Shaped(s) && a.i < |s.phase| && BackStep(s, a).Some?
    ensures Single(a) && Moves(s, a, BackStep(s, a).value)
    ensures BackStep(s, a).value.semas == s.semas
  {
    hide Local, Wanted;
    BackLocal(s, a);
    HandWanted(s, a);
  }

  lemma HandWanted(s: State, a: Action)
    ensures !Wanted(s) ==> !s.owned
  {
  }

  lemma SemaLocal(s: State, a: Action)
    requires Shaped(s) && a.i < |s.phase| && SemaStep(s, a).Some? && Single(a)
    ensures Local(s, a, SemaStep(s, a).value)
  {
    SetAllSame(s, a.i);
    hide ParkStep, Due, Raise, Reset, WakeSema, TakeFrom;
  }

  lemma SemaTakes(s: State, a: Action)
    requires Shaped(s) && a.i < |s.phase| && SemaStep(s, a).Some? && Single(a)
    ensures OnlyTaken(s.semas, SemaStep(s, a).value.semas)
  {
    hide ParkStep, Due, Raise, Reset, WakeSema;
  }

  lemma SemaMoves(s: State, a: Action)
    requires Shaped(s) && a.i < |s.phase| && SemaStep(s, a).Some? && Single(a)
    ensures Moves(s, a, SemaStep(s, a).value)
    ensures OnlyTaken(s.semas, SemaStep(s, a).value.semas)
  {
    hide Local, ParkStep, Due, Raise, Reset, WakeSema, TakeFrom, OnlyTaken;
    SemaLocal(s, a);
    SemaTakes(s, a);
  }

  /** No count has grown. */
  ghost predicate OnlyTaken(m: seq<Sema>, n: seq<Sema>) {
    |m| == |n| && forall k: nat :: k < |m| ==> n[k].count <= m[k].count
  }

  /** Waking waiters changes nothing but who has been told. */
  ghost predicate Tells(s: State, t: State)
    requires Shaped(s)
  {
    && Shaped(t) && |t.phase| == |s.phase| && t.pending == s.pending && t.ctx == s.ctx && t.wait == s.wait
    && t.cpu == s.cpu && t.owned == s.owned && t.waiters == s.waiters && t.vtime == s.vtime && |t.semas| == |s.semas|
    && forall i: nat :: i < |s.phase| ==>
         t.phase[i] == (if s.phase[i].Parked? && s.wait[i].Some? then Parked(s.phase[i].step, true) else s.phase[i])
  }

  lemma SemaTells(s: State, a: Action)
    requires Shaped(s) && a.i < |s.phase| && SemaStep(s, a).Some? && !Single(a)
    ensures Tells(s, SemaStep(s, a).value) && s.phase[a.i].Running?
  {
    hide Raise, Reset;
  }

  /** The two kinds of step. */
  lemma StepKinds(s: State, a: Action)
    requires Shaped(s) && Next(s, a).Some?
    ensures var t := Next(s, a).value;
            && a.i < |s.phase| && Shaped(t) && |t.phase| == |s.phase| && |t.semas| == |s.semas|
            && (if Single(a) then Moves(s, a, t) && OnlyTaken(s.semas, t.semas)
                else Tells(s, t) && s.phase[a.i].Running?)
  {
    hide TurnStep, LeaveStep, BackStep, SemaStep;
    if IsTurn(a) {
      TurnMoves(s, a);
    } else if IsSema(a) {
      if Single(a) { SemaMoves(s, a); } else { SemaTells(s, a); }
    } else if IsLeave(a) {
      LeaveMoves(s, a);
    } else {
      BackMoves(s, a);
    }
  }

  lemma HolderKept(s: State, a: Action)
    requires Shaped(s) && OneHolder(s) && Next(s, a).Some?
    ensures OneHolder(Next(s, a).value)
  {
    hide Next, OneHolder, OnlyTaken;
    StepKinds(s, a);
    var t := Next(s, a).value;
    if Single(a) {
      HolderOf(s, Moved(a));
      HolderMoves(s, t, Moved(a), t.phase[Moved(a)]);
    } else {
      HolderStays(s, t);
    }
  }

  lemma HolderOf(s: State, i: nat)
    requires OneHolder(s) && i < |s.phase|
    ensures Owns(s.phase[i]) ==> s.owned
  {
  }

  lemma WaitersKept(s: State, a: Action)
    requires Shaped(s) && WaitersCounted(s) && Next(s, a).Some?
    ensures WaitersCounted(Next(s, a).value)
  {
    hide Next, OnlyTaken, FlagMoves;
    StepKinds(s, a);
    var t := Next(s, a).value;
    if Single(a) {
      CountMoves(s.phase, Moved(a), t.phase[Moved(a)]);
    } else {
      SameCount(s.phase, t.phase);
    }
  }

  lemma PendingMoved(s: State, a: Action, t: State)
    requires Shaped(s) && Shaped(t) && PendingRight(s) && Moves(s, a, t) && |t.phase| == |s.phase|
    ensures PendingRight(t)
  {
    hide FlagMoves, Owns;
    forall i: nat | i < |t.phase|
      ensures t.pending[i] == Awaits(t.phase[i])
    {
      assert s.pending[i] == Awaits(s.phase[i]);
    }
  }

  lemma PendingTold(s: State, t: State)
    requires Shaped(s) && Shaped(t) && PendingRight(s) && Tells(s, t)
    ensures PendingRight(t)
  {
  }

  lemma PendingKept(s: State, a: Action)
    requires Shaped(s) && PendingRight(s) && Next(s, a).Some?
    ensures Shaped(Next(s, a).value) && PendingRight(Next(s, a).value)
  {
    hide Next, OnlyTaken, Moves, Tells, PendingRight;
    StepKinds(s, a);
    if Single(a) { PendingMoved(s, a, Next(s, a).value); } else { PendingTold(s, Next(s, a).value); }
  }

  lemma SemasKept(s: State, a: Action)
    requires Shaped(s) && Allowed(s, a) && Next(s, a).Some?
    requires forall k: nat :: k < |s.semas| ==> SemaFair(s.semas[k])
    ensures forall k: nat :: k < |Next(s, a).value.semas| ==> SemaFair(Next(s, a).value.semas[k])
  {
    hide TurnStep, LeaveStep, BackStep, ParkStep, Due;
    if IsTurn(a) {
      TurnMoves(s, a);
    } else if IsLeave(a) {
      LeaveMoves(s, a);
    } else if !IsSema(a) {
      BackMoves(s, a);
    }
  }

  /** A signal or a cancel tells every thread that is parked for a semaphore; its caller is the holder, so nobody
      is just leaving. */
  lemma ToldKept(s: State, t: State, h: nat)
    requires Shaped(s) && OneHolder(s) && h < |s.phase| && s.phase[h].Running? && Tells(s, t)
    ensures NoLostWakeup(t)
  {
    assert Owns(s.phase[h]);
    forall i: nat | i < |t.phase| && (t.phase[i].Leaving? || (t.phase[i].Parked? && !t.phase[i].woken))
      ensures InNeed(t, i)
    {
      assert !Owns(s.phase[i]) || i == h;
    }
  }

  /** What is taken from a semaphore leaves those in need of it in need. */
  lemma NeedGrows(s: State, t: State, i: nat)
    requires Shaped(s) && Shaped(t) && i < |s.phase| && i < |t.phase| && InNeed(s, i) && t.wait[i] == s.wait[i]
    requires OnlyTaken(s.semas, t.semas)
    ensures InNeed(t, i)
  {
  }

  /** The phase is one in which a thread that waits must be in need. */
  predicate Untold(p: Phase) { p.Leaving? || (p.Parked? && !p.woken) }

  lemma TurnNeverParks(s: State, a: Action)
    requires Shaped(s) && a.i < |s.phase| && TurnStep(s, a).Some?
    ensures var t := TurnStep(s, a).value; Moved(a) < |t.phase| && !Untold(t.phase[Moved(a)])
  {
  }

  lemma BackNeverParks(s: State, a: Action)
    requires Shaped(s) && a.i < |s.phase| && BackStep(s, a).Some?
    ensures var t := BackStep(s, a).value; a.i < |t.phase| && !Untold(t.phase[a.i])
  {
    hide Wanted, Step;
  }

  lemma LeaveParksInNeed(s: State, a: Action)
    requires Shaped(s) && a.i < |s.phase| && LeaveStep(s, a).Some?
    ensures var t := LeaveStep(s, a).value;
            Shaped(t) && a.i < |t.phase| && (Untold(t.phase[a.i]) ==>
              InNeed(t, a.i) || (t.wait[a.i] == s.wait[a.i] && s.phase[a.i].Leaving?))
  {
  }

  lemma SemaParksInNeed(s: State, a: Action)
    requires Shaped(s) && a.i < |s.phase| && SemaStep(s, a).Some? && Single(a)
    ensures var t := SemaStep(s, a).value; Shaped(t) && a.i < |t.phase| && (Untold(t.phase[a.i]) ==> InNeed(t, a.i))
  {
    hide ParkStep, Due, TakeFrom, WakeSema, Raise, Reset;
  }

  /** The thread that acts parks only in need, and stays in it while it gives the baton away. */
  lemma ParksInNeed(s: State, a: Action)
    requires Shaped(s) && Next(s, a).Some? && Single(a) && Moved(a) < |s.phase|
    requires Shaped(Next(s, a).value) && Moved(a) < |Next(s, a).value.phase|
    ensures var t := Next(s, a).value; var i := Moved(a);
            Untold(t.phase[i]) ==> InNeed(t, i) || (t.wait[i] == s.wait[i] && s.phase[i].Leaving?)
  {
    hide TurnStep, LeaveStep, BackStep, SemaStep, InNeed, Untold;
    if IsTurn(a) {
      TurnNeverParks(s, a);
    } else if IsSema(a) {
      SemaParksInNeed(s, a);
    } else if IsLeave(a) {
      LeaveParksInNeed(s, a);
    } else {
      BackNeverParks(s, a);
    }
  }

  lemma WakeupKept(s: State, a: Action)
    requires Shaped(s) && OneHolder(s) && NoLostWakeup(s) && Next(s, a).Some?
    ensures Shaped(Next(s, a).value) && NoLostWakeup(Next(s, a).value)
  {
    hide Next, InNeed, OnlyTaken, FlagMoves, OneHolder;
    StepKinds(s, a);
    var t := Next(s, a).value;
    if Single(a) {
      forall i: nat | i < |t.phase| && (t.phase[i].Leaving? || (t.phase[i].Parked? && !t.phase[i].woken))
        ensures InNeed(t, i)
      {
        if i == Moved(a) { ParksInNeed(s, a); }
        if !InNeed(t, i) { NeedGrows(s, t, i); }
      }
    } else {
      ToldKept(s, t, a.i);
    }
  }

  /** Every step of any thread keeps the protocol safe. */
  lemma SafeKept(s: State, a: Action)
    requires Shaped(s) && Safe(s) && Allowed(s, a) && Next(s, a).Some?
    ensures Shaped(Next(s, a).value) && Safe(Next(s, a).value)
  {
    hide Next, OneHolder, WaitersCounted, PendingRight, NoLostWakeup, SemaFair;
    HolderKept(s, a);
    WaitersKept(s, a);
    PendingKept(s, a);
    WakeupKept(s, a);
    SemasKept(s, a);
  }

  predicate AllAllowed(s: State, actions: seq<Action>)
    requires Shaped(s)
    decreases |actions|
  {
    actions == [] || (Allowed(s, actions[0]) &&
      (Next(s, actions[0]).Some? && Shaped(Next(s, actions[0]).value) ==>
        AllAllowed(Next(s, actions[0]).value, actions[1..])))
  }

  /** Safety over whole runs: any interleaving of any steps. */
  lemma {:induction false} RunSafe(s: State, actions: seq<Action>)
    requires Shaped(s) && Safe(s) && AllAllowed(s, actions) && Run(s, actions).Some?
    ensures Shaped(Run(s, actions).value) && Safe(Run(s, actions).value)
    decreases |actions|
  {
    hide Next, Safe, Allowed;
    if actions != [] {
      SafeKept(s, actions[0]);
      RunSafe(Next(s, actions[0]).value, actions[1..]);
    }
  }

  // ---- private registers

  /** The phases in which a thread has registers of its own: in psp_cpu while it runs, in its record otherwise. */
  predicate HasRegisters(p: Phase) { !p.Idle? && !p.Spawned? && !p.Queued? && !p.First? }

  function Registers(s: State, i: nat): Cpu
    requires Shaped(s) && i < |s.phase|
  {
    if s.phase[i].Running? then s.cpu else s.ctx[i]
  }

  /** The thread's registers are where they were, or have moved between psp_cpu and its record. */
  ghost predicate Keeps(s: State, t: State, i: nat)
    requires Shaped(s) && i < |s.phase|
  {
    Shaped(t) && i < |t.phase| && HasRegisters(t.phase[i]) && Registers(t, i) == Registers(s, i)
  }

  /** A thread whose turn changes has no registers yet, unless it computes or ends. */
  lemma TurnHasNone(s: State, a: Action)
    requires Shaped(s) && a.i < |s.phase| && TurnStep(s, a).Some? && !a.Compute? && !a.Exit?
    ensures Moved(a) < |s.phase| && !HasRegisters(s.phase[Moved(a)])
  {
  }

  lemma LeaveKeeps(s: State, a: Action)
    requires Shaped(s) && a.i < |s.phase| && LeaveStep(s, a).Some?
    ensures Keeps(s, LeaveStep(s, a).value, a.i)
  {
  }

  lemma BackKeeps(s: State, a: Action)
    requires Shaped(s) && a.i < |s.phase| && BackStep(s, a).Some?
    ensures Keeps(s, BackStep(s, a).value, a.i)
  {
    hide Wanted, Step;
  }

  lemma SemaKeeps(s: State, a: Action)
    requires Shaped(s) && a.i < |s.phase| && SemaStep(s, a).Some? && Single(a)
    ensures Keeps(s, SemaStep(s, a).value, a.i)
  {
    hide ParkStep, Due, TakeFrom, WakeSema, Raise, Reset;
  }

  lemma OwnRegisters(s: State, a: Action)
    requires Shaped(s) && Next(s, a).Some? && Single(a) && Moved(a) < |s.phase|
    requires HasRegisters(s.phase[Moved(a)]) && !a.Compute? && !a.Exit?
    ensures Keeps(s, Next(s, a).value, Moved(a))
  {
    hide TurnStep, LeaveStep, BackStep, SemaStep, Keeps, HasRegisters;
    if IsTurn(a) {
      TurnHasNone(s, a);
      assert false;
    } else if IsSema(a) {
      SemaKeeps(s, a);
    } else if IsLeave(a) {
      LeaveKeeps(s, a);
    } else {
      BackKeeps(s, a);
    }
  }

  /** No step of another thread, and no step of its own but a guest instruction, changes a thread's registers. */
  lemma RegistersPrivate(s: State, a: Action, i: nat)
    requires Shaped(s) && OneHolder(s) && Next(s, a).Some? && i < |s.phase|
    requires HasRegisters(s.phase[i]) && !(a.i == i && (a.Compute? || a.Exit?))
    ensures var t := Next(s, a).value;
            Shaped(t) && |t.phase| == |s.phase| && HasRegisters(t.phase[i]) && Registers(t, i) == Registers(s, i)
  {
    hide Next, Owns, OnlyTaken, OneHolder, HasRegisters, Moves, Tells, Registers;
    StepKinds(s, a);
    var t := Next(s, a).value;
    if !Single(a) {
      TellsKeeps(s, t, i);
    } else if i == Moved(a) {
      OwnRegisters(s, a);
      KeptRegisters(s, t, i);
    } else {
      MovesKeeps(s, a, t, i);
    }
  }

  lemma KeptRegisters(s: State, t: State, i: nat)
    requires Shaped(s) && i < |s.phase| && Keeps(s, t, i)
    ensures Shaped(t) && i < |t.phase| && HasRegisters(t.phase[i]) && Registers(t, i) == Registers(s, i)
  {
  }

  lemma TellsKeeps(s: State, t: State, i: nat)
    requires Shaped(s) && Tells(s, t) && i < |s.phase| && HasRegisters(s.phase[i])
    ensures HasRegisters(t.phase[i]) && Registers(t, i) == Registers(s, i)
  {
  }

  /** Another thread's registers: in its record, which the step leaves alone, or in psp_cpu, whose holder it is. */
  lemma MovesKeeps(s: State, a: Action, t: State, i: nat)
    requires Shaped(s) && OneHolder(s) && Moves(s, a, t) && i < |s.phase| && i != Moved(a) && HasRegisters(s.phase[i])
    ensures Shaped(t) && i < |t.phase| && HasRegisters(t.phase[i]) && Registers(t, i) == Registers(s, i)
  {
    hide FlagMoves, Owns;
    RunningOwns(s.phase[i]);
  }

  lemma RunningOwns(p: Phase)
    ensures p.Running? ==> Owns(p)
  {
  }

  predicate Quiet(actions: seq<Action>, i: nat) {
    forall k: nat :: k < |actions| && actions[k].i == i ==> !actions[k].Compute? && !actions[k].Exit?
  }

  /** Whatever the others do from a thread's park to its resume, it resumes with the registers it parked with. */
  lemma {:induction false} RegistersSurviveParks(s: State, actions: seq<Action>, i: nat)
    requires Shaped(s) && OneHolder(s) && Run(s, actions).Some? && i < |s.phase| && HasRegisters(s.phase[i])
    requires Quiet(actions, i)
    ensures var t := Run(s, actions).value;
            Shaped(t) && i < |t.phase| && HasRegisters(t.phase[i]) && Registers(t, i) == Registers(s, i)
    decreases |actions|
  {
    hide Next, OneHolder, HasRegisters;
    if actions != [] {
      HolderKept(s, actions[0]);
      assert actions[0].i == i ==> !actions[0].Compute? && !actions[0].Exit?;
      RegistersPrivate(s, actions[0], i);
      RegistersSurviveParks(Next(s, actions[0]).value, actions[1..], i);
    }
  }

  // ---- the handover

  lemma TurnNeverResumes(s: State, a: Action)
    requires Shaped(s) && a.i < |s.phase| && TurnStep(s, a).Some?
    ensures var t := TurnStep(s, a).value;
            Moved(a) < |t.phase| && (t.phase[Moved(a)].Resuming? ==> s.phase[Moved(a)].Resuming?)
  {
  }

  lemma LeaveNeverResumes(s: State, a: Action)
    requires Shaped(s) && a.i < |s.phase| && LeaveStep(s, a).Some?
    ensures var t := LeaveStep(s, a).value; a.i < |t.phase| && !t.phase[a.i].Resuming?
  {
  }

  lemma SemaNeverResumes(s: State, a: Action)
    requires Shaped(s) && a.i < |s.phase| && SemaStep(s, a).Some? && Single(a)
    ensures var t := SemaStep(s, a).value; a.i < |t.phase| && !t.phase[a.i].Resuming?
  {
    hide ParkStep, Due, TakeFrom, WakeSema, Raise, Reset;
  }

  lemma BackResumesUnwanted(s: State, a: Action)
    requires Shaped(s) && a.i < |s.phase| && BackStep(s, a).Some?
    requires s.phase[a.i].Back? || (s.phase[a.i].Handing? && !a.Expire?)
    ensures var t := BackStep(s, a).value; a.i < |t.phase| && (t.phase[a.i].Resuming? ==> !Wanted(s))
  {
    hide Step, Wanted;
  }

  lemma ResumesUnwanted(s: State, a: Action, i: nat)
    requires Shaped(s) && Next(s, a).Some? && i < |s.phase|
    requires s.phase[i].Back? || (s.phase[i].Handing? && !a.Expire?)
    requires |Next(s, a).value.phase| == |s.phase| && Next(s, a).value.phase[i].Resuming?
    ensures a.i == i && !Wanted(s)
  {
    hide TurnStep, LeaveStep, BackStep, SemaStep, Counts, OnlyTaken, Wanted;
    StepKinds(s, a);
    assert Single(a) && Moved(a) == i;
    if IsTurn(a) {
      TurnNeverResumes(s, a);
    } else if IsSema(a) {
      SemaNeverResumes(s, a);
    } else if IsLeave(a) {
      LeaveNeverResumes(s, a);
    } else {
      BackResumesUnwanted(s, a);
    }
  }

  /** A park that takes the CPU back before the cap does so when nobody holds it, no started thread awaits its
      first turn and nobody is queued. */
  lemma ResumeYieldsFirst(s: State, a: Action, i: nat)
    requires Shaped(s) && Safe(s) && Next(s, a).Some? && i < |s.phase|
    requires s.phase[i].Back? || (s.phase[i].Handing? && !a.Expire?)
    requires |Next(s, a).value.phase| == |s.phase| && Next(s, a).value.phase[i].Resuming?
    ensures a.i == i
    ensures forall j: nat :: j < |s.phase| ==>
      !Owns(s.phase[j]) && !s.phase[j].Spawned? && !s.phase[j].Queued?
  {
    hide Next, NoLostWakeup, SemaFair;
    ResumesUnwanted(s, a, i);
    forall j: nat | j < |s.phase|
      ensures !Owns(s.phase[j]) && !s.phase[j].Spawned? && !s.phase[j].Queued?
    {
      HolderOf(s, j);
      assert s.pending[j] in s.pending;
      assert s.phase[j] in multiset(s.phase);
    }
  }

  // ---- timeouts

  /** How far a thread is from running again. */
  function ParkRank(p: Phase): nat {
    match p
    case Leaving(_) => 6
    case Parked(_, _) => 5
    case Back(_) => 4
    case Handing(_) => 3
    case Late(_) => 2
    case Resuming(_) => 1
    case _ => 0
  }

  ghost predicate Waits(s: State, i: nat, w: Wait)
    requires Shaped(s)
  {
    i < |s.phase| && s.wait[i] == Some(w) && (s.phase[i].Running? || ParkRank(s.phase[i]) > 0)
  }

  // ---- what the semaphore calls do

  /** A signal adds its units, as many as the maximum leaves room for; only those are lost. Nothing else changes but who
      is told. */
  lemma SignalAdds(s: State, i: nat, k: nat, n: nat)
    requires Shaped(s) && Next(s, Signal(i, k, n)).Some?
    ensures var t := Next(s, Signal(i, k, n)).value;
      && k < |s.semas| && Tells(s, t) && t.semas == s.semas[k := t.semas[k]]
      && var m, m' := s.semas[k], t.semas[k];
         && m'.count == (if m.max > 0 && m.count + n > m.max then m.max else m.count + n)
         && m'.max == m.max && m'.taken == m.taken && m'.supplied == m.supplied + n
         && m'.lost + m'.count == m.lost + m.count + n && (m'.lost == m.lost || m'.count == m.max)
  {
  }

  /** A cancel sets the count: what it raises it by is supplied, what it lowers it by is lost. */
  lemma CancelSets(s: State, i: nat, k: nat, c: nat)
    requires Shaped(s) && Next(s, Cancel(i, k, c)).Some?
    ensures var t := Next(s, Cancel(i, k, c)).value;
      && k < |s.semas| && Tells(s, t) && t.semas == s.semas[k := t.semas[k]]
      && var m, m' := s.semas[k], t.semas[k];
         && m'.count == c && m'.max == m.max && m'.taken == m.taken
         && m'.supplied - m.supplied == (if c > m.count then c - m.count else 0)
         && m'.lost - m.lost == (if c < m.count then m.count - c else 0)
  {
  }

  /** A wait asks for at least one unit; it is due from its timeout on, and never without one. */
  lemma WaitBegins(s: State, i: nat, k: nat, need: nat, timeout: nat)
    requires Shaped(s) && Next(s, WaitSema(i, k, need, timeout)).Some?
    ensures var t := Next(s, WaitSema(i, k, need, timeout)).value;
      && i < |s.wait| && t == s.(wait := s.wait[i := t.wait[i]]) && t.wait[i].Some?
      && var w := t.wait[i].value;
         && w.sema == k && w.need >= need && w.need >= 1 && (w.need == need || w.need == 1)
         && forall now: nat :: Due(w, now) <==> timeout > 0 && now >= s.vtime + timeout
  {
  }

  /** The step takes units of semaphore k, or sets its count. */
  predicate Touches(s: State, a: Action, k: nat)
    requires Shaped(s)
  {
    || ((a.Poll? || a.Cancel?) && a.sema == k)
    || (a.Check? && a.i < |s.wait| && s.wait[a.i].Some? && s.wait[a.i].value.sema == k)
  }

  predicate Untouched(s: State, actions: seq<Action>, k: nat)
    requires Shaped(s)
    decreases |actions|
  {
    actions == [] || (!Touches(s, actions[0], k) &&
      (Next(s, actions[0]).Some? && Shaped(Next(s, actions[0]).value) ==>
        Untouched(Next(s, actions[0]).value, actions[1..], k)))
  }

  lemma CountKept(s: State, a: Action, k: nat)
    requires Shaped(s) && k < |s.semas| && SemaFair(s.semas[k]) && !Touches(s, a, k) && Next(s, a).Some?
    ensures var t := Next(s, a).value;
      Shaped(t) && |t.semas| == |s.semas| && SemaFair(t.semas[k]) && t.semas[k].count >= s.semas[k].count
  {
    hide TurnStep, LeaveStep, BackStep, ParkStep, Due;
    if IsTurn(a) {
      TurnMoves(s, a);
    } else if IsLeave(a) {
      LeaveMoves(s, a);
    } else if !IsSema(a) {
      BackMoves(s, a);
    }
  }

  lemma {:induction false} CountStays(s: State, actions: seq<Action>, k: nat)
    requires Shaped(s) && k < |s.semas| && SemaFair(s.semas[k]) && Untouched(s, actions, k) && Run(s, actions).Some?
    ensures var t := Run(s, actions).value; |t.semas| == |s.semas| && t.semas[k].count >= s.semas[k].count
    decreases |actions|
  {
    hide Next, Touches, SemaFair;
    if actions != [] {
      CountKept(s, actions[0], k);
      CountStays(Next(s, actions[0]).value, actions[1..], k);
    }
  }

  /** No signal is in vain: whatever the threads do after it, as long as nobody takes from the semaphore, a wait that
      its new count satisfies is let through at its next check, with its units. */
  lemma SignalLetsThrough(s: State, i: nat, k: nat, n: nat, actions: seq<Action>, j: nat, w: Wait)
    requires Shaped(s) && k < |s.semas| && SemaFair(s.semas[k]) && Next(s, Signal(i, k, n)).Some? && w.sema == k
    requires w.need <= if s.semas[k].max > 0 && s.semas[k].count + n > s.semas[k].max then s.semas[k].max
                       else s.semas[k].count + n
    requires var t := Next(s, Signal(i, k, n)).value;
      Shaped(t) && Untouched(t, actions, k) && Run(t, actions).Some?
    requires var u := Run(Next(s, Signal(i, k, n)).value, actions).value;
      Shaped(u) && j < |u.phase| && u.phase[j].Running? && u.wait[j] == Some(w)
    ensures var u := Run(Next(s, Signal(i, k, n)).value, actions).value;
      && Next(u, Check(j)).Some? && k < |u.semas|
      && var v := Next(u, Check(j)).value;
         && |v.wait| == |u.wait| && |v.semas| == |u.semas|
         && v.wait[j].None? && v.phase == u.phase && v.semas[k].count == u.semas[k].count - w.need
  {
    hide Run, Untouched;
    SignalAdds(s, i, k, n);
    CountStays(Next(s, Signal(i, k, n)).value, actions, k);
  }

  /** The same after a cancel that raises the count far enough. */
  lemma CancelLetsThrough(s: State, i: nat, k: nat, c: nat, actions: seq<Action>, j: nat, w: Wait)
    requires Shaped(s) && k < |s.semas| && SemaFair(s.semas[k]) && Allowed(s, Cancel(i, k, c))
    requires Next(s, Cancel(i, k, c)).Some? && w.sema == k && w.need <= c
    requires var t := Next(s, Cancel(i, k, c)).value;
      Shaped(t) && Untouched(t, actions, k) && Run(t, actions).Some?
    requires var u := Run(Next(s, Cancel(i, k, c)).value, actions).value;
      Shaped(u) && j < |u.phase| && u.phase[j].Running? && u.wait[j] == Some(w)
    ensures var u := Run(Next(s, Cancel(i, k, c)).value, actions).value;
      && Next(u, Check(j)).Some? && k < |u.semas|
      && var v := Next(u, Check(j)).value;
         && |v.wait| == |u.wait| && |v.semas| == |u.semas|
         && v.wait[j].None? && v.phase == u.phase && v.semas[k].count == u.semas[k].count - w.need
  {
    hide Run, Untouched;
    CancelSets(s, i, k, c);
    CountStays(Next(s, Cancel(i, k, c)).value, actions, k);
  }

  /** A wait ends with a timeout only once virtual time has reached its deadline, and never with units it was
      refused. */
  lemma TimeoutIsDue(s: State, i: nat, w: Wait)
    requires Shaped(s) && i < |s.phase| && s.wait[i] == Some(w) && Next(s, Check(i)).Some?
    ensures var t := Next(s, Check(i)).value;
            && w.sema < |s.semas| && |t.wait| == |s.wait| && |t.semas| == |s.semas|
            && (t.wait[i].None? && t.semas == s.semas ==> w.need > 0 ==>
               Due(w, s.vtime) && s.semas[w.sema].count < w.need)
            && (t.wait[i].None? <==> s.semas[w.sema].count >= w.need || Due(w, s.vtime))
            && (s.semas[w.sema].count >= w.need ==> t.semas[w.sema].count == s.semas[w.sema].count - w.need)
  {
  }

  lemma StartsIdle(s: State, a: Action)
    requires Shaped(s) && Next(s, a).Some? && a.Start?
    ensures a.j < |s.phase| && s.phase[a.j].Idle?
  {
  }

  lemma OthersLeaveWait(s: State, a: Action, i: nat, w: Wait)
    requires Shaped(s) && Waits(s, i, w) && Next(s, a).Some? && a.i != i
    ensures var t := Next(s, a).value;
            Shaped(t) && Waits(t, i, w) && ParkRank(t.phase[i]) == ParkRank(s.phase[i]) && t.vtime >= s.vtime
  {
    hide Next, OnlyTaken, FlagMoves, Owns, Awaits;
    StepKinds(s, a);
    if a.Start? { StartsIdle(s, a); }
  }

  /** The wait is over, or it goes on and the thread is no further from running. */
  ghost predicate Nearer(s: State, t: State, i: nat, w: Wait)
    requires Shaped(s) && i < |s.phase|
  {
    && Shaped(t) && t.vtime >= s.vtime && i < |t.phase|
    && (t.wait[i].None? || (Waits(t, i, w) && ParkRank(t.phase[i]) <= ParkRank(s.phase[i])))
  }

  lemma TurnNearer(s: State, a: Action, w: Wait)
    requires Shaped(s) && Waits(s, a.i, w) && a.i < |s.phase| && TurnStep(s, a).Some?
    ensures Nearer(s, TurnStep(s, a).value, a.i, w)
  {
  }

  lemma LeaveNearer(s: State, a: Action, w: Wait)
    requires Shaped(s) && Waits(s, a.i, w) && a.i < |s.phase| && LeaveStep(s, a).Some?
    ensures Nearer(s, LeaveStep(s, a).value, a.i, w)
  {
  }

  lemma BackNearer(s: State, a: Action, w: Wait)
    requires Shaped(s) && Waits(s, a.i, w) && a.i < |s.phase| && BackStep(s, a).Some?
    ensures Nearer(s, BackStep(s, a).value, a.i, w)
  {
    hide Wanted, Step;
  }

  lemma SemaNearer(s: State, a: Action, w: Wait)
    requires Shaped(s) && Waits(s, a.i, w) && a.i < |s.phase| && SemaStep(s, a).Some? && Due(w, s.vtime)
    ensures Nearer(s, SemaStep(s, a).value, a.i, w)
  {
    hide ParkStep, TakeFrom, Raise, Reset;
  }

  lemma OwnStepsGetNearer(s: State, a: Action, i: nat, w: Wait)
    requires Shaped(s) && Waits(s, i, w) && Due(w, s.vtime) && Next(s, a).Some? && a.i == i
    ensures Nearer(s, Next(s, a).value, i, w)
  {
    hide TurnStep, LeaveStep, BackStep, SemaStep, Waits, Nearer, Due;
    if IsTurn(a) {
      TurnNearer(s, a, w);
    } else if IsSema(a) {
      SemaNearer(s, a, w);
    } else if IsLeave(a) {
      LeaveNearer(s, a, w);
    } else {
      BackNearer(s, a, w);
    }
  }

  /** After the deadline a wait starts no further park: it only gets nearer to running. */
  lemma DueGetsNearer(s: State, a: Action, i: nat, w: Wait)
    requires Shaped(s) && Waits(s, i, w) && Due(w, s.vtime) && Next(s, a).Some?
    ensures Shaped(Next(s, a).value)
    ensures var t := Next(s, a).value;
            Due(w, t.vtime) && (Waits(t, i, w) ==> ParkRank(t.phase[i]) <= ParkRank(s.phase[i]))
    ensures var t := Next(s, a).value; Waits(t, i, w) || (i < |t.wait| && t.wait[i].None?)
  {
    hide Next, ParkRank;
    if a.i == i {
      OwnStepsGetNearer(s, a, i, w);
    } else {
      OthersLeaveWait(s, a, i, w);
    }
  }

  /** Parks the thread begins in the course of a run. */
  function ParksBegun(s: State, actions: seq<Action>, i: nat): nat
    requires Shaped(s)
    decreases |actions|
  {
    if actions == [] || Next(s, actions[0]).None? || !Shaped(Next(s, actions[0]).value) then 0 else
      var t := Next(s, actions[0]).value;
      (if i < |s.phase| && i < |t.phase| && !s.phase[i].Leaving? && t.phase[i].Leaving? then 1 else 0)
      + ParksBegun(t, actions[1..], i)
  }

  predicate StillWaits(s: State, actions: seq<Action>, i: nat, w: Wait)
    requires Shaped(s)
    decreases |actions|
  {
    && i < |s.phase| && s.wait[i] == Some(w)
    && (actions == [] || Next(s, actions[0]).None? || !Shaped(Next(s, actions[0]).value)
        || StillWaits(Next(s, actions[0]).value, actions[1..], i, w))
  }

  /** A wait given a timeout ends no later than the park that virtual time reached its deadline in: over any run
      in which it has not ended, it begins no park after that. */
  lemma {:induction false} NoParkAfterDeadline(s: State, actions: seq<Action>, i: nat, w: Wait)
    requires Shaped(s) && Waits(s, i, w) && Due(w, s.vtime) && StillWaits(s, actions, i, w)
    ensures ParksBegun(s, actions, i) == 0
    decreases |actions|
  {
    hide Next, Due;
    if actions != [] && Next(s, actions[0]).Some? {
      DueGetsNearer(s, actions[0], i, w);
      NoParkAfterDeadline(Next(s, actions[0]).value, actions[1..], i, w);
    }
  }

  // ---- no thread waits in vain, and the start is safe

  /** The wait for somebody who wants the CPU is no deadlock: as soon as the baton is free, somebody can take it. */
  lemma WantedCanTake(s: State)
    requires Shaped(s) && Safe(s) && Wanted(s) && !s.owned
    ensures exists i: nat :: i < |s.phase| && Next(s, if s.phase[i].Queued? then Take(i) else Enter(i)).Some?
  {
    hide NoLostWakeup, SemaFair, OneHolder;
    if s.waiters > 0 {
      assert Queued in multiset(s.phase);
      assert Queued in s.phase;
      var i: nat :| i < |s.phase| && s.phase[i] == Queued;
      assert Next(s, if s.phase[i].Queued? then Take(i) else Enter(i)).Some?;
    } else {
      var i: nat :| i < |s.pending| && s.pending[i];
      assert !s.phase[i].First? by { FirstOwns(s, i); }
      assert s.phase[i] != Queued by { NoneQueued(s, i); }
      assert Next(s, if s.phase[i].Queued? then Take(i) else Enter(i)).Some?;
    }
  }

  lemma FirstOwns(s: State, i: nat)
    requires Shaped(s) && Safe(s) && !s.owned && i < |s.phase|
    ensures !s.phase[i].First?
  {
    hide NoLostWakeup, SemaFair, PendingRight, WaitersCounted;
    HolderOf(s, i);
  }

  lemma NoneQueued(s: State, i: nat)
    requires WaitersCounted(s) && s.waiters == 0 && i < |s.phase|
    ensures s.phase[i] != Queued
  {
    assert s.phase[i] in multiset(s.phase);
  }

  /** After a reset: the boot thread runs and holds the baton, nobody else exists, counts are what they were
      created with. */
  function Boot(n: nat, boot: nat, cpu: Cpu, semas: seq<Sema>): State
    requires boot < n
  {
    State(seq(n, i => if i == boot then Running else Idle), seq(n, _ => false), seq(n, _ => cpu), seq(n, _ => None),
          true, 0, cpu, 0, semas)
  }

  lemma BootSafe(n: nat, boot: nat, cpu: Cpu, semas: seq<Sema>)
    requires boot < n && forall k: nat :: k < |semas| ==> SemaFair(semas[k])
    ensures Shaped(Boot(n, boot, cpu, semas)) && Safe(Boot(n, boot, cpu, semas))
  {
    var s := Boot(n, boot, cpu, semas);
    assert Owns(s.phase[boot]);
    assert Queued !in s.phase;
    assert Queued !in multiset(s.phase);
  }
}

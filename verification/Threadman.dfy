/** The thread records and the baton's flags, changed step by step (threadman.c). */
module ThreadmanC {
  import opened Options
  import opened Allegrex
  import opened Scheduler

  datatype Kind = NoKind | OtherKind | SemaKind

  /** What a thread record keeps of its parks; the locks only make each method below one step. */
  datatype Record = Record(cpuPending: bool, ctx: Cpu, waiting: bool, kind: Kind, woken: bool)

  class Threadman {
    const records: array<Record>
    const counts: array<nat>
    const maxes: array<nat>
    var owned: bool
    var waiters: nat
    var cpu: Cpu
    var vtime: nat
    ghost var s: State

    /** The record of thread i is what its phase and wait say. */
    ghost predicate RecordOf(i: nat)
      requires Shaped(s) && |s.phase| == records.Length && i < records.Length
      reads `s, records
    {
      var r := records[i];
      && r.cpuPending == s.pending[i] && r.ctx == s.ctx[i]
      && r.waiting == (s.phase[i].Leaving? || s.phase[i].Parked?)
      && (r.waiting ==> r.kind == if s.wait[i].Some? then SemaKind else OtherKind)
      && r.woken == (s.phase[i].Parked? && s.phase[i].woken)
    }

    ghost predicate Valid()
      reads this, records, counts, maxes
    {
      && Shaped(s) && |s.phase| == records.Length && |s.semas| == counts.Length == maxes.Length && counts != maxes
      && (forall i: nat :: i < records.Length ==> RecordOf(i))
      && (forall k: nat :: k < counts.Length ==> counts[k] == s.semas[k].count && maxes[k] == s.semas[k].max)
      && owned == s.owned && waiters == s.waiters && cpu == s.cpu && vtime == s.vtime
    }

    /** Every record but the i-th is as it was. */
    twostate predicate OnlyRecord(i: nat)
      reads records
    {
      forall j: nat :: j < records.Length && j != i ==> records[j] == old(records[j])
    }

    /** Exactly the threads that wait for a semaphore are told. */
    twostate predicate SemaWaitersTold()
      reads records
    {
      forall j: nat :: j < records.Length ==>
        records[j] == old(records[j]).(woken := old(records[j].woken) ||
                                                (old(records[j].waiting) && old(records[j].kind) == SemaKind))
    }

    /** Exactly the count of semaphore k may have changed. */
    twostate predicate OnlyCount(k: nat)
      reads counts
    {
      forall j: nat :: j < counts.Length && j != k ==> counts[j] == old(counts[j])
    }

    /** cpu_wanted_locked. */
    method CpuWanted() returns (wanted: bool)
      requires Valid()
      ensures wanted == Wanted(s)
      ensures wanted <==> owned || waiters > 0 || exists i: nat :: i < records.Length && records[i].cpuPending
    {
      if owned || waiters > 0 { return true; }
      var i := 0;
      while i < records.Length
        invariant 0 <= i <= records.Length
        invariant forall j: nat :: j < i ==> !s.pending[j] && !records[j].cpuPending
      {
        assert RecordOf(i);
        if records[i].cpuPending { return true; }
        i := i + 1;
      }
      wanted := false;
    }

    /** The entry to park_us: registers saved, waiting and not woken. */
    method Save(i: nat, kind: Kind, step: nat)
      requires Valid() && i < records.Length && s.phase[i].Running?
      requires kind == if s.wait[i].Some? then SemaKind else OtherKind
      modifies this`s, records
      ensures Valid() && s == SaveFor(old(s), i, step)
      ensures OnlyRecord(i) && records[i] == old(records[i]).(ctx := cpu, waiting := true, kind := kind, woken := false)
    {
      assert RecordOf(i);
      records[i] := records[i].(ctx := cpu, waiting := true, kind := kind, woken := false);
      s := SaveFor(s, i, step);
      forall j: nat | j < records.Length ensures RecordOf(j) { assert j != i ==> old(RecordOf(j)); }
    }

    /** Giving the CPU away. */
    method GiveAway(i: nat)
      requires Valid() && i < records.Length && s.phase[i].Leaving?
      modifies this`s, this`owned
      ensures Valid() && Next(old(s), Give(i)) == Some(s) && !owned
    {
      owned := false;
      s := Next(s, Give(i)).value;
      forall j: nat | j < records.Length ensures RecordOf(j) { assert old(RecordOf(j)); }
    }

    /** The end of the timed wait: woken or not, the thread is no longer waiting. */
    method EndPark(i: nat) returns (woken: bool)
      requires Valid() && i < records.Length && s.phase[i].Parked?
      modifies this`s, records
      ensures Valid() && woken == old(s.phase[i].woken)
      ensures Next(old(s), if woken then Wake(i) else TimeUp(i)) == Some(s) && woken == old(records[i].woken)
      ensures OnlyRecord(i) && records[i] == old(records[i]).(woken := false, waiting := false, kind := NoKind)
    {
      assert RecordOf(i);
      woken := records[i].woken;
      records[i] := records[i].(woken := false, waiting := false, kind := NoKind);
      s := Next(s, if woken then Wake(i) else TimeUp(i)).value;
      forall j: nat | j < records.Length ensures RecordOf(j) { assert j != i ==> old(RecordOf(j)); }
    }

    /** Asking for the CPU back under the lock: the handover first if anyone wants it. */
    method AskBack(i: nat) returns (taken: bool)
      requires Valid() && i < records.Length && s.phase[i].Back?
      modifies this`s, this`owned
      ensures Valid() && taken == !Wanted(old(s)) && Next(old(s), Ask(i)) == Some(s)
      ensures owned == (old(owned) || taken) && (taken ==> !old(owned) && waiters == 0)
    {
      var wanted := CpuWanted();
      taken := !wanted;
      if taken { owned := true; }
      s := Next(s, Ask(i)).value;
      forall j: nat | j < records.Length ensures RecordOf(j) { assert old(RecordOf(j)); }
    }

    /** One wakeup of the handover loop, or its cap. */
    method HandOver(i: nat, expired: bool) returns (taken: bool)
      requires Valid() && i < records.Length && s.phase[i].Handing?
      modifies this`s, this`owned
      ensures Valid() && taken == (if expired then !old(s).owned else !Wanted(old(s)))
      ensures if expired then Next(old(s), Expire(i)) == Some(s)
              else if taken then Next(old(s), Recheck(i)) == Some(s) else s == old(s)
      ensures owned == (old(owned) || taken) && (taken ==> !old(owned) && (expired || waiters == 0))
    {
      if expired {
        taken := !owned;
        if taken { owned := true; }
        s := Next(s, Expire(i)).value;
      } else {
        var wanted := CpuWanted();
        taken := !wanted;
        if taken {
          owned := true;
          s := Next(s, Recheck(i)).value;
        }
      }
      forall j: nat | j < records.Length ensures RecordOf(j) { assert old(RecordOf(j)); }
    }

    /** The end of park_us: time has passed, and the registers are back. */
    method RestoreRegisters(i: nat, step: nat)
      requires Valid() && i < records.Length && s.phase[i] == Resuming(step)
      modifies this`s, this`cpu, this`vtime
      ensures Valid() && Next(old(s), Restore(i)) == Some(s)
      ensures cpu == records[i].ctx && vtime == old(vtime) + step
    {
      assert RecordOf(i);
      if step != 0 { vtime := vtime + step; }
      cpu := records[i].ctx;
      s := Next(s, Restore(i)).value;
      forall j: nat | j < records.Length ensures RecordOf(j) { assert old(RecordOf(j)); }
    }

    /** baton_acquire up to its wait: queued, or straight through. */
    method Acquire(i: nat) returns (taken: bool)
      requires Valid() && i < records.Length && s.phase[i].Spawned?
      modifies this`s, this`owned, this`waiters
      ensures Valid() && taken == !old(s).owned && Next(old(s), Enter(i)) == Some(s)
      ensures owned && taken == !old(owned) && waiters == old(waiters) + if taken then 0 else 1
    {
      waiters := waiters + 1;
      taken := !owned;
      if taken {
        waiters := waiters - 1;
        owned := true;
      }
      s := Next(s, Enter(i)).value;
      forall j: nat | j < records.Length ensures RecordOf(j) { assert old(RecordOf(j)); }
    }

    /** baton_acquire's wait ending. */
    method AcquireQueued(i: nat)
      requires Valid() && Safe(s) && i < records.Length && s.phase[i].Queued? && !s.owned
      modifies this`s, this`owned, this`waiters
      ensures Valid() && Next(old(s), Take(i)) == Some(s) && owned && waiters == old(waiters) - 1
    {
      assert s.phase[i] in multiset(s.phase);
      waiters := waiters - 1;
      owned := true;
      s := Next(s, Take(i)).value;
      forall j: nat | j < records.Length ensures RecordOf(j) { assert old(RecordOf(j)); }
    }

    /** guest_thread_main once it has the CPU: fresh registers, and the flag that it never ran goes. */
    method FirstTurn(i: nat, regs: Cpu)
      requires Valid() && i < records.Length && s.phase[i].First?
      modifies this`s, this`cpu, records
      ensures Valid() && Next(old(s), Begin(i, regs)) == Some(s)
      ensures cpu == regs && OnlyRecord(i) && records[i] == old(records[i]).(cpuPending := false)
    {
      cpu := regs;
      records[i] := records[i].(cpuPending := false);
      s := Next(s, Begin(i, regs)).value;
      forall j: nat | j < records.Length ensures RecordOf(j) { assert old(RecordOf(j)); }
    }

    /** hle_StartThread. The flag is set before the host thread is made, and taken back when it cannot be; then nothing
        has happened. */
    method StartThread(i: nat, j: nat, made: bool)
      requires Valid() && PendingRight(s) && i < records.Length && j < records.Length
      requires s.phase[i].Running? && s.phase[j].Idle?
      modifies this`s, records
      ensures Valid()
      ensures if made then Next(old(s), Start(i, j)) == Some(s) else s == old(s) && records[..] == old(records[..])
      ensures made ==> OnlyRecord(j) && records[j] == old(records[j]).(cpuPending := true)
    {
      assert RecordOf(j);
      records[j] := records[j].(cpuPending := true);
      if made {
        s := Next(s, Start(i, j)).value;
      } else {
        records[j] := records[j].(cpuPending := false);
      }
      forall k: nat | k < records.Length ensures RecordOf(k) { assert old(RecordOf(k)); }
    }

    /** wake_waiters(W_SEMA): a scan of the records. */
    method WakeWaiters()
      requires Valid() && forall i: nat :: i < records.Length ==> !s.phase[i].Leaving?
      modifies this`s, records
      ensures Valid() && s == WakeSema(old(s)) && SemaWaitersTold()
    {
      ghost var was := s;
      var i := 0;
      while i < records.Length
        invariant 0 <= i <= records.Length && s == was
        invariant forall j: nat :: j < records.Length ==>
          records[j] == if j < i && old(records[j]).waiting && old(records[j]).kind == SemaKind
                        then old(records[j]).(woken := true) else old(records[j])
        modifies records
      {
        if records[i].waiting && records[i].kind == SemaKind {
          records[i] := records[i].(woken := true);
        }
        i := i + 1;
      }
      s := WakeSema(s);
      forall j: nat | j < records.Length ensures RecordOf(j) { assert old(RecordOf(j)); }
    }

    /** A new count, and what it makes of the semaphore's history. */
    method SetCount(k: nat, c: nat, ghost m: Sema)
      requires Valid() && k < counts.Length && m.count == c && m.max == s.semas[k].max
      modifies this`s, counts
      ensures Valid() && s == old(s).(semas := old(s).semas[k := m]) && counts[k] == c && OnlyCount(k)
    {
      counts[k] := c;
      s := s.(semas := s.semas[k := m]);
      forall j: nat | j < records.Length ensures RecordOf(j) { assert old(RecordOf(j)); }
    }

    /** hle_SignalSema by the running thread. */
    method SignalSema(i: nat, k: nat, n: nat)
      requires Valid() && OneHolder(s) && i < records.Length && s.phase[i].Running? && k < counts.Length
      modifies this`s, records, counts
      ensures Valid() && Next(old(s), Signal(i, k, n)) == Some(s) && SemaWaitersTold() && OnlyCount(k)
      ensures var c := old(counts[k]) + n; counts[k] == if maxes[k] > 0 && c > maxes[k] then maxes[k] else c
    {
      hide OneHolder, WakeSema;
      NobodyLeaves(s, i);
      var c := counts[k] + n;
      if maxes[k] > 0 && c > maxes[k] { c := maxes[k]; }
      SetCount(k, c, Raise(s.semas[k], n));
      WakeWaiters();
    }

    /** hle_CancelSema: the waiters are told and test the new count. */
    method CancelSema(i: nat, k: nat, c: nat)
      requires Valid() && OneHolder(s) && i < records.Length && s.phase[i].Running? && k < counts.Length
      modifies this`s, records, counts
      ensures Valid() && Next(old(s), Cancel(i, k, c)) == Some(s) && SemaWaitersTold() && OnlyCount(k) && counts[k] == c
    {
      hide OneHolder, WakeSema;
      NobodyLeaves(s, i);
      SetCount(k, c, Reset(s.semas[k], c));
      WakeWaiters();
    }

    static lemma NobodyLeaves(s: State, i: nat)
      requires Shaped(s) && OneHolder(s) && i < |s.phase| && s.phase[i].Running?
      ensures forall j: nat :: j < |s.phase| ==> !s.phase[j].Leaving?
    {
      assert Owns(s.phase[i]);
      forall j: nat | j < |s.phase| ensures !s.phase[j].Leaving? {
        assert Owns(s.phase[j]) ==> i == j;
      }
    }

    /** Off to a park, for a tick or what is left to the deadline. */
    method ParkFor(i: nat, w: Wait)
      requires Valid() && i < records.Length && s.phase[i].Running? && s.wait[i] == Some(w) && w.sema < counts.Length
      requires counts[w.sema] < w.need && (w.deadline == 0 || vtime < w.deadline)
      modifies this`s, records
      ensures Valid() && Next(old(s), Check(i)) == Some(s)
      ensures OnlyRecord(i)
      ensures records[i] == old(records[i]).(ctx := cpu, waiting := true, kind := SemaKind, woken := false)
      ensures s.phase[i] == Leaving(if w.deadline == 0 || w.deadline - vtime > 1000 then 1000 else w.deadline - vtime)
    {
      var step := TICK_US;
      if w.deadline != 0 && w.deadline - vtime < step { step := w.deadline - vtime; }
      if step == 0 { step := 1; }
      Save(i, SemaKind, step);
    }

    /** One round of wait_loop on a semaphore: through, timed out, or off to a park. */
    method CheckWait(i: nat, w: Wait) returns (done: bool, ok: bool)
      requires Valid() && i < records.Length && s.phase[i].Running? && s.wait[i] == Some(w) && w.sema < counts.Length
      modifies this`s, records, counts
      ensures Valid() && Next(old(s), Check(i)) == Some(s)
      ensures done == s.wait[i].None? && ok == (old(counts[w.sema]) >= w.need) && OnlyCount(w.sema)
      ensures counts[w.sema] == old(counts[w.sema]) - if ok then w.need else 0
      ensures done <==> ok || (w.deadline != 0 && vtime >= w.deadline)
      ensures if done then records[..] == old(records[..]) else
              && OnlyRecord(i)
              && records[i] == old(records[i]).(ctx := cpu, waiting := true, kind := SemaKind, woken := false)
              && s.phase[i] ==
                 Leaving(if w.deadline == 0 || w.deadline - vtime > 1000 then 1000 else w.deadline - vtime)
    {
      hide WakeSema, TurnStep, LeaveStep, BackStep;
      ok := counts[w.sema] >= w.need;
      done := true;
      if ok {
        counts[w.sema] := counts[w.sema] - w.need;
        s := Next(s, Check(i)).value;
      } else if w.deadline != 0 && vtime >= w.deadline {
        s := Next(s, Check(i)).value;
      } else {
        done := false;
        ParkFor(i, w);
        return;
      }
      forall j: nat | j < records.Length ensures RecordOf(j) { assert old(RecordOf(j)); }
    }

    /** hle_PollSema. */
    method PollSema(i: nat, k: nat, need: nat) returns (ok: bool)
      requires Valid() && i < records.Length && s.phase[i].Running? && k < counts.Length
      modifies this`s, counts
      ensures Valid() && Next(old(s), Poll(i, k, need)) == Some(s) && OnlyCount(k)
      ensures ok == (old(counts[k]) >= 1 && old(counts[k]) >= need)
      ensures counts[k] == old(counts[k]) - if !ok then 0 else if need == 0 then 1 else need
    {
      var n := if need < 1 then 1 else need;
      ok := counts[k] >= n;
      if ok { counts[k] := counts[k] - n; }
      s := Next(s, Poll(i, k, need)).value;
      forall j: nat | j < records.Length ensures RecordOf(j) { assert old(RecordOf(j)); }
    }
  }
}

/** psp_recomp_register against psp_dispatch: the table the generated registrations build resolves every
    address the way a dispatched transfer is taken to. */
module Registration {
  import opened Options
  import opened Allegrex
  import opened Emitter
  import opened Layout
  import opened Recompiled
  import D = Dispatch

  /** A registered C function: the body it runs and the address it asks for. */
  type Thunkee = (nat, nat)

  /** The generated registrations: every entry, then every interior label that got a thunk. */
  function RegisterLog(m: Module, order: seq<nat>, thunks: seq<nat>): seq<D.Reg<Thunkee>>
  {
    seq(|order|, i requires 0 <= i < |order| => D.Entry(order[i], (order[i], order[i]))) +
    seq(|thunks|, i requires 0 <= i < |thunks| =>
      D.Interior(thunks[i], (if thunks[i] in m.owner then m.owner[thunks[i]] else 0, thunks[i])))
  }

  lemma {:induction false} ThunkListIs(m: Module, f: nat, end: nat, a: nat, x: nat)
    requires a % 4 == 0 && x % 4 == 0
    ensures x in ThunkList(m, f, end, a) <==> a <= x < end && m.Owned(x, f) && Thunk(m, x)
    decreases end - a
  {
    if a < end { ThunkListIs(m, f, end, a + 4, x); }
  }

  ghost predicate Lists(m: Module, order: seq<nat>)
  {
    && (forall j :: 0 <= j < |order| ==> order[j] in m.funcs)
    && (forall f <- m.funcs :: f in order)
  }

  lemma {:induction false} AllThunksFrom(m: Module, order: seq<nat>, i: nat, x: nat)
    requires Laid(m) && Lists(m, order) && i <= |order|
    ensures x in AllThunks(m, order, i) <==> Thunk(m, x) && m.owner[x] in order[i..]
    decreases |order| - i
  {
    if i < |order| {
      AllThunksFrom(m, order, i + 1, x);
      assert order[i..] == [order[i]] + order[i + 1..];
      var f := order[i];
      if x % 4 == 0 {
        ThunkListIs(m, f, m.funcs[f].end, m.funcs[f].start, x);
      } else {
        Misaligned(m, f, m.funcs[f].end, m.funcs[f].start, x);
      }
    }
  }

  lemma {:induction false} Misaligned(m: Module, f: nat, end: nat, a: nat, x: nat)
    requires a % 4 == 0 && x % 4 != 0
    ensures x !in ThunkList(m, f, end, a)
    decreases end - a
  {
    if a < end { Misaligned(m, f, end, a + 4, x); }
  }

  lemma {:induction false} NoEntry<F>(log: seq<D.Reg<F>>, a: nat)
    requires forall r <- log :: !(r.Entry? && r.addr == a)
    ensures D.LastEntry(log, a) == None
  {
    if log != [] { NoEntry(log[..|log| - 1], a); }
  }

  lemma {:induction false} OnlyEntry<F>(log: seq<D.Reg<F>>, a: nat, fn: F, i: nat)
    requires i < |log| && log[i] == D.Entry(a, fn)
    requires forall r <- log :: r.Entry? && r.addr == a ==> r.fn == fn
    ensures D.LastEntry(log, a) == Some(fn)
  {
    if i < |log| - 1 {
      OnlyEntry(log[..|log| - 1], a, fn, i);
    }
  }

  lemma {:induction false} OnlyInterior<F>(log: seq<D.Reg<F>>, a: nat, fn: F)
    requires D.Interior(a, fn) in log
    requires forall r <- log :: r.Interior? && r.addr == a ==> r.fn == fn
    ensures D.FirstInterior(log, a) == Some(fn)
  {
    if log[0] != D.Interior(a, fn) { OnlyInterior(log[1..], a, fn); }
  }

  lemma {:induction false} NoInterior<F>(log: seq<D.Reg<F>>, a: nat)
    requires forall r <- log :: !(r.Interior? && r.addr == a)
    ensures D.FirstInterior(log, a) == None
  {
    if log != [] { NoInterior(log[1..], a); }
  }

  /** What a lookup finds after the generated registrations. */
  lemma LookupResolves(m: Module, order: seq<nat>, a: nat)
    requires Laid(m) && Lists(m, order)
    ensures D.Outcome(RegisterLog(m, order, AllThunks(m, order, 0)), a) ==
            if a in m.funcs then Some((a, a))
            else if Thunk(m, a) then Some((m.owner[a], a))
            else None
  {
    var thunks := AllThunks(m, order, 0);
    var log := RegisterLog(m, order, thunks);
    AllThunksFrom(m, order, 0, a);
    if a in m.funcs {
      var i :| 0 <= i < |order| && order[i] == a;
      OnlyEntry(log, a, (a, a), i);
    } else {
      NoEntry(log, a);
      if Thunk(m, a) {
        var i :| 0 <= i < |thunks| && thunks[i] == a;
        assert log[|order| + i] == D.Interior(a, (m.owner[a], a));
        OnlyInterior(log, a, (m.owner[a], a));
      } else {
        NoInterior(log, a);
      }
    }
  }

  /** A computed transfer can reach what the code names: unless it is a delay slot, the target of a branch, j or jal
      and the return site of a call, within the body, are found: under their own body, or as a function. */
  lemma NamedIsFound(m: Module, order: seq<nat>, b: nat, x: nat)
    requires Laid(m) && Lists(m, order) && b in m.owner && m.Owned(x, m.owner[b]) && !IsSlot(m, x)
    requires
      || ((m.At(b).Branch? || m.At(b).J? || m.At(b).Jal?) && m.At(b).target == x)
      || ((m.At(b).Jal? || m.At(b).Jalr? || (m.At(b).Branch? && m.At(b).linking)) && x == b + 8)
    ensures D.Outcome(RegisterLog(m, order, AllThunks(m, order, 0)), x) ==
            Some(if x in m.funcs then (x, x) else (m.owner[b], x))
  {
    hide Laid, Lists, D.Outcome, RegisterLog, AllThunks, IsSlot;
    LookupResolves(m, order, x);
    if x !in m.funcs {
      assert Names(m, b, x);
      assert Named(m, x);
    }
  }

  /** A dispatched transfer goes exactly where the table sends it. */
  lemma DispatchFollowsTable(m: Module, order: seq<nat>, h: Config, k: seq<Stmt>, a: nat)
    requires Laid(m) && Lists(m, order)
    ensures
      var found := D.Outcome(RegisterLog(m, order, AllThunks(m, order, 0)), a);
      Dispatched(m, h, k, a) ==
        if found.Some? && found.value.0 in m.funcs then Enter(m, h, k, found.value.0, found.value.1)
        else Missed(a, h.cpu)
  {
    LookupResolves(m, order, a);
  }
}

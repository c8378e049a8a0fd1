/** dispatch.c: the open-addressed address-to-function table. */
module Dispatch {
  import opened Options

  /** One registration: psp_register or psp_register_label. */
  datatype Reg<F> = Entry(addr: nat, fn: F) | Interior(addr: nat, fn: F)

  // ---- what a log of registrations means

  function LastEntry<F>(log: seq<Reg<F>>, a: nat): Option<F>
  {
    if log == [] then None
    else
      var r := log[|log| - 1];
      if r.Entry? && r.addr == a then Some(r.fn) else LastEntry(log[..|log| - 1], a)
  }

  function FirstInterior<F>(log: seq<Reg<F>>, a: nat): Option<F>
  {
    if log == [] then None
    else if log[0].Interior? && log[0].addr == a then Some(log[0].fn)
    else FirstInterior(log[1..], a)
  }

  /** The last registered entry if there is one, else the first label, else nothing. */
  function Outcome<F>(log: seq<Reg<F>>, a: nat): Option<F>
  {
    var e := LastEntry(log, a);
    if e.Some? then e else FirstInterior(log, a)
  }

  lemma {:induction false} FirstInteriorAppend<F>(log: seq<Reg<F>>, r: Reg<F>, a: nat)
    ensures FirstInterior(log + [r], a) ==
            if FirstInterior(log, a).Some? then FirstInterior(log, a)
            else if r.Interior? && r.addr == a then Some(r.fn) else None
  {
    if log != [] {
      assert (log + [r])[1..] == log[1..] + [r];
      FirstInteriorAppend(log[1..], r, a);
    }
  }

  /** An entry replaces what was there; a label is taken only where nothing is. */
  lemma OutcomeAppend<F>(log: seq<Reg<F>>, r: Reg<F>, a: nat)
    ensures Outcome(log + [r], a) ==
            if r.addr != a then Outcome(log, a)
            else if r.Entry? || Outcome(log, a).None? then Some(r.fn)
            else Outcome(log, a)
  {
    assert (log + [r])[..|log|] == log;
    FirstInteriorAppend(log, r, a);
  }

  // ---- the probe order

  datatype Cell<F> = Free | Used(addr: nat, fn: F)

  /** Knuth's multiplicative hash in 32 bits, masked to a power-of-two capacity. */
  function Hash(a: nat, cap: nat): (j: nat)
    requires cap > 0
    ensures j < cap
  {
    ((a / 4 * 2654435761) % 0x1_0000_0000) % cap
  }

  /** The d-th slot probed from h. */
  function Probe(h: nat, d: nat, cap: nat): (j: nat)
    requires h < cap && d < cap
    ensures j < cap
  {
    if h + d < cap then h + d else h + d - cap
  }

  /** How many probes from h before slot j. */
  function Distance(h: nat, j: nat, cap: nat): (d: nat)
    requires h < cap && j < cap
    ensures d < cap && Probe(h, d, cap) == j
  {
    if h <= j then j - h else j + cap - h
  }

  lemma ProbeNext(h: nat, d: nat, cap: nat)
    requires h < cap && d + 1 < cap
    ensures Probe(h, d + 1, cap) == (Probe(h, d, cap) + 1) % cap
  {
  }

  /** Every slot probed before slot j on the way from a's home is in use, by other addresses. */
  ghost predicate Reached<F>(s: seq<Cell<F>>, a: nat, j: nat)
    requires j < |s|
  {
    var h := Hash(a, |s|);
    forall i :: 0 <= i < Distance(h, j, |s|) ==> s[Probe(h, i, |s|)].Used? && s[Probe(h, i, |s|)].addr != a
  }

  /** Each used slot is reached from its home; hence each address is in one slot only. */
  ghost predicate Probed<F>(s: seq<Cell<F>>)
  {
    forall j :: 0 <= j < |s| && s[j].Used? ==> Reached(s, s[j].addr, j)
  }

  lemma OneSlotEach<F>(s: seq<Cell<F>>, a: nat, i: nat, j: nat)
    requires i < |s| && j < |s| && Reached(s, a, i) && Reached(s, a, j)
    requires s[i] == Free || s[i].addr == a
    requires s[j] == Free || s[j].addr == a
    ensures i == j
  {
    var h := Hash(a, |s|);
    assert Probe(h, Distance(h, i, |s|), |s|) == i && Probe(h, Distance(h, j, |s|), |s|) == j;
  }

  function Load<F>(s: seq<Cell<F>>): (n: nat)
    ensures n <= |s|
    ensures n < |s| ==> Free in s
  {
    if s == [] then 0 else Load(s[..|s| - 1]) + if s[|s| - 1].Used? then 1 else 0
  }

  lemma {:induction false} LoadUpdate<F>(s: seq<Cell<F>>, j: nat, c: Cell<F>)
    requires j < |s| && c.Used?
    ensures Load(s[j := c]) == Load(s) + if s[j].Used? then 0 else 1
  {
    var n := |s| - 1;
    if j == n {
      assert s[j := c][..n] == s[..n];
    } else {
      assert s[j := c][..n] == s[..n][j := c];
      LoadUpdate(s[..n], j, c);
    }
  }

  /** The address is held with the function. */
  ghost predicate Holds<F>(s: seq<Cell<F>>, a: nat, fn: F)
  {
    Used(a, fn) in s
  }

  /** Filling the free slot an address was probed to keeps every probe path. */
  lemma Fill<F>(s: seq<Cell<F>>, j: nat, a: nat, fn: F)
    requires Probed(s) && j < |s| && s[j] == Free && Reached(s, a, j)
    ensures var s' := s[j := Used(a, fn)];
      && Probed(s') && Load(s') == Load(s) + 1
      && forall b, g :: Holds(s', b, g) <==> Holds(s, b, g) || (b == a && g == fn)
  {
    var s' := s[j := Used(a, fn)];
    LoadUpdate(s, j, Used(a, fn));
    forall b, g
      ensures Holds(s', b, g) <==> Holds(s, b, g) || (b == a && g == fn)
    {
      if Holds(s, b, g) {
        var i :| 0 <= i < |s| && s[i] == Used(b, g);
        assert s'[i] == Used(b, g);
      }
      assert s'[j] == Used(a, fn);
    }
    forall k | 0 <= k < |s'| && s'[k].Used?
      ensures Reached(s', s'[k].addr, k)
    {
      FillReached(s, j, a, fn, k);
    }
  }

  lemma FillReached<F>(s: seq<Cell<F>>, j: nat, a: nat, fn: F, k: nat)
    requires Probed(s) && j < |s| && s[j] == Free && Reached(s, a, j)
    requires k < |s| && (k == j || s[k].Used?)
    ensures Reached(s[j := Used(a, fn)], s[j := Used(a, fn)][k].addr, k)
  {
    if k != j && s[k].addr == a { OneSlotEach(s, a, j, k); }
  }

  /** Overwriting an address's own slot changes only what that address holds. */
  lemma Overwrite<F>(s: seq<Cell<F>>, j: nat, a: nat, fn: F)
    requires Probed(s) && j < |s| && s[j].Used? && s[j].addr == a
    ensures var s' := s[j := Used(a, fn)];
      && Probed(s') && Load(s') == Load(s)
      && forall b, g :: Holds(s', b, g) <==> if b == a then g == fn else Holds(s, b, g)
  {
    var s' := s[j := Used(a, fn)];
    LoadUpdate(s, j, Used(a, fn));
    forall b, g
      ensures Holds(s', b, g) <==> if b == a then g == fn else Holds(s, b, g)
    {
      assert s'[j] == Used(a, fn);
      if b == a && Holds(s', b, g) {
        var i :| 0 <= i < |s'| && s'[i] == Used(b, g);
        OneSlotEach(s, a, i, j);
      }
      if b != a && Holds(s, b, g) {
        var i :| 0 <= i < |s| && s[i] == Used(b, g);
        assert s'[i] == Used(b, g);
      }
    }
    forall k | 0 <= k < |s'| && s'[k].Used?
      ensures Reached(s', s'[k].addr, k)
    {
      assert Reached(s, s[k].addr, k);
    }
  }

  lemma {:induction false} EmptyTable<F>(s: seq<Cell<F>>)
    requires forall j :: 0 <= j < |s| ==> s[j] == Free
    ensures Probed(s) && Load(s) == 0
  {
    if s != [] { EmptyTable(s[..|s| - 1]); }
  }

  /** The walk that ends at a free slot has seen every slot the address could be in. */
  lemma NotHeld<F>(s: seq<Cell<F>>, a: nat, j: nat)
    requires Probed(s) && j < |s| && s[j] == Free && Reached(s, a, j)
    ensures forall fn :: !Holds(s, a, fn)
  {
    forall fn
      ensures !Holds(s, a, fn)
    {
      if Holds(s, a, fn) {
        var i :| 0 <= i < |s| && s[i] == Used(a, fn);
        OneSlotEach(s, a, i, j);
      }
    }
  }

  /** A table copied up to slot i does not hold slot i's address yet. */
  lemma NotYet<F>(s: seq<Cell<F>>, i: nat, t: seq<Cell<F>>, j: nat)
    requires Probed(s) && i < |s| && s[i].Used? && j < |t|
    requires forall a, fn :: Holds(t, a, fn) <==> Holds(s[..i], a, fn)
    requires t[j].Used? ==> t[j].addr == s[i].addr
    ensures t[j] == Free
  {
    if t[j].Used? {
      assert Holds(t, t[j].addr, t[j].fn);
      var k :| 0 <= k < i && s[..i][k] == Used(t[j].addr, t[j].fn);
      assert s[k] == s[..i][k];
      OneSlotEach(s, s[i].addr, k, i);
    }
  }

  /** Agreement with a log, address by address. */
  ghost predicate Agrees<F(!new)>(s: seq<Cell<F>>, log: seq<Reg<F>>)
  {
    forall a, fn :: Holds(s, a, fn) <==> Outcome(log, a) == Some(fn)
  }

  /** t holds what the first i cells of s hold. */
  ghost predicate Copied<F(!new)>(t: seq<Cell<F>>, s: seq<Cell<F>>, i: nat)
    requires i <= |s|
  {
    && Probed(t) && Load(t) == Load(s[..i])
    && forall a, fn :: Holds(t, a, fn) <==> Holds(s[..i], a, fn)
  }

  lemma CopiedNone<F(!new)>(t: seq<Cell<F>>, s: seq<Cell<F>>)
    requires forall j :: 0 <= j < |t| ==> t[j] == Free
    ensures Copied(t, s, 0)
  {
    EmptyTable(t);
  }

  lemma CopiedLoad<F(!new)>(t: seq<Cell<F>>, s: seq<Cell<F>>, i: nat)
    requires i <= |s| && Copied(t, s, i)
    ensures Load(t) <= i
  {
    assert Load(s[..i]) <= |s[..i]|;
  }

  lemma CopiedAll<F(!new)>(t: seq<Cell<F>>, s: seq<Cell<F>>, log: seq<Reg<F>>)
    requires Copied(t, s, |s|) && Agrees(s, log)
    ensures Probed(t) && Load(t) == Load(s) && Agrees(t, log)
  {
    assert s[..|s|] == s;
    forall a, fn
      ensures Holds(t, a, fn) <==> Outcome(log, a) == Some(fn)
    {
      assert Holds(t, a, fn) <==> Holds(s[..|s|], a, fn);
    }
  }

  class Table<F(0, !new)> {
    var cells: array<Cell<F>>      // g_table; no cells before the first registration
    var count: nat
    ghost var log: seq<Reg<F>>

    ghost predicate Valid()
      reads this, cells
    {
      && Probed(cells[..]) && count == Load(cells[..])
      && (cells.Length > 0 ==> 4 * count < 3 * cells.Length)
      && Agrees(cells[..], log)
    }

    constructor ()
      ensures Valid() && log == [] && fresh(cells)
    {
      cells := new Cell<F>[0];
      count := 0;
      log := [];
      new;
      assert cells[..] == [];
    }

    /** Walk the probe order from the home of `addr` to its own slot or the first free one. Load below one
        keeps a free slot ahead, so the walk ends. */
    static method Find(s: array<Cell<F>>, addr: nat) returns (j: nat)
      requires 0 < s.Length && Probed(s[..]) && Load(s[..]) < s.Length
      ensures j < s.Length && Reached(s[..], addr, j)
      ensures s[j].Used? ==> s[j].addr == addr
    {
      hide Hash, Probed, Load;
      var h := Hash(addr, s.Length);
      assert Free in s[..];
      ghost var u :| 0 <= u < s.Length && s[u] == Free;
      ghost var d := 0;
      j := h;
      while s[j].Used? && s[j].addr != addr
        invariant 0 <= d <= Distance(h, u, s.Length) && j == Probe(h, d, s.Length)
        invariant forall i :: 0 <= i < d ==> s[Probe(h, i, s.Length)].Used? && s[Probe(h, i, s.Length)].addr != addr
        decreases s.Length - d
      {
        assert d != Distance(h, u, s.Length);
        ProbeNext(h, d, s.Length);
        j := (j + 1) % s.Length;
        d := d + 1;
      }
      assert Distance(h, j, s.Length) == d;
    }

    /** One step of growing: the i-th cell goes where its address probes to. */
    static method Reinsert(bigger: array<Cell<F>>, s: seq<Cell<F>>, i: nat)
      requires Probed(s) && i < |s| < bigger.Length && Copied(bigger[..], s, i)
      modifies bigger
      ensures Copied(bigger[..], s, i + 1)
    {
      CopiedLoad(bigger[..], s, i);
      assert s[..i + 1] == s[..i] + [s[i]];
      assert s[..i + 1][..i] == s[..i];
      if s[i].Used? {
        var j := Find(bigger, s[i].addr);
        NotYet(s, i, bigger[..], j);
        Fill(bigger[..], j, s[i].addr, s[i].fn);
        ghost var before := bigger[..];
        bigger[j] := s[i];
        assert bigger[..] == before[j := s[i]];
      }
    }

    /** Double the table, or make the first one, and insert every used cell again. */
    method Grow()
      requires Valid()
      modifies this
      ensures Valid() && log == old(log) && count == old(count)
      ensures fresh(cells) && cells.Length == if old(cells.Length) == 0 then 4096 else 2 * old(cells.Length)
    {
      var cap := if cells.Length == 0 then 4096 else 2 * cells.Length;
      var bigger := new Cell<F>[cap](_ => Free);
      CopiedNone(bigger[..], cells[..]);
      hide Copied, Probed, Load, Agrees;
      var i := 0;
      while i < cells.Length
        invariant 0 <= i <= cells.Length && Copied(bigger[..], cells[..], i)
        modifies bigger
      {
        Reinsert(bigger, cells[..], i);
        i := i + 1;
      }
      CopiedAll(bigger[..], cells[..], log);
      cells := bigger;
    }

    /** Write the slot `Find` gave: fill it, or overwrite its own address. */
    method Take(j: nat, r: Reg<F>)
      requires Valid() && j < cells.Length && Reached(cells[..], r.addr, j)
      requires cells[j].Used? ==> cells[j].addr == r.addr && r.Entry?
      requires (count + 1) * 4 < cells.Length * 3
      modifies this`count, this`log, cells
      ensures Valid() && log == old(log) + [r]
    {
      ghost var before := cells[..];
      if cells[j].Used? {
        Overwrite(before, j, r.addr, r.fn);
      } else {
        Fill(before, j, r.addr, r.fn);
        NotHeld(before, r.addr, j);
        count := count + 1;
      }
      if Outcome(log, r.addr).Some? { assert Holds(before, r.addr, Outcome(log, r.addr).value); }
      cells[j] := Used(r.addr, r.fn);
      assert cells[..] == before[j := Used(r.addr, r.fn)];
      forall a { OutcomeAppend(log, r, a); }
      log := log + [r];
    }

    /** psp_register: a later entry replaces whatever holds the address. */
    method Register(addr: nat, fn: F)
      requires Valid()
      modifies this, cells
      ensures Valid() && log == old(log) + [Entry(addr, fn)]
    {
      if cells.Length == 0 || (count + 1) * 4 >= cells.Length * 3 { Grow(); }
      var j := Find(cells, addr);
      Take(j, Entry(addr, fn));
    }

    /** psp_register_label: an address already held is left alone. */
    method RegisterLabel(addr: nat, fn: F)
      requires Valid()
      modifies this, cells
      ensures Valid() && log == old(log) + [Interior(addr, fn)]
    {
      if cells.Length == 0 || (count + 1) * 4 >= cells.Length * 3 { Grow(); }
      var j := Find(cells, addr);
      if cells[j].Used? {
        assert Holds(cells[..], addr, cells[j].fn);
        forall a { OutcomeAppend(log, Interior(addr, fn), a); }
        log := log + [Interior(addr, fn)];
      } else {
        Take(j, Interior(addr, fn));
      }
    }

    /** psp_lookup. */
    method Lookup(addr: nat) returns (r: Option<F>)
      requires Valid()
      ensures r == Outcome(log, addr)
    {
      if cells.Length == 0 {
        r := None;
        assert Outcome(log, addr).Some? ==> Holds(cells[..], addr, Outcome(log, addr).value);
      } else {
        var j := Find(cells, addr);
        if cells[j].Used? {
          r := Some(cells[j].fn);
          assert Holds(cells[..], addr, cells[j].fn);
        } else {
          r := None;
          NotHeld(cells[..], addr, j);
          assert Outcome(log, addr).Some? ==> Holds(cells[..], addr, Outcome(log, addr).value);
        }
      }
    }
  }
}

/** What discovery hands to the emitter (analyze.c, emit.c). */
module Handover {
  import opened Allegrex
  import opened Discovery
  import L = Layout

  function FuncMap(funcs: seq<Span>): map<nat, Func> {
    if funcs == [] then map[] else
      var f := funcs[|funcs| - 1];
      FuncMap(funcs[..|funcs| - 1])[f.addr := Func(f.start, f.end)]
  }

  lemma {:induction false} FuncMapHolds(funcs: seq<Span>)
    requires Distinct(funcs)
    ensures forall e {:trigger e in FuncMap(funcs)} :: e in FuncMap(funcs) <==> Listed(funcs, e)
    ensures forall i: nat :: i < |funcs| ==>
      (funcs[i].addr in FuncMap(funcs) && FuncMap(funcs)[funcs[i].addr] == Func(funcs[i].start, funcs[i].end))
  {
    if funcs != [] {
      var init, f := funcs[..|funcs| - 1], funcs[|funcs| - 1];
      FuncMapHolds(init);
      assert init + [f] == funcs;
      forall e ensures e in FuncMap(funcs) <==> Listed(funcs, e) {
        ListGrows(init, f, e);
        if Listed(funcs, e) && e != f.addr {
          var i: nat :| i < |funcs| && funcs[i].addr == e;
          assert init[i].addr == e;
        }
      }
    }
  }

  /** The module the emitter works on: the owned words decoded (an invalid one as a word with no transfer), their
      owners, the functions' ranges. */
  function ModuleOf(img: Image, w: Walked, funcs: seq<Span>): Module {
    Module(map a | a in w.own :: if img.At(a).Valid? then img.At(a).insn else Plain(0), w.own, FuncMap(funcs),
           img.stubLo, img.stubSize)
  }

  lemma SpanOf(img: Image, w: Walked, funcs: seq<Span>, e: nat)
    requires InImage(img, w) && Partition(w, funcs, NO_OWNER) && Listed(funcs, e)
    ensures e in FuncMap(funcs) && e in w.own && w.own[e] == e
    ensures FuncMap(funcs)[e].start % 4 == 0 && FuncMap(funcs)[e].end % 4 == 0
    ensures forall a {:trigger a in w.own} :: a in w.own && w.own[a] == e ==>
      FuncMap(funcs)[e].start <= a < FuncMap(funcs)[e].end
  {
    hide OwnedBy, Total, FuncMap, Distinct;
    FuncMapHolds(funcs);
    var i: nat :| i < |funcs| && funcs[i].addr == e;
    assert Fair(w, funcs[i]);
    assert img.Has(funcs[i].start) && img.Has(funcs[i].end - 4);
  }

  /** A finished discovery gives the emitter a layout it can work with (owned words decoded, aligned and inside their
      owner's range, functions owning their entries) exactly if no walked word is an import stub. */
  lemma DiscoveredIsLaid(img: Image, w: Walked, funcs: seq<Span>, imports: seq<nat>, cross: seq<nat>)
    requires img.Sane() && Between(img, w, funcs, imports, cross, {})
    ensures L.Laid(ModuleOf(img, w, funcs)) <==> NoStubWalked(img, w)
  {
    hide ModuleOf, NoStubWalked, Between;
    WordsLaid(img, w, funcs, imports, cross);
    FuncsLaid(img, w, funcs, imports, cross);
    ModuleImports(img, w, funcs);
  }

  lemma WordsLaid(img: Image, w: Walked, funcs: seq<Span>, imports: seq<nat>, cross: seq<nat>)
    requires img.Sane() && Between(img, w, funcs, imports, cross, {})
    ensures
      var m := ModuleOf(img, w, funcs);
      && m.owner.Keys <= m.code.Keys
      && (forall a <- m.owner ::
            m.owner[a] in m.funcs && a % 4 == 0 && m.funcs[m.owner[a]].start <= a < m.funcs[m.owner[a]].end)
  {
    hide OwnedBy, Closed, Joined, Imported, Partition, FuncMap, Listed;
    DoneIsComplete(img, w, funcs, imports, cross);
    forall a | a in w.own
      ensures w.own[a] in FuncMap(funcs) && a % 4 == 0
      ensures FuncMap(funcs)[w.own[a]].start <= a < FuncMap(funcs)[w.own[a]].end
    {
      SpanOf(img, w, funcs, w.own[a]);
      assert img.Has(a);
    }
  }

  lemma FuncsLaid(img: Image, w: Walked, funcs: seq<Span>, imports: seq<nat>, cross: seq<nat>)
    requires img.Sane() && Between(img, w, funcs, imports, cross, {})
    ensures
      var m := ModuleOf(img, w, funcs);
      forall e <- m.funcs :: m.Owned(e, e) && m.funcs[e].start % 4 == 0 && m.funcs[e].end % 4 == 0
  {
    hide OwnedBy, Closed, Joined, Imported, Partition, FuncMap, Listed;
    DistinctFuncs(w, funcs);
    FuncMapHolds(funcs);
    forall e | e in FuncMap(funcs)
      ensures e in w.own && w.own[e] == e && FuncMap(funcs)[e].start % 4 == 0 && FuncMap(funcs)[e].end % 4 == 0
    {
      SpanOf(img, w, funcs, e);
    }
  }

  lemma ModuleImports(img: Image, w: Walked, funcs: seq<Span>)
    ensures
      var m := ModuleOf(img, w, funcs);
      NoStubWalked(img, w) <==> forall a {:trigger a in m.owner} :: a in m.owner ==> !m.Import(a)
  {
    hide FuncMap;
    var m := ModuleOf(img, w, funcs);
    assert m.owner == w.own && forall a {:trigger m.Import(a)} :: m.Import(a) == img.Import(a);
  }

  ghost predicate NoStubWalked(img: Image, w: Walked) {
    forall a {:trigger a in w.own} :: a in w.own ==> !img.Import(a)
  }

  /** Stubs outside the image are never walked. */
  lemma StubsOutside(img: Image, w: Walked)
    requires InImage(img, w) && forall a :: img.Has(a) ==> !img.Import(a)
    ensures NoStubWalked(img, w)
  {
  }

  lemma DistinctFuncs(w: Walked, funcs: seq<Span>)
    requires Partition(w, funcs, NO_OWNER)
    ensures Distinct(funcs)
  {
  }

  // ---- where the jumps of a settled walk lead

  /** A jump or branch inside the image stays in its body or has a function to go to. */
  ghost predicate JumpsFound(img: Image, w: Walked, funcs: seq<Span>) {
    var m := ModuleOf(img, w, funcs);
    forall a, x :: a in w.main && x in Jumps(img, a) && img.Has(x) ==>
      a in w.own && (m.Owned(x, w.own[a]) || x in m.funcs)
  }

  /** Its target is the same body's, or owns itself. */
  ghost predicate TargetsOwn(img: Image, w: Walked) {
    forall a, x :: a in w.main && x in Jumps(img, a) && img.Has(x) ==>
      a in w.own && x in w.own && (w.own[x] == w.own[a] || w.own[x] == x)
  }

  /** No jump of the emitted module is dispatched into nothing exactly if every target outside its body owns itself. */
  lemma JumpsFoundExactly(img: Image, w: Walked, funcs: seq<Span>, imports: seq<nat>)
    requires Between(img, w, funcs, imports, [], {})
    ensures JumpsFound(img, w, funcs) <==> TargetsOwn(img, w)
  {
    hide Between, Jumps, FuncMap;
    DoneIsSettled(img, w, funcs, imports);
    FuncsOwn(img, w, funcs, imports, []);
  }

  lemma FuncsOwn(img: Image, w: Walked, funcs: seq<Span>, imports: seq<nat>, cross: seq<nat>)
    requires Between(img, w, funcs, imports, cross, {})
    ensures forall x {:trigger x in FuncMap(funcs)} :: x in FuncMap(funcs) <==> x in w.own && w.own[x] == x
  {
    hide Closed, Joined, Imported, OwnedBy, FuncMap, Partition;
    DistinctFuncs(w, funcs);
    FuncMapHolds(funcs);
    forall x ensures x in FuncMap(funcs) <==> x in w.own && w.own[x] == x {
      ListedOwnsItself(w, funcs, x);
    }
  }

  /** It is so when every entry owns itself. */
  lemma EntriesOwn(img: Image, w: Walked, funcs: seq<Span>, imports: seq<nat>)
    requires Between(img, w, funcs, imports, [], {})
    requires forall x {:trigger x in w.entries} :: x in w.entries ==> x in w.own && w.own[x] == x
    ensures JumpsFound(img, w, funcs)
  {
    hide Between, Jumps;
    DoneIsSettled(img, w, funcs, imports);
    JumpsFoundExactly(img, w, funcs, imports);
  }

  /** The module has the delay slot of every walked transfer whose slot is in the image. */
  lemma SlotsDecoded(img: Image, w: Walked, funcs: seq<Span>, imports: seq<nat>, cross: seq<nat>, a: nat)
    requires Between(img, w, funcs, imports, cross, {})
    requires a in w.main && img.At(a).Valid? && img.At(a).insn.HasDelaySlot() && img.Has(a + 4)
    ensures var m := ModuleOf(img, w, funcs); m.At(a) == img.At(a).insn && a + 4 in m.owner && a + 4 in m.code
  {
    hide Partition, Joined, Imported;
    DoneIsComplete(img, w, funcs, imports, cross);
    assert a + 4 in Follows(img, a);
  }

  /** The machine runs only walked words: from a word walked outside a slot, a transfer and its slot, or an ordinary
      instruction, lead to a walked word, whatever the state and whichever way a branch goes, unless they leave the
      image or enter a stub. Computed transfers are nobody's to follow; a call comes back to a walked word too. */
  lemma MachineStaysWalked(isa: Isa, img: Image, w: Walked, funcs: seq<Span>, g: Guest)
    requires Complete(img, w) && InImage(img, w) && NoStubWalked(img, w) && L.PlainSlots(ModuleOf(img, w, funcs))
    requires g.pc in w.main && g.npc == g.pc + 4 && img.At(g.pc).Valid? && img.Has(g.pc + 4)
    ensures
      var m, insn := ModuleOf(img, w, funcs), img.At(g.pc).insn;
      var once := insn.Plain? || (insn.Branch? && insn.likely && !Holds(insn.cond, g.cpu));
      var pc := Run(isa, m, g, if once then 1 else 2).pc;
      && (!insn.Jr? && !insn.Jalr? && img.Has(pc) && !img.Import(pc) ==> pc in w.own)
      && (insn.IsCall() && img.Has(g.pc + 8) ==> g.pc + 8 in w.own)
  {
    var m, insn := ModuleOf(img, w, funcs), img.At(g.pc).insn;
    assert g.pc + 4 in Follows(img, g.pc);
    var g1 := Step(isa, m, g);
    assert Run(isa, m, g, 1) == Run(isa, m, g1, 0) == g1;
    assert Run(isa, m, g, 2) == Run(isa, m, g1, 1) == Step(isa, m, g1);
  }
}

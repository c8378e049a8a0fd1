/** Function discovery: what a walk owes and keeps (analyze.c). */
module Discovery {
  import opened Allegrex

  /** A decoded word. */
  datatype Word = Invalid | Valid(insn: Insn)

  /** The image walked: `words` words from an aligned base, and the import stubs. */
  datatype Image = Image(base: nat, words: nat, decode: nat -> Word, stubLo: nat, stubSize: nat)
  {
    /** Aligned, and addresses up to two words past the end do not wrap. */
    predicate Sane() { base % 4 == 0 && base + 4 * words + 8 <= 0x1_0000_0000 }

    /** a_in_range. */
    predicate Has(a: nat) { base <= a < base + 4 * words && a % 4 == 0 }

    /** is_import_stub. */
    predicate Import(a: nat) { stubSize != 0 && stubLo <= a < stubLo + stubSize }

    function At(a: nat): Word { decode(a) }
  }

  const NO_OWNER := 0xFFFF_FFFF

  /** The target a word names itself: branches, j and jal, the get-PC form included. */
  predicate HasTarget(i: Insn) { i.Branch? || i.J? || i.Jal? }

  function TargetOf(i: Insn): nat
    requires HasTarget(i)
  {
    i.target
  }

  predicate Returns(i: Insn) { i.Jr? && i.rs == RA }

  /** Addresses control can go to from the word at `a` without leaving for a computed address. */
  function Follows(img: Image, a: nat): set<nat> {
    match img.At(a)
    case Invalid => {}
    case Valid(i) =>
      if i.Plain? then {a + 4}
      else if i.IsCall() then
        {a + 4, a + 8} + (if HasTarget(i) && !i.IsGetPc(a) && !img.Import(TargetOf(i)) then {TargetOf(i)} else {})
      else if i.Branch? then {a + 4, a + 8, i.target}
      else if i.J? then {a + 4, i.target}
      else {a + 4}
  }

  /** Targets of transfers that stay in the body if they can. */
  function Jumps(img: Image, a: nat): set<nat> {
    match img.At(a)
    case Invalid => {}
    case Valid(i) => if (i.Branch? && !i.linking) || i.J? then {i.target} else {}
  }

  /** Import stubs a word names. */
  function Stubs(img: Image, a: nat): set<nat> {
    match img.At(a)
    case Invalid => {}
    case Valid(i) => if HasTarget(i) && img.Import(TargetOf(i)) then {TargetOf(i)} else {}
  }

  // ---- the state of a walk

  /** What `seen` records of a word: decoded as an instruction, taken up as an entry. */
  datatype Mark = Mark(code: bool, entry: bool)

  /** Who owns each walked word, which words were walked outside a slot, the entry map, the entries taken up, and the
      entry map as it was when this walk began. */
  datatype Walked =
    Walked(own: map<nat, nat>, main: set<nat>, entries: set<nat>, started: set<nat>, begun: set<nat>)

  datatype Span = Span(addr: nat, start: nat, end: nat, insns: nat)

  function OwnedBy(own: map<nat, nat>, e: nat): set<nat> { set a | a in own && own[a] == e }

  function Total(funcs: seq<Span>): nat {
    if funcs == [] then 0 else Total(funcs[..|funcs| - 1]) + funcs[|funcs| - 1].insns
  }

  predicate Listed(funcs: seq<Span>, e: nat) { exists i: nat :: i < |funcs| && funcs[i].addr == e }

  ghost predicate InImage(img: Image, w: Walked) {
    && (forall a {:trigger a in w.own} :: a in w.own ==> img.Has(a))
    && (forall a {:trigger a in w.entries} :: a in w.entries ==> img.Has(a))
    && (forall a {:trigger a in w.started} :: a in w.started ==> img.Has(a))
    && w.main <= w.own.Keys
  }

  /** An entry known when the walk began is walked, outside a slot, only as the start of its own function. */
  ghost predicate Early(w: Walked) {
    w.begun <= w.entries && forall a {:trigger a in w.begun} :: a in w.begun && a in w.main ==>
      a in w.own && w.own[a] == a
  }

  /** A function's words lie in its range, whose ends are walked words; its entry is its own and its count is right. */
  ghost predicate Fair(w: Walked, f: Span) {
    && f.addr in w.own && w.own[f.addr] == f.addr && f.addr in w.started
    && (forall a {:trigger a in w.own} :: a in w.own && w.own[a] == f.addr ==> f.start <= a < f.end)
    && f.start in w.own && f.end >= 4 && f.end - 4 in w.own
    && f.insns == |OwnedBy(w.own, f.addr)|
  }

  ghost predicate Distinct(funcs: seq<Span>) {
    forall i: nat, j: nat :: i < j < |funcs| ==> funcs[i].addr != funcs[j].addr
  }

  /** The partition: every walked word belongs to one listed function (or to the one being traced), and
      nothing is counted twice. */
  ghost predicate Partition(w: Walked, funcs: seq<Span>, cur: nat) {
    && Distinct(funcs)
    && (forall i: nat :: i < |funcs| ==> Fair(w, funcs[i]) && funcs[i].addr != cur)
    && (forall a {:trigger a in w.own} :: a in w.own ==> w.own[a] == cur || Listed(funcs, w.own[a]))
    && Total(funcs) + |OwnedBy(w.own, cur)| == |w.own|
  }

  /** Where a walk still has to go, `todo`, accounts for every address followed from a walked word. */
  ghost predicate Closed(img: Image, w: Walked, todo: set<nat>) {
    forall m, x :: m in w.main && x in Follows(img, m) && img.Has(x) ==> x in w.own || x in w.entries || x in todo
  }

  /** Every entry of the map has been taken up or is queued. */
  ghost predicate Queued(w: Walked, queue: set<nat>) { w.entries <= w.started + queue }

  /** A jump inside the image lands in the same body, on an entry, on an address noted for promotion, or on one
      this function is still going to walk. */
  ghost predicate Joined(img: Image, w: Walked, cross: seq<nat>, cur: nat, blocks: set<nat>) {
    forall m, x :: m in w.main && x in Jumps(img, m) && img.Has(x) ==> Joins(w, cross, cur, blocks, m, x)
  }

  ghost predicate Joins(w: Walked, cross: seq<nat>, cur: nat, blocks: set<nat>, m: nat, x: nat) {
    || (m in w.own && x in w.own && w.own[x] == w.own[m])
    || x in w.entries
    || x in cross
    || (x in blocks && m in w.own && w.own[m] == cur && x !in w.own)
  }

  ghost predicate Imported(img: Image, w: Walked, imports: seq<nat>) {
    && (forall m, x :: m in w.main && x in Stubs(img, m) ==> x in imports)
    && (forall i: nat :: i < |imports| ==> img.Import(imports[i]))
    && (forall i: nat, j: nat :: i < j < |imports| ==> imports[i] != imports[j])
  }

  function WordAt(img: Image, i: nat): nat { img.base + 4 * i }

  /** In range are exactly the image's words, and stubs are exactly the bytes of the stub region. */
  lemma HasIs(img: Image, a: nat)
    requires img.Sane()
    ensures img.Has(a) <==> exists i: nat :: i < img.words && a == WordAt(img, i)
    ensures img.Import(a) <==> 0 <= a - img.stubLo < img.stubSize
  {
    if img.Has(a) { assert a == WordAt(img, (a - img.base) / 4); }
  }

  /** There are no more walked words than words. */
  lemma {:induction false} AtMostWords(img: Image, s: set<nat>)
    requires img.base % 4 == 0 && forall a :: a in s ==> img.Has(a)
    ensures |s| <= img.words
    decreases img.words
  {
    if img.words == 0 {
      if a :| a in s { assert false; }
    } else {
      var last := img.base + 4 * (img.words - 1);
      AtMostWords(img.(words := img.words - 1), s - {last});
    }
  }

  // ---- each step of a walk keeps these

  /** Claiming a word for the function being traced, as an instruction or as a slot. */
  function Claimed(w: Walked, a: nat, cur: nat, slot: bool): Walked {
    w.(own := w.own[a := cur], main := if slot then w.main else w.main + {a})
  }

  lemma MoreKeys(own: map<nat, nat>, a: nat, cur: nat)
    requires a !in own
    ensures |own[a := cur]| == |own| + 1
  {
    assert own[a := cur].Keys == own.Keys + {a};
  }

  lemma OwnedByMore(own: map<nat, nat>, a: nat, cur: nat, e: nat)
    requires a !in own
    ensures OwnedBy(own[a := cur], e) == OwnedBy(own, e) + if e == cur then {a} else {}
  {
  }

  lemma OwnedByClaimed(own: map<nat, nat>, a: nat, cur: nat, e: nat)
    requires a !in own
    ensures |OwnedBy(own[a := cur], e)| == |OwnedBy(own, e)| + (if e == cur then 1 else 0)
    ensures |own[a := cur]| == |own| + 1
  {
    MoreKeys(own, a, cur);
    OwnedByMore(own, a, cur, e);
    assert a !in OwnedBy(own, e);
  }

  lemma ClaimKeepsPartition(w: Walked, funcs: seq<Span>, a: nat, cur: nat, slot: bool)
    requires Partition(w, funcs, cur) && a !in w.own
    ensures Partition(Claimed(w, a, cur, slot), funcs, cur)
  {
    hide OwnedBy, Distinct, Listed, Total;
    var w' := Claimed(w, a, cur, slot);
    OwnedByClaimed(w.own, a, cur, cur);
    forall i: nat | i < |funcs|
      ensures Fair(w', funcs[i]) && funcs[i].addr != cur
    {
      assert Fair(w, funcs[i]);
      OwnedByClaimed(w.own, a, cur, funcs[i].addr);
    }
  }

  /** More walked words, more entries and a grown list of places to go keep a walk closed, if the new words'
      followers are accounted for. */
  lemma GrowClosed(img: Image, w: Walked, todo: set<nat>, w': Walked, todo': set<nat>)
    requires Closed(img, w, todo) && w.own.Keys <= w'.own.Keys && w.entries <= w'.entries
    requires todo <= w'.own.Keys + w'.entries + todo'
    requires forall m, x :: m in w'.main - w.main && x in Follows(img, m) && img.Has(x) ==>
               x in w'.own || x in w'.entries || x in todo'
    ensures Closed(img, w', todo')
  {
    hide Follows;
    forall m, x | m in w'.main && x in Follows(img, m) && img.Has(x)
      ensures x in w'.own || x in w'.entries || x in todo'
    {
      if m in w.main {
        assert x in w.own || x in w.entries || x in todo;
      }
    }
  }

  lemma GrowJoined(img: Image, w: Walked, cross: seq<nat>, cur: nat, blocks: set<nat>,
                   w': Walked, cross': seq<nat>, blocks': set<nat>)
    requires Joined(img, w, cross, cur, blocks) && w.entries <= w'.entries
    requires forall a {:trigger a in w.own} :: a in w.own ==> a in w'.own && w'.own[a] == w.own[a]
    requires forall a {:trigger a in w'.own} :: a in w'.own && a !in w.own ==> w'.own[a] == cur
    requires forall x {:trigger x in cross} :: x in cross ==> x in cross'
    requires forall x {:trigger x in blocks} :: x in blocks && x !in w'.own && img.Has(x) ==>
             x in w'.entries || x in blocks'
    requires forall m, x :: m in w'.main - w.main && x in Jumps(img, m) && img.Has(x) ==>
             Joins(w', cross', cur, blocks', m, x)
    ensures Joined(img, w', cross', cur, blocks')
  {
    hide Jumps;
    forall m, x | m in w'.main && x in Jumps(img, m) && img.Has(x)
      ensures Joins(w', cross', cur, blocks', m, x)
    {
      if m in w.main {
        assert Joins(w, cross, cur, blocks, m, x);
      }
    }
  }

  /** Finishing a function: it joins the list. */
  lemma ListKeepsPartition(w: Walked, funcs: seq<Span>, f: Span, none: nat)
    requires Partition(w, funcs, f.addr) && Fair(w, f)
    requires none !in w.own.Values && none != f.addr && forall i: nat :: i < |funcs| ==> funcs[i].addr != none
    ensures Partition(w, funcs + [f], none)
  {
    hide OwnedBy, Fair, Listed;
    var more := funcs + [f];
    assert more[..|more| - 1] == funcs;
    Nobody(w.own, none);
    forall a | a in w.own
      ensures Listed(more, w.own[a])
    {
      ListGrows(funcs, f, w.own[a]);
    }
    assert forall i: nat :: i < |more| ==> Fair(w, more[i]);
    assert f.insns == |OwnedBy(w.own, f.addr)| by { FairCount(w, f); }
    assert |OwnedBy(w.own, none)| == 0;
  }

  lemma FairCount(w: Walked, f: Span)
    requires Fair(w, f)
    ensures f.insns == |OwnedBy(w.own, f.addr)|
  {
  }

  lemma ListGrows(funcs: seq<Span>, f: Span, e: nat)
    ensures Listed(funcs + [f], f.addr) && (Listed(funcs, e) ==> Listed(funcs + [f], e))
  {
    var more := funcs + [f];
    assert more[|funcs|].addr == f.addr;
    if Listed(funcs, e) {
      var i: nat :| i < |funcs| && funcs[i].addr == e;
      assert more[i].addr == e;
    }
  }

  lemma Nobody(own: map<nat, nat>, e: nat)
    requires e !in own.Values
    ensures OwnedBy(own, e) == {}
  {
    forall a | a in own
      ensures own[a] in own.Values
    {
    }
  }

  // ---- the middle of a trace

  /** Nothing is owned before the entry, and the entry is owned first. */
  ghost predicate EntryFirst(w: Walked, cur: nat, todo: set<nat>) {
    if OwnedBy(w.own, cur) == {} then todo <= {cur} && (cur in w.own || cur in todo)
    else cur in w.own && w.own[cur] == cur
  }

  /** What holds in the middle of tracing `cur`: `todo` holds the blocks put off and the cursor. */
  ghost predicate Midway(img: Image, w: Walked, funcs: seq<Span>, imports: seq<nat>, cross: seq<nat>,
                         cur: nat, queue: set<nat>, todo: set<nat>) {
    && InImage(img, w) && Early(w) && Partition(w, funcs, cur) && EntryFirst(w, cur, todo)
    && cur in w.started && w.started <= w.own.Keys + {cur} && Queued(w, queue)
    && Closed(img, w, queue + todo) && Joined(img, w, cross, cur, todo) && Imported(img, w, imports)
  }

  lemma MidClaim(img: Image, w: Walked, funcs: seq<Span>, imports: seq<nat>, cross: seq<nat>,
                 cur: nat, queue: set<nat>, todo: set<nat>, a: nat)
    requires Midway(img, w, funcs, imports, cross, cur, queue, todo)
    requires a !in w.own && img.Has(a) && (OwnedBy(w.own, cur) == {} ==> a == cur)
    ensures Midway(img, Claimed(w, a, cur, true), funcs, imports, cross, cur, queue, todo - {a})
  {
    hide Closed, Joined, Partition;
    var w' := Claimed(w, a, cur, true);
    ClaimKeepsPartition(w, funcs, a, cur, true);
    GrowClosed(img, w, queue + todo, w', queue + (todo - {a}));
    GrowJoined(img, w, cross, cur, todo, w', cross, todo - {a});
    assert a in OwnedBy(w'.own, cur);
    assert OwnedBy(w.own, cur) != {} ==> w.own[cur] == cur;
  }

  /** Places to go can be added once the entry is owned; a walked word, an entry or an address outside can go. */
  lemma MidRetarget(img: Image, w: Walked, funcs: seq<Span>, imports: seq<nat>, cross: seq<nat>,
                    cur: nat, queue: set<nat>, todo: set<nat>, todo': set<nat>)
    requires Midway(img, w, funcs, imports, cross, cur, queue, todo) && EntryFirst(w, cur, todo')
    requires forall x :: x in todo - todo' ==> x in w.own || x in w.entries || !img.Has(x)
    ensures Midway(img, w, funcs, imports, cross, cur, queue, todo')
  {
    hide Partition, OwnedBy, Imported, Follows, Jumps;
    forall m, x | m in w.main && x in Follows(img, m) && img.Has(x)
      ensures x in w.own || x in w.entries || x in queue + todo'
    {
      assert x in w.own || x in w.entries || x in queue + todo;
    }
    forall m, x | m in w.main && x in Jumps(img, m) && img.Has(x)
      ensures Joins(w, cross, cur, todo', m, x)
    {
      assert Joins(w, cross, cur, todo, m, x);
    }
  }

  lemma MidQueue(img: Image, w: Walked, funcs: seq<Span>, imports: seq<nat>, cross: seq<nat>,
                 cur: nat, queue: set<nat>, todo: set<nat>, x: nat)
    requires Midway(img, w, funcs, imports, cross, cur, queue, todo)
    ensures Midway(img, w, funcs, imports, cross, cur, queue + {x}, todo)
  {
    hide Closed, Joined, Partition, OwnedBy, Imported;
    GrowClosed(img, w, queue + todo, w, (queue + {x}) + todo);
  }

  lemma SamePartition(w: Walked, w': Walked, funcs: seq<Span>, cur: nat)
    requires Partition(w, funcs, cur) && w'.own == w.own && w.started <= w'.started
    ensures Partition(w', funcs, cur)
  {
    hide Distinct, OwnedBy, Listed, Total;
    forall i: nat | i < |funcs| ensures Fair(w', funcs[i]) { assert Fair(w, funcs[i]); }
  }

  /** A new entry, queued. */
  lemma MidEntry(img: Image, w: Walked, funcs: seq<Span>, imports: seq<nat>, cross: seq<nat>,
                 cur: nat, queue: set<nat>, todo: set<nat>, x: nat)
    requires Midway(img, w, funcs, imports, cross, cur, queue, todo) && img.Has(x)
    ensures Midway(img, w.(entries := w.entries + {x}), funcs, imports, cross, cur, queue + {x}, todo)
  {
    hide Closed, Joined, Partition, OwnedBy, Stubs;
    var w' := w.(entries := w.entries + {x});
    GrowClosed(img, w, queue + todo, w', (queue + {x}) + todo);
    GrowJoined(img, w, cross, cur, todo, w', cross, todo);
    SamePartition(w, w', funcs, cur);
  }

  lemma MidCross(img: Image, w: Walked, funcs: seq<Span>, imports: seq<nat>, cross: seq<nat>,
                 cur: nat, queue: set<nat>, todo: set<nat>, x: nat)
    requires Midway(img, w, funcs, imports, cross, cur, queue, todo)
    ensures Midway(img, w, funcs, imports, cross + [x], cur, queue, todo)
  {
    hide Closed, Joined, Partition, OwnedBy, Imported;
    GrowJoined(img, w, cross, cur, todo, w, cross + [x], todo);
  }

  lemma MidImport(img: Image, w: Walked, funcs: seq<Span>, imports: seq<nat>, cross: seq<nat>,
                  cur: nat, queue: set<nat>, todo: set<nat>, x: nat)
    requires Midway(img, w, funcs, imports, cross, cur, queue, todo) && img.Import(x) && x !in imports
    ensures Midway(img, w, funcs, imports + [x], cross, cur, queue, todo)
  {
    hide Closed, Joined, Partition, OwnedBy, Stubs;
  }

  /** An instruction counts as walked once everything it leads to is accounted for. */
  lemma MidMain(img: Image, w: Walked, funcs: seq<Span>, imports: seq<nat>, cross: seq<nat>,
                cur: nat, queue: set<nat>, todo: set<nat>, a: nat)
    requires Midway(img, w, funcs, imports, cross, cur, queue, todo) && a in w.own && w.own[a] == cur
    requires a in w.begun ==> a == cur
    requires forall x :: x in Follows(img, a) && img.Has(x) ==> x in w.own || x in w.entries || x in queue + todo
    requires forall x :: x in Jumps(img, a) && img.Has(x) ==> Joins(w, cross, cur, todo, a, x)
    requires forall x :: x in Stubs(img, a) ==> x in imports
    ensures Midway(img, w.(main := w.main + {a}), funcs, imports, cross, cur, queue, todo)
  {
    hide Closed, Joined, Partition, OwnedBy, Follows, Jumps, Stubs;
    var w' := w.(main := w.main + {a});
    GrowClosed(img, w, queue + todo, w', queue + todo);
    forall m, x | m in w'.main - w.main && x in Jumps(img, m) && img.Has(x)
      ensures Joins(w', cross, cur, todo, m, x)
    {
      assert Joins(w, cross, cur, todo, a, x);
    }
    GrowJoined(img, w, cross, cur, todo, w', cross, todo);
    SamePartition(w, w', funcs, cur);
  }

  // ---- between two functions

  /** What holds between two functions: nobody is being traced, and every entry taken up has been walked. */
  ghost predicate Between(img: Image, w: Walked, funcs: seq<Span>, imports: seq<nat>, cross: seq<nat>, queue: set<nat>)
  {
    && InImage(img, w) && Early(w) && Partition(w, funcs, NO_OWNER) && OwnedBy(w.own, NO_OWNER) == {}
    && w.started <= w.own.Keys && Queued(w, queue)
    && Closed(img, w, queue) && Joined(img, w, cross, NO_OWNER, {}) && Imported(img, w, imports)
  }

  lemma Ownerless(own: map<nat, nat>, e: nat)
    ensures OwnedBy(own, e) == {} <==> e !in own.Values
    ensures OwnedBy(own, e) == {} <==> forall a {:trigger own[a]} :: a in own ==> own[a] != e
  {
    if OwnedBy(own, e) == {} {
      forall a | a in own
        ensures own[a] != e
      {
        assert a !in OwnedBy(own, e);
      }
    }
  }

  /** Who is being traced does not matter as long as nobody owns anything on its behalf. */
  lemma OtherCur(w: Walked, funcs: seq<Span>, cur: nat, cur': nat)
    requires Partition(w, funcs, cur) && OwnedBy(w.own, cur) == {} && OwnedBy(w.own, cur') == {}
    requires forall i: nat :: i < |funcs| ==> funcs[i].addr != cur'
    ensures Partition(w, funcs, cur')
  {
    hide OwnedBy, Listed, Total, Distinct, Fair;
    Ownerless(w.own, cur);
  }

  /** A started entry that owns nothing is not listed. */
  lemma Unlisted(w: Walked, funcs: seq<Span>, e: nat)
    requires Partition(w, funcs, NO_OWNER) && OwnedBy(w.own, NO_OWNER) == {} && e !in w.started
    ensures OwnedBy(w.own, e) == {} && forall i: nat :: i < |funcs| ==> funcs[i].addr != e
  {
    hide OwnedBy, Total, Distinct;
    forall i: nat | i < |funcs| ensures funcs[i].addr != e { assert Fair(w, funcs[i]); }
    Ownerless(w.own, NO_OWNER);
    Ownerless(w.own, e);
  }

  /** Between functions, jumps need nobody's blocks. */
  lemma JoinedAnyway(img: Image, w: Walked, cross: seq<nat>, cur: nat, cur': nat, todo: set<nat>)
    requires Joined(img, w, cross, cur, {})
    ensures Joined(img, w, cross, cur', todo)
  {
    hide Jumps;
    forall m, x | m in w.main && x in Jumps(img, m) && img.Has(x)
      ensures Joins(w, cross, cur', todo, m, x)
    {
      assert Joins(w, cross, cur, {}, m, x);
    }
  }

  /** Taking up an entry that was popped. */
  lemma StartMidway(img: Image, w: Walked, funcs: seq<Span>, imports: seq<nat>, cross: seq<nat>,
                    queue: set<nat>, queue': set<nat>, e: nat)
    requires img.Sane() && Between(img, w, funcs, imports, cross, queue) && img.Has(e) && e !in w.started
    requires queue <= queue' + {e}
    ensures OwnedBy(w.own, e) == {}
    ensures Midway(img, w.(started := w.started + {e}), funcs, imports, cross, e, queue', {e})
  {
    hide OwnedBy, Partition, Stubs, Joined, Closed;
    var w' := w.(started := w.started + {e});
    Unlisted(w, funcs, e);
    OtherCur(w, funcs, NO_OWNER, e);
    SamePartition(w, w', funcs, e);
    GrowClosed(img, w, queue, w', queue' + {e});
    GrowJoined(img, w, cross, NO_OWNER, {}, w', cross, {});
    JoinedAnyway(img, w', cross, NO_OWNER, e, {e});
  }

  /** The function is traced: it is listed, unless some other walk had its entry already. */
  lemma EndMidway(img: Image, w: Walked, funcs: seq<Span>, imports: seq<nat>, cross: seq<nat>, queue: set<nat>, f: Span)
    requires img.Sane() && Midway(img, w, funcs, imports, cross, f.addr, queue, {})
    requires OwnedBy(w.own, f.addr) != {} ==> Fair(w, f)
    requires OwnedBy(w.own, NO_OWNER) == {} && NoneListed(funcs)
    ensures Between(img, w, if OwnedBy(w.own, f.addr) == {} then funcs else funcs + [f], imports, cross, queue)
  {
    hide OwnedBy, Partition, Stubs, Joined, Closed, Fair, Imported;
    assert f.addr != NO_OWNER by { assert img.Has(f.addr); }
    Ownerless(w.own, NO_OWNER);
    JoinedAnyway(img, w, cross, f.addr, NO_OWNER, {});
    if OwnedBy(w.own, f.addr) == {} {
      OtherCur(w, funcs, f.addr, NO_OWNER);
    } else {
      ListKeepsPartition(w, funcs, f, NO_OWNER);
    }
    assert queue + {} == queue;
  }

  /** No function starts at the value that stands for nobody. */
  ghost predicate NoneListed(funcs: seq<Span>) { forall i: nat :: i < |funcs| ==> funcs[i].addr != NO_OWNER }

  lemma NoneOwned(w: Walked, funcs: seq<Span>, cur: nat)
    requires Partition(w, funcs, cur) && NoneListed(funcs) && cur != NO_OWNER
    ensures OwnedBy(w.own, NO_OWNER) == {}
  {
    hide OwnedBy, Fair, Total;
    Ownerless(w.own, NO_OWNER);
  }

  lemma FairNow(w: Walked, cur: nat, lo: nat, end: nat, count: nat)
    requires Spans(w.own, cur, lo, end, count) && cur in w.started
    requires OwnedBy(w.own, cur) != {} ==> cur in w.own && w.own[cur] == cur
    ensures count == 0 <==> OwnedBy(w.own, cur) == {}
    ensures count > 0 ==> Fair(w, Span(cur, lo, end, count))
  {
  }

  /** The range and count of the function being traced so far. */
  ghost predicate Spans(own: map<nat, nat>, cur: nat, lo: nat, end: nat, count: nat) {
    && (forall a {:trigger a in own} :: a in own && own[a] == cur ==> lo <= a < end)
    && count == |OwnedBy(own, cur)|
    && (count > 0 ==> lo in own && end >= 4 && end - 4 in own)
    && (count == 0 ==> lo == end == cur)
  }

  /** Popping an address that is outside or already taken up loses nothing. */
  lemma DropQueued(img: Image, w: Walked, funcs: seq<Span>, imports: seq<nat>, cross: seq<nat>,
                   queue: set<nat>, queue': set<nat>, e: nat)
    requires Between(img, w, funcs, imports, cross, queue) && queue <= queue' + {e} && (!img.Has(e) || e in w.started)
    ensures Between(img, w, funcs, imports, cross, queue')
  {
    hide OwnedBy, Partition, Joined, Imported, Follows;
    forall m, x | m in w.main && x in Follows(img, m) && img.Has(x)
      ensures x in w.own || x in w.entries || x in queue'
    {
      assert x in w.own || x in w.entries || x in queue;
    }
  }

  // ---- between two rounds

  /** Before any walking. */
  lemma Fresh(img: Image, entries: set<nat>, begun: set<nat>, imports: seq<nat>, cross: seq<nat>)
    requires begun <= entries && forall a :: a in entries ==> img.Has(a)
    requires ImportList(img, imports)
    ensures Between(img, Walked(map[], {}, entries, {}, begun), [], imports, cross, entries)
  {
    var own: map<nat, nat> := map[];
    assert OwnedBy(own, NO_OWNER) == {};
  }

  ghost predicate ImportList(img: Image, imports: seq<nat>) {
    && (forall i: nat :: i < |imports| ==> img.Import(imports[i]))
    && (forall i: nat, j: nat :: i < j < |imports| ==> imports[i] != imports[j])
  }

  /** Promotions that add nothing: every address noted is an entry already, so none needs noting. */
  lemma Settle(img: Image, w: Walked, funcs: seq<Span>, imports: seq<nat>, cross: seq<nat>, queue: set<nat>)
    requires Between(img, w, funcs, imports, cross, queue)
    requires forall x :: x in cross && img.Has(x) ==> x in w.entries
    ensures Between(img, w, funcs, imports, [], queue)
  {
    hide OwnedBy, Partition, Closed, Imported, Jumps;
    forall m, x | m in w.main && x in Jumps(img, m) && img.Has(x)
      ensures Joins(w, [], NO_OWNER, {}, m, x)
    {
      assert Joins(w, cross, NO_OWNER, {}, m, x);
    }
  }

  lemma AddEntry(img: Image, w: Walked, funcs: seq<Span>, imports: seq<nat>, cross: seq<nat>, queue: set<nat>, x: nat)
    requires Between(img, w, funcs, imports, cross, queue) && img.Has(x)
    ensures Between(img, w.(entries := w.entries + {x}), funcs, imports, cross, queue + {x})
  {
    hide OwnedBy, Partition, Closed, Joined, Stubs;
    var w' := w.(entries := w.entries + {x});
    SamePartition(w, w', funcs, NO_OWNER);
    GrowClosed(img, w, queue, w', queue + {x});
    GrowJoined(img, w, cross, NO_OWNER, {}, w', cross, {});
  }

  // ---- the result

  /** At the end nothing is owed: what a walked word leads to, inside the image, is walked. */
  ghost predicate Complete(img: Image, w: Walked) {
    && (forall m, x :: m in w.main && x in Follows(img, m) && img.Has(x) ==> x in w.own)
    && w.entries <= w.own.Keys
  }

  lemma DoneIsComplete(img: Image, w: Walked, funcs: seq<Span>, imports: seq<nat>, cross: seq<nat>)
    requires Between(img, w, funcs, imports, cross, {})
    ensures Complete(img, w) && Total(funcs) == |w.own|
    ensures forall a {:trigger a in w.own} :: a in w.own ==> Listed(funcs, w.own[a])
  {
    hide Follows, Fair, Total;
    Ownerless(w.own, NO_OWNER);
  }

  /** The rounds stopped by themselves: a jump stays in its body or goes to an entry. */
  ghost predicate Settled(img: Image, w: Walked) {
    forall m, x :: m in w.main && x in Jumps(img, m) && img.Has(x) ==>
      m in w.own && x in w.own && (w.own[x] == w.own[m] || x in w.entries)
  }

  lemma DoneIsSettled(img: Image, w: Walked, funcs: seq<Span>, imports: seq<nat>)
    requires Between(img, w, funcs, imports, [], {})
    ensures Settled(img, w)
  {
    hide Jumps, Partition, Closed, OwnedBy, Imported;
    forall m, x | m in w.main && x in Jumps(img, m) && img.Has(x)
      ensures m in w.own && x in w.own && (w.own[x] == w.own[m] || x in w.entries)
    {
      assert Joins(w, [], NO_OWNER, {}, m, x);
    }
  }

  // ---- entries without a function

  /** A function is listed for an address exactly if the address owns itself. */
  lemma ListedOwnsItself(w: Walked, funcs: seq<Span>, x: nat)
    requires Partition(w, funcs, NO_OWNER) && OwnedBy(w.own, NO_OWNER) == {}
    ensures Listed(funcs, x) <==> x in w.own && w.own[x] == x
  {
    hide OwnedBy, Total, Distinct;
    Ownerless(w.own, NO_OWNER);
    if Listed(funcs, x) {
      var i: nat :| i < |funcs| && funcs[i].addr == x;
      assert Fair(w, funcs[i]);
    }
  }

  /** What a finished walk makes of an entry: a function exactly if the entry owns itself, as it does if it was known
      when the walk began and walked outside a slot. */
  ghost predicate Kept(w: Walked, funcs: seq<Span>, x: nat) {
    && x in w.own && (Listed(funcs, x) <==> w.own[x] == x)
    && (x in w.begun && x in w.main ==> Listed(funcs, x))
  }

  lemma EntryKept(img: Image, w: Walked, funcs: seq<Span>, imports: seq<nat>, cross: seq<nat>, x: nat)
    requires Between(img, w, funcs, imports, cross, {}) && x in w.entries
    ensures Kept(w, funcs, x)
  {
    hide Partition, OwnedBy, Closed, Joined, Imported, Listed;
    ListedOwnsItself(w, funcs, x);
  }

  /** A jump of a settled walk that leaves its body lands on a function exactly if its target owns itself. */
  ghost predicate Lands(img: Image, w: Walked, funcs: seq<Span>) {
    forall m, x :: m in w.main && x in Jumps(img, m) && img.Has(x) ==>
      m in w.own && x in w.own && (w.own[x] == w.own[m] || (x in w.entries && Kept(w, funcs, x)))
  }

  lemma SettledLands(img: Image, w: Walked, funcs: seq<Span>, imports: seq<nat>)
    requires Between(img, w, funcs, imports, [], {})
    ensures Lands(img, w, funcs)
  {
    hide Between, Jumps, Kept;
    DoneIsSettled(img, w, funcs, imports);
    forall m, x | m in w.main && x in Jumps(img, m) && img.Has(x)
      ensures m in w.own && x in w.own && (w.own[x] == w.own[m] || (x in w.entries && Kept(w, funcs, x)))
    {
      if w.own[x] != w.own[m] { EntryKept(img, w, funcs, imports, [], x); }
    }
  }

  /** Ten words: a function at 0 that calls 0x20 and returns, and there a jump to 4, in its middle, and its slot. */
  function ThunkBack(): Image {
    Image(0, 10,
          a => Valid(if a == 8 then Jal(0x20) else if a == 0x10 then Jr(RA) else if a == 0x20 then J(4) else Plain(0)),
          0, 0)
  }

  /** What walking it from 0 leaves: 4 is found to be an entry when it belongs to the function at 0 already. */
  function ThunkWalked(): Walked {
    Walked(map a: nat | a < 0x28 && a % 4 == 0 && a != 0x18 && a != 0x1C :: if a < 0x20 then 0 else 0x20,
           {0, 4, 8, 0x10, 0x20}, {0, 4}, {0, 4, 0x20}, {0})
  }

  function ThunkFuncs(): seq<Span> { [Span(0, 0, 0x18, 6), Span(0x20, 0x20, 0x28, 2)] }

  /** The walk is finished and settled, and the jump at 0x20 has no function to land on. */
  lemma EntryLost()
    ensures Between(ThunkBack(), ThunkWalked(), ThunkFuncs(), [], [], {}) && Settled(ThunkBack(), ThunkWalked())
    ensures 4 in ThunkWalked().entries && 0x20 in ThunkWalked().main && 4 in Jumps(ThunkBack(), 0x20)
    ensures !Listed(ThunkFuncs(), 4)
  {
    hide Partition, OwnedBy, Closed, Joined, Settled;
    ThunkPartition();
    ThunkJumps();
  }

  lemma ThunkJumps()
    ensures Closed(ThunkBack(), ThunkWalked(), {}) && Joined(ThunkBack(), ThunkWalked(), [], NO_OWNER, {})
    ensures Settled(ThunkBack(), ThunkWalked())
  {
    var img, w := ThunkBack(), ThunkWalked();
    assert forall m, x :: m in w.main && x in Jumps(img, m) ==> m == 0x20 && x == 4;
    forall m, x | m in w.main && x in Follows(img, m) && img.Has(x)
      ensures x in w.own
    {
      assert x in {4, 8, 0xC, 0x10, 0x14, 0x20, 0x24};
    }
  }

  lemma ThunkPartition()
    ensures Partition(ThunkWalked(), ThunkFuncs(), NO_OWNER) && OwnedBy(ThunkWalked().own, NO_OWNER) == {}
  {
    hide OwnedBy;
    var w, funcs := ThunkWalked(), ThunkFuncs();
    ThunkOwners();
    assert Fair(w, funcs[0]) && Fair(w, funcs[1]);
    TwoFuncs(w, funcs);
  }

  lemma ThunkOwners()
    ensures var own := ThunkWalked().own;
      |OwnedBy(own, 0)| == 6 && |OwnedBy(own, 0x20)| == 2 && OwnedBy(own, NO_OWNER) == {} && |own| == 8
  {
    hide *;
    FirstOwns();
    ThunkOwns();
    ThunkKeys();
    Eight();
  }

  lemma Eight()
    ensures |{0, 4, 8, 0xC, 0x10, 0x14}| == 6 && |{0x20, 0x24}| == 2 && |{0, 4, 8, 0xC, 0x10, 0x14, 0x20, 0x24}| == 8
  {
  }

  lemma ThunkKeys()
    ensures ThunkWalked().own.Keys == {0, 4, 8, 0xC, 0x10, 0x14, 0x20, 0x24}
  {
  }

  lemma FirstOwns()
    ensures OwnedBy(ThunkWalked().own, 0) == {0, 4, 8, 0xC, 0x10, 0x14} && OwnedBy(ThunkWalked().own, NO_OWNER) == {}
  {
  }

  lemma ThunkOwns()
    ensures OwnedBy(ThunkWalked().own, 0x20) == {0x20, 0x24}
  {
  }

  lemma TwoFuncs(w: Walked, funcs: seq<Span>)
    requires |funcs| == 2 && Fair(w, funcs[0]) && Fair(w, funcs[1])
    requires funcs[0].addr != funcs[1].addr && funcs[0].addr != NO_OWNER && funcs[1].addr != NO_OWNER
    requires forall a {:trigger a in w.own} :: a in w.own ==> w.own[a] == funcs[0].addr || w.own[a] == funcs[1].addr
    requires OwnedBy(w.own, NO_OWNER) == {} && funcs[0].insns + funcs[1].insns == |w.own|
    ensures Partition(w, funcs, NO_OWNER)
  {
    hide Fair, OwnedBy;
    assert funcs[..1] == [funcs[0]] && funcs[..1][..0] == [];
    assert Total(funcs) == Total(funcs[..1]) + funcs[1].insns;
  }

  /** Three words: 0 returns, with the entry 4 for its slot, and 8 jumps to 4 from the last word of its image. */
  function SlotBack(): Image {
    Image(0, 3, a => Valid(if a == 0 then Jr(RA) else if a == 8 then J(4) else Plain(0)), 0, 0)
  }

  function SlotWalked(): Walked {
    Walked(map a: nat | a < 12 && a % 4 == 0 :: if a < 8 then 0 else 8, {0, 8}, {0, 4, 8}, {0, 4, 8}, {0, 4, 8})
  }

  function SlotFuncs(): seq<Span> { [Span(0, 0, 8, 2), Span(8, 8, 12, 1)] }

  /** An entry known from the start is lost too, if another function takes it for a slot. */
  lemma SlotLost()
    ensures Between(SlotBack(), SlotWalked(), SlotFuncs(), [], [], {}) && Settled(SlotBack(), SlotWalked())
    ensures 4 in SlotWalked().begun && 4 in Jumps(SlotBack(), 8) && !Listed(SlotFuncs(), 4)
  {
    hide Partition, OwnedBy, Follows, Jumps, Stubs, Closed, Joined, Settled;
    SlotPartition();
    SlotFollows();
    SlotJumps();
    assert !Listed(SlotFuncs(), 4);
  }

  lemma SlotJumps()
    ensures Closed(SlotBack(), SlotWalked(), {}) && Joined(SlotBack(), SlotWalked(), [], NO_OWNER, {})
    ensures Settled(SlotBack(), SlotWalked())
  {
    hide Follows, Jumps;
    SlotFollows();
  }

  lemma SlotFollows()
    ensures var img := SlotBack();
      && Follows(img, 0) == {4} && Jumps(img, 0) == {} && Stubs(img, 0) == {}
      && Follows(img, 8) == {0xC, 4} && Jumps(img, 8) == {4} && Stubs(img, 8) == {}
  {
  }

  lemma SlotPartition()
    ensures Partition(SlotWalked(), SlotFuncs(), NO_OWNER) && OwnedBy(SlotWalked().own, NO_OWNER) == {}
  {
    var w, funcs := SlotWalked(), SlotFuncs();
    assert OwnedBy(w.own, 0) == {0, 4};
    assert OwnedBy(w.own, 8) == {8};
    assert OwnedBy(w.own, NO_OWNER) == {};
    assert w.own.Keys == OwnedBy(w.own, 0) + OwnedBy(w.own, 8) && |w.own| == |w.own.Keys| == 3;
    hide OwnedBy;
    assert Fair(w, funcs[0]) && Fair(w, funcs[1]);
    TwoFuncs(w, funcs);
  }
}

/** Why a walk is where it is: every walked word is led to, and every entry asked for (analyze.c). */
module Grounds {
  import opened Allegrex
  import opened Discovery

  /** What a discovery starts from: the image, the addresses given to it, and what the jump tables hold. */
  datatype Origin = Origin(img: Image, given: set<nat>, tables: nat -> seq<nat>)

  /** A computed jump that is no return. */
  predicate Site(img: Image, a: nat) {
    img.At(a).Valid? && img.At(a).insn.Jr? && img.At(a).insn.rs != RA
  }

  /** Where the trace of a body may go on from the word at `a`: never past a jump or a return. */
  function Goes(img: Image, a: nat): set<nat> {
    match img.At(a)
    case Invalid => {}
    case Valid(Plain(_)) => {a + 4}
    case Valid(Branch(_, t, _, linking)) => {a + 8} + if linking then {} else {t}
    case Valid(J(t)) => {t}
    case Valid(Jal(_)) => {a + 8}
    case Valid(Jalr(_, _)) => {a + 8}
    case Valid(Jr(_)) => {}
  }

  /** The function a word calls by name. */
  function Calls(img: Image, a: nat): set<nat> {
    match img.At(a)
    case Valid(Jal(t)) => if t == a + 8 || img.Import(t) then {} else {t}
    case Valid(Branch(_, t, _, true)) => if img.Import(t) then {} else {t}
    case _ => {}
  }

  // ---- inside one body

  /** A path through walked words of `e`, each of them followed by one it goes on to. */
  ghost predicate Path(img: Image, w: Walked, e: nat, p: seq<nat>) {
    && (forall i: nat :: i < |p| ==> p[i] in w.main && p[i] in w.own && w.own[p[i]] == e)
    && (forall i: nat :: i + 1 < |p| ==> p[i + 1] in Goes(img, p[i]))
  }

  /** Such a path leads from the entry of `e` to `a`. */
  ghost predicate Led(img: Image, w: Walked, e: nat, a: nat) {
    exists p :: p != [] && p[0] == e && p[|p| - 1] == a && Path(img, w, e, p)
  }

  /** A walked word of `e` goes on to `x`. */
  ghost predicate Onto(img: Image, w: Walked, e: nat, x: nat) {
    exists m :: m in w.main && m in w.own && w.own[m] == e && x in Goes(img, m)
  }

  /** The word is the delay slot of a walked word of the same body. */
  ghost predicate SlotOf(img: Image, w: Walked, a: nat)
    requires a in w.own
  {
    a >= 4 && a - 4 in w.main && a - 4 in w.own && w.own[a - 4] == w.own[a] &&
    img.At(a - 4).Valid? && img.At(a - 4).insn.HasDelaySlot()
  }

  /** Nothing is walked without a reason: a word is led to from its owner's entry, or is a slot; and the places still
      to go are the entry being traced or led to. */
  ghost predicate Grounded(img: Image, w: Walked, cur: nat, todo: set<nat>) {
    && (forall a {:trigger a in w.main} :: a in w.main ==> a in w.own && Led(img, w, w.own[a], a))
    && (forall a {:trigger a in w.own} :: a in w.own ==> a in w.main || SlotOf(img, w, a))
    && (forall x {:trigger x in todo} :: x in todo ==> x == cur || Onto(img, w, cur, x))
  }

  /** The word at `a`, and its slot unless it is walked or outside, walked for `cur`. */
  function Visited(img: Image, w: Walked, a: nat, cur: nat, entries: set<nat>): Walked {
    var slot := img.At(a).Valid? && img.At(a).insn.HasDelaySlot() && img.Has(a + 4) && a + 4 !in w.own[a := cur];
    w.(own := if slot then w.own[a := cur][a + 4 := cur] else w.own[a := cur], main := w.main + {a}, entries := entries)
  }

  lemma PathGrows(img: Image, w: Walked, w': Walked, e: nat, a: nat)
    requires Led(img, w, e, a) && w.main <= w'.main
    requires forall b {:trigger b in w.own} :: b in w.own ==> b in w'.own && w'.own[b] == w.own[b]
    ensures Led(img, w', e, a)
  {
    hide Goes;
    var p :| p != [] && p[0] == e && p[|p| - 1] == a && Path(img, w, e, p);
    assert Path(img, w', e, p);
  }

  lemma PathStarts(img: Image, w: Walked, e: nat)
    requires e in w.main && e in w.own && w.own[e] == e
    ensures Led(img, w, e, e)
  {
    assert Path(img, w, e, [e]);
  }

  lemma PathGoesOn(img: Image, w: Walked, e: nat, m: nat, a: nat)
    requires Led(img, w, e, m) && a in Goes(img, m) && a in w.main && a in w.own && w.own[a] == e
    ensures Led(img, w, e, a)
  {
    hide Goes;
    var p :| p != [] && p[0] == e && p[|p| - 1] == m && Path(img, w, e, p);
    var q := p + [a];
    forall i: nat | i + 1 < |q| ensures q[i + 1] in Goes(img, q[i]) {
      if i + 1 < |p| { assert q[i + 1] == p[i + 1]; }
    }
    assert Path(img, w, e, q);
  }

  lemma OntoGrows(img: Image, w: Walked, w': Walked, e: nat, x: nat)
    requires Onto(img, w, e, x) && w.main <= w'.main
    requires forall b {:trigger b in w.own} :: b in w.own ==> b in w'.own && w'.own[b] == w.own[b]
    ensures Onto(img, w', e, x)
  {
    hide Goes;
  }

  /** Walking a word there was reason to walk, its slot with it, and going on only where it leads. */
  lemma VisitGrounded(img: Image, w: Walked, cur: nat, todo: set<nat>, a: nat, entries: set<nat>, todo': set<nat>)
    requires Grounded(img, w, cur, todo) && a in todo && a !in w.own && todo' <= todo + Goes(img, a)
    ensures Grounded(img, Visited(img, w, a, cur, entries), cur, todo')
  {
    hide Goes, Led, Onto;
    var w' := Visited(img, w, a, cur, entries);
    if a == cur {
      PathStarts(img, w', cur);
    } else {
      OntoGrows(img, w, w', cur, a);
      OntoLeads(img, w, w', cur, a);
    }
    forall b | b in w'.main ensures Led(img, w', w'.own[b], b) {
      if b != a { PathGrows(img, w, w', w.own[b], b); }
    }
    forall x | x in todo' ensures x == cur || Onto(img, w', cur, x) {
      if x in Goes(img, a) {
        OntoNow(img, w', cur, a, x);
      } else if x != cur {
        OntoGrows(img, w, w', cur, x);
      }
    }
  }

  lemma OntoNow(img: Image, w: Walked, e: nat, m: nat, x: nat)
    requires m in w.main && m in w.own && w.own[m] == e && x in Goes(img, m)
    ensures Onto(img, w, e, x)
  {
    hide Goes;
  }

  lemma OntoLeads(img: Image, w: Walked, w': Walked, e: nat, a: nat)
    requires Onto(img, w, e, a) && w.main <= w'.main && a in w'.main && a in w'.own && w'.own[a] == e
    requires forall b {:trigger b in w.own} :: b in w.own ==> b in w'.own && w'.own[b] == w.own[b]
    requires forall b {:trigger b in w.main} :: b in w.main ==> b in w.own && Led(img, w, w.own[b], b)
    ensures Led(img, w', e, a)
  {
    hide Goes, Led;
    var m :| m in w.main && m in w.own && w.own[m] == e && a in Goes(img, m);
    PathGrows(img, w, w', e, m);
    PathGoesOn(img, w', e, m, a);
  }

  /** Fewer places to go, or another function taken up, changes nothing of it. */
  lemma StillGrounded(img: Image, w: Walked, w': Walked, cur: nat, todo: set<nat>, cur': nat, todo': set<nat>)
    requires Grounded(img, w, cur, todo) && w'.own == w.own && w'.main == w.main
    requires todo' <= {cur'} || (cur' == cur && todo' <= todo)
    ensures Grounded(img, w', cur', todo')
  {
    hide Goes;
    forall b | b in w.main ensures Led(img, w', w'.own[b], b) { PathGrows(img, w, w', w.own[b], b); }
  }

  // ---- the range of a function

  /** A word of the function: its own, or the slot in the image of a transfer of its own, whoever walked that. */
  ghost predicate Touches(img: Image, w: Walked, e: nat, a: nat) {
    || (a in w.own && w.own[a] == e)
    || (img.Has(a) && a >= 4 && a - 4 in w.main && a - 4 in w.own && w.own[a - 4] == e &&
        img.At(a - 4).Valid? && img.At(a - 4).insn.HasDelaySlot())
  }

  /** The range is the least that holds the function's words. */
  ghost predicate Edged(img: Image, w: Walked, e: nat, lo: nat, end: nat) {
    && (forall a: nat {:trigger Touches(img, w, e, a)} :: Touches(img, w, e, a) ==> lo <= a && a + 4 <= end)
    && Touches(img, w, e, lo) && end >= 4 && Touches(img, w, e, end - 4)
  }

  /** The range so far; before its first word it is empty, at the entry. */
  ghost predicate Edging(img: Image, w: Walked, e: nat, lo: nat, end: nat) {
    if OwnedBy(w.own, e) == {} then lo == end == e && w.main <= w.own.Keys else Edged(img, w, e, lo, end)
  }

  /** Every function listed has its least range. */
  ghost predicate AllEdged(img: Image, w: Walked, funcs: seq<Span>) {
    forall i: nat :: i < |funcs| ==> Edged(img, w, funcs[i].addr, funcs[i].start, funcs[i].end)
  }

  lemma TouchesVisited(img: Image, w: Walked, a: nat, cur: nat, entries: set<nat>, e: nat, x: nat)
    requires a !in w.own && w.main <= w.own.Keys && img.Has(a)
    ensures var slot := img.At(a).Valid? && img.At(a).insn.HasDelaySlot() && img.Has(a + 4);
      Touches(img, Visited(img, w, a, cur, entries), e, x) <==>
      Touches(img, w, e, x) || (e == cur && (x == a || (slot && x == a + 4)))
  {
  }

  lemma VisitEdging(img: Image, w: Walked, a: nat, cur: nat, entries: set<nat>, lo: nat, end: nat, lo': nat, end': nat)
    requires Edging(img, w, cur, lo, end) && a !in w.own && w.main <= w.own.Keys && img.Has(a)
    requires OwnedBy(w.own, cur) == {} ==> a == cur
    requires lo' == if a < lo then a else lo
    requires var slot := img.At(a).Valid? && img.At(a).insn.HasDelaySlot() && img.Has(a + 4);
      var least := if slot then a + 8 else a + 4;
      end' == if least > end then least else end
    ensures Edged(img, Visited(img, w, a, cur, entries), cur, lo', end')
    ensures OwnedBy(Visited(img, w, a, cur, entries).own, cur) != {}
  {
    hide Touches, OwnedBy;
    var w' := Visited(img, w, a, cur, entries);
    forall x: nat ensures Touches(img, w', cur, x) ==> lo' <= x && x + 4 <= end' {
      TouchesVisited(img, w, a, cur, entries, cur, x);
      if OwnedBy(w.own, cur) == {} { Untouched(img, w, cur, x); }
    }
    TouchesVisited(img, w, a, cur, entries, cur, lo');
    TouchesVisited(img, w, a, cur, entries, cur, end' - 4);
    OwnsIt(w'.own, cur, a);
  }

  lemma OwnsIt(own: map<nat, nat>, e: nat, a: nat)
    requires a in own && own[a] == e
    ensures OwnedBy(own, e) != {}
  {
    assert a in OwnedBy(own, e);
  }

  lemma Untouched(img: Image, w: Walked, e: nat, x: nat)
    requires OwnedBy(w.own, e) == {}
    ensures !Touches(img, w, e, x)
  {
    Ownerless(w.own, e);
  }

  lemma VisitAllEdged(img: Image, w: Walked, a: nat, cur: nat, entries: set<nat>, funcs: seq<Span>)
    requires AllEdged(img, w, funcs) && a !in w.own && w.main <= w.own.Keys && img.Has(a)
    requires forall i: nat :: i < |funcs| ==> funcs[i].addr != cur
    ensures AllEdged(img, Visited(img, w, a, cur, entries), funcs)
  {
    hide Touches;
    var w' := Visited(img, w, a, cur, entries);
    forall i: nat | i < |funcs| ensures Edged(img, w', funcs[i].addr, funcs[i].start, funcs[i].end) {
      var e := funcs[i].addr;
      assert Edged(img, w, e, funcs[i].start, funcs[i].end);
      forall x: nat ensures Touches(img, w', e, x) <==> Touches(img, w, e, x) {
        TouchesVisited(img, w, a, cur, entries, e, x);
      }
    }
  }

  lemma SameEdged(img: Image, w: Walked, w': Walked, funcs: seq<Span>)
    requires AllEdged(img, w, funcs) && w'.own == w.own && w'.main == w.main
    ensures AllEdged(img, w', funcs)
  {
    forall i: nat, x: nat | i < |funcs|
      ensures Touches(img, w', funcs[i].addr, x) <==> Touches(img, w, funcs[i].addr, x)
    {
    }
  }

  // ---- over all walks

  /** Where control or a jump table can lead from the word at `a`. */
  function Leads(o: Origin, a: nat): set<nat> {
    Follows(o.img, a) + if Site(o.img, a) then set x | x in o.tables(a) else {}
  }

  /** A path of such steps from a given address. */
  ghost predicate Found(o: Origin, x: nat) {
    exists p :: Trail(o, p, x)
  }

  ghost predicate Trail(o: Origin, p: seq<nat>, x: nat) {
    && p != [] && p[0] in o.given && p[|p| - 1] == x
    && (forall i: nat :: i + 1 < |p| ==> p[i + 1] in Leads(o, p[i]))
  }

  /** A word found on the way jumps to `x`, or a table of one that it found holds it. */
  ghost predicate Targeted(o: Origin, m: nat, x: nat) {
    Found(o, m) && (x in Jumps(o.img, m) || (Site(o.img, m) && x in o.tables(m)))
  }

  /** What may become an entry: what was given, and what a word found on the way jumps to. */
  ghost predicate Entered(o: Origin, x: nat) { x in o.given || exists m :: Targeted(o, m, x) }

  /** A walked word calls it. */
  ghost predicate Called(img: Image, w: Walked, x: nat) { exists m :: m in w.main && x in Calls(img, m) }

  ghost predicate StubNamed(o: Origin, x: nat) { exists m :: Found(o, m) && x in Stubs(o.img, m) }

  /** What the walk has noted down. */
  datatype Notes = Notes(queue: seq<nat>, imports: seq<nat>, cross: seq<nat>)

  /** The sites noted are the computed jumps walked, no more and no fewer. */
  ghost predicate Sited(img: Image, w: Walked, sites: seq<nat>) {
    forall a {:trigger a in sites} {:trigger a in w.main} :: a in sites <==> a in w.main && Site(img, a)
  }

  /** Everything walked, entered, called or noted has its source. */
  ghost predicate Sourced(o: Origin, w: Walked, n: Notes) {
    && (forall a {:trigger a in w.own} :: a in w.own ==> Found(o, a))
    && (forall x {:trigger x in w.entries} :: x in w.entries ==> Entered(o, x))
    && (forall x {:trigger x in w.started} :: x in w.started ==> x in w.entries || Called(o.img, w, x))
    && (forall x {:trigger x in n.queue} :: x in n.queue ==> x in w.entries || Called(o.img, w, x))
    && (forall x {:trigger x in n.imports} :: x in n.imports ==> StubNamed(o, x))
    && (forall x {:trigger x in n.cross} :: x in n.cross ==> Entered(o, x))
    && w.main <= w.own.Keys
  }

  /** What one word adds to the notes: no more than it names. */
  ghost predicate Noted(img: Image, a: nat, n: Notes, n': Notes, entries: set<nat>, entries': set<nat>) {
    && entries <= entries' <= entries + Jumps(img, a)
    && (forall x {:trigger x in n'.queue} :: x in n'.queue ==> x in n.queue || x in Calls(img, a) || x in entries')
    && (forall x {:trigger x in n'.imports} :: x in n'.imports ==> x in n.imports || x in Stubs(img, a))
    && (forall x {:trigger x in n'.cross} :: x in n'.cross ==> x in n.cross || x in Jumps(img, a))
  }

  /** A computed jump is noted, and nothing else. */
  ghost predicate SiteNoted(img: Image, a: nat, sites: seq<nat>, sites': seq<nat>) {
    sites' == sites + if Site(img, a) && a !in sites then [a] else []
  }

  lemma NotedThen(img: Image, a: nat, n: Notes, n1: Notes, n2: Notes, e: set<nat>, e1: set<nat>, e2: set<nat>)
    requires Noted(img, a, n, n1, e, e1) && Noted(img, a, n1, n2, e1, e2)
    ensures Noted(img, a, n, n2, e, e2)
  {
    hide Jumps, Calls, Stubs;
  }

  lemma NotedNone(img: Image, a: nat, n: Notes, e: set<nat>)
    ensures Noted(img, a, n, n, e, e)
  {
    hide Jumps, Calls, Stubs;
  }

  lemma FoundOn(o: Origin, m: nat, x: nat)
    requires Found(o, m) && x in Leads(o, m)
    ensures Found(o, x)
  {
    hide Leads;
    var p :| Trail(o, p, m);
    var q := p + [x];
    forall i: nat | i + 1 < |q| ensures q[i + 1] in Leads(o, q[i]) {
      if i + 1 < |p| { assert q[i + 1] == p[i + 1]; }
    }
    assert Trail(o, q, x);
  }

  lemma GivenFound(o: Origin, x: nat)
    requires x in o.given
    ensures Found(o, x)
  {
    assert Trail(o, [x], x);
  }

  lemma EnteredFound(o: Origin, x: nat)
    requires Entered(o, x)
    ensures Found(o, x)
  {
    hide Found;
    if x in o.given {
      GivenFound(o, x);
    } else {
      var m :| Targeted(o, m, x);
      FoundOn(o, m, x);
    }
  }

  lemma CalledFound(o: Origin, w: Walked, n: Notes, x: nat)
    requires Sourced(o, w, n) && Called(o.img, w, x)
    ensures Found(o, x)
  {
    hide Found, Entered, StubNamed;
    var m :| m in w.main && x in Calls(o.img, m);
    FoundOn(o, m, x);
  }

  lemma GoesFollow(img: Image, a: nat)
    ensures Goes(img, a) <= Follows(img, a) && Calls(img, a) <= Follows(img, a) && Jumps(img, a) <= Follows(img, a)
  {
  }

  lemma StartedFound(o: Origin, w: Walked, n: Notes, x: nat)
    requires Sourced(o, w, n) && (x in w.started || x in w.entries || x in n.queue)
    ensures Found(o, x)
  {
    hide Found, Entered, StubNamed, Called;
    if x in w.entries { EnteredFound(o, x); } else { CalledFound(o, w, n, x); }
  }

  /** A place to go is found as the words that lead to it were. */
  lemma ToDoFound(o: Origin, w: Walked, n: Notes, cur: nat, todo: set<nat>, a: nat)
    requires Sourced(o, w, n) && Grounded(o.img, w, cur, todo) && cur in w.started && a in todo
    ensures Found(o, a)
  {
    hide Found, Entered, StubNamed, Called, Goes, Led, Follows;
    if a == cur {
      StartedFound(o, w, n, cur);
    } else {
      var m :| m in w.main && m in w.own && w.own[m] == cur && a in Goes(o.img, m);
      GoesFollow(o.img, m);
      FoundOn(o, m, a);
    }
  }

  lemma CalledGrows(img: Image, w: Walked, w': Walked, x: nat)
    requires Called(img, w, x) && w.main <= w'.main
    ensures Called(img, w', x)
  {
    hide Calls;
  }

  lemma CalledNow(img: Image, w: Walked, m: nat, x: nat)
    requires m in w.main && x in Calls(img, m)
    ensures Called(img, w, x)
  {
    hide Calls;
  }

  lemma TargetedEnters(o: Origin, m: nat, x: nat)
    requires Targeted(o, m, x)
    ensures Entered(o, x)
  {
    hide Targeted;
  }

  lemma StubbedHere(o: Origin, m: nat, x: nat)
    requires Found(o, m) && x in Stubs(o.img, m)
    ensures StubNamed(o, x)
  {
    hide Stubs, Found;
  }

  /** A word walked, and no more noted than it names. */
  lemma VisitSourced(o: Origin, w: Walked, n: Notes, a: nat, cur: nat, n': Notes, entries: set<nat>)
    requires Sourced(o, w, n) && Found(o, a) && a !in w.own && Noted(o.img, a, n, n', w.entries, entries)
    ensures Sourced(o, Visited(o.img, w, a, cur, entries), n')
  {
    hide Found, Entered, Called, StubNamed, Jumps, Calls, Stubs;
    var w' := Visited(o.img, w, a, cur, entries);
    SlotFound(o, a);
    forall x | x in Jumps(o.img, a) ensures Entered(o, x) { TargetedEnters(o, a, x); }
    forall x | x in w'.started ensures x in w'.entries || Called(o.img, w', x) {
      if x !in w.entries { CalledGrows(o.img, w, w', x); }
    }
    forall x | x in n'.queue ensures x in w'.entries || Called(o.img, w', x) {
      if x in Calls(o.img, a) {
        CalledNow(o.img, w', a, x);
      } else if x !in entries {
        CalledGrows(o.img, w, w', x);
      }
    }
    forall x | x in n'.imports ensures StubNamed(o, x) {
      if x in Stubs(o.img, a) { StubbedHere(o, a, x); }
    }
  }

  lemma VisitSited(img: Image, w: Walked, a: nat, cur: nat, entries: set<nat>, sites: seq<nat>, sites': seq<nat>)
    requires Sited(img, w, sites) && SiteNoted(img, a, sites, sites')
    ensures Sited(img, Visited(img, w, a, cur, entries), sites')
  {
    hide Site;
  }

  lemma SlotFound(o: Origin, a: nat)
    requires Found(o, a)
    ensures o.img.At(a).Valid? && o.img.At(a).insn.HasDelaySlot() ==> Found(o, a + 4)
  {
    hide Found;
    if o.img.At(a).Valid? && o.img.At(a).insn.HasDelaySlot() { FoundOn(o, a, a + 4); }
  }

  /** A queued address taken up. */
  lemma StartSourced(o: Origin, w: Walked, n: Notes, e: nat, n': Notes)
    requires Sourced(o, w, n) && e in n.queue && n' == n.(queue := n'.queue)
    requires forall x :: x in n'.queue ==> x in n.queue
    ensures Sourced(o, w.(started := w.started + {e}), n') && Sourced(o, w, n')
  {
    hide Found, Entered, StubNamed, Calls;
  }

  /** Before any walking, with the entries queued. */
  lemma FreshSourced(o: Origin, w: Walked, n: Notes)
    requires w.own == map[] && w.main == {} && w.started == {} && n.cross == []
    requires forall x :: x in n.queue ==> x in w.entries
    requires forall x :: x in w.entries ==> Entered(o, x)
    requires forall x :: x in n.imports ==> StubNamed(o, x)
    ensures Grounded(o.img, w, NO_OWNER, {}) && Sourced(o, w, n) && Sited(o.img, w, [])
  {
    hide Found, Entered, StubNamed, Calls;
  }

  lemma TableEnters(o: Origin, s: nat, x: nat)
    requires Found(o, s) && Site(o.img, s) && x in o.tables(s)
    ensures Entered(o, x)
  {
    hide Found;
    assert Targeted(o, s, x);
  }

  /** Every jump-table target of a walked computed jump is an entry. */
  ghost predicate Resolved(img: Image, tables: nat -> seq<nat>, w: Walked) {
    forall a, x :: a in w.main && Site(img, a) && x in tables(a) && img.Has(x) ==> x in w.entries
  }

  // ---- what is given

  /** The word at `a` is a jal to `x`, which is in the image and no stub; the get-PC form does not count. */
  predicate HarvestedAt(img: Image, a: nat, x: nat) {
    img.Has(a) && img.At(a) == Valid(Jal(x)) && x != a + 8 && img.Has(x) && !img.Import(x)
  }

  /** Some word of the range is. */
  ghost predicate Harvested(img: Image, base: nat, size: nat, x: nat) {
    exists a: nat :: base <= a && a + 4 <= base + size && (a - base) % 4 == 0 && HarvestedAt(img, a, x)
  }

  /** One word more of the range; what is left at the end is no word. */
  lemma HarvestStep(img: Image, base: nat, k: nat, size: nat)
    ensures forall x :: Harvested(img, base, 4 * k + 4, x) <==>
                        Harvested(img, base, 4 * k, x) || HarvestedAt(img, base + 4 * k, x)
    ensures 4 * k <= size < 4 * k + 4 ==> forall x :: Harvested(img, base, size, x) <==> Harvested(img, base, 4 * k, x)
    ensures forall x :: !Harvested(img, base, 0, x)
  {
    hide HarvestedAt;
    forall x
      ensures Harvested(img, base, 4 * k + 4, x) <==>
              Harvested(img, base, 4 * k, x) || HarvestedAt(img, base + 4 * k, x)
    {
      if HarvestedAt(img, base + 4 * k, x) { assert (base + 4 * k - base) % 4 == 0; }
    }
  }

  /** The addresses a discovery is given: seeds in the image, and when calls are scanned for, the jal targets of the
      range and the addresses the other harvests bring. */
  ghost predicate Given(img: Image, seeds: seq<nat>, scanCalls: bool, base: nat, size: nat, pointers: seq<nat>,
                        x: nat)
  {
    img.Has(x) && (x in seeds || (scanCalls && (Harvested(img, base, size, x) || x in pointers)))
  }
}

/** The walk itself: worklists popped and pushed, marks and owners updated in place (analyze.c). */
module WalkC {
  import opened Allegrex
  import opened Discovery
  import opened Grounds

  function Elems(s: seq<nat>): set<nat> { set x | x in s }

  lemma ElemsPush(s: seq<nat>, x: nat)
    ensures Elems(s + [x]) == Elems(s) + {x}
  {
  }

  lemma NoElems()
    ensures Elems([]) == {}
  {
  }

  class Walk {
    const img: Image
    const seen: array<Mark>
    const entryMap: array<bool>
    const owner: array<nat>
    var queue: seq<nat>
    var imports: seq<nat>
    var indirects: seq<nat>
    var cross: seq<nat>
    var insns: nat
    var funcs: seq<Span>
    ghost var w: Walked
    ghost var origin: Origin

    /** word_index. */
    function Index(a: nat): (i: nat)
      requires img.Has(a)
      ensures i < img.words && img.base + 4 * i <= a < img.base + 4 * i + 4
    {
      (a - img.base) / 4
    }

    ghost predicate Sized() {
      img.Sane() && seen.Length == entryMap.Length == owner.Length == img.words
    }

    ghost predicate MarksOf(a: nat)
      requires Sized() && img.Has(a)
      reads `w, seen, entryMap, owner
    {
      && seen[Index(a)] == Mark(a in w.own, a in w.started)
      && entryMap[Index(a)] == (a in w.entries)
      && owner[Index(a)] == if a in w.own then w.own[a] else NO_OWNER
    }

    /** The arrays say what the walk knows. */
    ghost predicate Agrees()
      reads `w, `insns, seen, entryMap, owner
    {
      && Sized() && InImage(img, w)
      && (forall a {:trigger MarksOf(a)} :: img.Has(a) ==> MarksOf(a))
      && insns == |w.own|
    }

    lemma OneIndex(a: nat, b: nat)
      requires Sized() && img.Has(a) && img.Has(b)
      ensures Index(a) == Index(b) <==> a == b
    {
    }

    method Claim(a: nat, cur: nat)
      requires Agrees() && img.Has(a) && a !in w.own
      modifies seen, owner, `w, `insns
      ensures Agrees() && w == Claimed(old(w), a, cur, true)
    {
      hide Index, InImage;
      var i := Index(a);
      assert MarksOf(a);
      ClaimInImage(a, cur);
      forall b | img.Has(b) ensures MarksOf(b) && (Index(a) == Index(b) <==> a == b) { OneIndex(a, b); }
      seen[i] := seen[i].(code := true);
      owner[i] := cur;
      insns := insns + 1;
      w := Claimed(w, a, cur, true);
      forall b | img.Has(b) ensures MarksOf(b) { assert old(MarksOf(b)); }
    }

    lemma ClaimInImage(a: nat, cur: nat)
      requires InImage(img, w) && img.Has(a) && a !in w.own
      ensures InImage(img, Claimed(w, a, cur, true)) && |Claimed(w, a, cur, true).own| == |w.own| + 1
    {
      MoreKeys(w.own, a, cur);
    }

    method MarkEntry(a: nat)
      requires Agrees() && img.Has(a)
      modifies entryMap, `w
      ensures Agrees() && w == old(w).(entries := old(w).entries + {a})
    {
      hide Index;
      var i := Index(a);
      forall b | img.Has(b) ensures MarksOf(b) && (Index(a) == Index(b) <==> a == b) { OneIndex(a, b); }
      entryMap[i] := true;
      w := w.(entries := w.entries + {a});
      forall b | img.Has(b) ensures MarksOf(b) { assert old(MarksOf(b)); }
    }

    method TakeUp(a: nat)
      requires Agrees() && img.Has(a)
      modifies seen, `w
      ensures Agrees() && w == old(w).(started := old(w).started + {a})
    {
      hide Index;
      var i := Index(a);
      forall b | img.Has(b) ensures MarksOf(b) && (Index(a) == Index(b) <==> a == b) { OneIndex(a, b); }
      seen[i] := seen[i].(entry := true);
      w := w.(started := w.started + {a});
      forall b | img.Has(b) ensures MarksOf(b) { assert old(MarksOf(b)); }
    }

    /** SEEN_CODE and is_known_entry. */
    method Look(a: nat) returns (code: bool, entry: bool, known: bool)
      requires Agrees() && img.Has(a)
      ensures code == (a in w.own) && entry == (a in w.started) && known == (a in w.entries)
    {
      assert MarksOf(a);
      code, entry, known := seen[Index(a)].code, seen[Index(a)].entry, entryMap[Index(a)];
    }

    /** In the middle of tracing `cur`: `todo` holds the blocks put off and the cursor. */
    ghost predicate Tracing(cur: nat, todo: set<nat>)
      reads `w, `insns, `funcs, `imports, `cross, `queue, seen, entryMap, owner
    {
      Agrees() && Midway(img, w, funcs, imports, cross, cur, Elems(queue), todo)
    }

    /** The range and count of the function being traced so far. */
    ghost predicate Spanned(cur: nat, lo: nat, end: nat, count: nat)
      reads `w
    {
      Spans(w.own, cur, lo, end, count)
    }

    /** Words not walked yet. */
    ghost function Unwalked(): int
      reads `w
    {
      img.words - |w.own|
    }

    /** A word becomes the traced function's own. */
    method ClaimWord(a: nat, cur: nat, lo: nat, end: nat, count: nat, ghost todo: set<nat>)
      returns (lo': nat, end': nat, count': nat)
      requires Tracing(cur, todo) && Spanned(cur, lo, end, count)
      requires img.Has(a) && a !in w.own && (OwnedBy(w.own, cur) == {} ==> a == cur)
      modifies seen, owner, `w, `insns
      ensures Tracing(cur, todo - {a}) && w == Claimed(old(w), a, cur, true)
      ensures Spanned(cur, lo', end', count') && OwnedBy(w.own, cur) != {} && Unwalked() == old(Unwalked()) - 1
      ensures lo' == (if a < lo then a else lo) && end' == (if a + 4 > end then a + 4 else end)
    {
      hide Midway, OwnedBy, Agrees;
      MidClaim(img, w, funcs, imports, cross, cur, Elems(queue), todo, a);
      OwnedByClaimed(w.own, a, cur, cur);
      None(cur);
      Claim(a, cur);
      lo', end', count' := if a < lo then a else lo, if a + 4 > end then a + 4 else end, count + 1;
    }

    lemma None(cur: nat)
      ensures |OwnedBy(w.own, cur)| == 0 <==> OwnedBy(w.own, cur) == {}
    {
    }

    lemma Retarget(cur: nat, todo: set<nat>, todo': set<nat>)
      requires Tracing(cur, todo) && OwnedBy(w.own, cur) != {}
      requires forall x :: x in todo - todo' ==> x in w.own || x in w.entries || !img.Has(x)
      ensures Tracing(cur, todo')
    {
      hide OwnedBy, Partition, Closed, Joined, Imported;
      MidRetarget(img, w, funcs, imports, cross, cur, Elems(queue), todo, todo');
    }

    /** The delay slot of a transfer, walked with it unless some walk has it already. */
    method WalkSlot(d: nat, cur: nat, lo: nat, end: nat, count: nat, ghost todo: set<nat>)
      returns (lo': nat, end': nat, count': nat)
      requires Tracing(cur, todo) && Spanned(cur, lo, end, count) && OwnedBy(w.own, cur) != {} && count > 0
      modifies seen, owner, `w, `insns
      ensures Tracing(cur, todo) && Spanned(cur, lo', end', count')
      ensures w == if img.Has(d) && d !in old(w).own then Claimed(old(w), d, cur, true) else old(w)
      ensures OwnedBy(w.own, cur) != {} && Unwalked() <= old(Unwalked())
      ensures lo' == (if img.Has(d) && d < lo then d else lo)
              && end' == (if img.Has(d) && d + 4 > end then d + 4 else end)
    {
      hide Midway, OwnedBy;
      lo', end', count' := lo, end, count;
      if img.Has(d) {
        var code, entry, known := Look(d);
        if !code {
          lo', end', count' := ClaimWord(d, cur, lo, end, count, todo);
          Retarget(cur, todo - {d}, todo);
        }
        if d + 4 > end' { end' := d + 4; }
        if d < lo' { lo' := d; }
      }
    }

    /** The list has at most `x` more. */
    static predicate Gains(s: seq<nat>, s': seq<nat>, x: nat) { s' == s || s' == s + [x] }

    method NoteImport(x: nat, cur: nat, ghost todo: set<nat>)
      requires Tracing(cur, todo) && img.Import(x)
      modifies `imports
      ensures Tracing(cur, todo) && x in imports && Gains(old(imports), imports, x)
    {
      hide Midway;
      if x !in imports {
        MidImport(img, w, funcs, imports, cross, cur, Elems(queue), todo, x);
        imports := imports + [x];
      }
    }

    method Push(x: nat, cur: nat, ghost todo: set<nat>)
      requires Tracing(cur, todo)
      modifies `queue
      ensures Tracing(cur, todo) && queue == old(queue) + [x]
    {
      hide Midway, Elems;
      MidQueue(img, w, funcs, imports, cross, cur, Elems(queue), todo, x);
      ElemsPush(queue, x);
      queue := queue + [x];
    }

    /** note_call. */
    method NoteCall(x: nat, cur: nat, ghost todo: set<nat>)
      requires Tracing(cur, todo)
      modifies `queue, `imports
      ensures Tracing(cur, todo) && Elems(old(queue)) <= Elems(queue) && old(imports) <= imports
      ensures if img.Import(x) then x in imports && Gains(old(imports), imports, x) else imports == old(imports)
      ensures img.Has(x) && !img.Import(x) ==> x in Elems(queue)
      ensures if img.Import(x) then queue == old(queue) else Gains(old(queue), queue, x)
    {
      hide Midway;
      if img.Import(x) {
        NoteImport(x, cur, todo);
      } else if img.Has(x) {
        Push(x, cur, todo);
      }
    }

    /** Somewhere to go on from, in this function or as another one. */
    ghost predicate Sent(x: nat, todo: set<nat>)
      reads `w, `queue
    {
      img.Has(x) ==> x in w.own || x in w.entries || x in Elems(queue) + todo
    }

    /** The conditional branch: into another block of this function, unless some walk has the target and it is no
        entry; then it is noted for promotion. */
    method TakeBranch(x: nat, a: nat, cur: nat, blocks: seq<nat>, ghost todo: set<nat>) returns (blocks': seq<nat>)
      requires Tracing(cur, todo) && Elems(blocks) <= todo && a in w.own && w.own[a] == cur && x in Jumps(img, a)
      modifies `cross
      ensures cross == old(cross) + if img.Has(x) && x in w.own && x !in w.entries then [x] else []
      ensures blocks' == blocks + if img.Has(x) && (x !in w.own || x in w.entries) then [x] else []
      ensures Elems(blocks) <= Elems(blocks') && Tracing(cur, todo + Elems(blocks'))
      ensures Sent(x, todo + Elems(blocks'))
      ensures img.Has(x) ==> Joins(w, cross, cur, todo + Elems(blocks'), a, x)
      ensures Noted(img, a, old(NotesNow()), NotesNow(), w.entries, w.entries) && Gains(blocks, blocks', x)
    {
      hide Midway, OwnedBy, Noted;
      NotedNone(img, a, NotesNow(), w.entries);
      blocks' := blocks;
      Owns(cur, a);
      Retarget(cur, todo, todo + Elems(blocks));
      if img.Has(x) {
        var code, entry, known := Look(x);
        if code && !known {
          MidCross(img, w, funcs, imports, cross, cur, Elems(queue), todo + Elems(blocks), x);
          cross := cross + [x];
          NotedJump(a, old(NotesNow()), NotesNow(), w.entries, w.entries, x);
        } else {
          blocks' := blocks + [x];
          ElemsPush(blocks, x);
          Retarget(cur, todo, todo + Elems(blocks'));
        }
      }
    }

    lemma Owns(cur: nat, a: nat)
      requires a in w.own && w.own[a] == cur
      ensures OwnedBy(w.own, cur) != {}
    {
      assert a in OwnedBy(w.own, cur);
    }

    /** The unconditional j: backward into this function, or a tail call, whose target becomes an entry. */
    method TakeJump(x: nat, a: nat, cur: nat, blocks: seq<nat>, ghost todo: set<nat>) returns (blocks': seq<nat>)
      requires Tracing(cur, todo) && Elems(blocks) <= todo && a in w.own && w.own[a] == cur && x in Jumps(img, a)
      modifies `cross, `queue, `w, entryMap
      ensures var local := img.Has(x) && x <= a && a != cur && x !in old(w).entries;
              && cross == old(cross) + (if local && x in w.own then [x] else [])
              && blocks' == blocks + (if local && x !in w.own then [x] else [])
              && w.entries == old(w).entries + (if img.Has(x) && !local then {x} else {})
              && queue == old(queue) + (if img.Has(x) && !local && x !in old(w).entries then [x] else [])
      ensures Elems(blocks) <= Elems(blocks') && Tracing(cur, todo + Elems(blocks'))
      ensures Sent(x, todo + Elems(blocks')) && Elems(old(queue)) <= Elems(queue)
      ensures img.Has(x) ==> Joins(w, cross, cur, todo + Elems(blocks'), a, x)
      ensures w == old(w).(entries := w.entries) && old(w).entries <= w.entries
      ensures Noted(img, a, old(NotesNow()), NotesNow(), old(w).entries, w.entries) && Gains(blocks, blocks', x)
    {
      hide Midway, OwnedBy, Noted;
      NotedNone(img, a, NotesNow(), w.entries);
      blocks' := blocks;
      Owns(cur, a);
      Retarget(cur, todo, todo + Elems(blocks));
      if img.Has(x) {
        var code, entry, known := Look(x);
        if x <= a && a != cur && !known {
          if code {
            MidCross(img, w, funcs, imports, cross, cur, Elems(queue), todo + Elems(blocks), x);
            cross := cross + [x];
            NotedJump(a, old(NotesNow()), NotesNow(), old(w).entries, w.entries, x);
          } else {
            blocks' := blocks + [x];
            ElemsPush(blocks, x);
            Retarget(cur, todo, todo + Elems(blocks'));
          }
        } else if !known {
          MidEntry(img, w, funcs, imports, cross, cur, Elems(queue), todo + Elems(blocks), x);
          ElemsPush(queue, x);
          MarkEntry(x);
          queue := queue + [x];
          NotedJump(a, old(NotesNow()), NotesNow(), old(w).entries, w.entries, x);
        }
      }
    }

    ghost function Onward(blocks: seq<nat>, go: bool, next: nat): set<nat> {
      Elems(blocks) + if go then {next} else {}
    }

    /** Everything the instruction at `a` leads to is accounted for. */
    ghost predicate Routed(a: nat, cur: nat, todo: set<nat>)
      reads `w, `queue, `cross, `imports
    {
      && (forall x {:trigger Sent(x, todo)} :: x in Follows(img, a) ==> Sent(x, todo))
      && (forall x :: x in Jumps(img, a) && img.Has(x) ==> Joins(w, cross, cur, todo, a, x))
      && (forall x :: x in Stubs(img, a) ==> x in imports)
    }

    /** What has to be accounted for, by kind. */
    lemma RoutedBy(a: nat, i: Insn, cur: nat, todo: set<nat>)
      requires img.At(a) == Valid(i)
      requires i.HasDelaySlot() ==> Sent(a + 4, todo)
      requires i.Plain? ==> Sent(a + 4, todo)
      requires i.IsCall() || i.Branch? ==> Sent(a + 8, todo)
      requires HasTarget(i) && img.Import(TargetOf(i)) ==> TargetOf(i) in imports
      requires HasTarget(i) && !i.IsGetPc(a) && (i.IsCall() ==> !img.Import(TargetOf(i))) ==> Sent(TargetOf(i), todo)
      requires HasTarget(i) && !i.IsCall() && img.Has(TargetOf(i)) ==> Joins(w, cross, cur, todo, a, TargetOf(i))
      ensures Routed(a, cur, todo)
    {
      hide Sent, Joins;
    }

    /** What the walk has noted down. */
    ghost function NotesNow(): Notes
      reads `queue, `imports, `cross
    {
      Notes(queue, imports, cross)
    }

    /** The places to go that a word adds are places it goes on to. */
    ghost predicate Ahead(a: nat, blocks: seq<nat>, blocks': seq<nat>, go: bool, next: nat) {
      && (forall x {:trigger x in blocks'} :: x in blocks' ==> x in blocks || x in Goes(img, a))
      && (go ==> next in Goes(img, a))
    }

    lemma NotedStub(a: nat, n: Notes, n': Notes, e: set<nat>, x: nat)
      requires img.At(a).Valid? && HasTarget(img.At(a).insn) && x == TargetOf(img.At(a).insn) && img.Import(x)
      requires n' == n.(imports := n'.imports) && Gains(n.imports, n'.imports, x)
      ensures Noted(img, a, n, n', e, e)
    {
    }

    lemma NotedCall(a: nat, n: Notes, n': Notes, e: set<nat>, x: nat)
      requires img.At(a).Valid? && img.At(a).insn.IsCall() && !img.At(a).insn.IsGetPc(a)
      requires HasTarget(img.At(a).insn) && x == TargetOf(img.At(a).insn) && !img.Import(x)
      requires n' == n.(queue := n'.queue) && Gains(n.queue, n'.queue, x)
      ensures Noted(img, a, n, n', e, e)
    {
    }

    lemma NotedJump(a: nat, n: Notes, n': Notes, e: set<nat>, e': set<nat>, x: nat)
      requires x in Jumps(img, a) && n' == n.(queue := n'.queue, cross := n'.cross) && Gains(n.cross, n'.cross, x)
      requires e <= e' <= e + {x} && (n'.queue == n.queue || (x in e' && n'.queue == n.queue + [x]))
      ensures Noted(img, a, n, n', e, e')
    {
    }

    /** The import stub a word names. */
    method NoteStub(a: nat, i: Insn, cur: nat, ghost todo: set<nat>)
      requires Tracing(cur, todo) && img.At(a) == Valid(i)
      modifies `imports
      ensures Tracing(cur, todo) && (HasTarget(i) && img.Import(TargetOf(i)) ==> TargetOf(i) in imports)
      ensures Noted(img, a, old(NotesNow()), NotesNow(), w.entries, w.entries)
    {
      hide Midway, Noted, Tracing;
      NotedNone(img, a, NotesNow(), w.entries);
      if HasTarget(i) && img.Import(TargetOf(i)) {
        NoteImport(TargetOf(i), cur, todo);
        NotedStub(a, old(NotesNow()), NotesNow(), w.entries, TargetOf(i));
      }
    }

    /** The function a word calls by name. */
    method NoteCallee(a: nat, i: Insn, cur: nat, ghost todo: set<nat>)
      requires Tracing(cur, todo) && img.At(a) == Valid(i) && i.IsCall()
      modifies `queue, `imports
      ensures Tracing(cur, todo) && Elems(old(queue)) <= Elems(queue) && old(imports) <= imports
      ensures HasTarget(i) && !i.IsGetPc(a) && !img.Import(TargetOf(i)) ==> Sent(TargetOf(i), todo)
      ensures Noted(img, a, old(NotesNow()), NotesNow(), w.entries, w.entries)
    {
      hide Midway, Noted, Tracing, Elems;
      NotedNone(img, a, NotesNow(), w.entries);
      if HasTarget(i) && !i.IsGetPc(a) {
        NoteCall(TargetOf(i), cur, todo);
        if img.Import(TargetOf(i)) {
          NotedStub(a, old(NotesNow()), NotesNow(), w.entries, TargetOf(i));
        } else {
          NotedCall(a, old(NotesNow()), NotesNow(), w.entries, TargetOf(i));
        }
      }
    }

    /** The kinds of instruction, in the order the walk asks. */
    method Route(a: nat, i: Insn, cur: nat, blocks: seq<nat>, ghost todo: set<nat>)
      returns (go: bool, next: nat, blocks': seq<nat>)
      requires Tracing(cur, todo) && Elems(blocks) <= todo && a in w.own && w.own[a] == cur
      requires img.At(a) == Valid(i) && (i.HasDelaySlot() ==> Sent(a + 4, todo))
      modifies `imports, `queue, `cross, `indirects, `w, entryMap
      ensures w == old(w).(entries := w.entries) && old(w).entries <= w.entries
      ensures Tracing(cur, todo + Onward(blocks', go, next)) && Routed(a, cur, todo + Onward(blocks', go, next))
      ensures go ==> next > a
      ensures Elems(blocks) <= Elems(blocks')
      ensures Noted(img, a, old(NotesNow()), NotesNow(), old(w).entries, w.entries)
      ensures Ahead(a, blocks, blocks', go, next) && SiteNoted(img, a, old(indirects), indirects)
    {
      hide Midway, OwnedBy, Agrees, Elems, Follows, Jumps, Stubs, Routed, Noted, Ahead, Gains;
      go, next, blocks' := false, a, blocks;
      ghost var onward := todo;
      Owns(cur, a);
      Kinds(a, i);
      NoteStub(a, i, cur, todo);
      ghost var n := NotesNow();
      NotedNone(img, a, n, w.entries);
      if i.IsCall() {
        NoteCallee(a, i, cur, todo);
        go, next := true, a + 8;
      } else if Returns(i) {
      } else if i.Jr? {
        if a !in indirects { indirects := indirects + [a]; }
      } else if i.Branch? {
        blocks' := TakeBranch(i.target, a, cur, blocks, todo);
        onward := todo + Elems(blocks');
        go, next := true, a + 8;
      } else if i.J? {
        blocks' := TakeJump(i.target, a, cur, blocks, todo);
        onward := todo + Elems(blocks');
      } else {
        go, next := true, a + 4;
      }
      Retarget(cur, onward, todo + Onward(blocks', go, next));
      RoutedBy(a, i, cur, todo + Onward(blocks', go, next));
      NotedThen(img, a, old(NotesNow()), n, NotesNow(), old(w).entries, old(w).entries, w.entries);
      AheadBy(a, i, blocks, blocks', go, next);
    }

    lemma Kinds(a: nat, i: Insn)
      requires img.At(a) == Valid(i)
      ensures (i.Branch? && !i.linking) || i.J? ==> i.target in Jumps(img, a)
    {
    }

    lemma AheadBy(a: nat, i: Insn, blocks: seq<nat>, blocks': seq<nat>, go: bool, next: nat)
      requires img.At(a) == Valid(i)
      requires blocks' == blocks || (HasTarget(i) && !i.IsCall() && Gains(blocks, blocks', TargetOf(i)))
      requires go ==> if i.Plain? then next == a + 4 else i.FallsThrough() && next == a + 8
      ensures Ahead(a, blocks, blocks', go, next)
    {
    }

    lemma First(cur: nat, todo: set<nat>, a: nat)
      requires Tracing(cur, todo)
      ensures OwnedBy(w.own, cur) == {} && a in todo ==> a == cur
      ensures OwnedBy(w.own, cur) != {} ==> cur in w.own && w.own[cur] == cur
      ensures cur in w.started && img.Has(cur)
    {
    }

    lemma Positive(cur: nat, lo: nat, end: nat, count: nat)
      requires Spanned(cur, lo, end, count) && OwnedBy(w.own, cur) != {}
      ensures count > 0
    {
    }

    /** The word at `a` is done: it counts as walked outside a slot, and is no longer a place to go. */
    ghost method FinishWord(a: nat, cur: nat, todo: set<nat>, todo': set<nat>)
      requires Tracing(cur, todo) && Routed(a, cur, todo) && a in w.own && w.own[a] == cur
      requires (a in w.begun ==> a == cur) && forall x :: x in todo - todo' ==> x == a
      modifies `w
      ensures Tracing(cur, todo') && w == old(w).(main := old(w).main + {a})
    {
      Owns(cur, a);
      hide OwnedBy, Joins, Follows, Jumps, Stubs, Closed, Joined, Partition, Imported, Elems, Agrees;
      assert forall x :: x in Follows(img, a) && img.Has(x) ==> Sent(x, todo);
      MidMain(img, w, funcs, imports, cross, cur, Elems(queue), todo, a);
      MarkMain(a);
      Retarget(cur, todo, todo');
    }

    ghost method MarkMain(a: nat)
      requires Agrees() && a in w.own
      modifies `w
      ensures Agrees() && w == old(w).(main := old(w).main + {a})
    {
      hide Index;
      w := w.(main := w.main + {a});
      forall b | img.Has(b) ensures MarksOf(b) { assert old(MarksOf(b)); }
    }

    lemma Nowhere(a: nat, cur: nat, todo: set<nat>)
      requires img.At(a) == Invalid
      ensures Routed(a, cur, todo)
    {
    }

    /** The word claimed, its slot with it, entries added, and the word marked as walked. */
    lemma VisitedParts(a: nat, cur: nat, w0: Walked, w1: Walked, w2: Walked)
      requires w1 == Claimed(w0, a, cur, true)
      requires w2 == Slotted(w1, a, cur).(main := w1.main + {a}, entries := w2.entries)
      ensures w2 == Visited(img, w0, a, cur, w2.entries)
    {
    }

    lemma NothingNoted(a: nat, blocks: seq<nat>, next: nat, sites: seq<nat>)
      requires img.At(a) == Invalid
      ensures Ahead(a, blocks, blocks, false, next) && SiteNoted(img, a, sites, sites)
    {
    }

    lemma NotEarly(cur: nat, todo: set<nat>)
      requires Tracing(cur, todo)
      ensures w.begun <= w.entries
    {
    }

    /** One word of a trace: claimed, its slot with it, and what follows noted. */
    method Visit(a: nat, cur: nat, blocks: seq<nat>, lo: nat, end: nat, count: nat)
      returns (go: bool, next: nat, blocks': seq<nat>, lo': nat, end': nat, count': nat)
      requires Tracing(cur, Elems(blocks) + {a}) && Spanned(cur, lo, end, count)
      requires img.Has(a) && a !in w.own && (a != cur ==> a !in w.entries)
      modifies seen, owner, entryMap, `w, `insns, `imports, `queue, `cross, `indirects
      ensures Tracing(cur, Onward(blocks', go, next)) && Spanned(cur, lo', end', count')
      ensures Unwalked() < old(Unwalked()) && OwnedBy(w.own, cur) != {} && old(w).entries <= w.entries
      ensures w == Visited(img, old(w), a, cur, w.entries)
      ensures Noted(img, a, old(NotesNow()), NotesNow(), old(w).entries, w.entries)
      ensures Ahead(a, blocks, blocks', go, next) && SiteNoted(img, a, old(indirects), indirects)
      ensures lo' == (if a < lo then a else lo) && end' == Farther(a, end)
    {
      hide Midway, OwnedBy, Agrees, Elems, Routed, Spans, Noted, Ahead, SiteNoted, Visited, Slotted;
      ghost var w0 := w;
      ghost var todo := Elems(blocks) + {a};
      First(cur, todo, a);
      NotEarly(cur, todo);
      lo', end', count' := ClaimWord(a, cur, lo, end, count, todo);
      Retarget(cur, todo - {a}, todo);
      Positive(cur, lo', end', count');
      ghost var w1 := w;
      go, next, blocks', lo', end', count' := GoOn(a, cur, blocks, lo', end', count');
      VisitedParts(a, cur, w0, w1, w);
    }

    /** The end of the word at `a`, or of its slot, if that is past `end`. */
    function Farther(a: nat, end: nat): nat {
      var slot := img.At(a).Valid? && img.At(a).insn.HasDelaySlot() && img.Has(a + 4);
      var least := if slot then a + 8 else a + 4;
      if least > end then least else end
    }

    /** The slot of a claimed word, walked with it. */
    ghost function Slotted(w: Walked, a: nat, cur: nat): Walked {
      var slot := img.At(a).Valid? && img.At(a).insn.HasDelaySlot() && img.Has(a + 4) && a + 4 !in w.own;
      if slot then Claimed(w, a + 4, cur, true) else w
    }

    /** A claimed word: its slot, and where it leads. */
    method GoOn(a: nat, cur: nat, blocks: seq<nat>, lo: nat, end: nat, count: nat)
      returns (go: bool, next: nat, blocks': seq<nat>, lo': nat, end': nat, count': nat)
      requires Tracing(cur, Elems(blocks) + {a}) && Spanned(cur, lo, end, count) && count > 0
      requires img.Has(a) && a in w.own && w.own[a] == cur && (a in w.begun ==> a == cur) && OwnedBy(w.own, cur) != {}
      modifies seen, owner, entryMap, `w, `insns, `imports, `queue, `cross, `indirects
      ensures Tracing(cur, Onward(blocks', go, next)) && Spanned(cur, lo', end', count')
      ensures Unwalked() <= old(Unwalked()) && OwnedBy(w.own, cur) != {} && old(w).entries <= w.entries
      ensures w == Slotted(old(w), a, cur).(main := old(w).main + {a}, entries := w.entries)
      ensures Noted(img, a, old(NotesNow()), NotesNow(), old(w).entries, w.entries)
      ensures Ahead(a, blocks, blocks', go, next) && SiteNoted(img, a, old(indirects), indirects)
      ensures lo <= a && a + 4 <= end ==> lo' == lo && end' == Farther(a, end)
    {
      hide Midway, OwnedBy, Agrees, Elems, Routed, Spans, Noted, Ahead, SiteNoted;
      ghost var todo := Elems(blocks) + {a};
      lo', end', count' := lo, end, count;
      match img.decode(a)
      case Invalid =>
        go, next, blocks' := false, a, blocks;
        Nowhere(a, cur, todo);
        NothingNoted(a, blocks, next, indirects);
        NotedNone(img, a, NotesNow(), w.entries);
        FinishWord(a, cur, todo, Onward(blocks, go, next));
      case Valid(i) =>
        if i.HasDelaySlot() {
          lo', end', count' := WalkSlot(a + 4, cur, lo', end', count', todo);
        }
        go, next, blocks' := Route(a, i, cur, blocks, todo);
        FinishWord(a, cur, todo + Onward(blocks', go, next), Onward(blocks', go, next));
    }

    lemma Bounded()
      requires Agrees()
      ensures Unwalked() >= 0
    {
      AtMostWords(img, w.own.Keys);
      assert |w.own.Keys| == |w.own|;
    }

    /** The cursor stops where there is nothing to walk. */
    lemma Stop(cur: nat, blocks: seq<nat>, go: bool, a: nat)
      requires Tracing(cur, Onward(blocks, go, a))
      requires go ==> a in w.own || (a in w.entries && a != cur) || !img.Has(a)
      ensures Tracing(cur, Elems(blocks))
    {
      hide Partition, Closed, Joined, Imported, OwnedBy, Agrees;
      assert img.Has(cur);
      MidRetarget(img, w, funcs, imports, cross, cur, Elems(queue), Onward(blocks, go, a), Elems(blocks));
    }

    /** Everything walked, put off or noted has its reason. */
    ghost predicate Backed(cur: nat, todo: set<nat>)
      reads `w, `origin, `queue, `imports, `cross, `indirects, `funcs
    {
      && origin.img == img && Grounded(img, w, cur, todo) && Sourced(origin, w, NotesNow())
      && Sited(img, w, indirects) && AllEdged(img, w, funcs)
    }

    /** Walking a word that there was reason to walk. */
    lemma VisitBacked(a: nat, cur: nat, blocks: seq<nat>, w0: Walked, n0: Notes, sites0: seq<nat>,
                      blocks': seq<nat>, go: bool, next: nat)
      requires origin.img == img && Grounded(img, w0, cur, Elems(blocks) + {a}) && Sourced(origin, w0, n0)
      requires Sited(img, w0, sites0) && AllEdged(img, w0, funcs) && Others(cur) && img.Has(a)
      requires cur in w0.started && a !in w0.own
      requires w == Visited(img, w0, a, cur, w.entries) && Noted(img, a, n0, NotesNow(), w0.entries, w.entries)
      requires Ahead(a, blocks, blocks', go, next) && SiteNoted(img, a, sites0, indirects)
      ensures Backed(cur, Onward(blocks', go, next))
    {
      hide Grounded, Sourced, Sited, Visited, Noted, SiteNoted, Goes, AllEdged;
      MainOwned(w0, n0);
      VisitAllEdged(img, w0, a, cur, w.entries, funcs);
      ToDoFound(origin, w0, n0, cur, Elems(blocks) + {a}, a);
      VisitGrounded(img, w0, cur, Elems(blocks) + {a}, a, w.entries, Onward(blocks', go, next));
      VisitSourced(origin, w0, n0, a, cur, NotesNow(), w.entries);
      VisitSited(img, w0, a, cur, w.entries, sites0, indirects);
    }

    lemma MainOwned(w0: Walked, n0: Notes)
      requires Sourced(origin, w0, n0)
      ensures w0.main <= w0.own.Keys
    {
    }

    /** No function listed is the one being traced. */
    ghost predicate Others(cur: nat)
      reads `funcs
    {
      forall i: nat :: i < |funcs| ==> funcs[i].addr != cur
    }

    lemma Backing(cur: nat, todo: set<nat>)
      requires Backed(cur, todo) && Tracing(cur, todo)
      ensures origin.img == img && Grounded(img, w, cur, todo) && Sourced(origin, w, NotesNow())
              && Sited(img, w, indirects)
      ensures cur in w.started && AllEdged(img, w, funcs) && Others(cur) && w.main <= w.own.Keys
    {
      hide Grounded, Sited, AllEdged, Found, Entered, Called, StubNamed;
    }

    lemma FewerBacked(cur: nat, todo: set<nat>, cur': nat, todo': set<nat>)
      requires Backed(cur, todo) && (todo' <= {cur'} || (cur' == cur && todo' <= todo))
      ensures Backed(cur', todo')
    {
      hide Grounded, Sourced, Sited, AllEdged;
      StillGrounded(img, w, w, cur, todo, cur', todo');
    }

    lemma VisitEdges(w0: Walked, a: nat, cur: nat, entries: set<nat>, lo: nat, end: nat, lo': nat, end': nat)
      requires Edging(img, w0, cur, lo, end) && a !in w0.own && w0.main <= w0.own.Keys && img.Has(a)
      requires OwnedBy(w0.own, cur) == {} ==> a == cur
      requires lo' == (if a < lo then a else lo) && end' == Farther(a, end)
      ensures Edging(img, Visited(img, w0, a, cur, entries), cur, lo', end')
    {
      hide OwnedBy, Edged, Edging, Visited;
      VisitEdging(img, w0, a, cur, entries, lo, end, lo', end');
      EdgedEdging(Visited(img, w0, a, cur, entries), cur, lo', end');
    }

    lemma EdgedEdging(w': Walked, cur: nat, lo: nat, end: nat)
      requires OwnedBy(w'.own, cur) != {} && Edged(img, w', cur, lo, end)
      ensures Edging(img, w', cur, lo, end)
    {
    }

    /** One block: from `a` to where control leaves or runs into something walked or into an entry. */
    method WalkBlock(a0: nat, cur: nat, blocks0: seq<nat>, lo0: nat, end0: nat, count0: nat)
      returns (blocks: seq<nat>, lo: nat, end: nat, count: nat)
      requires Tracing(cur, Elems(blocks0) + {a0}) && Spanned(cur, lo0, end0, count0)
               && Backed(cur, Elems(blocks0) + {a0})
      requires Edging(img, w, cur, lo0, end0)
      modifies seen, owner, entryMap, `w, `insns, `imports, `queue, `cross, `indirects
      ensures Tracing(cur, Elems(blocks)) && Spanned(cur, lo, end, count) && Backed(cur, Elems(blocks))
      ensures Edging(img, w, cur, lo, end)
      ensures Unwalked() <= old(Unwalked()) && old(w).entries <= w.entries
      ensures Unwalked() == old(Unwalked()) ==> blocks == blocks0 && w == old(w) && queue == old(queue)
    {
      hide Midway, OwnedBy, Agrees, Elems, Spans, Backed, Visited, Noted, Ahead, SiteNoted, Edged, AllEdged, Farther;
      var go, a := true, a0;
      blocks, lo, end, count := blocks0, lo0, end0, count0;
      while go && img.Has(a)
        invariant Tracing(cur, Onward(blocks, go, a)) && Spanned(cur, lo, end, count)
                  && Backed(cur, Onward(blocks, go, a))
        invariant Edging(img, w, cur, lo, end)
        invariant Unwalked() <= old(Unwalked()) && old(w).entries <= w.entries
        invariant Unwalked() == old(Unwalked()) ==>
                  go && a == a0 && blocks == blocks0 && w == old(w) && queue == old(queue)
        decreases Unwalked()
      {
        Bounded();
        var code, entry, known := Look(a);
        if code { break; }
        if a != cur && known { break; }
        ghost var w0, n0, sites0, a1, blocks1 := w, NotesNow(), indirects, a, blocks;
        ghost var lo0, end0 := lo, end;
        Backing(cur, Elems(blocks) + {a});
        First(cur, Elems(blocks) + {a}, a);
        go, a, blocks, lo, end, count := Visit(a, cur, blocks, lo, end, count);
        VisitEdges(w0, a1, cur, w.entries, lo0, end0, lo, end);
        VisitBacked(a1, cur, blocks1, w0, n0, sites0, blocks, go, a);
      }
      Stop(cur, blocks, go, a);
      FewerBacked(cur, Onward(blocks, go, a), cur, Elems(blocks));
    }

    /** trace_function: fails when some other walk has the entry. */
    method Trace(entry: nat) returns (ok: bool, f: Span)
      requires Tracing(entry, {entry}) && OwnedBy(w.own, entry) == {} && Backed(entry, {entry})
      modifies seen, owner, entryMap, `w, `insns, `imports, `queue, `cross, `indirects
      ensures Backed(entry, {}) && (ok ==> Edged(img, w, f.addr, f.start, f.end))
      ensures Tracing(entry, {}) && ok == (OwnedBy(w.own, entry) != {}) && (ok ==> Fair(w, f) && f.addr == entry)
      ensures Unwalked() <= old(Unwalked()) && old(w).entries <= w.entries
      ensures Unwalked() == old(Unwalked()) ==> w == old(w) && queue == old(queue)
    {
      hide Midway, OwnedBy, Agrees, Elems, Spans, Backed, Edged;
      Backing(entry, {entry});
      var blocks, lo, end, count := [entry], entry, entry, 0;
      NoSpan(entry);
      ElemsPush([], entry);
      assert [] + [entry] == [entry] && Elems([]) == {} by { NoElems(); }
      while blocks != []
        invariant Tracing(entry, Elems(blocks)) && Spanned(entry, lo, end, count) && Backed(entry, Elems(blocks))
        invariant Edging(img, w, entry, lo, end)
        invariant Unwalked() <= old(Unwalked()) && old(w).entries <= w.entries
        invariant Unwalked() == old(Unwalked()) ==> w == old(w) && queue == old(queue)
        decreases Unwalked(), |blocks|
      {
        Bounded();
        var a, rest := blocks[|blocks| - 1], blocks[..|blocks| - 1];
        assert blocks == rest + [a];
        ElemsPush(rest, a);
        blocks := rest;
        blocks, lo, end, count := WalkBlock(a, entry, blocks, lo, end, count);
      }
      NoElems();
      First(entry, {}, entry);
      FairNow(w, entry, lo, end, count);
      ok, f := count != 0, Span(entry, lo, end, count);
    }

    lemma NoSpan(cur: nat)
      requires OwnedBy(w.own, cur) == {}
      ensures Spanned(cur, cur, cur, 0)
    {
      Ownerless(w.own, cur);
    }

    /** Between two functions. */
    ghost predicate Standing()
      reads `w, `insns, `funcs, `imports, `cross, `queue, seen, entryMap, owner
    {
      Agrees() && NoneListed(funcs) && Between(img, w, funcs, imports, cross, Elems(queue))
    }

    /** Between two functions, with `q` queued. */
    ghost predicate Resting(q: seq<nat>)
      reads `w, `origin, `imports, `cross, `indirects, `funcs
    {
      && origin.img == img && Grounded(img, w, NO_OWNER, {}) && Sourced(origin, w, Notes(q, imports, cross))
      && Sited(img, w, indirects) && AllEdged(img, w, funcs)
    }

    lemma PopRests(before: seq<nat>, entry: nat)
      requires Resting(before) && before == queue + [entry]
      ensures Resting(queue)
    {
      hide Grounded, Sourced, Sited;
      StartSourced(origin, w, Notes(before, imports, cross), entry, Notes(queue, imports, cross));
    }

    lemma StartBacks(before: seq<nat>, entry: nat, w0: Walked)
      requires origin.img == img && Grounded(img, w0, NO_OWNER, {})
               && Sourced(origin, w0, Notes(before, imports, cross))
      requires Sited(img, w0, indirects) && AllEdged(img, w0, funcs) && before == queue + [entry]
      requires w == w0.(started := w0.started + {entry})
      ensures Backed(entry, {entry})
    {
      hide Grounded, Sourced, AllEdged;
      SameEdged(img, w0, w, funcs);
      StartSourced(origin, w0, Notes(before, imports, cross), entry, Notes(queue, imports, cross));
      StillGrounded(img, w0, w, NO_OWNER, {}, entry, {entry});
    }

    lemma MoreEdged(f: Span)
      requires AllEdged(img, w, funcs) && Edged(img, w, f.addr, f.start, f.end)
      ensures AllEdged(img, w, funcs + [f])
    {
      hide Edged;
    }

    lemma EndRests(entry: nat)
      requires Backed(entry, {})
      ensures Resting(queue)
    {
      hide Grounded, Sourced, Sited;
      FewerBacked(entry, {}, NO_OWNER, {});
    }

    /** One entry taken from the queue, when it is in range and new. */
    method TraceEntry(entry: nat, ghost before: seq<nat>)
      requires Agrees() && NoneListed(funcs) && Between(img, w, funcs, imports, cross, Elems(before))
      requires before == queue + [entry] && Resting(before)
      modifies seen, owner, entryMap, `w, `insns, `imports, `queue, `cross, `indirects, `funcs
      ensures Resting(queue)
      ensures Standing() && Unwalked() <= old(Unwalked()) && old(w).entries <= w.entries
      ensures Unwalked() == old(Unwalked()) ==> queue == old(queue)
    {
      hide Midway, OwnedBy, Between, Elems, Agrees, NoneListed, Resting;
      ElemsPush(queue, entry);
      PopRests(before, entry);
      if !img.Has(entry) {
        DropQueued(img, w, funcs, imports, cross, Elems(before), Elems(queue), entry);
        return;
      }
      var code, taken, known := Look(entry);
      if taken {
        DropQueued(img, w, funcs, imports, cross, Elems(before), Elems(queue), entry);
        return;
      }
      TraceNew(entry, before);
    }

    method TraceNew(entry: nat, ghost before: seq<nat>)
      requires Agrees() && NoneListed(funcs) && Between(img, w, funcs, imports, cross, Elems(before))
      requires Elems(before) <= Elems(queue) + {entry} && img.Has(entry) && entry !in w.started
      requires before == queue + [entry] && Resting(before)
      modifies seen, owner, entryMap, `w, `insns, `imports, `queue, `cross, `indirects, `funcs
      ensures Resting(queue)
      ensures Standing() && Unwalked() <= old(Unwalked()) && old(w).entries <= w.entries
      ensures Unwalked() == old(Unwalked()) ==> queue == old(queue)
    {
      hide Midway, OwnedBy, Between, Elems, Agrees, NoneListed, Partition, Fair, Grounded, Sourced, Sited, Backed;
      Sound();
      ghost var w0 := w;
      StartMidway(img, w, funcs, imports, cross, Elems(before), Elems(queue), entry);
      TakeUp(entry);
      StartBacks(before, entry, w0);
      var ok, f := Trace(entry);
      Owner(entry);
      NoneOwned(w, funcs, entry);
      EndMidway(img, w, funcs, imports, cross, Elems(queue), if ok then f else Span(entry, 0, 0, 0));
      EndRests(entry);
      if ok {
        MoreListed(funcs, f);
        MoreEdged(f);
        funcs := funcs + [f];
      }
    }

    static lemma MoreListed(funcs: seq<Span>, f: Span)
      requires NoneListed(funcs) && f.addr != NO_OWNER
      ensures NoneListed(funcs + [f])
    {
    }

    lemma Sound()
      requires Agrees()
      ensures img.Sane()
    {
    }

    lemma Owner(cur: nat)
      requires Tracing(cur, {})
      ensures Partition(w, funcs, cur) && cur != NO_OWNER
    {
      hide Partition, OwnedBy;
      assert img.Has(cur);
    }

    /** The queue until it is empty: every push is paid for by a word walked for the first time. */
    method Drain()
      requires Standing() && Resting(queue)
      modifies seen, owner, entryMap, `w, `insns, `imports, `queue, `cross, `indirects, `funcs
      ensures Standing() && queue == [] && old(w).entries <= w.entries && Resting([])
    {
      hide Midway, OwnedBy, Between, Elems, Agrees, NoneListed, Resting;
      while queue != []
        invariant Standing() && old(w).entries <= w.entries && Resting(queue)
        decreases Unwalked(), |queue|
      {
        Bounded();
        ghost var before := queue;
        var entry := queue[|queue| - 1];
        queue := queue[..|queue| - 1];
        assert before == queue + [entry];
        TraceEntry(entry, before);
      }
    }

    /** A clean slate; the entry map and the imports stay. */
    method Reset()
      requires Agrees()
      modifies seen, owner, `w, `insns, `funcs
      ensures Agrees() && funcs == [] && w == Walked(map[], {}, old(w).entries, {}, old(w).entries)
    {
      var i := 0;
      while i < img.words
        invariant 0 <= i <= img.words
        invariant forall j: nat :: j < i ==> seen[j] == Mark(false, false) && owner[j] == NO_OWNER
        modifies seen, owner
      {
        seen[i] := Mark(false, false);
        owner[i] := NO_OWNER;
        i := i + 1;
      }
      insns, funcs, w := 0, [], Walked(map[], {}, w.entries, {}, w.entries);
      hide Index;
      forall a | img.Has(a) ensures MarksOf(a) { assert old(MarksOf(a)); }
    }

    constructor (img: Image)
      requires img.Sane()
      ensures this.img == img && Standing() && w == Walked(map[], {}, {}, {}, {}) && queue == [] && imports == []
              && cross == []
      ensures indirects == [] && fresh(seen) && fresh(owner) && fresh(entryMap)
    {
      this.img := img;
      seen := new Mark[img.words](_ => Mark(false, false));
      entryMap := new bool[img.words](_ => false);
      owner := new nat[img.words](_ => NO_OWNER);
      queue, imports, indirects, cross, funcs, insns := [], [], [], [], [], 0;
      w := Walked(map[], {}, {}, {}, {});
      new;
      hide Index;
      forall a | img.Has(a) ensures MarksOf(a) { assert Index(a) < img.words; }
      Fresh(img, {}, {}, [], []);
      NoElems();
    }

    /** Only entries are queued. */
    static ghost predicate Entries(q: seq<nat>, w: Walked) { forall x {:trigger x in q} :: x in q ==> x in w.entries }

    /** A seed or a harvested address: an entry, and queued. A seed is queued even if it is one already. */
    method Seed(x: nat, always: bool)
      requires Standing()
      modifies entryMap, `w, `queue
      ensures Entries(old(queue), old(w)) ==> Entries(queue, w)
      ensures Standing() && w == old(w).(entries := old(w).entries + if img.Has(x) then {x} else {})
    {
      hide Between, Agrees, Elems;
      if !img.Has(x) { return; }
      var code, taken, known := Look(x);
      if known && !always {
        assert w.entries + {x} == w.entries;
        return;
      }
      AddEntry(img, w, funcs, imports, cross, Elems(queue), x);
      ElemsPush(queue, x);
      MarkEntry(x);
      queue := queue + [x];
    }

    method SeedAll(xs: seq<nat>, always: bool)
      requires Standing()
      modifies entryMap, `w, `queue
      ensures Entries(old(queue), old(w)) ==> Entries(queue, w)
      ensures Standing() && w == old(w).(entries := w.entries)
      ensures w.entries == old(w).entries + set x | x in xs && img.Has(x)
    {
      hide Standing, Entries;
      var i := 0;
      while i < |xs|
        invariant 0 <= i <= |xs| && Standing() && w == old(w).(entries := w.entries)
        invariant Entries(old(queue), old(w)) ==> Entries(queue, w)
        invariant w.entries == old(w).entries + set x | x in xs[..i] && img.Has(x)
      {
        Seed(xs[i], always);
        assert xs[..i + 1] == xs[..i] + [xs[i]];
        i := i + 1;
      }
      assert xs[..i] == xs;
    }

    /** Entries added between rounds, before any of them is queued. */
    method Promote(targets: seq<nat>) returns (added: nat)
      requires Agrees()
      modifies entryMap, `w
      ensures Agrees() && w == old(w).(entries := w.entries)
      ensures w.entries == old(w).entries + set x | x in targets && img.Has(x)
      ensures added == 0 <==> w.entries == old(w).entries
    {
      hide Agrees;
      added := 0;
      var i := 0;
      while i < |targets|
        invariant 0 <= i <= |targets| && Agrees() && w == old(w).(entries := w.entries)
        invariant w.entries == old(w).entries + set x | x in targets[..i] && img.Has(x)
        invariant added == 0 <==> w.entries == old(w).entries
      {
        var t := targets[i];
        assert targets[..i + 1] == targets[..i] + [t];
        if img.Has(t) {
          var code, taken, known := Look(t);
          if !known {
            MarkEntry(t);
            added := added + 1;
          }
        }
        i := i + 1;
      }
      assert targets[..i] == targets;
    }

    /** Every entry, in address order. */
    method QueueEntries()
      requires Agrees() && queue == []
      modifies `queue
      ensures Elems(queue) == w.entries
    {
      hide Agrees, EntriesBelow;
      Bounds();
      EntriesFirst();
      var i := 0;
      while i < img.words
        invariant 0 <= i <= img.words && EntriesBelow(queue, i)
      {
        EntriesStep(queue, i);
        if entryMap[i] { queue := queue + [img.base + 4 * i]; }
        i := i + 1;
      }
      EntriesAll(queue);
    }

    /** The entries before word i. */
    ghost predicate EntriesBelow(q: seq<nat>, i: nat)
      reads `w
    {
      forall x {:trigger x in q} {:trigger x in w.entries} :: x in q <==> x in w.entries && x < img.base + 4 * i
    }

    lemma EntriesFirst()
      requires Agrees()
      ensures EntriesBelow([], 0)
    {
      hide MarksOf;
    }

    lemma EntriesStep(q: seq<nat>, i: nat)
      requires Agrees() && i < img.words && entryMap.Length == img.words && EntriesBelow(q, i)
      ensures EntriesBelow(if entryMap[i] then q + [img.base + 4 * i] else q, i + 1)
    {
      var a := img.base + 4 * i;
      assert Index(a) == i && MarksOf(a);
      hide MarksOf, EntriesBelow;
      forall b | b in w.entries && b < img.base + 4 * (i + 1) ensures b <= a { assert img.Has(b); }
      OneEntryMore(q, i);
    }

    lemma OneEntryMore(q: seq<nat>, i: nat)
      requires EntriesBelow(q, i)
      requires forall b :: b in w.entries && b < img.base + 4 * (i + 1) ==> b <= img.base + 4 * i
      ensures var a := img.base + 4 * i; EntriesBelow(if a in w.entries then q + [a] else q, i + 1)
    {
    }

    lemma EntriesAll(q: seq<nat>)
      requires Agrees() && EntriesBelow(q, img.words)
      ensures Elems(q) == w.entries
    {
      hide MarksOf;
    }

    /** The rounds of a_discover after the first walk: promote what the computed jumps and the notes of shared
        blocks ask for, and walk again from a clean slate, until nothing is added or eight walks are done. */
    method Rounds(tables: nat -> seq<nat>, hasImage: bool) returns (settled: bool)
      requires Standing() && queue == [] && Resting([]) && origin.tables == tables
      modifies seen, owner, entryMap, `w, `insns, `imports, `queue, `cross, `indirects, `funcs
      ensures Standing() && queue == [] && old(w).entries <= w.entries
      ensures settled ==> cross == [] && indirects == [] && (hasImage ==> Resolved(img, tables, w))
      ensures Grounded(img, w, NO_OWNER, {}) && Sourced(origin, w, NotesNow()) && AllEdged(img, w, funcs)
      ensures !settled ==> Sited(img, w, indirects) && |w.entries| >= |old(w).entries| + 7
    {
      hide Standing, Elems, Resting, Grounded, Sourced, Sited, Entered, Resolved;
      var round := 1;
      while round < 8
        invariant 1 <= round <= 8 && Standing() && queue == [] && old(w).entries <= w.entries && Resting([])
        invariant |w.entries| >= |old(w).entries| + round - 1
      {
        Rests();
        if !hasImage && cross == [] && indirects == [] { return true; }
        var targets := if hasImage then Tables(tables, indirects) + cross else cross;
        TargetsEnter(tables);
        ghost var w0, sites := w, indirects;
        var more := Again(targets);
        if !more {
          if hasImage { TablesResolved(tables, w0, sites, targets); }
          return true;
        }
        ghost var known := w.entries;
        Drain();
        FewerEntries(known, w.entries);
        round := round + 1;
      }
      Rests();
      settled := false;
    }

    lemma Rests()
      requires Resting([]) && queue == []
      ensures Grounded(img, w, NO_OWNER, {}) && Sourced(origin, w, NotesNow()) && Sited(img, w, indirects)
      ensures AllEdged(img, w, funcs)
    {
      hide Grounded, Sourced, Sited, AllEdged;
    }

    /** What the tables hold and the notes of shared blocks may become entries. */
    lemma TargetsEnter(tables: nat -> seq<nat>)
      requires Resting([]) && origin.tables == tables
      ensures forall x :: x in Tables(tables, indirects) || x in cross ==> Entered(origin, x)
    {
      hide Found, Entered, StubNamed, Called, Grounded;
      forall x | x in Tables(tables, indirects) ensures Entered(origin, x) {
        var s := TableOf(tables, indirects, x);
        TableEnters(origin, s, x);
      }
    }

    /** The table an address comes from; and every table is looked at. */
    static lemma {:induction false} TableOf(tables: nat -> seq<nat>, sites: seq<nat>, x: nat) returns (s: nat)
      requires x in Tables(tables, sites)
      ensures s in sites && x in tables(s)
    {
      if x in tables(sites[0]) { s := sites[0]; } else { s := TableOf(tables, sites[1..], x); }
    }

    static lemma {:induction false} TableIn(tables: nat -> seq<nat>, sites: seq<nat>, s: nat, x: nat)
      requires s in sites && x in tables(s)
      ensures x in Tables(tables, sites)
    {
      if s != sites[0] { TableIn(tables, sites[1..], s, x); }
    }

    lemma TablesResolved(tables: nat -> seq<nat>, w0: Walked, sites: seq<nat>, targets: seq<nat>)
      requires Sited(img, w0, sites) && w == w0 && forall x :: x in Tables(tables, sites) ==> x in targets
      requires forall x :: x in targets && img.Has(x) ==> x in w.entries
      ensures Resolved(img, tables, w)
    {
      hide Site;
      forall a, x | a in w.main && Site(img, a) && x in tables(a) && img.Has(x) ensures x in w.entries {
        TableIn(tables, sites, a, x);
      }
    }

    static function Tables(tables: nat -> seq<nat>, sites: seq<nat>): seq<nat> {
      if sites == [] then [] else tables(sites[0]) + Tables(tables, sites[1..])
    }

    lemma Imports()
      requires Standing()
      ensures ImportList(img, imports)
    {
    }

    lemma Parts()
      requires Agrees()
      ensures forall a :: a in w.entries ==> img.Has(a)
    {
    }

    /** Promotions, and the clean slate if there were any. */
    method Again(targets: seq<nat>) returns (more: bool)
      requires Standing() && queue == [] && forall x :: x in cross ==> x in targets
      requires Resting([]) && forall x :: x in targets ==> Entered(origin, x)
      modifies seen, owner, entryMap, `w, `insns, `queue, `cross, `indirects, `funcs
      ensures Standing() && cross == [] && indirects == [] && old(w).entries <= w.entries
      ensures !more ==> w == old(w) && queue == []
      ensures more <==> exists x :: x in targets && img.Has(x) && x !in old(w).entries
      ensures if more then Resting(queue) else Grounded(img, w, NO_OWNER, {}) && Sourced(origin, w, NotesNow())
      ensures AllEdged(img, w, funcs) && (more ==> |w.entries| > |old(w).entries|)
    {
      hide Agrees, Between, Elems, Grounded, Sourced, Sited, Entered, Edged;
      ghost var was := w;
      ghost var notes := cross;
      Imports();
      StartUnnoted();
      Promoted(targets);
      cross, indirects := [], [];
      var added := Promote(targets);
      more := added != 0;
      if !more {
        Settle(img, w, funcs, imports, notes, Elems(queue));
        return;
      }
      Parts();
      MoreEntries(was.entries, w.entries);
      Reset();
      QueueEntries();
      Fresh(img, w.entries, w.entries, imports, []);
      FreshRests();
    }

    static lemma MoreEntries(s: set<nat>, t: set<nat>)
      requires s <= t && s != t
      ensures |t| > |s|
    {
      var x :| x in t && x !in s;
      assert t == s + (t - s) && x in t - s;
    }

    static lemma FewerEntries(s: set<nat>, t: set<nat>)
      requires s <= t
      ensures |s| <= |t|
    {
      assert t == s + (t - s);
    }

    /** The notes of shared blocks can be dropped. */
    lemma StartUnnoted()
      requires Resting([])
      ensures Sourced(origin, w, Notes([], imports, [])) && forall x :: x in imports ==> StubNamed(origin, x)
    {
      hide Found, Entered, StubNamed, Called, Grounded, Sited;
    }

    lemma Promoted(targets: seq<nat>)
      requires Resting([]) && forall x :: x in targets ==> Entered(origin, x)
      ensures forall x :: x in w.entries || x in targets ==> Entered(origin, x)
    {
      hide Found, Entered, StubNamed, Called, Grounded, Sited;
    }

    lemma FreshRests()
      requires origin.img == img && w.own == map[] && w.main == {} && w.started == {} && cross == indirects == []
      requires Elems(queue) == w.entries && forall x :: x in w.entries ==> Entered(origin, x)
      requires funcs == [] && forall x :: x in imports ==> StubNamed(origin, x)
      ensures Resting(queue)
    {
      hide Grounded, Sourced, Sited, Entered, StubNamed;
      forall x | x in queue ensures x in w.entries { assert x in Elems(queue); }
      FreshSourced(origin, w, Notes(queue, imports, []));
    }

    /** The linear harvest of jal targets over the scanned range. */
    method HarvestCalls(scanBase: nat, scanSize: nat)
      requires Standing()
      modifies entryMap, `w, `queue
      ensures Standing() && w == old(w).(entries := w.entries)
      ensures forall x :: x in w.entries <==> x in old(w).entries || Harvested(img, scanBase, scanSize, x)
      ensures Entries(old(queue), old(w)) ==> Entries(queue, w)
    {
      hide Standing, Entries, Harvested;
      var k := 0;
      HarvestStep(img, scanBase, 0, scanSize);
      while 4 * k + 4 <= scanSize
        invariant Standing() && w == old(w).(entries := w.entries) && 4 * k <= scanSize
        invariant forall x :: x in w.entries <==> x in old(w).entries || Harvested(img, scanBase, 4 * k, x)
        invariant Entries(old(queue), old(w)) ==> Entries(queue, w)
      {
        var a := scanBase + 4 * k;
        HarvestStep(img, scanBase, k, scanSize);
        if img.Has(a) {
          match img.decode(a)
          case Invalid =>
          case Valid(i) =>
            if i.Jal? && !i.IsGetPc(a) && img.Has(i.target) && !img.Import(i.target) {
              Seed(i.target, false);
            }
        }
        k := k + 1;
      }
      HarvestStep(img, scanBase, k, scanSize);
    }

    /** bytes_reached, by counting the marks. */
    method CountBytes() returns (bytes: nat)
      requires Agrees()
      ensures bytes == 4 * |w.own|
    {
      bytes := 0;
      ghost var s: set<nat> := {};
      var i := 0;
      hide Agrees, CodeBelow;
      Bounds();
      CodeFirst();
      while i < img.words
        invariant 0 <= i <= img.words && bytes == 4 * |s| && CodeBelow(s, i)
      {
        CodeStep(s, i);
        if seen[i].code {
          bytes := bytes + 4;
          s := s + {img.base + 4 * i};
        }
        i := i + 1;
      }
      CodeAll(s);
    }

    /** The walked words before word i. */
    ghost predicate CodeBelow(s: set<nat>, i: nat)
      reads `w
    {
      forall a {:trigger a in s} {:trigger a in w.own} :: a in s <==> a in w.own && a < img.base + 4 * i
    }

    lemma Bounds()
      requires Agrees()
      ensures seen.Length == entryMap.Length == img.words
    {
    }

    lemma CodeFirst()
      requires Agrees()
      ensures CodeBelow({}, 0)
    {
      hide MarksOf;
    }

    lemma CodeStep(s: set<nat>, i: nat)
      requires Agrees() && i < img.words && seen.Length == img.words && CodeBelow(s, i)
      ensures img.base + 4 * i !in s
      ensures CodeBelow(if seen[i].code then s + {img.base + 4 * i} else s, i + 1)
    {
      var a := img.base + 4 * i;
      assert Index(a) == i && MarksOf(a);
      hide MarksOf;
      forall b | b in w.own && b < img.base + 4 * (i + 1) ensures b <= a { assert img.Has(b); }
    }

    lemma CodeAll(s: set<nat>)
      requires Agrees() && CodeBelow(s, img.words)
      ensures |s| == |w.own|
    {
      hide MarksOf;
      assert s == w.own.Keys;
    }

    /** a_discover: entries from the seeds and the harvests, the first walk, the later rounds, and the totals. */
    method Discover(seeds: seq<nat>, scanCalls: bool, scanBase: nat, scanSize: nat, pointers: seq<nat>,
                    tables: nat -> seq<nat>, hasImage: bool)
      returns (order: seq<Span>, bytes: nat, settled: bool)
      requires Standing() && queue == imports == cross == indirects == [] && funcs == []
      requires w == Walked(map[], {}, {}, {}, {})
      modifies seen, owner, entryMap, `w, `origin, `insns, `imports, `queue, `cross, `indirects, `funcs
      ensures Standing() && Complete(img, w) && (settled ==> Settled(img, w) && indirects == [])
      ensures (forall x {:trigger x in w.entries} :: x in w.entries ==> Kept(w, funcs, x))
              && (settled ==> Lands(img, w, funcs))
      ensures origin.img == img && origin.tables == tables && origin.given <= w.entries
      ensures var base := if scanSize != 0 then scanBase else img.base;
              var size := if scanSize != 0 then scanSize else 4 * img.words;
              forall x :: x in origin.given <==> Given(img, seeds, scanCalls, base, size, pointers, x)
      ensures Grounded(img, w, NO_OWNER, {}) && Sourced(origin, w, Notes([], imports, cross)) && AllEdged(img, w, funcs)
      ensures if settled then hasImage ==> Resolved(img, tables, w)
              else Sited(img, w, indirects) && |w.entries| >= |origin.given| + 7
      ensures forall x :: x in seeds && img.Has(x) ==> x in w.own
      ensures insns == |w.own| == Total(funcs) && bytes == 4 * insns
      ensures multiset(order) == multiset(funcs) && Ascending(order)
    {
      hide Standing, Elems, Complete, Settled, Total, Kept, Lands, Grounded, Sourced, Sited, Resolved, Entered,
           AllEdged,
           Given, Resting, Entries;
      Collect(seeds, scanCalls, if scanSize != 0 then scanBase else img.base,
              if scanSize != 0 then scanSize else 4 * img.words, pointers);
      Begin();
      origin := Origin(img, w.entries, tables);
      BeginRests();
      ghost var known := w.entries;
      Drain();
      FewerEntries(known, w.entries);
      settled := Rounds(tables, hasImage);
      Finished(settled);
      bytes := CountBytes();
      order := SortSpans(funcs);
    }

    /** The addresses a discovery starts from. */
    method Collect(seeds: seq<nat>, scanCalls: bool, base: nat, size: nat, pointers: seq<nat>)
      requires Standing() && queue == [] && w.entries == {}
      modifies entryMap, `w, `queue
      ensures Standing() && w == old(w).(entries := w.entries) && Entries(queue, w)
      ensures forall x :: x in w.entries <==> Given(img, seeds, scanCalls, base, size, pointers, x)
      ensures forall x :: x in seeds && img.Has(x) ==> x in w.entries
    {
      hide Standing, Entries, Harvested;
      NoneQueued();
      HarvestsIn(base, size);
      SeedAll(seeds, true);
      if scanCalls {
        HarvestCalls(base, size);
        SeedAll(pointers, false);
      }
    }

    lemma NoneQueued()
      ensures Entries([], w)
    {
    }

    lemma HarvestsIn(base: nat, size: nat)
      ensures forall x :: Harvested(img, base, size, x) ==> img.Has(x)
    {
    }

    lemma BeginRests()
      requires origin.img == img && origin.given == w.entries && Entries(queue, w)
               && imports == cross == indirects == []
      requires w.own == map[] && w.main == {} && w.started == {} && funcs == []
      ensures Resting(queue)
    {
      hide Grounded, Sourced, Sited, StubNamed, Targeted;
      FreshSourced(origin, w, NotesNow());
    }

    /** The entries as the first walk finds them. */
    ghost method Begin()
      requires Standing() && w.own == map[]
      modifies `w
      ensures Standing() && w == old(w).(begun := w.entries) && (Entries(queue, old(w)) ==> Entries(queue, w))
    {
      hide Index, Partition, Closed, Joined, Imported, Queued, OwnedBy;
      StillBetween();
      w := w.(begun := w.entries);
      forall b | img.Has(b) ensures MarksOf(b) { assert old(MarksOf(b)); }
    }

    lemma StillBetween()
      requires Standing() && w.own == map[]
      ensures Between(img, w.(begun := w.entries), funcs, imports, cross, Elems(queue))
    {
      hide OwnedBy, Jumps, Follows, Stubs;
      SamePartition(w, w.(begun := w.entries), funcs, NO_OWNER);
    }

    lemma Finished(settled: bool)
      requires Standing() && queue == [] && (settled ==> cross == [])
      ensures Agrees() && Complete(img, w) && Total(funcs) == |w.own| == insns && w.entries <= w.own.Keys
      ensures settled ==> Settled(img, w) && Lands(img, w, funcs)
      ensures forall x {:trigger x in w.entries} :: x in w.entries ==> Kept(w, funcs, x)
      ensures Distinct(funcs)
    {
      hide Agrees, Between, NoneListed, Settled, Total, Kept, Lands;
      NoElems();
      forall x | x in w.entries ensures Kept(w, funcs, x) { EntryKept(img, w, funcs, imports, cross, x); }
      if settled { SettledLands(img, w, funcs, imports); }
      DoneIsComplete(img, w, funcs, imports, cross);
      if settled { DoneIsSettled(img, w, funcs, imports); }
      Counted();
    }

    lemma Counted()
      requires Standing()
      ensures insns == |w.own| && Distinct(funcs)
    {
    }
  }

  predicate Ascending(s: seq<Span>) { forall i: nat, j: nat :: i < j < |s| ==> s[i].addr < s[j].addr }

  /** The result in address order, as the emitter's binary search needs it. */
  method SortSpans(s: seq<Span>) returns (r: seq<Span>)
    requires Distinct(s)
    ensures multiset(r) == multiset(s) && Ascending(r)
  {
    r := [];
    var i := 0;
    while i < |s|
      invariant 0 <= i <= |s| && multiset(r) == multiset(s[..i]) && Ascending(r)
    {
      assert s[..i + 1] == s[..i] + [s[i]];
      forall q | q in r ensures q.addr != s[i].addr {
        assert q in multiset(s[..i]);
        var j: nat :| j < i && s[j] == q;
      }
      r := Place(r, s[i]);
      i := i + 1;
    }
    assert s[..i] == s;
  }

  method Place(r: seq<Span>, f: Span) returns (t: seq<Span>)
    requires Ascending(r) && forall q :: q in r ==> q.addr != f.addr
    ensures multiset(t) == multiset(r) + multiset{f} && Ascending(t)
  {
    var k := 0;
    while k < |r| && r[k].addr < f.addr
      invariant 0 <= k <= |r| && forall i: nat :: i < k ==> r[i].addr < f.addr
    {
      k := k + 1;
    }
    hide Ascending;
    if k < |r| { assert r[k] in r; }
    t := r[..k] + [f] + r[k..];
    Placed(r, k, f, t);
    assert r == r[..k] + r[k..];
  }

  lemma Placed(r: seq<Span>, k: nat, f: Span, t: seq<Span>)
    requires Ascending(r) && k <= |r| && t == r[..k] + [f] + r[k..]
    requires k > 0 ==> r[k - 1].addr < f.addr
    requires k < |r| ==> f.addr < r[k].addr
    ensures Ascending(t)
  {
    forall i: nat, j: nat | i < j < |t|
      ensures t[i].addr < t[j].addr
    {
      assert i < k ==> t[i] == r[i] && r[i].addr <= r[k - 1].addr;
      assert j > k ==> t[j] == r[j - 1] && r[k].addr <= r[j - 1].addr;
      assert i > k ==> t[i] == r[i - 1];
      assert j < k ==> t[j] == r[j];
    }
  }
}

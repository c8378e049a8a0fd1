/** The display-list walker with its stall pointer (ge.c). */
module DisplayList {

  type word = bv32

  const JUMP: word := 0x08
  const CALL: word := 0x0A
  const RET: word := 0x0B
  const END: word := 0x0C
  const FINISH: word := 0x0F
  const BASE: word := 0x10
  const OFFSET_ADDR: word := 0x13
  const ORIGIN_ADDR: word := 0x14

  const DEPTH: nat := 8
  const BUDGET: nat := 0x40_0000

  /** Guest memory, and what a word does to the draw state, given the base register. What is drawn stays abstract:
      any state, including a log of the commands. */
  datatype Gpu<!D> = Gpu(mem: word -> word, exec: (word, word, D) -> D)

  /** A list being walked, with the calls open in it. */
  datatype Walk<D> = Walk(list: word, base: word, origin: word, stack: seq<word>, draw: D, done: bool)

  function Cmd(w: word): word { w >> 24 }

  /** The address a jump or call goes to. */
  function Target(base: word, w: word): word { base | (w & 0x00FF_FFFC) }

  function Next(list: word): word { list + 4 }

  /** What BASE and OFFSET_ADDR set the base register to. */
  function HighBase(w: word): word { (w & 0x00FF_0000) << 8 }

  function OffsetBase(w: word): word { w << 8 }

  function Push(stack: seq<word>, x: word, depth: nat): seq<word> { if |stack| < depth then stack + [x] else stack }

  /** One command; calls nest up to `depth`. */
  function Step<D>(g: Gpu<D>, depth: nat, w: Walk<D>): Walk<D> {
    var x := g.mem(w.list);
    Apply(depth, w, x, g.exec(x, w.base, w.draw))
  }

  /** What the word x, fetched at the read pointer, does to the walk; `draw` is what it does to the draw state. */
  function Apply<D>(depth: nat, w: Walk<D>, x: word, draw: D): Walk<D> {
    Walk(ListAfter(w, x), BaseAfter(w.base, x), if Cmd(x) == ORIGIN_ADDR then w.list else w.origin,
         StackAfter(depth, w, x), draw, w.done || Cmd(x) == END || Cmd(x) == FINISH)
  }

  function ListAfter<D>(w: Walk<D>, x: word): word {
    if Cmd(x) == JUMP || Cmd(x) == CALL then Target(w.base, x)
    else if Cmd(x) == RET then ReturnTo(w)
    else Next(w.list)
  }

  /** Where a return goes. */
  function ReturnTo<D>(w: Walk<D>): word { if w.stack == [] then Next(w.list) else w.stack[|w.stack| - 1] }

  function BaseAfter(base: word, x: word): word {
    if Cmd(x) == BASE then HighBase(x) else if Cmd(x) == OFFSET_ADDR then OffsetBase(x) else base
  }

  function StackAfter<D>(depth: nat, w: Walk<D>, x: word): seq<word> {
    if Cmd(x) == CALL then Push(w.stack, Next(w.list), depth)
    else if Cmd(x) == RET && w.stack != [] then w.stack[..|w.stack| - 1]
    else w.stack
  }

  /** Where the walk goes on, by the command's code in the top byte: 0x08 jumps and 0x0A calls, to the word the 24 bits
      below name within the base's high bits; 0x0B returns, or goes on if nothing is open. */
  lemma GoesOn<D>(g: Gpu<D>, w: Walk<D>)
    ensures var x := g.mem(w.list);
      Step(g, DEPTH, w).list ==
        if x >> 24 == 0x08 || x >> 24 == 0x0A then w.base | (x & 0x00FF_FFFC)
        else if x >> 24 == 0x0B && w.stack != [] then w.stack[|w.stack| - 1] else w.list + 4
  {
    hide StackAfter, BaseAfter;
  }

  /** A call remembers the next word, up to eight deep; a return forgets it. */
  lemma CallsNest<D>(g: Gpu<D>, w: Walk<D>)
    ensures var x := g.mem(w.list);
      Step(g, DEPTH, w).stack ==
        if x >> 24 == 0x0A && |w.stack| < 8 then w.stack + [w.list + 4]
        else if x >> 24 == 0x0B && w.stack != [] then w.stack[..|w.stack| - 1] else w.stack
  {
    hide ListAfter, BaseAfter;
  }

  /** 0x10 sets the base from bits 16 to 23 of the word, and 0x13 from all 24. */
  lemma BaseSet<D>(g: Gpu<D>, w: Walk<D>)
    ensures var x := g.mem(w.list);
      Step(g, DEPTH, w).base ==
        if x >> 24 == 0x10 then (x & 0x00FF_0000) << 8 else if x >> 24 == 0x13 then x << 8 else w.base
  {
    hide ListAfter, StackAfter;
  }

  /** 0x0C and 0x0F end the list, 0x14 keeps where it stands, and every word is drawn with the base it found. */
  lemma Ends<D>(g: Gpu<D>, w: Walk<D>)
    ensures var x, t := g.mem(w.list), Step(g, DEPTH, w);
      && (t.done <==> w.done || x >> 24 == 0x0C || x >> 24 == 0x0F)
      && t.origin == (if x >> 24 == 0x14 then w.list else w.origin) && t.draw == g.exec(x, w.base, w.draw)
  {
    hide ListAfter, StackAfter, BaseAfter;
  }

  predicate Stopped<D>(w: Walk<D>, stall: word) { w.done || (stall != 0 && w.list == stall) }

  /** Up to n commands, to the end of the list or the stall address. */
  function Run<D>(g: Gpu<D>, depth: nat, stall: word, w: Walk<D>, n: nat): Walk<D>
    decreases n
  {
    if n == 0 || Stopped(w, stall) then w else Run(g, depth, stall, Step(g, depth, w), n - 1)
  }

  /** What the walk would do with no stall. */
  function Steps<D>(g: Gpu<D>, depth: nat, w: Walk<D>, n: nat): Walk<D>
    decreases n
  {
    if n == 0 then w else Steps(g, depth, Step(g, depth, w), n - 1)
  }

  /** The commands a run executes. */
  function Count<D>(g: Gpu<D>, depth: nat, stall: word, w: Walk<D>, n: nat): (k: nat)
    ensures k <= n
    decreases n
  {
    if n == 0 || Stopped(w, stall) then 0 else 1 + Count(g, depth, stall, Step(g, depth, w), n - 1)
  }

  /** A run is a number of steps, none of which starts at the stall or past the end. */
  lemma {:induction false} RunIsSteps<D>(g: Gpu<D>, depth: nat, stall: word, w: Walk<D>, n: nat)
    ensures Run(g, depth, stall, w, n) == Steps(g, depth, w, Count(g, depth, stall, w, n))
    ensures Count(g, depth, stall, w, n) < n ==> Stopped(Run(g, depth, stall, w, n), stall)
    decreases n
  {
    hide Step, Stopped;
    if n > 0 && !Stopped(w, stall) { RunIsSteps(g, depth, stall, Step(g, depth, w), n - 1); }
  }

  /** The fetches of the first n steps read the same in both memories: the CPU has not rewritten what was executed. */
  predicate SameFetches<D>(g: Gpu<D>, h: Gpu<D>, depth: nat, w: Walk<D>, n: nat)
    decreases n
  {
    n == 0 || (g.mem(w.list) == h.mem(w.list) && SameFetches(g, h, depth, Step(g, depth, w), n - 1))
  }

  /** No step of the first n starts at the stall or after the end. */
  predicate Clear<D>(g: Gpu<D>, depth: nat, stall: word, w: Walk<D>, n: nat)
    decreases n
  {
    n == 0 || (!Stopped(w, stall) && Clear(g, depth, stall, Step(g, depth, w), n - 1))
  }

  lemma SameStep<D>(g: Gpu<D>, h: Gpu<D>, depth: nat, w: Walk<D>)
    requires g.exec == h.exec && g.mem(w.list) == h.mem(w.list)
    ensures Step(g, depth, w) == Step(h, depth, w)
  {
    hide Apply;
  }

  /** Two stalls reached in order: running to the first, then on to the second, is running to the second at once.
      The list may have grown in between, and each run has the budget for what it executes. */
  lemma {:induction false} StallsJoin<D>(g: Gpu<D>, h: Gpu<D>, depth: nat, s: word, t: word, w: Walk<D>, n: nat, m: nat)
    requires g.exec == h.exec
    requires SameFetches(g, h, depth, w, Count(g, depth, s, w, n)) && Clear(g, depth, t, w, Count(g, depth, s, w, n))
    requires Count(g, depth, s, w, n) <= m
    ensures Run(h, depth, t, w, m)
         == Run(h, depth, t, Run(g, depth, s, w, n), m - Count(g, depth, s, w, n))
    decreases n
  {
    hide Stopped, Step;
    if n > 0 && !Stopped(w, s) {
      SameStep(g, h, depth, w);
      StallsJoin(g, h, depth, s, t, Step(g, depth, w), n - 1, m - 1);
    }
  }

  /** A larger budget than a finished run needs changes nothing. */
  lemma {:induction false} EnoughBudget<D>(g: Gpu<D>, depth: nat, stall: word, w: Walk<D>, n: nat, m: nat)
    requires Stopped(Run(g, depth, stall, w, n), stall) && n <= m
    ensures Run(g, depth, stall, w, m) == Run(g, depth, stall, w, n)
    decreases n
  {
    hide Step, Stopped;
    if n > 0 && !Stopped(w, stall) { EnoughBudget(g, depth, stall, Step(g, depth, w), n - 1, m - 1); }
  }

  // ---- what the code does at a stall: the calls open are forgotten

  /** run_list: its call stack is its own, and starts empty. */
  function RunList<D>(g: Gpu<D>, stall: word, w: Walk<D>): Walk<D> { Run(g, DEPTH, stall, w.(stack := []), BUDGET) }

  /** A run with no end in sight is given up after 2^22 commands, not one earlier. */
  lemma RunawayStops<D>(g: Gpu<D>, stall: word, w: Walk<D>)
    ensures var n, r := Count(g, DEPTH, stall, w.(stack := []), BUDGET), RunList(g, stall, w);
      && n <= 4_194_304 && r == Steps(g, DEPTH, w.(stack := []), n) && (n == 4_194_304 || Stopped(r, stall))
  {
    hide Run, Steps, Count, Stopped;
    RunIsSteps(g, DEPTH, stall, w.(stack := []), BUDGET);
  }

  /** A stall update: the memory of that moment and the new stall address. */
  datatype Update<!D> = Update(gpu: Gpu<D>, stall: word)

  function Feed<D>(w: Walk<D>, updates: seq<Update<D>>): Walk<D>
    decreases |updates|
  {
    if updates == [] then w else
      Feed(if w.done then w else RunList(updates[0].gpu, updates[0].stall, w), updates[1..])
  }

  /** The update at the head is reached with nothing open and within the budget, before the last one's stall, on
      commands the last memory still holds; and so are the ones after it. */
  ghost predicate InOrder<D>(w: Walk<D>, updates: seq<Update<D>>, last: Update<D>, budget: nat)
    decreases |updates|
  {
    updates == [] || (
      var u := updates[0];
      var n := Count(u.gpu, DEPTH, u.stall, w, BUDGET);
      var r := Run(u.gpu, DEPTH, u.stall, w, BUDGET);
      && u.gpu.exec == last.gpu.exec && n <= budget && Stopped(r, u.stall) && !r.done && r.stack == []
      && SameFetches(u.gpu, last.gpu, DEPTH, w, n) && Clear(u.gpu, DEPTH, last.stall, w, n)
      && InOrder(r, updates[1..], last, budget - n))
  }

  /** Incremental lists equal one-shot: any number of stall updates reached in order, with no call open at any of
      them and within the budget, leave the same state as one run to the last stall. */
  lemma {:induction false} IncrementalIsOneShot<D>(w: Walk<D>, updates: seq<Update<D>>, last: Update<D>, budget: nat)
    requires w.stack == [] && !w.done && budget <= BUDGET
    requires InOrder(w, updates, last, budget)
    requires Stopped(Run(last.gpu, DEPTH, last.stall, w, budget), last.stall)
    ensures Feed(w, updates + [last]) == RunList(last.gpu, last.stall, w)
    decreases |updates|
  {
    hide Step, Stopped, SameFetches, Clear, Run;
    EnoughBudget(last.gpu, DEPTH, last.stall, w, budget, BUDGET);
    if updates == [] {
      FeedOne(w, last);
    } else {
      var u := updates[0];
      var n := Count(u.gpu, DEPTH, u.stall, w, BUDGET);
      var r := Run(u.gpu, DEPTH, u.stall, w, BUDGET);
      assert (updates + [last])[1..] == updates[1..] + [last];
      StallsJoin(u.gpu, last.gpu, DEPTH, u.stall, last.stall, w, BUDGET, budget);
      IncrementalIsOneShot(r, updates[1..], last, budget - n);
      EnoughBudget(last.gpu, DEPTH, last.stall, r, budget - n, BUDGET);
      assert w.(stack := []) == w && r.(stack := []) == r;
    }
  }

  lemma FeedOne<D>(w: Walk<D>, last: Update<D>)
    requires !w.done
    ensures Feed(w, [last]) == RunList(last.gpu, last.stall, w)
  {
    assert [last][1..] == [];
    hide Run;
  }

  /** With a call open at the stall it is not so: on a return right there, the resumed walk, whose stack is empty,
      goes on after the stall and not after the call; they agree only when those are the same place. */
  lemma OpenCallIsLost<D>(g: Gpu<D>, w: Walk<D>)
    requires w.stack != [] && Cmd(g.mem(w.list)) == RET
    ensures Step(g, DEPTH, w).list == w.stack[|w.stack| - 1]
    ensures Step(g, DEPTH, w.(stack := [])).list == Next(w.list)
    ensures Step(g, DEPTH, w).list == Step(g, DEPTH, w.(stack := [])).list <==> w.stack[|w.stack| - 1] == Next(w.list)
  {
  }

  /** The same walk but for the calls open in it. */
  ghost predicate SameButCalls<D>(w: Walk<D>, v: Walk<D>) { w.(stack := []) == v.(stack := []) }

  /** The two walks are the same but for their open calls after every command of a run. */
  ghost predicate Alike<D>(g: Gpu<D>, stall: word, w: Walk<D>, v: Walk<D>, n: nat)
    decreases n
  {
    SameButCalls(w, v) &&
    (n == 0 || Stopped(w, stall) || Alike(g, stall, Step(g, DEPTH, w), Step(g, DEPTH, v), n - 1))
  }

  /** At every return the run executes, both walks go to the same place. */
  predicate ReturnsAlike<D>(g: Gpu<D>, stall: word, w: Walk<D>, v: Walk<D>, n: nat)
    decreases n
  {
    n == 0 || Stopped(w, stall) ||
    ((Cmd(g.mem(w.list)) == RET ==> ReturnTo(w) == ReturnTo(v))
     && ReturnsAlike(g, stall, Step(g, DEPTH, w), Step(g, DEPTH, v), n - 1))
  }

  /** Two walks that differ in their open calls stay alike exactly as long as their returns go to the same places. */
  lemma {:induction false} AlikeByReturns<D>(g: Gpu<D>, stall: word, w: Walk<D>, v: Walk<D>, n: nat)
    requires SameButCalls(w, v)
    ensures Alike(g, stall, w, v, n) <==> ReturnsAlike(g, stall, w, v, n)
    decreases n
  {
    if n > 0 && !Stopped(w, stall) {
      StepsAlike(g, w, v);
      hide Step, Stopped, ReturnTo, SameButCalls;
      if SameButCalls(Step(g, DEPTH, w), Step(g, DEPTH, v)) {
        AlikeByReturns(g, stall, Step(g, DEPTH, w), Step(g, DEPTH, v), n - 1);
      } else {
        assert !Alike(g, stall, Step(g, DEPTH, w), Step(g, DEPTH, v), n - 1);
      }
    }
  }

  lemma StepsAlike<D>(g: Gpu<D>, w: Walk<D>, v: Walk<D>)
    requires SameButCalls(w, v)
    ensures SameButCalls(Step(g, DEPTH, w), Step(g, DEPTH, v)) <==>
            (Cmd(g.mem(w.list)) == RET ==> ReturnTo(w) == ReturnTo(v))
  {
    var x := g.mem(w.list);
    assert v == w.(stack := v.stack) by { assert v == v.(stack := []).(stack := v.stack); }
    var draw := g.exec(x, w.base, w.draw);
    if Cmd(x) == RET { AppliesReturn(w, x, draw); AppliesReturn(v, x, draw); }
    else { AppliesElse(w, x, draw); AppliesElse(v, x, draw); }
  }

  lemma AppliesReturn<D>(w: Walk<D>, x: word, draw: D)
    requires Cmd(x) == RET
    ensures Apply(DEPTH, w, x, draw).(stack := []) == w.(list := ReturnTo(w), draw := draw, stack := [])
  {
    hide Cmd;
  }

  /** Any other command does the same whatever calls are open. */
  lemma AppliesElse<D>(w: Walk<D>, x: word, draw: D)
    requires Cmd(x) != RET
    ensures Apply(DEPTH, w, x, draw).(stack := []) == Apply(0, w.(stack := []), x, draw)
  {
    hide Cmd, Target, BaseAfter, Next;
  }

  /** The walk w with the calls `open` open around it. */
  function Under<D>(open: seq<word>, w: Walk<D>): Walk<D> { w.(stack := open + w.stack) }

  /** Every call of the run finds room on the stack above the open ones. */
  predicate Room<D>(g: Gpu<D>, stall: word, open: nat, w: Walk<D>, n: nat)
    decreases n
  {
    n == 0 || Stopped(w, stall) ||
    ((Cmd(g.mem(w.list)) == CALL ==> open + |w.stack| < DEPTH) && Room(g, stall, open, Step(g, DEPTH, w), n - 1))
  }

  /** The resumed walk w reaches the return of a call that was open when it resumed. */
  predicate Closes<D>(g: Gpu<D>, stall: word, w: Walk<D>, n: nat)
    decreases n
  {
    n > 0 && !Stopped(w, stall) &&
    ((Cmd(g.mem(w.list)) == RET && w.stack == []) || Closes(g, stall, Step(g, DEPTH, w), n - 1))
  }

  /** It reaches one whose call does not return to the very next address. */
  predicate ClosesAway<D>(g: Gpu<D>, stall: word, open: seq<word>, w: Walk<D>, n: nat)
    decreases n
  {
    n > 0 && !Stopped(w, stall) && open != [] &&
    if Cmd(g.mem(w.list)) == RET && w.stack == [] then
      open[|open| - 1] != Next(w.list) || ClosesAway(g, stall, open[..|open| - 1], Step(g, DEPTH, w), n - 1)
    else ClosesAway(g, stall, open, Step(g, DEPTH, w), n - 1)
  }

  /** A walk that resumes with its open calls forgotten stays like the one that kept them exactly if it reaches no
      return of theirs that leads away. */
  lemma {:induction false} ForgottenCalls<D>(g: Gpu<D>, stall: word, open: seq<word>, w: Walk<D>, n: nat)
    requires Room(g, stall, |open|, w, n)
    ensures Alike(g, stall, Under(open, w), w, n) <==> !ClosesAway(g, stall, open, w, n)
    decreases n
  {
    hide Step;
    if n > 0 && !Stopped(w, stall) {
      StepsAlike(g, Under(open, w), w);
      if Cmd(g.mem(w.list)) == RET && w.stack == [] && open != [] {
        if open[|open| - 1] == Next(w.list) {
          ClosesNear(g, open, w);
          LessRoom(g, stall, |open|, Step(g, DEPTH, w), n - 1);
          ForgottenCalls(g, stall, open[..|open| - 1], Step(g, DEPTH, w), n - 1);
        }
      } else {
        StepsUnder(g, open, w);
        ForgottenCalls(g, stall, open, Step(g, DEPTH, w), n - 1);
      }
    }
  }

  lemma StepsUnder<D>(g: Gpu<D>, open: seq<word>, w: Walk<D>)
    requires Cmd(g.mem(w.list)) == CALL ==> |open| + |w.stack| < DEPTH
    requires !(Cmd(g.mem(w.list)) == RET && w.stack == [] && open != [])
    ensures Step(g, DEPTH, Under(open, w)) == Under(open, Step(g, DEPTH, w))
  {
    var u := Under(open, w);
    assert u.stack == open + w.stack;
    assert Cmd(g.mem(w.list)) == RET ==> ReturnTo(u) == ReturnTo(w);
    StepsAlike(g, u, w);
    StepStack(g, w);
    StepStack(g, u);
    if Cmd(g.mem(w.list)) == CALL {
      assert (open + w.stack) + [Next(w.list)] == open + (w.stack + [Next(w.list)]);
    } else if Cmd(g.mem(w.list)) == RET && w.stack != [] {
      assert (open + w.stack)[..|open + w.stack| - 1] == open + w.stack[..|w.stack| - 1];
    }
    hide Step, Cmd;
    SameWalk(Step(g, DEPTH, u), Under(open, Step(g, DEPTH, w)));
  }

  lemma SameWalk<D>(w: Walk<D>, v: Walk<D>)
    requires SameButCalls(w, v) && w.stack == v.stack
    ensures w == v
  {
    assert w == w.(stack := []).(stack := w.stack) && v == v.(stack := []).(stack := v.stack);
  }

  lemma StepStack<D>(g: Gpu<D>, w: Walk<D>)
    ensures Step(g, DEPTH, w).stack ==
              if Cmd(g.mem(w.list)) == CALL then Push(w.stack, Next(w.list), DEPTH)
              else if Cmd(g.mem(w.list)) == RET && w.stack != [] then w.stack[..|w.stack| - 1]
              else w.stack
  {
    hide Cmd, ListAfter, BaseAfter, Next, Push;
  }

  lemma ClosesNear<D>(g: Gpu<D>, open: seq<word>, w: Walk<D>)
    requires Cmd(g.mem(w.list)) == RET && w.stack == [] && open != [] && open[|open| - 1] == Next(w.list)
    ensures Step(g, DEPTH, Under(open, w)) == Under(open[..|open| - 1], Step(g, DEPTH, w))
  {
    assert open + [] == open && open[..|open| - 1] + [] == open[..|open| - 1];
  }

  lemma {:induction false} LessRoom<D>(g: Gpu<D>, stall: word, open: nat, w: Walk<D>, n: nat)
    requires open > 0 && Room(g, stall, open, w, n)
    ensures Room(g, stall, open - 1, w, n)
    decreases n
  {
    hide Step, Stopped;
    if n > 0 && !Stopped(w, stall) { LessRoom(g, stall, open, Step(g, DEPTH, w), n - 1); }
  }

  /** Reaching none of their returns is enough. */
  lemma {:induction false} NoReturnNoHarm<D>(g: Gpu<D>, stall: word, open: seq<word>, w: Walk<D>, n: nat)
    requires !Closes(g, stall, w, n)
    ensures !ClosesAway(g, stall, open, w, n)
    decreases n
  {
    hide Step, Stopped;
    if n > 0 && !Stopped(w, stall) { NoReturnNoHarm(g, stall, open, Step(g, DEPTH, w), n - 1); }
  }

  lemma {:induction false} AlikeRuns<D>(g: Gpu<D>, stall: word, w: Walk<D>, v: Walk<D>, n: nat)
    requires Alike(g, stall, w, v, n)
    ensures SameButCalls(Run(g, DEPTH, stall, w, n), Run(g, DEPTH, stall, v, n))
    decreases n
  {
    hide Step;
    if n > 0 && !Stopped(w, stall) { AlikeRuns(g, stall, Step(g, DEPTH, w), Step(g, DEPTH, v), n - 1); }
  }

  /** A list stalled inside calls, and resumed, ends as the list run at once does, if the resumed walk reaches no return
      of those calls that leads away. */
  lemma OpenCallsHarmless<D>(w: Walk<D>, u: Update<D>, last: Update<D>, budget: nat)
    requires w.stack == [] && !w.done && budget <= BUDGET && u.gpu.exec == last.gpu.exec
    requires var n := Count(u.gpu, DEPTH, u.stall, w, BUDGET);
             n <= budget && SameFetches(u.gpu, last.gpu, DEPTH, w, n) && Clear(u.gpu, DEPTH, last.stall, w, n)
    requires Stopped(Run(last.gpu, DEPTH, last.stall, w, budget), last.stall)
    requires var r, left := Run(u.gpu, DEPTH, u.stall, w, BUDGET), budget - Count(u.gpu, DEPTH, u.stall, w, BUDGET);
             !r.done && Room(last.gpu, last.stall, |r.stack|, r.(stack := []), left) &&
             !ClosesAway(last.gpu, last.stall, r.stack, r.(stack := []), left)
    ensures SameButCalls(RunList(last.gpu, last.stall, w), Feed(w, [u, last]))
  {
    hide Run, Step, Stopped, Alike, Room, ClosesAway, SameFetches, Clear, Count, SameButCalls;
    var n, r := Count(u.gpu, DEPTH, u.stall, w, BUDGET), Run(u.gpu, DEPTH, u.stall, w, BUDGET);
    var v, left := r.(stack := []), budget - n;
    assert w.(stack := []) == w;
    assert Under(r.stack, v) == r by { assert r.stack + [] == r.stack; }
    assert [u, last][1..] == [last];
    FeedOne(r, last);
    StallsJoin(u.gpu, last.gpu, DEPTH, u.stall, last.stall, w, BUDGET, budget);
    EnoughBudget(last.gpu, DEPTH, last.stall, w, budget, BUDGET);
    ForgottenCalls(last.gpu, last.stall, r.stack, v, left);
    AlikeRuns(last.gpu, last.stall, r, v, left);
    SameStop(Run(last.gpu, DEPTH, last.stall, r, left), Run(last.gpu, DEPTH, last.stall, v, left), last.stall);
    EnoughBudget(last.gpu, DEPTH, last.stall, v, left, BUDGET);
  }

  /** A list stalled inside calls whose returns it never reaches loses nothing. */
  lemma UnreturnedHarmless<D>(w: Walk<D>, u: Update<D>, last: Update<D>, budget: nat)
    requires w.stack == [] && !w.done && budget <= BUDGET && u.gpu.exec == last.gpu.exec
    requires var n := Count(u.gpu, DEPTH, u.stall, w, BUDGET);
             n <= budget && SameFetches(u.gpu, last.gpu, DEPTH, w, n) && Clear(u.gpu, DEPTH, last.stall, w, n)
    requires Stopped(Run(last.gpu, DEPTH, last.stall, w, budget), last.stall)
    requires var r, left := Run(u.gpu, DEPTH, u.stall, w, BUDGET), budget - Count(u.gpu, DEPTH, u.stall, w, BUDGET);
             !r.done && Room(last.gpu, last.stall, |r.stack|, r.(stack := []), left) &&
             !Closes(last.gpu, last.stall, r.(stack := []), left)
    ensures SameButCalls(RunList(last.gpu, last.stall, w), Feed(w, [u, last]))
  {
    hide *;
    var r, left := Run(u.gpu, DEPTH, u.stall, w, BUDGET), budget - Count(u.gpu, DEPTH, u.stall, w, BUDGET);
    NoReturnNoHarm(last.gpu, last.stall, r.stack, r.(stack := []), left);
    OpenCallsHarmless(w, u, last, budget);
  }

  lemma SameStop<D>(w: Walk<D>, v: Walk<D>, stall: word)
    requires SameButCalls(w, v)
    ensures Stopped(w, stall) <==> Stopped(v, stall)
  {
  }

  /** A call at 0 to 0x10, a return at 0x14, and ends at 8 and 0x18; the rest of memory does nothing. */
  function CallList(): Gpu<int> {
    Gpu((a: word) => if a == 0 then 0x0A00_0010 else if a == 0x14 then 0x0B00_0000
                     else if a == 8 || a == 0x18 then 0x0C00_0000 else 0,
        (x: word, base: word, d: int) => d + 1)
  }

  /** Stalled at the return and resumed, that list never executes what follows the call. */
  lemma StalledInCall()
    ensures var w, g := Walk(0, 0, 0, [], 0, false), CallList();
      && RunList(g, 0, w) == Walk(12, 0, 0, [], 5, true)
      && Feed(w, [Update(g, 0x14), Update(g, 0)]) == Walk(0x1C, 0, 0, [], 4, true)
  {
    var w, g := Walk(0, 0, 0, [], 0, false), CallList();
    var a := Walk(0x10, 0, 0, [4], 1, false);
    var b := Walk(0x14, 0, 0, [4], 2, false);
    StalledSteps();
    assert w.(stack := []) == w && b.(stack := []) == Walk(0x14, 0, 0, [], 2, false);
    hide Run, Step, CallList;
    RunStep(g, DEPTH, 0, w, BUDGET);
    RunStep(g, DEPTH, 0, a, BUDGET - 1);
    RunStep(g, DEPTH, 0, b, BUDGET - 2);
    RunStep(g, DEPTH, 0, Walk(4, 0, 0, [], 3, false), BUDGET - 3);
    RunStep(g, DEPTH, 0, Walk(8, 0, 0, [], 4, false), BUDGET - 4);
    RunStep(g, DEPTH, 0, Walk(12, 0, 0, [], 5, true), BUDGET - 5);
    RunStep(g, DEPTH, 0x14, w, BUDGET);
    RunStep(g, DEPTH, 0x14, a, BUDGET - 1);
    RunStep(g, DEPTH, 0x14, b, BUDGET - 2);
    RunStep(g, DEPTH, 0, Walk(0x14, 0, 0, [], 2, false), BUDGET);
    RunStep(g, DEPTH, 0, Walk(0x18, 0, 0, [], 3, false), BUDGET - 1);
    RunStep(g, DEPTH, 0, Walk(0x1C, 0, 0, [], 4, true), BUDGET - 2);
    assert [Update(g, 0x14), Update(g, 0)][1..] == [Update(g, 0)];
    FeedOne(b, Update(g, 0));
  }

  lemma StalledSteps()
    ensures var g := CallList();
      && Step(g, DEPTH, Walk(0, 0, 0, [], 0, false)) == Walk(0x10, 0, 0, [4], 1, false)
      && Step(g, DEPTH, Walk(0x10, 0, 0, [4], 1, false)) == Walk(0x14, 0, 0, [4], 2, false)
      && Step(g, DEPTH, Walk(0x14, 0, 0, [4], 2, false)) == Walk(4, 0, 0, [], 3, false)
      && Step(g, DEPTH, Walk(4, 0, 0, [], 3, false)) == Walk(8, 0, 0, [], 4, false)
      && Step(g, DEPTH, Walk(8, 0, 0, [], 4, false)) == Walk(12, 0, 0, [], 5, true)
      && Step(g, DEPTH, Walk(0x14, 0, 0, [], 2, false)) == Walk(0x18, 0, 0, [], 3, false)
      && Step(g, DEPTH, Walk(0x18, 0, 0, [], 3, false)) == Walk(0x1C, 0, 0, [], 4, true)
  {
  }

  // ---- calls nest like an ideal stack up to eight deep

  /** The stack never needs more than `depth` in the first n steps of the ideal walk. */
  predicate Shallow<D>(g: Gpu<D>, depth: nat, w: Walk<D>, n: nat)
    decreases n
  {
    n == 0 || (|w.stack| <= depth && |Step(g, |w.stack| + 1, w).stack| <= depth
               && Shallow(g, depth, Step(g, |w.stack| + 1, w), n - 1))
  }

  /** The ideal walk: a call always pushes. */
  function Ideal<D>(g: Gpu<D>, stall: word, w: Walk<D>, n: nat): Walk<D>
    decreases n
  {
    if n == 0 || Stopped(w, stall) then w else Ideal(g, stall, Step(g, |w.stack| + 1, w), n - 1)
  }

  lemma {:induction false} ShallowIsIdeal<D>(g: Gpu<D>, depth: nat, stall: word, w: Walk<D>, n: nat)
    requires Shallow(g, depth, w, n)
    ensures Run(g, depth, stall, w, n) == Ideal(g, stall, w, n)
    decreases n
  {
    hide Stopped, Target;
    if n > 0 && !Stopped(w, stall) {
      assert Step(g, depth, w) == Step(g, |w.stack| + 1, w);
      hide Step;
      ShallowIsIdeal(g, depth, stall, Step(g, depth, w), n - 1);
    }
  }

  // ---- the queue entry, walked in place

  class Queue<D> {
    var list: word
    var stall: word
    var base: word
    var origin: word
    var used: bool
    var done: bool
    var draw: D

    ghost function State(): Walk<D>
      reads `list, `base, `origin, `draw, `done
    {
      Walk(list, base, origin, [], draw, done)
    }

    /** enqueue, up to the walk it starts; addresses lose their low two bits. */
    constructor (list: word, stall: word, draw: D)
      ensures State() == Walk(list & 0xFFFF_FFFC, 0, 0, [], draw, false)
      ensures this.stall == stall & 0xFFFF_FFFC && used
    {
      this.list, this.stall := list & 0xFFFF_FFFC, stall & 0xFFFF_FFFC;
      base, origin, used, done := 0, 0, true, false;
      this.draw := draw;
    }

    /** A call pushes where it returns to, if there is room; a return pops, if there is anything. */
    method CallOrReturn(x: word, stack: array<word>, sp: nat) returns (sp': nat)
      requires stack.Length == DEPTH && sp <= DEPTH && (Cmd(x) == CALL || Cmd(x) == RET)
      modifies `list, stack
      ensures sp' <= DEPTH
      ensures if Cmd(x) == CALL then stack[..sp'] == Push(old(stack[..sp]), old(list), DEPTH) && list == Target(base, x)
              else if sp == 0 then sp' == 0 && list == old(list)
              else stack[..sp'] == old(stack[..sp])[..sp - 1] && list == old(stack[sp - 1])
    {
      hide Target;
      sp' := sp;
      if Cmd(x) == CALL {
        if sp < DEPTH {
          stack[sp] := list;
          sp' := sp + 1;
        }
        list := Target(base, x);
      } else if sp > 0 {
        sp' := sp - 1;
        list := stack[sp'];
      }
    }

    /** One turn of run_list's switch, on its own call stack. */
    method Command(g: Gpu<D>, stack: array<word>, sp: nat) returns (sp': nat)
      requires stack.Length == DEPTH && sp <= DEPTH && !done
      modifies `list, `base, `origin, `used, `done, `draw, stack
      ensures sp' <= DEPTH && used == (old(used) && !done)
      ensures State().(stack := stack[..sp']) == Step(g, DEPTH, old(State().(stack := stack[..sp])))
    {
      hide Target, Push, Cmd, Next, HighBase, OffsetBase;
      sp' := sp;
      var x := g.mem(list);
      var c := Cmd(x);
      var at := list;
      draw := g.exec(x, base, draw);
      list := Next(list);
      if c == JUMP {
        list := Target(base, x);
      } else if c == CALL || c == RET {
        sp' := CallOrReturn(x, stack, sp);
      } else if c == END || c == FINISH {
        done, used := true, false;
      } else if c == BASE {
        base := HighBase(x);
      } else if c == OFFSET_ADDR {
        base := OffsetBase(x);
      } else if c == ORIGIN_ADDR {
        origin := at;
      }
    }

    /** run_list: its own eight-entry call stack, its own budget. */
    method Walked(g: Gpu<D>)
      requires !done
      modifies `list, `base, `origin, `used, `done, `draw
      ensures State() == RunList(g, stall, old(State())).(stack := [])
      ensures used == (old(used) && !done)
    {
      hide Run, Step;
      var stack := new word[DEPTH];
      var sp := 0;
      var budget := BUDGET;
      ghost var start := State();
      assert stack[..0] == [];
      while budget > 0 && !done
        invariant 0 <= sp <= DEPTH && 0 <= budget <= BUDGET && used == (old(used) && !done)
        invariant Run(g, DEPTH, stall, start, BUDGET) == Run(g, DEPTH, stall, State().(stack := stack[..sp]), budget)
        decreases budget
      {
        RunStep(g, DEPTH, stall, State().(stack := stack[..sp]), budget);
        budget := budget - 1;
        if stall != 0 && list == stall { return; }
        sp := Command(g, stack, sp);
      }
      RunStep(g, DEPTH, stall, State().(stack := stack[..sp]), budget);
    }

    /** hle_ListUpdateStallAddr on a list that is still queued. */
    method UpdateStall(g: Gpu<D>, stall: word)
      modifies this
      ensures this.stall == stall & 0xFFFF_FFFC
      ensures State() == Feed(old(State()), [Update(g, stall & 0xFFFF_FFFC)]).(stack := [])
    {
      this.stall := stall & 0xFFFF_FFFC;
      FedOne(State(), Update(g, this.stall));
      if !done { Walked(g); }
    }
  }

  lemma FedOne<D>(w: Walk<D>, u: Update<D>)
    ensures Feed(w, [u]) == if w.done then w else RunList(u.gpu, u.stall, w)
  {
    hide RunList;
    assert [u][1..] == [];
  }

  lemma RunStep<D>(g: Gpu<D>, depth: nat, stall: word, w: Walk<D>, n: nat)
    ensures Run(g, depth, stall, w, n)
         == if n == 0 || Stopped(w, stall) then w else Run(g, depth, stall, Step(g, depth, w), n - 1)
  {
    hide Step, Stopped;
  }
}

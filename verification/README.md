# psprecomp: a verified model of its core

psprecomp turns PSP modules into C ahead of time and runs the result against a reimplemented firmware. This project
models the parts of it where a mistake would be silent, and proves what those parts promise.

- **The recompiler's back end.** `Allegrex` is the delay-slot machine (pc, next pc), with ordinary instructions and
  firmware left as arbitrary functions on the state. `Emitter` gives the C a body is turned into, as a tree: labels,
  captures, copied and standalone delay slots, tail calls, call frames, the entry switch. `Recompiled` runs such C:
  activations, the frame chain, the unwind word, dispatch. `Layout`, `Simulation`, `Constructs` and `Preservation`
  prove that the C follows the machine for whole runs, `Stray` and `Necessity` what happens where it does not;
  `Closure` and `EmitContext` cover the names and the emitter's own loops over its maps; `Registration` ties the
  generated registrations to dispatch.
- **Function discovery.** `Discovery` holds what a walk owes and keeps, and `Grounds` why it is where it is; `Walk` is
  the worklist algorithm on its arrays; `Handover` connects it to what emission needs and to the machine.
- **The runtime.** `Dispatch` (the open-addressed table), `Sysmem` and `Vpl` (the allocator and the pools on it),
  `Scheduler` and `Threadman` (the baton protocol as steps of many threads, and the records that implement it), `Sas`,
  `Voice` and `Mixer` (the voices and their mix), `DisplayList` (the stalled list walker), `Texture` and `Unaligned`.
- **The crypto stack.** `Gf256`, `Sbox`, `Aes`, `AesContext`, `Cbc` (FIPS-197; section 6.2 of NIST SP 800-38A), `Cmac`
  (RFC 4493) and `Kirk` (container command 1).

Where the program changes things in place the model does too: a class with the program's fields, or a method on an
array, proved against a function on values; the properties are then proved of that function. A class that shares its
file's name with a module of specifications is in a module named with a trailing C (`WalkC`, `VoiceC`, `MixerC`, `AesC`,
`EmitC`, `ThreadmanC`).

## Side conditions of the back end

`Layout.WellFormed` collects them: no transfer sits in a delay slot; the slot of a jal, a jalr or a likely branch is
in the same body, and the slot of a jal or jalr leaves the linked register alone; jalr links a register other than 0;
the address after a jalr and its slot, and after a slot that is itself a label, is in the same body; a fall-out past a
body's last word lands on an entry or a non-slot label; a linking branch calls no slot of its own body, and one that
calls firmware has a slot that leaves $ra alone; no branch tests the VFPU; and no entry is a delay slot of its own
body. They are conditions on the module, not on a run.
`Handover.DiscoveredIsLaid` proves the rest of what emission needs of discovery's result, and
`Handover.JumpsFoundExactly` when its static jumps and branches find their functions, so that they never miss. What a
slot must not do to the linked register is only that linking after it is linking before it, for that return address;
and the last condition on a body's last word spares slots, which end with their transfer.

## What the code does that a reader might not expect

- A VFPU branch is emitted with the condition 0 and so never taken (`Layout.ConditionFaithful`).
- Firmware reached by a tail transfer returns to the innermost call's return site whatever $ra holds
  (`Preservation.StrayImportParts`, and `Stray.RunParts` for a run that comes to it). By `Preservation.Preserves` a run of
  a well-formed module parts from the machine in no other way, apart from the return to the host that a jr $ra, or a
  firmware call in tail position, makes under a host frame.
- `jalr` with rd 0 pushes a frame whose return site is 0, which the frame chain reads as a host frame, so a jr $ra
  goes back there whatever $ra holds (`Necessity.ZeroFrameReturns`, `Necessity.ZeroLinkParts`).
- A fall-out past a body's end to an address without a name is a silent return (`Necessity.FallOutReturns`).
- A jal whose slot another body owns does not run it, and a likely branch whose slot another body owns goes astray
  exactly when it is not taken (`Necessity.ForeignJalSkipsSlot`, `Necessity.ForeignLikelyExactly`).
- The standalone copy of a slot leads to the next word only if the same body owns that too
  (`Necessity.LabelledSlotFalls`, `Necessity.LabelledSlotAfterJump`).
- When an entry is a delay slot of its own body, calling the function starts at the body's lowest word
  (`Simulation.EntryHasCase`), and the emitted C may jump to a label it does not define (`Closure.BodyClosed`,
  `Closure.SlotEntryIsOpen`). The set of thunks is the same everywhere even then (`EmitC.EmitContext.Emit`).
- Sizes above 0xFFFFFF00 round to 0x100, and an allocation from the bottom whose size carries past 2^32 is handed the
  first position although it does not fit (`Sysmem.PlaceLow`, `Sysmem.Heap.Alloc`, `Sysmem.Rounded`).
- A branch back into the body being traced is promoted to an entry just as a branch into another walk's block is; the
  comment beside the code speaks of an earlier walk only. When the rounds settle, the list of computed-jump sites has
  just been emptied, so it is reported empty.
- An entry whose word another walk has claimed yields no function, and nothing promotes it again, since it is an entry
  already: a tail jump back into the body of an earlier walk, which can settle with a jump that lands nowhere
  (`Discovery.EntryLost`), or an entry that is another function's delay slot (`Discovery.SlotLost`). Exactly the entries
  that own themselves have functions (`Discovery.ListedOwnsItself`, `Discovery.EntryKept`), and a settled jump out of its
  body finds one exactly then (`Discovery.SettledLands`, `Handover.JumpsFoundExactly`).
- A pitch above 0xFFFFF000 can wrap the 32-bit fraction, and the voice then falls behind (`Sas.StepsExactly`).
- A display-list CALL open at a stall is forgotten, because the call stack is local to one run
  (`DisplayList.StalledInCall`; `DisplayList.ForgottenCalls` says when it shows).
- The pools share the heap with every other allocation, and nothing keeps a game from freeing a pool's heap block by its
  id; the pool's record then stands for memory that can be handed out again (`Vpl.FreedUnderPool`).
- The second size check of container opening never fails after the first, so the model has only the first.

## Model

| member | source | states |
|---|---|---|
| Preservation.Preserves | tools/allegrexrecomp/emit.c:674-1108 | Semantic preservation for whole runs: from any state where host and guest match, however many steps the guest takes, the host reaches a state matching a guest state at least that far on (same registers and memory, every suspended call resuming where the guest would), unless the run has ended for one of four reasons found at the last matching state: dispatch missed at an address that is no entry and no thunk, reached by a computed transfer or from outside its body; a jr $ra under a host frame returned; a firmware call in tail position under a host frame returned; or a firmware call stands in tail position with $ra away from the frame's return site |
| Preservation.CallFromHostPreserves | src/dispatch.c:185-191 | The same starting from psp_call_from_host, for any address, registers and enclosing frame chain; when control is back in the host, by one of those two returns, the chain is the one it pushed and no unwind is pending, so clearing the unwind word there changes nothing |
| Preservation.StrayImportParts | tools/allegrexrecomp/emit.c:142-150 | The one way the two part: a firmware call in tail position with $ra elsewhere than the frame's return site resumes the C program at that return site, where it no longer matches the machine |
| Stray.RunParts | tools/allegrexrecomp/emit.c:142-150 | A well-formed module of two functions on which that happens: a run from psp_call_from_host, with any registers, comes to a running state that does not match the machine's fifth |
| Stray.StrayReached | tools/allegrexrecomp/emit.c:1046-1057 | That run reaches the stub by a tail transfer, under the frame of the call, with $ra moved by the jump's slot |
| Simulation.ReachesOne | tools/allegrexrecomp/emit.c:674-1108 | What a body is about to run takes the guest to one address only, so standing at one address is not standing at another |
| Layout.CodeIsOnce | tools/allegrexrecomp/emit.c:745-1060 | Two constructs of a body are never emitted to the same lines up to the end |
| Preservation.FirmwareTail | tools/allegrexrecomp/emit.c:142-150 | Where a firmware call in tail position goes: to the host under a host frame, else to the innermost call's return site, whatever $ra holds |
| Preservation.HeadRuns | tools/allegrexrecomp/emit.c:787-1059 | One construct, of every kind, label excluded: the host runs on to match the guest again, which has taken at least one step; or, on a call or computed jump, dispatch misses at an address that has no function and no thunk; or a jr $ra under a host frame has returned to the host |
| Layout.ConditionFaithful | tools/allegrexrecomp/emit.c:574-589 | An emitted condition is the machine's on every state exactly when it does not test the VFPU; the VFPU branches are emitted as never taken |
| Layout.ConditionMeans | tools/allegrexrecomp/emit.c:574-589 | What each emitted condition asks of the registers as 32-bit numbers: equal or not, at most, above, below or at least 0 as a signed number, the FPU flag set or not |
| Layout.LinksReturn | tools/allegrexrecomp/emit.c:836-970 | Calls and linking branches, taken or not, leave the address after their slot in register 31; other transfers link nothing |
| Layout.SetRegWrites | tools/allegrexrecomp/emit.c:973-993 | A link writes its register and nothing else, and register 0 stays 0 |
| Constructs.BranchRuns | tools/allegrexrecomp/emit.c:877-956 | An ordinary branch, after which host and guest match again: the condition is captured before the slot runs, the slot runs on both paths, and a slot another body owns is copied onto the taken path |
| Constructs.BranchSteps | tools/allegrexrecomp/emit.c:895-936 | The same by registers and lines: after the test the host holds the slot's effect exactly if the branch is taken or the body owns the slot, and continues with the transfer exactly if it is taken |
| Constructs.LikelyRuns | tools/allegrexrecomp/emit.c:881-894 | A likely branch, after which host and guest match again: not taken, its slot is nullified; taken, the slot has run |
| Constructs.LinkingRuns | tools/allegrexrecomp/emit.c:829-875 | bltzal, bgezal and their likely forms as conditional calls: $ra is linked on both paths before the slot, and the taken path resumes after the slot when the call returns; host and guest match again, or the call's static target is outside the body and dispatch misses it |
| Constructs.LinkingTest | tools/allegrexrecomp/emit.c:839-851 | $ra holds the return address before the slot runs, taken or not |
| Constructs.ResumeReaches | tools/allegrexrecomp/emit.c:862-870 | With the slot in another body, the taken path of a linking branch resumes two words on, by a goto to a label of the body or by dispatch |
| Constructs.GetPcRuns | tools/allegrexrecomp/emit.c:958-966 | jal .+8 only links, and host and guest match again |
| Constructs.JalRuns | tools/allegrexrecomp/emit.c:968-1004 | jal: slot, link, frame pushed, callee entered with a frame that resumes at the return site, or missed when it is outside the body and has neither function nor thunk |
| Constructs.JalrRuns | tools/allegrexrecomp/emit.c:968-1004 | jalr: the target register is read before the slot, and the register the instruction encodes is linked; the callee is entered, or has neither function nor thunk and is missed |
| Constructs.JrLines | tools/allegrexrecomp/emit.c:1020-1040 | A computed jump and jr $ra read their register before the slot |
| Constructs.JrRuns | tools/allegrexrecomp/emit.c:1006-1044 | jr through a register goes to the machine's target or misses it; jr $ra does, or under a host frame, and only there, returns to the host |
| Constructs.JRuns | tools/allegrexrecomp/emit.c:1046-1057 | j, after which host and guest match again: its slot, its own or copied, then a goto inside the body or a tail call out of it |
| Constructs.JrRaRefinesJump | src/dispatch.c:193-199 | jr $ra refines a jump: under a host frame it goes back to the host; when a call of this host segment owns the address it resumes at the innermost one, the frame chain cut exactly below it and nothing pending; when none does it is a jump that keeps the chain |
| Constructs.ReturnRuns | tools/allegrexrecomp/emit.c:1148-1153 | A return, with or without an unwind pending, ends at the innermost call that owns the return site, or under a host frame in the host |
| Constructs.SegmentIsNonZero | src/dispatch.c:193-199 | An unwind is never aimed at 0, and the frame it is aimed at is on the chain, so no unwind reaches a host frame |
| Constructs.FirmwareReturns | tools/allegrexrecomp/emit.c:97-114 | A firmware call with its own frame comes back to its return site, where the machine goes |
| Constructs.SlotCopyRuns | tools/allegrexrecomp/emit.c:595-607 | The standalone labelled copy of a slot runs it as an ordinary instruction, and host and guest match again at the next address |
| Constructs.Falls | tools/allegrexrecomp/emit.c:744-783 | After a construct that can fall through, the lines that follow take the guest to the next address: the next construct, a gap's explicit transfer, or the body's end |
| Constructs.FallsPastAlias | tools/allegrexrecomp/emit.c:595-607 | The fall-through jumps over the standalone copy of the slot |
| Necessity.ZeroLinkParts | tools/allegrexrecomp/emit.c:992-999 | A jalr that links register 0, to a function that returns at once, resumes after the call whatever $ra holds; that is where the machine is exactly when $ra happened to be that address |
| Necessity.UnlinkedIsZeroLink | tools/allegrexrecomp/emit.c:992-999 | A module of two functions, laid out as emission needs, with such a call |
| Necessity.ZeroFrameReturns | src/dispatch.c:193-199 | Under a frame with return site 0 every jr $ra goes back to the call that pushed it |
| Necessity.FallOutReturns | tools/allegrexrecomp/emit.c:1090-1107 | What is emitted past a body's last word takes the guest on exactly if the address there is an entry or a non-slot label; if not, the C program returns to the innermost call or to the host |
| Necessity.LabelledSlotFalls | tools/allegrexrecomp/emit.c:595-607 | The jump over the standalone copy of a slot leads to the next word exactly if the body owns it; if not, the construct that fell through returns |
| Necessity.LabelledSlotAfterJump | tools/allegrexrecomp/emit.c:595-607 | After a jump's standalone slot copy the lines lead to the next word exactly if the body owns it: entered by its label, such a slot goes astray otherwise |
| Necessity.ForeignLikelyExactly | tools/allegrexrecomp/emit.c:881-894 | A likely branch whose slot another body owns is followed exactly if it is taken: then a copy of the slot has run and host and guest match at the target; not taken, the C program goes on at the slot, which the machine skips, and they do not match |
| Necessity.ForeignJalSkipsSlot | tools/allegrexrecomp/emit.c:968-1004 | A jal whose slot another body owns does not run it: the registers at the call are the machine's exactly if the slot changes nothing |
| Necessity.JalLinksLast | tools/allegrexrecomp/emit.c:973-993 | A jal links after its slot: the registers at the call are the machine's, whatever they were, exactly if slot and link can change places |
| Simulation.LeaveResumes | tools/allegrexrecomp/emit.c:1148-1153 | An activation that leaves with a return site pending ends at the innermost call that owns it, through any number of tail transfers and nested calls, the unwind word 0 and the chain cut exactly there |
| Simulation.LeaveToHost | src/dispatch.c:185-191 | Under a host frame leaving ends in the host caller, with the chain it pushed and nothing pending |
| Simulation.Arrive | src/dispatch.c:201-228 | From any matching state the host arrives at the lines for the guest's address, or misses it there, which only a static dispatch from outside the body does, or stands before a firmware tail call |
| Simulation.EnterBody | tools/allegrexrecomp/emit.c:729-742 | A body asked to start at any of its labels reaches that label's construct through its entry switch |
| Simulation.EntryHasCase | tools/allegrexrecomp/emit.c:729-742 | An entry has a case in its own body's switch exactly when it is not a delay slot of that body; when it is one, a call of the function starts at the body's lowest word instead |
| Simulation.CasesAre | tools/allegrexrecomp/emit.c:735-739 | The switch has a case for exactly the owned labels that are not slots |
| Layout.Land | tools/allegrexrecomp/emit.c:735-790 | A jump to any owned label finds exactly that label's lines: its construct, or its standalone slot copy followed by what comes after |
| Closure.BodyClosed | tools/allegrexrecomp/emit.c:674-1108 | Every goto, switch case, thunk call and function call of a body names something that exists if and only if no linking branch calls a slot of its own body and, when the body's entry is its own slot and falls through, the word after it is labelled; every owned label is a line of its own body |
| Closure.SlotEntryIsOpen | tools/allegrexrecomp/emit.c:595-607 | A concrete six-word module where it fails: a loop head below the entry has the entry for its slot, and the jump over the entry's copy has no label |
| EmitC.IsFunction | tools/allegrexrecomp/emit.c:79-87 | The binary search finds an address exactly when it is a discovered entry |
| EmitC.EmitContext.MarkLabels | tools/allegrexrecomp/emit.c:636-672 | mark_labels: every mark the instructions of the function call for is set, marks that follow a marked slot included, no mark is wrong, and none of another function is taken back |
| EmitC.EmitContext.MarkModule | tools/allegrexrecomp/emit.c:623-672 | Marking every function, in the order given, leaves the module-wide map right and complete |
| EmitC.EmitContext.ThunksOf | tools/allegrexrecomp/emit.c:1112-1120 | The thunk loop of a body and the header's loop list exactly the body's interior labels that are not slots, in address order, whether or not the body has been emitted yet |
| EmitC.EmitContext.HasSwitch | tools/allegrexrecomp/emit.c:729-733 | Counting labels decides exactly whether the body has a label besides its entry or starts below it |
| EmitC.EmitContext.SwitchCases | tools/allegrexrecomp/emit.c:735-739 | The switch's cases |
| EmitC.EmitContext.EmitWord | tools/allegrexrecomp/emit.c:745-1060 | One turn of the walk emits the lines the specification gives for that word and moves on |
| EmitC.EmitContext.EmitEnd | tools/allegrexrecomp/emit.c:1090-1107 | The fall-out past the last word, into a function or another body's label |
| EmitC.EmitContext.EmitFunction | tools/allegrexrecomp/emit.c:674-1120 | The emitted body is the specified one, with its switch, and its thunks are the specified ones, for any function not emitted before |
| EmitC.EmitContext.Emit | tools/allegrexrecomp/emit.c:1210-1217 | Thunks declared in the header, defined by the bodies and registered are one and the same list, whatever order functions were found in; every body is the specified one |
| EmitC.HeadAppends | tools/allegrexrecomp/emit.c:674-1108 | What is emitted for a construct does not depend on what follows it |
| Registration.LookupResolves | tools/allegrexrecomp/emit.c:1426-1433 | After the generated registrations a lookup finds a function's body for an entry, the owner's body for an interior label, and nothing for any other address |
| Registration.NamedIsFound | tools/allegrexrecomp/emit.c:636-668 | What the code of a body names in the body (the target of a branch, j or jal, the return site of a call), unless it is a delay slot, is found by a lookup after the generated registrations, under its body or as a function |
| Registration.DispatchFollowsTable | src/dispatch.c:201-228 | A dispatch goes exactly where that table sends it, and misses exactly when the table has nothing |
| Registration.AllThunksFrom | tools/allegrexrecomp/emit.c:1210-1217 | The listed thunks are exactly the interior non-slot labels of the listed functions |
| WalkC.Walk.Discover | tools/allegrexrecomp/analyze.c:463-685 | Discovery as a whole. From below: what is given (seeds in range, and with a scan exactly the jal targets of its range and the other harvests) is an entry; every in-range address an instruction walked outside a slot leads to is walked; if the rounds settle before the cap, every jump or branch out of a body lands on an entry, every jump-table target is one, and a function is there exactly if the target owns itself. From above: a word walked outside a slot is led to from its owner's entry by a path through words of that owner, each going on to the next, and any other word is such a word's slot; everything walked, entered, called or imported has a source on a path from what was given; an entry has a function exactly if it owns itself; a function's range is the least that holds its words and slots. Not settling takes at least seven new entries, and then the computed jumps listed are exactly those walked. The instruction count is the number of walked words, the sum of the functions' counts and a quarter of bytes_reached; the functions come out in address order |
| WalkC.Walk.Drain | tools/allegrexrecomp/analyze.c:642-662 | The work queue is emptied with the walk's invariant standing; it terminates because every push is paid for by a word walked for the first time |
| WalkC.Walk.Rounds | tools/allegrexrecomp/analyze.c:590-663 | Whatever the rounds promote, the walk's invariant stands at the end with nothing queued, and entries only accumulate; if they settle before the cap, nothing noted for promotion is left and every table target is an entry; if not, each of seven rounds has added an entry |
| WalkC.Walk.Again | tools/allegrexrecomp/analyze.c:591-637 | A round runs again exactly when some noted target in range is not an entry yet, and then from a clean slate |
| WalkC.Walk.WalkBlock | tools/allegrexrecomp/analyze.c:115-284 | One block: walked to where control leaves, or to a walked word or an entry; a block that walks nothing changes nothing |
| WalkC.Walk.Visit | tools/allegrexrecomp/analyze.c:126-283 | One word: claimed for the function with its slot, and every address it leads to sent somewhere, and nothing noted or put off that it does not lead to; the range grows by exactly the word and its slot |
| WalkC.Walk.TakeBranch | tools/allegrexrecomp/analyze.c:205-228 | A branch target is put off as a block of this function unless some walk, this one included, has it already and it is no entry; then it is noted for promotion |
| WalkC.Walk.TakeJump | tools/allegrexrecomp/analyze.c:230-281 | A backward j to no entry is a block of this function or noted for promotion; any other in range makes its target an entry |
| WalkC.Walk.NoteCall | tools/allegrexrecomp/analyze.c:86-93 | A called import is recorded once, any other target in range is queued |
| WalkC.Walk.HarvestCalls | tools/allegrexrecomp/analyze.c:504-524 | The scan adds exactly the targets of the jals in its range that are in the image and no stub, the get-PC form excepted |
| WalkC.Walk.Collect | tools/allegrexrecomp/analyze.c:488-581 | What is given to a discovery becomes its entries, and nothing else does |
| Grounds.VisitGrounded | tools/allegrexrecomp/analyze.c:115-283 | A word walked because something leads to it keeps the walk grounded: every word on a path from its entry or a slot, every place still to go led to |
| Grounds.VisitSourced | tools/allegrexrecomp/analyze.c:115-283 | It keeps every word, entry, queued call, import and note on a path from what was given |
| Grounds.EnteredFound | tools/allegrexrecomp/analyze.c:590-612 | Whatever becomes an entry, promotions included, is on such a path |
| Grounds.VisitEdging | tools/allegrexrecomp/analyze.c:132-133 | The range stays the least one that holds the function's words and slots, whoever walked those |
| Grounds.HarvestStep | tools/allegrexrecomp/analyze.c:504-524 | The scan takes whole words only, one after the other |
| WalkC.Walk.CountBytes | tools/allegrexrecomp/analyze.c:665-666 | Counting the marks gives four bytes per walked word |
| WalkC.SortSpans | tools/allegrexrecomp/analyze.c:668-668 | The functions in address order, none lost or repeated |
| Discovery.AtMostWords | tools/allegrexrecomp/analyze.c:97-300 | No more words can be walked than the image has, which bounds the walk |
| Discovery.HasIs | tools/allegrexrecomp/analyze.c:40-47 | In range are exactly the words of the image, and stubs exactly the stub region |
| Discovery.ClaimKeepsPartition | tools/allegrexrecomp/analyze.c:128-131 | Claiming a word keeps the partition: one owner for each walked word, nothing counted twice |
| Discovery.EndMidway | tools/allegrexrecomp/analyze.c:289-299 | A traced function is listed exactly when it walked something, and then owns its own entry, its words lie in [start,end) and its count is the number of them |
| Discovery.MidMain | tools/allegrexrecomp/analyze.c:165-283 | A word counts as walked only when everything it leads to is walked, an entry, queued or put off, and its import is recorded |
| Discovery.DoneIsComplete | tools/allegrexrecomp/analyze.c:642-662 | With the queue empty, every address followed in range is walked, every walked word belongs to a listed function, and the counts add up |
| Discovery.DoneIsSettled | tools/allegrexrecomp/analyze.c:590-612 | With nothing left noted, every branch or jump out of a body lands on an entry |
| Discovery.ListedOwnsItself | tools/allegrexrecomp/analyze.c:115-131 | In a finished walk an address has a function exactly if it owns itself |
| Discovery.EntryKept | tools/allegrexrecomp/analyze.c:115-131 | Every entry of a finished walk is walked; it has a function exactly if it owns itself, and it does if it was an entry when the walk began and was walked outside a slot: a trace stops at the entries it knows, so only one found later, or one taken for a slot, can be lost |
| Discovery.SettledLands | tools/allegrexrecomp/analyze.c:590-612 | When the rounds have settled a jump or branch stays in its body or goes to an entry, where a function stands exactly if the target owns itself |
| Discovery.EntryLost | tools/allegrexrecomp/analyze.c:270-278 | A finished and settled walk of ten words in which a thunk jumps into the middle of the function walked before it: the address becomes an entry and no function, so the jump has nowhere to land |
| Discovery.SlotLost | tools/allegrexrecomp/analyze.c:143-163 | A finished and settled walk of three words in which an entry known from the start is lost as another function's delay slot |
| Handover.DiscoveredIsLaid | tools/allegrexrecomp/analyze.c:463-685 | What discovery hands over is a layout the emitter can work with (owned words decoded, aligned, inside their owner's range, every function owning its own entry) exactly if no walked word is an import stub |
| Handover.StubsOutside | tools/allegrexrecomp/analyze.c:165-180 | Stubs that lie outside the image are never walked |
| Handover.JumpsFoundExactly | tools/allegrexrecomp/emit.c:79-87 | In the module a settled walk hands over, every jump or branch inside the image stays in its body or finds a function exactly if every target outside its body owns itself: static transfers then never miss |
| Handover.EntriesOwn | tools/allegrexrecomp/analyze.c:590-612 | So it is when every entry owns itself |
| Handover.SlotsDecoded | tools/allegrexrecomp/analyze.c:143-163 | The handed-over module has the delay slot of every walked transfer whose slot is in the image, decoded and owned |
| Handover.MachineStaysWalked | tools/allegrexrecomp/analyze.c:126-283 | The machine runs only walked words: from a word walked outside a slot, whatever the state and whichever way a branch goes, a transfer and its slot or an ordinary instruction leads to a walked word, unless it leaves the image or enters a stub; jr and jalr excepted. A call returns to a walked word |
| Dispatch.Table.Register | src/dispatch.c:54-68 | A registration is added to the table's history; growth keeps what was there |
| Dispatch.Table.RegisterLabel | src/dispatch.c:74-88 | A label registration is added to the history and never overwrites |
| Dispatch.Table.Lookup | src/dispatch.c:90-99 | After any interleaving of registrations the last entry registered for the address if there is one, else the first label, else nothing |
| Dispatch.Table.Grow | src/dispatch.c:37-52 | Doubling, or making the first 4096 slots, keeps every address's answer |
| Dispatch.Table.Find | src/dispatch.c:58-63 | With the load below capacity the probe ends, at the address's own slot or at a free one |
| Dispatch.OutcomeAppend | src/dispatch.c:61-81 | An entry replaces what was there; a label is taken only where nothing is |
| Dispatch.Fill | src/dispatch.c:64-67 | Filling the slot an address probed to keeps every other address's probe path and answer |
| Dispatch.OneSlotEach | src/dispatch.c:90-99 | An address has one slot: two probes that end, end in the same place |
| Dispatch.NotHeld | src/dispatch.c:90-99 | A probe that ends at a free slot has seen every place the address could be |
| Sysmem.PlaceLow | src/hle/sysmem.c:82-97 | Without wrap the least aligned address whose range fits the heap and meets no used block, and 0 exactly when there is none; where the first position plus the size carries past 2^32 nothing fits, and any address but 0 is wrong: when the sum wraps to below the heap that is the first position |
| Sysmem.PlaceHigh | src/hle/sysmem.c:100-115 | The greatest aligned address whose range fits and meets no used block, and 0 exactly when there is none, for every size and alignment |
| Sysmem.StepUp | src/hle/sysmem.c:86-95 | Skipping past blockers strictly advances and passes no candidate |
| Sysmem.StepDown | src/hle/sysmem.c:105-112 | Skipping down strictly descends and passes no candidate; giving up means there was none |
| Sysmem.WrapIsMisfit | src/hle/sysmem.c:82-84 | When the first position plus the size carries past 2^32 the request has no placement at all |
| Sysmem.Rounded | src/hle/sysmem.c:125-126 | Sizes round up to 256 bytes; above 0xFFFFFF00 they wrap to one granule |
| Sysmem.RoundedIs | src/hle/sysmem.c:125-126 | Up to 0xFFFFFF00 it is the least multiple of 256, and not 0, that is not below the size |
| Sysmem.CandidateIs | src/hle/sysmem.c:66-114 | A placement in numbers: aligned, from 0x08C00000 to 0x0A000000, clear of every used block |
| Sysmem.PlacementTypes | src/hle/sysmem.c:160-185 | The placement types by number, with their alignments, and what is refused |
| Sysmem.IsPow2Iff | src/hle/sysmem.c:166-167 | An alignment is accepted exactly if it is a power of two |
| Sysmem.Heap.Alloc | src/hle/sysmem.c:124-141 | Exact first fit from either end into the first free slot, 0 exactly when nothing fits or no slot is free; from the bottom what is handed out is the least placement if and only if heap start plus rounded size stays below 2^32. Used blocks stay inside the heap and disjoint. What is in use grows by exactly the rounded size |
| Sysmem.Heap.AllocPartition | src/hle/sysmem.c:150-199 | Placement by type or at the wanted address, each the exact one if and only if the position plus the size stays below 2^32; an illegal type or alignment refused exactly then; no memory only when no slot is free or the type has no placement, and then nothing has changed; what is in use grows by exactly the rounded size |
| Sysmem.Heap.FreePartition | src/hle/sysmem.c:201-206 | The first used block with that id is freed and nothing else; unknown exactly when there is none; what is in use shrinks by exactly its size |
| Sysmem.Heap.Release | src/hle/sysmem.c:143-146 | The first used block at that address is freed and nothing else; when there is none nothing changes; what is in use shrinks by exactly its size |
| Sysmem.AddressesDiffer | src/hle/sysmem.c:143-146 | In a heap of disjoint blocks an address names one block, so release frees exactly one |
| Sysmem.Heap.FreeBytes | src/hle/sysmem.c:117-122 | Heap size minus the live sizes, without wrapping |
| Sysmem.InstalledBytes | src/hle/sysmem.c:117-122 | A block handed out adds exactly its size to what is in use |
| Sysmem.UsedFits | src/hle/sysmem.c:117-122 | Disjoint blocks inside the heap never add up to more than it |
| Sysmem.CoveredSize | src/hle/sysmem.c:70-77 | Disjoint blocks cover exactly as many bytes as their sizes add up to |
| Vpl.Pools.TryAllocate | src/hle/threadman.c:1424-1462 | Each error exactly in its case (unknown pool, no place for the address, pool short); success charges the pool for a fresh heap block of its own in the first free record and writes its address where the caller asked; every pool keeps free size plus live sizes equal to its size, and a failure leaves the live heap blocks as they were |
| Vpl.Pools.AfterWait | src/hle/threadman.c:1438-1462 | The blocking call once its wait is over: a timeout changes nothing; in time it is served as above |
| Vpl.RunKeepsBacking | src/hle/sysmem.c:117-206 | Over every run in which pools and everything else share the heap, and nobody else frees a pool's block, every pool block has a used heap block of its size to itself |
| Vpl.AllocKeepsBacking | src/hle/sysmem.c:124-199 | Any other allocation from the heap leaves the pools' blocks backed |
| Vpl.FreePartitionBacking | src/hle/sysmem.c:201-206 | Freeing by id leaves them backed exactly if the block found is no pool's |
| Vpl.ReleaseBacking | src/hle/sysmem.c:143-146 | Releasing by address leaves them backed exactly if no pool's block starts there |
| Vpl.FreedUnderPool | src/hle/sysmem.c:201-206 | Freeing, by its id, the heap block a pool has just been given leaves the pool's record without one |
| Vpl.Pools.Free | src/hle/threadman.c:1398-1416 | A block the pool holds goes back to the heap, and only it, and its size to the pool, in 32 bits without wrapping; otherwise nothing changes and the right error is returned |
| Vpl.Pools.Delete | src/hle/threadman.c:1384-1396 | Exactly the heap blocks behind the pool's records are released, its records closed, every other pool untouched |
| Vpl.Pools.Create | src/hle/threadman.c:1368-1382 | A pool in the first free slot with all of its size free, or no memory when there is none |
| Vpl.TookBalanced | src/hle/threadman.c:1449-1458 | Moving a size from a pool's free count to a record keeps every pool balanced |
| Vpl.GaveBalanced | src/hle/threadman.c:1404-1411 | Giving a record back keeps every pool balanced, and the pool's free size never exceeds its size |
| Vpl.TakeKeepsBacking | src/hle/threadman.c:1446-1458 | A new record's heap block is its own: no two records share one |
| Gf256.Gmul | tools/allegrexrecomp/crypto/aes.c:9-19 | The in-place shift-and-add loop computes the product in GF(2^8) |
| Gf256.HasInverse | tools/allegrexrecomp/crypto/aes.c:34-42 | Every byte but 0 has an inverse, its 254th power, so the exhaustive search always succeeds |
| Gf256.DoubleReduces | tools/allegrexrecomp/crypto/aes.c:9-19 | Doubling shifts and reduces by 0x11B, which with the field laws fixes every product |
| Gf256.UniqueInverse | tools/allegrexrecomp/crypto/aes.c:34-42 | It is unique, so the order of the search does not matter |
| Gf256.Associates | tools/allegrexrecomp/crypto/aes.c:9-19 | Multiplication is associative |
| Gf256.Distributes | tools/allegrexrecomp/crypto/aes.c:9-19 | and distributes over exclusive or |
| Gf256.Commutes | tools/allegrexrecomp/crypto/aes.c:9-19 | and commutes |
| Sbox.Tables.Search | tools/allegrexrecomp/crypto/aes.c:38-41 | The inner search loop finds the inverse |
| Sbox.Tables.Build | tools/allegrexrecomp/crypto/aes.c:31-51 | build_tables fills both boxes with the derived substitution and its inverse, every entry of both |
| Sbox.SboxBijective | tools/allegrexrecomp/crypto/aes.c:44-49 | The derived box is a bijection of the 256 bytes and the second box is its inverse |
| Sbox.AffineRows | tools/allegrexrecomp/crypto/aes.c:44-49 | The affine step is the matrix of section 5.1.1 of FIPS-197, row by row |
| Sbox.SubByteIs | tools/allegrexrecomp/crypto/aes.c:33-49 | The box of a byte is the affine step of its inverse, and of 0 it is 0x63 |
| AesC.Context.Init | tools/allegrexrecomp/crypto/aes.c:66-101 | aes_init leaves the key schedule of section 5.2 of FIPS-197 for 128, 192 and 256 bits, each word byte by byte what the key or the words before it make it, and refuses every other size without touching the context |
| Aes.ScheduleIs | tools/allegrexrecomp/crypto/aes.c:80-99 | A list of words is the schedule exactly if every word satisfies the byte equations: the key's bytes; the word a key length back with the last one added, turned up, substituted and with a constant at every multiple of the key length, substituted half-way for long keys |
| Aes.RconValues | tools/allegrexrecomp/crypto/aes.c:90-95 | The ten constants, 01 to 36 |
| Aes.RoundKeyIs | tools/allegrexrecomp/crypto/aes.c:109-118 | Round r uses words 4 r to 4 r + 3, byte by byte |
| AesC.UnpackIs | tools/allegrexrecomp/crypto/aes.c:82-85 | A word holds its four bytes with the first on top |
| AesC.Context.EncryptBlock | tools/allegrexrecomp/crypto/aes.c:163-180 | The in-place rounds compute the cipher on values |
| Aes.EncryptIs | tools/allegrexrecomp/crypto/aes.c:163-180 | The cipher byte by byte: states that satisfy the equations of section 5.1 of FIPS-197 (each byte of a round from the four substituted bytes its row shift and column mixing bring together, and the key) end in the result of encryption |
| AesC.Context.DecryptBlock | tools/allegrexrecomp/crypto/aes.c:182-198 | The in-place rounds compute the inverse cipher on values |
| AesC.ShiftRowsOf | tools/allegrexrecomp/crypto/aes.c:123-129 | The row turned step by step in place is the row shift |
| AesC.InvShiftRowsOf | tools/allegrexrecomp/crypto/aes.c:131-137 | and its inverse |
| AesC.MixColumnsOf | tools/allegrexrecomp/crypto/aes.c:139-148 | The columns mixed in place |
| AesC.InvMixColumnsOf | tools/allegrexrecomp/crypto/aes.c:150-161 | and unmixed |
| Aes.MixColumnsUndone | tools/allegrexrecomp/crypto/aes.c:139-161 | InvMixColumns undoes MixColumns on every state |
| Aes.ShiftRowsUndone | tools/allegrexrecomp/crypto/aes.c:123-137 | The row shifts undo each other |
| Aes.SubBytesUndone | tools/allegrexrecomp/crypto/aes.c:163-198 | The substitutions undo each other |
| Aes.RowsCancel | tools/allegrexrecomp/crypto/aes.c:139-161 | The two coefficient matrices are inverse in GF(2^8) |
| Aes.RoundUndone | tools/allegrexrecomp/crypto/aes.c:163-198 | One inverse round undoes one round, for any round key |
| Aes.DecryptUndoesEncrypt | tools/allegrexrecomp/crypto/aes.c:163-198 | Decryption undoes encryption for any round keys, hence every key of every size, and every block |
| Cbc.CbcUndone | tools/allegrexrecomp/crypto/aes.c:202-227 | CBC decryption undoes CBC encryption for any key, vector and length; the part after the last whole block is dropped |
| Cbc.CbcBlocks | tools/allegrexrecomp/crypto/aes.c:202-227 | Block i of ciphertext encrypts block i of plaintext with block i - 1 of ciphertext, or the vector, added; decryption the other way |
| Cbc.CbcEncryptBuffer | tools/allegrexrecomp/crypto/aes.c:202-212 | aes_cbc_encrypt writes exactly the chained blocks over the destination, in place or to another buffer |
| Cbc.CbcDecryptBuffer | tools/allegrexrecomp/crypto/aes.c:214-227 | aes_cbc_decrypt likewise, in place because it saves the ciphertext block first |
| Cmac.Subkeys | tools/allegrexrecomp/crypto/cmac.c:22-31 | The subkeys of section 2.3 of RFC 4493 |
| Cmac.ShiftDoubles | tools/allegrexrecomp/crypto/cmac.c:9-15 | The one-bit shift doubles the 128-bit number, the carry being the bit that falls off |
| Cmac.DoubleIs | tools/allegrexrecomp/crypto/cmac.c:17-31 | In numbers the doubling is twice the number below 2^128, and otherwise 2^128 less with 0x87 added to the last byte |
| Cmac.LastBlockIs | tools/allegrexrecomp/crypto/cmac.c:44-62 | The last block byte by byte: the last sixteen with the first subkey, or what is over, 0x80 and zeros with the second |
| Cmac.AesCmac | tools/allegrexrecomp/crypto/cmac.c:33-73 | The buffer loop computes the code of section 2.4 of RFC 4493, the empty message and the padded tail included; a bad key size gives zeros |
| Cmac.MacIsCbcMac | tools/allegrexrecomp/crypto/cmac.c:64-72 | The code is the last block of CBC with a zero vector over the message with its tweaked last block |
| Cmac.CmacEqual | tools/allegrexrecomp/crypto/cmac.c:75-79 | Two codes compare equal exactly when they are |
| Kirk.OpenUndoesBuild | tools/allegrexrecomp/crypto/kirk.c:49-158 | Opening a built container, with anything after it, succeeds with both codes verified and gives back exactly the data, for all keys, data, lengths and paddings |
| Kirk.Build | tools/allegrexrecomp/crypto/kirk.c:115-158 | kirk_cmd1_build writes exactly the container at the front of the buffer and leaves the rest; a buffer too small is refused untouched |
| Kirk.Decrypt | tools/allegrexrecomp/crypto/kirk.c:49-113 | kirk_cmd1_decrypt in place: its result, metadata and buffer are those of opening on values; every error leaves the buffer as it was |
| Kirk.Sign | tools/allegrexrecomp/crypto/kirk.c:143-147 | The two codes are stored where neither covers the other |
| Kirk.Parts | tools/allegrexrecomp/crypto/kirk.c:120-154 | Where the parts of a container lie, whatever follows it |
| Kirk.MetaRead | tools/allegrexrecomp/crypto/kirk.c:32-40 | Reading metadata that was written gives the fields back |
| Kirk.Word32Bytes | tools/allegrexrecomp/crypto/kirk.c:9-17 | Little-endian words read back as written |
| Kirk.FieldIs | tools/allegrexrecomp/crypto/kirk.c:8-11 | A field is read as the number whose four bytes, lowest first, lie there |
| Kirk.MetaIs | tools/allegrexrecomp/crypto/kirk.c:32-40 | The report holds exactly the little-endian numbers at 0x60, 0x64, 0x6C, 0x70 and 0x74 |
| Kirk.ContainerFields | tools/allegrexrecomp/crypto/kirk.c:120-135 | A built header byte by byte: mode 1, no signature, retail, the size and the padding, and zeros; the length is 0x90, the padding and whole blocks |
| Kirk.OpenIs | tools/allegrexrecomp/crypto/kirk.c:49-113 | What each result of opening means: a body is given back, decrypted in place, exactly if mode, signature flag and sizes are right and both codes match under the second unwrapped key; otherwise the buffer is untouched |
| Scheduler.RunSafe | src/hle/threadman.c:302-444 | Over every interleaving: at most one thread owns the CPU and g_baton_owned says whether one does, the waiter count is the number queued, cpu_pending names exactly the threads awaiting their first turn, no wakeup is lost, and every semaphore's count stays in range with every unit accounted for |
| Scheduler.SafeKept | src/hle/threadman.c:302-444 | Every single step of any thread keeps all of that |
| Scheduler.BootSafe | src/hle/threadman.c:585-599 | The state the boot thread starts from is safe |
| Scheduler.RegistersPrivate | src/hle/threadman.c:377-444 | No step of another thread, and no step of its own but a guest instruction, changes a thread's registers |
| Scheduler.RegistersSurviveParks | src/hle/threadman.c:377-444 | Whatever the others do between a thread's park and its resume, it resumes with the registers it parked with |
| Scheduler.ResumeYieldsFirst | src/hle/threadman.c:419-431 | A park that takes the CPU back before the cap does so when nobody holds it, no started thread awaits its first turn and nobody is queued |
| Scheduler.WantedCanTake | src/hle/threadman.c:334-342 | Waiting for someone who wants the CPU is no deadlock: once the baton is free somebody can take it |
| Scheduler.TimeoutIsDue | src/hle/threadman.c:748-758 | A wait ends with a timeout exactly when its units are not there and its deadline has come, and takes exactly what it asked for exactly when they are |
| Scheduler.NoParkAfterDeadline | src/hle/threadman.c:743-779 | A wait given a timeout begins no park after virtual time has reached its deadline, so it ends no later than the park in which that happens |
| Scheduler.DueGetsNearer | src/hle/threadman.c:743-779 | Past its deadline a wait only gets nearer to running, or ends |
| Scheduler.WakeupKept | src/hle/threadman.c:470-479 | No lost wakeup: a thread that is parked and not told is still short of what it waits for |
| Scheduler.SemasKept | src/hle/threadman.c:1209-1261 | Counts stay at most the maximum, and what waits and polls took plus what is left plus what clamping and cancelling lost is what was supplied |
| Scheduler.SignalAdds | src/hle/threadman.c:1209-1216 | A signal of n leaves the count n higher or at the maximum, loses only what the maximum had no room for, and tells the parked waiters; nothing else changes |
| Scheduler.CancelSets | src/hle/threadman.c:1253-1261 | A cancel sets the count; the difference is accounted as supplied or lost |
| Scheduler.SignalLetsThrough | src/hle/threadman.c:1209-1231 | No signal is in vain: after it, over any run in which nobody takes from the semaphore, a wait the new count satisfies is let through at its next check, with its units |
| Scheduler.CancelLetsThrough | src/hle/threadman.c:1222-1261 | The same after a cancel |
| Scheduler.WaitBegins | src/hle/threadman.c:743-746 | A wait asks for at least one unit and is due from its timeout on, never without one |
| ThreadmanC.Threadman.CpuWanted | src/hle/threadman.c:334-342 | cpu_wanted_locked is true exactly when the baton is held, somebody is queued or a started thread awaits its first turn |
| ThreadmanC.Threadman.Acquire | src/hle/threadman.c:302-317 | baton_acquire up to its wait is the protocol's step |
| ThreadmanC.Threadman.AcquireQueued | src/hle/threadman.c:306-308 | and the end of its wait |
| ThreadmanC.Threadman.GiveAway | src/hle/threadman.c:392-399 | Giving the CPU away in park_us is the protocol's step |
| ThreadmanC.Threadman.EndPark | src/hle/threadman.c:404-416 | The end of the timed wait, woken or not |
| ThreadmanC.Threadman.AskBack | src/hle/threadman.c:419-429 | Asking for the CPU back: taken at once exactly when nobody wants it |
| ThreadmanC.Threadman.HandOver | src/hle/threadman.c:361-370 | One wakeup of the handover loop, or its cap |
| ThreadmanC.Threadman.RestoreRegisters | src/hle/threadman.c:439-441 | At the end of a park the saved registers are back and virtual time is later by the park's length |
| ThreadmanC.Threadman.FirstTurn | src/hle/threadman.c:782-807 | A thread's first turn: fresh registers, its flag cleared |
| ThreadmanC.Threadman.StartThread | src/hle/threadman.c:952-971 | Starting a thread is the protocol's step; when the host thread cannot be made nothing has happened |
| ThreadmanC.Threadman.WakeWaiters | src/hle/threadman.c:470-479 | The scan tells exactly the threads parked on a semaphore |
| ThreadmanC.Threadman.SignalSema | src/hle/threadman.c:1209-1216 | A signal: the count raised by n, or to the maximum if it has one and that is less, no other count, and exactly the semaphore's kind of waiters told |
| ThreadmanC.Threadman.CancelSema | src/hle/threadman.c:1253-1261 | A cancel: the new count, no other, and exactly that kind of waiters told |
| ThreadmanC.Threadman.PollSema | src/hle/threadman.c:1240-1248 | A poll takes its units exactly when they are there and never parks |
| ThreadmanC.Threadman.CheckWait | src/hle/threadman.c:748-778 | One round of wait_loop on a semaphore: through with its units taken, timed out, or off to a park of 1000 microseconds or what is left, with the record saying so |
| Sas.ResamplingExact | src/hle/sascore.c:184-203 | For any 32-bit pitch, output sample k of a voice is the source sample of its block stream, loops and end flags included, that k pitch steps in 32 bits lead to, at the envelope's level after k + 1 steps; unless a step wraps that is sample floor((acc + k * pitch) / 4096) |
| Sas.StepsExactly | src/hle/sascore.c:194-196 | k steps add k times the pitch exactly if no fraction plus pitch reaches 2^32, and otherwise fall short |
| Sas.LowPitchNeverWraps | src/hle/sascore.c:194-196 | No pitch up to 0xFFFFF000 ever makes a step wrap |
| Sas.ChunksJoin | src/hle/sascore.c:178-205 | Rendering n then m samples is rendering n + m, in the state left and the samples put out |
| Sas.EndsWithStream | src/hle/sascore.c:179-202 | A voice whose envelope does not run out ends exactly where its stream does, at whatever pitch |
| Sas.MissingStaysMissing | src/hle/sascore.c:108-121 | After the last block there is none |
| Sas.EnvStaysFair | src/hle/sascore.c:148-188 | A 32-bit level scales a 16-bit sample within 32 bits whatever rates are set, and a level in range within 16; with rates and levels in range the envelope stays in range |
| Sas.EnvOverflowsExactly | src/hle/sascore.c:148-167 | For any 32-bit level and rates the envelope's addition stays in 32 bits exactly if the rate leaves room at the end it moves towards; with rates and levels in range it does at this step and every later one |
| Sas.SamplesFit | src/hle/sascore.c:123-136 | Decoded samples fit 16 bits |
| Sas.BlockIs | src/hle/sascore.c:101-143 | A block in the bytes of memory: when there is one, its 28 samples (the signed half byte, low half first, shifted by the header, and the weighted two samples before it, held to 16 bits), and what its flags make of the position, the loop start and the end |
| Sas.NibblesMakeByte | src/hle/sascore.c:124-129 | The two samples of a byte are its two halves, low half first, sign-extended on top of 16 bits |
| Sas.ScaledIs | src/hle/sascore.c:188-192 | A full level leaves a sample as it is, level 0 silences it, and between them the product is rounded down |
| Sas.TrackGoesOn | src/hle/sascore.c:178-205 | A voice puts out sample k exactly if it is on, its stream has every source sample up to there, and no step before has released it for good |
| Sas.AttackCurve | src/hle/sascore.c:150-153 | An attack rises by its rate until a step reaches the top, where the decay begins |
| Sas.DecayCurve | src/hle/sascore.c:154-157 | A decay falls by its rate to the sustain level |
| Sas.ReleaseCurve | src/hle/sascore.c:158-161 | A release falls by its rate to 0, where the voice is off |
| Sas.SustainCurve | src/hle/sascore.c:162-165 | A sustained level stays |
| VoiceC.Voice.KeyOn | src/hle/sascore.c:289-307 | Key-on puts the voice at the start of its stream |
| VoiceC.Voice.DecodeBlock | src/hle/sascore.c:108-145 | decode_block puts out the next block of the stream and moves to the one after it by its flags, or says there is none and leaves the decoder alone |
| VoiceC.Voice.DecodeSamples | src/hle/sascore.c:123-136 | The 28 predicted samples and the history after them |
| VoiceC.Voice.StepEnvelope | src/hle/sascore.c:148-167 | step_envelope is the envelope's step, and stops the voice exactly when the release runs out |
| VoiceC.Voice.Resample | src/hle/sascore.c:195-203 | For any 32-bit pitch the inner loop moves the voice on by exactly the source samples the 32-bit sum of fraction and pitch holds, or stops it exactly when the stream ends on the way |
| VoiceC.Voice.PlayingHasIt | src/hle/sascore.c:178-184 | While a voice plays with a block decoded, after any calls, sample_idx is below 28 and names the source sample the voice is at |
| VoiceC.Voice.Render | src/hle/sascore.c:178-205 | The inner loop adds exactly the voice's track, by volume, to both mixes, and leaves the voice where that many samples take it |
| MixerC.Mixer.Render | src/hle/sascore.c:170-207 | render: each of the first voices that plays, is not paused and has data is moved on and added, the others untouched; each side of the mix holds exactly the sum of their tracks by volume, and the rest of the buffer is as it was |
| MixerC.Mixer.RenderVoice | src/hle/sascore.c:174-206 | One turn of the outer loop adds one voice and leaves those still to come as they were |
| MixerC.UnityVolume | src/hle/sascore.c:193-194 | Volume 0x1000 leaves a track as it is |
| DisplayList.IncrementalIsOneShot | src/hle/ge.c:839-852 | Any number of stall updates reached in order, with no call open at a stall and within the budget, leave the same state as one run to the last stall, even if the list is written as it goes |
| DisplayList.StallsJoin | src/hle/ge.c:598-606 | Running to one stall and on to the next is running to the second at once |
| DisplayList.RunIsSteps | src/hle/ge.c:598-606 | A run is a number of single commands, and one that stops short of its budget has reached the stall or the end |
| DisplayList.GoesOn | src/hle/ge.c:627-636 | Where each command takes the walk: jumps and calls to the word their 24 bits name within the base, returns to the last open call |
| DisplayList.CallsNest | src/hle/ge.c:630-636 | Calls remember the next word, eight deep |
| DisplayList.BaseSet | src/hle/ge.c:659-661 | What sets the base, and from which bits |
| DisplayList.Ends | src/hle/ge.c:644-660 | What ends a list and what keeps the origin |
| DisplayList.RunawayStops | src/hle/ge.c:594-598 | A run that does not stop is given up after 2^22 commands |
| DisplayList.EnoughBudget | src/hle/ge.c:594-598 | A larger budget than a finished run needs changes nothing |
| DisplayList.OpenCallIsLost | src/hle/ge.c:591-593 | On a return fetched right at the stall with a call open, the resumed walk goes on after the stall instead of after the call; the two agree exactly when those are the same address |
| DisplayList.StalledInCall | src/hle/ge.c:591-593 | A concrete list, stalled inside a call and resumed, that never executes what follows the call: four commands where one run executes five |
| DisplayList.ForgottenCalls | src/hle/ge.c:591-636 | A walk resumed with its open calls forgotten stays, command by command, like one that kept them exactly if it reaches no return of theirs that leads elsewhere than to the next address, with room on the stack |
| DisplayList.AlikeByReturns | src/hle/ge.c:630-636 | Two walks that differ in their open calls, in any way, stay alike exactly as long as their returns go to the same places |
| DisplayList.OpenCallsHarmless | src/hle/ge.c:839-852 | So a list stalled inside calls ends as one run does when the resumed walk reaches no such return |
| DisplayList.UnreturnedHarmless | src/hle/ge.c:839-852 | In particular when the resumed walk returns from none of them |
| DisplayList.ShallowIsIdeal | src/hle/ge.c:630-636 | CALL and RET nested at most eight deep behave as an unbounded stack |
| DisplayList.Queue.CallOrReturn | src/hle/ge.c:630-636 | A call pushes while there is room, a return pops while there is something |
| DisplayList.Queue.Walked | src/hle/ge.c:591-652 | run_list leaves the list, its registers, the drawing state and its slot as the walk on values does |
| DisplayList.Queue.UpdateStall | src/hle/ge.c:849-850 | A stall update runs on exactly if the list is not done |
| Texture.OffsetFits | src/render.c:90-95 | Swizzled or linear, a byte of the grid lies below rowb * height, and its column and row can be read back from the offset, so no two share a place |
| Texture.OffsetCovers | src/render.c:90-95 | Every offset below rowb * height is the place of a byte of the grid |
| Texture.OffsetSteps | src/render.c:90-95 | From byte to byte, row to row and block to block: a swizzled block of 16 by 8 is one run of 128 bytes, blocks follow to the right and then downwards |
| Unaligned.UnalignedLoad | include/psprecomp/recomp_rt.h:182-192 | lwr at an address and lwl three above it, in either order, load the little-endian word there, whatever the register held |
| Unaligned.UnalignedStore | include/psprecomp/recomp_rt.h:194-202 | swr at an address and swl three above it, in either order, write the register's four bytes there and no other byte |
| Unaligned.LoadAfterStore | include/psprecomp/recomp_rt.h:182-202 | A load pair after a store pair gives back what was stored |
| Unaligned.LoadLeftParts | include/psprecomp/recomp_rt.h:173-186 | The bytes lwl takes and keeps, for each offset |
| Unaligned.LoadRightParts | include/psprecomp/recomp_rt.h:175-192 | The bytes lwr takes and keeps |
| Unaligned.StoreLeftParts | include/psprecomp/recomp_rt.h:177-197 | The bytes swl writes and keeps |
| Unaligned.StoreRightParts | include/psprecomp/recomp_rt.h:179-202 | The bytes swr writes and keeps |

## Left out

- Opcode decoding of instruction words, text formatting, comments and trace macros of the generated C, file output, the
  command line, and what unimplemented instructions do: an ordinary instruction is an arbitrary function on the state.
- Allocation failure in the tools and in the dispatch table, and 32-bit wrap of ids.
- Preservation.Preserves: does not cover psp_syscall leaving a thread by longjmp, the dispatch call budget, or a miss
  handler that returns; registers are unbounded numbers, so wrap-around is the ordinary instructions' own business.
- WalkC.Walk.Discover: takes the lui/addiu and data-pointer harvests and the resolved jump tables as arbitrary lists
  of addresses, and leaves out the invalid and VFPU counters and the has_return, has_indirect and has_vfpu flags.
- EmitC.EmitContext.Emit: the split into several output units is not modelled, only the order of the bodies.
- Sysmem.Heap.AllocPartition: block names are left out.
- Vpl.Pools.AfterWait: the wait itself is left out, and the pool is not deleted during it.
- Scheduler.RunSafe: counts, signals and cancels are not negative and do not overflow 32 bits; no semaphore or thread
  is deleted while another waits; event flags, callbacks, interrupts delivered during a wait, thread-end waits,
  sleep/wakeup and the handover statistics are left out, as is a nesting depth of the baton above one.
- ThreadmanC.Threadman.SignalSema: a method is one atomic step; the mutexes that make it so are not modelled.
- The inline mode without host threads.
- AesC.Context.EncryptBlock: takes and returns the block as a value, so the caller's in == out is not expressed
  (the buffers of `Cbc` may be the same).
- Kirk.Build: takes the data as a sequence, so data that overlaps the output buffer is not expressed; data and padding
  lengths are 32-bit as in the program.
- MixerC.Mixer.Render: the 32-bit overflow of the mix and its copy to guest memory are left out. Positions are
  unbounded, and guest memory does not change while voices play.
- DisplayList.IncrementalIsOneShot: what drawing commands do is an arbitrary function of the command and the state so
  far; vertices, transforms, lighting and the table of queues are left out.
- Texture.OffsetFits: no 32-bit wrap, and the row size is a parameter rather than computed from width and format.
- Triangles, sprites, fragments, blending and every other use of floating point.
- Unaligned.UnalignedStore: memory is a function from addresses to bytes, without unmapped addresses.
- Window, audio and file interfaces, host clocks, ISO, PBP, ELF and SFO parsing.

# A verified model of the seL4 kernel core

This project models the hard core of the seL4 microkernel (the MCS variant, one core except for the lock)
and of two of its build tools, and proves properties of the model. Code that changes state in place is
modelled by classes whose methods follow the statements of the original; each is proved against functions
on values, and the main properties are lemmas about these functions and invariants over every run.

| file | what it models |
|---|---|
| `CapSpaces.dfy` | capability slots and the derivation list: insert, move, exchange, empty, and the test for the last capability to an object |
| `Derivations.dfy` | what derivation and revocation find: badges, and untyped capabilities against the model of their region |
| `CapDeletion.dfy` | deletion of capabilities with zombies, mutually recursive and preemptible; the packing of zombies into words |
| `Sporadic.dfy`, `SchedContexts.dfy` | the sporadic-server budget: refill queues as sequences, and the circular buffer that refines them |
| `ClhLock.dfy` | the CLH queue lock as interleaved atomic steps of any number of cores |
| `CallStacks.dfy` | reply objects, call stacks and the donation of scheduling contexts |
| `TcbQueues.dfy` | doubly linked thread queues and the sequences they hold |
| `EndpointQueue.dfy` | endpoints and the priority-ordered queues of blocked threads |
| `ReadyQueues.dfy` | ready queues with the two-level inverted bitmap |
| `SchedulerLaw.dfy` | what kernel entries do to the scheduler, and which thread runs afterwards |
| `ThreadsKept.dfy`, `Turns.dfy` | that no thread gets lost between the queues, and whose turn it is |
| `Scheduling.dfy` | the scheduler's operations on the linked queues and the bitmap |
| `Fastpath.dfy` | the fast path of a call against the slow path |
| `CallSteps.dfy` | the slow path of a call against the scheduler's law |
| `Untyped.dfy` | retyping untyped memory, copies, and the preemptible reset |
| `UntypedCarve.dfy`, `BootRegions.dfy` | boot: carving regions into untypeds, reserving regions, the sweep for free memory |
| `CSpaceLookup.dfy` | the fast capability lookup against the reference lookup |
| `Reciprocal.dfy` | division by multiplication (`reciprocal.py`) |
| `BlockFields.dfy` | the bitfield generator: layout of blocks, and the constructors, readers and writers it generates |
| `TagReader.dfy` | variable-width tags in the bitfield generator |
| `Words.dfy` | powers of two, shifts, masks and alignment on natural numbers |

Objects are known by their addresses, with 0 as the null pointer, and memory is a map from addresses to
records; a pointer store is a map update. Ticks and addresses are mathematical integers, except where shifts
and masks are the point; there words have an explicit width.

## Main results

* Deletion terminates on every capability graph, including containers that hold capabilities to themselves
  or to each other, and empties the slot. At every step each zombie's node is empty from its number on, no
  capability is cut off from all references, and none is copied. Slots to which no path of capabilities leads from
  the deleted one are untouched (`CapDeletion.Deletion.CteDelete`).
* In every run of list operations, capabilities to one object stay contiguous, so the two-neighbour test
  equals a search of all slots (`CapSpaces.Run`, `CapSpaces.FinalIsOnly`).
* In every run that derives and copies as the kernel does, revocation of a badged capability stays within the
  derivation that gave the badge (`Derivations.RunGrouped`, `Derivations.RevokeInGroup`), and of two capabilities to
  one untyped region one is full
  (`Derivations.RunAsIs`); their free indices are those of the model of the region (`Derivations.RunTied`).
* Past its checks, the fast path of a call leaves the state the slow path leaves exactly if no ready thread of
  the domain beats the receiver (`Fastpath.FastIsSlowIff`).
* After every kernel entry, of any number of steps, the current thread is one of the highest priority in its
  domain, although `schedule` skips the bitmap in the common case and the current thread may have stopped in
  between (`SchedulerLaw.RunCalm`, `Scheduling.RunEntries`). The exceptions are exact, step by step
  (`SchedulerLaw.ActPoisedIff`): a candidate that is stopped, postponed, unbound or moved away, a current thread
  that is postponed without a new choice or is lowered after it has stopped, and a higher thread moved into the
  domain. Calls and everything that ends with `rescheduleRequired` are none of them; that a call makes the steps
  of such an entry is proved of the slow path (`CallSteps.SlowIsEntry`, `CallSteps.CallKeepsLaw`).
* Over every run of kernel entries no schedulable thread is lost: it stays current or in the queue of its level
  (`ThreadsKept.RunKeeps`). Threads of one level take turns (`Turns.ExpireTurn`, `Turns.WakeTurn`).
* No run of charges takes more than the total of the refills from one period (`Sporadic.BandwidthBound`), and after
  every run the total is usable again within one period (`Sporadic.BudgetReturns`, `Sporadic.RunReturns`); the
  circular buffer refines the sequences on which this is proved.
* The queue lock gives mutual exclusion in exchange order to any number of cores, without deadlock or
  starvation (`ClhLock.LockSafety`, `ClhLock.JoinsQueue`, `ClhLock.NoStarvation`).
* Call stacks stay finite with mutual links in every run, a push hands the context over, and pop undoes it
  (`CallStacks.RunOps`, `CallStacks.PushHandsOver`, `CallStacks.PushPop`).
* Endpoint queues stay sorted by priority and arrival, and hold exactly the waiting threads
  (`EndpointQueue.RunOps`); whether sender or receiver comes first makes no difference
  (`EndpointQueue.MeetEitherWay`). The ready-queue bitmap agrees with a scan of all queues (`Scheduling.Run`).
* Children of untyped memory are aligned, disjoint and start from zeroed memory, with preemption after any
  chunk; a retype succeeds exactly if its objects fit above the last one (`Untyped.Run`, `Untyped.Region.Retype`,
  `Untyped.RetypeTwice`).
* The fast lookup agrees with the slow one on every capability space (`CSpaceLookup.LookupsAgree`), and that one
  inverts the composition of addresses (`CSpaceLookup.ResolveFollows`, `CSpaceLookup.AddressResolves`).
* The multiplier search always succeeds and is exact (`Reciprocal.Magicgu`).
* Whatever block the bitfield generator accepts, after the constructor and any run of writers every field reads
  back what was last put into it, if it can represent it (`BlockFields.RunReadsIff`), and a tagged union its tag
  (`TagReader.TagRoundTrip`).

Five properties that one might expect are false of the code. For each there is a concrete input and the exact
condition under which it holds:

* The refills of a scheduling context are in time order: not after every run (`Sporadic.RunUnorders`), but
  exactly if no burst has the delayed head pass a refill and stay in front (`Sporadic.RunOrderedIff`).
* The free memory found at boot is the available minus the reserved memory: `BootRegions.SpillWitness`,
  `BootRegions.FreeMemoryExact`.
* The current thread is the most urgent one: `SchedulerLaw.IntruderWaits`, `SchedulerLaw.RunSettledIff`; where it
  is not, the fast path can differ from the slow one (`Fastpath.FastCanDiffer`, `Fastpath.FastIsSlowIff`).
* The assertion of a generated writer keeps out all values that would not be read back:
  `BlockFields.SetLosesTop`, `BlockFields.SetReadsIff`.
* Division by multiplication is exact for every divisor: `Reciprocal.BeyondRange`, `Reciprocal.MagicExact`.

The asserts of `reply_pop` leave out a precondition (`CallStacks.PopInvIff`); its only caller meets it.

## Model

| member | source | states |
|---|---|---|
| `CapSpaces.SameObjectEquivalence` | kernel/src/object/objecttype.c:274-392 | The test "same object" is an equivalence on the capabilities that have an object of their own, and no null, untyped or zombie capability passes it. |
| `CapSpaces.FinalIsOnly` | kernel/src/object/cnode.c:840-868 | In a space with well linked, contiguous lists, looking at the two neighbours decides exactly whether any other slot holds a capability to the same object. |
| `CapSpaces.SplicedInv` | kernel/src/object/cnode.c:410-443 | Putting a capability right after another one to its object, or a first one to its object where it parts no two of a kind, keeps every link mutual, all lists acyclic, and capabilities to one object contiguous. |
| `CapSpaces.DerivedInv` | kernel/src/object/cnode.c:396-443 | The same for what cteInsert stores. |
| `CapSpaces.RemovedInv` | kernel/src/object/cnode.c:567-592 | Taking a capability out of its list keeps links mutual and capabilities to one object contiguous. |
| `CapSpaces.SwappedInv` | kernel/src/object/cnode.c:489-526 | Renaming two slots in all links keeps links mutual and capabilities to one object contiguous, whether the slots are neighbours, far apart or empty. |
| `CapSpaces.ExchangedIsSwapped` | kernel/src/object/cnode.c:489-526 | The stores of cteSwap in their order, with the second slot read after the first slot's neighbours changed, amount to renaming the two slots everywhere, also when each is the other's neighbour. |
| `CapSpaces.MovedIsSwapped` | kernel/src/object/cnode.c:445-473 | The stores of cteMove amount to an exchange with a blank slot. |
| `CapSpaces.RecappedInv` | kernel/src/object/cnode.c:615-662 | The last capability to an object can give way in place to a zombie without harm to the lists. |
| `CapSpaces.WrittenInv` | kernel/src/kernel/boot.c:222-229 | A capability written at boot, the first to its object, forms a list of its own and keeps the rest. |
| `CapSpaces.CapSpace.WriteSlot` | kernel/src/kernel/boot.c:222-229 | The slot holds the capability, unlinked, revocable and first badged; nothing else changes; the invariant is kept. |
| `CapSpaces.CapSpace.CteInsert` | kernel/src/object/cnode.c:410-443 | The whole new space is the old one with the capability spliced in after the source, which is marked full if it is copied untyped memory; the invariant is kept. |
| `CapSpaces.CapSpace.InsertNewCap` | kernel/src/object/cnode.c:745-756 | The whole new space is the old one with the capability spliced in after the parent, revocable and first badged; the invariant is kept. |
| `CapSpaces.CapSpace.SetFreeIndex` | kernel/src/object/untyped.c:293-299 | Only the free index of this untyped capability changes; the invariant is kept. |
| `CapSpaces.CapSpace.EmptySlot` | kernel/src/object/cnode.c:567-592 | The slot is blank, its neighbours are joined and inherit the first-badged bit; an empty slot changes nothing; the invariant is kept. |
| `CapSpaces.CapSpace.CteMove` | kernel/src/object/cnode.c:445-473 | Destination and source are renamed in all links, the source is left blank; the invariant is kept. |
| `CapSpaces.CapSpace.CteSwap` | kernel/src/object/cnode.c:489-526 | The two slots are renamed in all links and hold each other's capabilities; the invariant is kept. |
| `CapSpaces.CapSpace.CapSwapForDelete` | kernel/src/object/cnode.c:475-487 | Exchanges two different slots; one slot with itself is left alone. |
| `CapSpaces.CapSpace.IsFinalCapability` | kernel/src/object/cnode.c:840-868 | Returns true exactly if no other slot in the whole space holds a capability to the same object. |
| `CapSpaces.Run` | kernel/src/object/cnode.c:410-526 | After any sequence of these operations from blank slots the lists are well linked and the neighbour test agrees with a search of all slots, at every slot. |
| `Derivations.DerivedFound` | kernel/src/object/cnode.c:410-443 | Right after a derivation, revocation of the source finds the new capability next in the list exactly if the source was revocable, for every kind of capability, with or without a new badge. |
| `Derivations.CopyFoundIff` | kernel/src/object/cnode.c:410-443 | Revocation of a derived capability finds a copy made of it exactly if it has a new badge, is a new interrupt handler or is untyped memory: other copies are siblings. |
| `Derivations.InsertedGroups` | kernel/src/object/cnode.c:410-443 | A derived capability with a badge is marked first of a new group exactly if the badge is new; otherwise it follows one of its own group; the capability behind it still does. |
| `Derivations.InsertedNewGroups` | kernel/src/object/cnode.c:745-756 | A new capability after an unbadged one parts no group. |
| `Derivations.RemovedGroups` | kernel/src/object/cnode.c:567-592 | When the first of a group goes, the next one takes over the mark, so that no group runs into another one. |
| `Derivations.SwappedGroups` | kernel/src/object/cnode.c:489-526 | Renaming two slots keeps every group together. |
| `Derivations.RevokeInGroup` | kernel/src/object/cnode.c:528-550 | Whatever revocation of a badged capability finds, one after the other, comes from the derivation that gave the badge to it, even if the same badge was given in other derivations. |
| `Derivations.RunGrouped` | kernel/src/object/cnode.c:410-592 | In every run of operations that derive badged capabilities as the kernel does, each is in the group of the operation that gave its badge. |
| `Derivations.InsertedOneOpen` | kernel/src/object/cnode.c:396-443 | Copying an untyped capability leaves at most one to its region that is not full. |
| `Derivations.SwappedOneOpen` | kernel/src/object/cnode.c:489-526 | Moving and exchanging keeps that. |
| `Derivations.RunAsIs` | kernel/src/object/cnode.c:396-592 | In every run in which untyped capabilities are handed on as they are and memory is handed out only where all others are full, of two capabilities to one region at least one is full: its free index times 16 is the size of the region. |
| `Derivations.CopyTied` | kernel/src/object/cnode.c:396-443 | Over the slots with capabilities to a region, in list order, cteInsert of a copy of the last one does to the free indices what copying does in the model of the region: the source becomes full, the copy has what was free. |
| `Derivations.DeleteTied` | kernel/src/object/cnode.c:567-592 | emptySlot of one of them takes its free index out, and the others stay next to each other. |
| `Derivations.AdvanceTied` | kernel/src/object/untyped.c:293-299 | The store of a retype changes the free index of that one only. |
| `Derivations.CopyUntyped` | kernel/src/object/cnode.c:396-443 | A copy in the slots and a copy in the region keep the two tied; there is one exactly if no object lives. |
| `Derivations.DeleteUntyped` | kernel/src/object/cnode.c:567-592 | So does a deletion. |
| `Derivations.RetypeUntyped` | kernel/src/object/untyped.c:183-306 | So does a retype, with the new free index stored in the slot. |
| `Derivations.RunTied` | kernel/src/object/untyped.c:183-306 | Over every run of copies, deletions and retypes of a region, the slots hold exactly its capabilities with its free indices, and all but the last are full. |
| `CapDeletion.EmptiedSound` | kernel/src/object/cnode.c:567-592 | Emptying a slot keeps every zombie alone in its claim to a node and the slots from its number on empty; no slot becomes active. |
| `CapDeletion.ZombifiedSound` | kernel/src/object/objecttype.c:168-212 | When the last capability to a node becomes a zombie with all its slots, the zombie is the only capability to that node. |
| `CapDeletion.ShrunkSound` | kernel/src/object/cnode.c:695-700 | Counting a zombie down over an empty last slot keeps all slots from its number on empty. |
| `CapDeletion.TradedSound` | kernel/src/object/cnode.c:710-722 | Exchanging a zombie with the first slot of its own node keeps the zombie invariants and makes the set of active slots strictly smaller. |
| `CapDeletion.EmptiedReaches` | kernel/src/object/cnode.c:552-565 | A slot that may be emptied never held all that was left of a node with contents: no capability is cut off. |
| `CapDeletion.HoldersKept` | kernel/src/object/cnode.c:630-632 | A capability that turns into a zombie of its node still reaches that node. |
| `CapDeletion.TradedReaches` | kernel/src/object/cnode.c:710-722 | Exchanging a zombie with the first slot of its node cuts no capability off. |
| `CapDeletion.TradedNotCopied` | kernel/src/object/cnode.c:475-487 | An exchange puts no capability into more slots than before. |
| `CapDeletion.ReplacedNotCopied` | kernel/src/object/cnode.c:630-632 | Neither emptying nor zombies put a capability into more slots. |
| `CapDeletion.RecappedWithin` | kernel/src/object/cnode.c:630-632 | Replacing a capability by null or by its zombie changes no slot outside any area that is closed under access and holds the slot, and the area stays closed. |
| `CapDeletion.TradedWithin` | kernel/src/object/cnode.c:710-722 | Neither does exchanging a zombie with the first slot of its node. |
| `CapDeletion.InnerWithin` | kernel/src/object/cnode.c:680-709 | What stays within the areas of the last slot of a zombie's node stays within those of the zombie. |
| `CapDeletion.UnreachableKept` | kernel/src/object/cnode.c:552-565 | So a slot to which no path leads from the deleted one, from capability to slot of its node, keeps its capability. |
| `CapDeletion.EndDeleted` | kernel/src/object/cnode.c:680-709 | After the last slot of a zombie's node is deleted unexposed, either the zombie is in place and that slot is empty, or the zombie's slot is empty, or it holds a zombie of its own node and fewer slots are active; so the asserts of reduceZombie hold. |
| `CapDeletion.Deletion.PreemptionPoint` | kernel/src/model/preemption.c:16-40 | Exactly the point that the input singles out reports preemption, any number of points away; none does without a pending interrupt. |
| `CapDeletion.Deletion.Finalise` | kernel/src/object/objecttype.c:104-258 | If the remainder can be removed, emptying the slot cuts nothing off; otherwise it is a zombie no further from empty than the capability was. |
| `CapDeletion.Deletion.SetRemainder` | kernel/src/object/cnode.c:615-662 | Storing the remainder changes this slot only and keeps all invariants. |
| `CapDeletion.Deletion.Shrink` | kernel/src/object/cnode.c:695-700 | The zombie's number goes down by one, all invariants are kept. |
| `CapDeletion.Deletion.Trade` | kernel/src/object/cnode.c:710-722 | Fewer slots are active, other slots are spared except that the node's first slot now holds the zombie, all invariants are kept. |
| `CapDeletion.Deletion.Clear` | kernel/src/object/cnode.c:552-565 | Only this slot becomes empty, all invariants are kept. |
| `CapDeletion.Deletion.CteDelete` | kernel/src/object/cnode.c:552-565 | Terminates on every capability graph, cycles included. Unless preempted, an exposed deletion leaves the slot empty; an unexposed one leaves it empty or with a zombie of its own node and spares all other slots. A capability that gives access to no node, or is not the last one to its object, is deleted at once and alone. In any case every slot to which no path of capabilities leads from this one keeps its capability, zombies keep their tails empty, and no capability is cut off or copied. It is preempted exactly if the countdown to the interrupt runs out. |
| `CapDeletion.Deletion.FinaliseSlot` | kernel/src/object/cnode.c:615-662 | Terminates; success means the slot may be emptied, and is immediate without a change if it could be from the start; failure happens only unexposed, with a zombie of the slot's own node in it; what is out of reach stays; all invariants are kept. |
| `CapDeletion.Deletion.ReduceZombie` | kernel/src/object/cnode.c:664-724 | Makes progress in one of three ways (fewer active slots, empty slot, smaller number), with every assert of the function proved, and keeps all invariants. |
| `CapDeletion.Deletion.CountDown` | kernel/src/object/cnode.c:686-709 | With the last slot dealt with, the zombie counts down by one, or its slot is empty, or it holds a zombie of its own node; every assert there is proved. |
| `CapDeletion.ZombieRoundTrip` | kernel/include/object/structures.h:112-151 | Number and pointer packed into one word are read back, for every number up to all slots of the node and every pointer aligned to twice that. |
| `CapDeletion.SetNumberExact` | kernel/include/object/structures.h:146-151 | Setting the number leaves the pointer as it was. |
| `Sporadic.ScheduleUsed` | kernel/src/kernel/sporadic.c:211-223 | Adds exactly the new amount to the total and at most one refill. |
| `Sporadic.EnsureSufficient` | kernel/src/kernel/sporadic.c:225-235 | Conserves the total; with a total of at least the minimum the head is sufficient and the buffer is not full. |
| `Sporadic.SplitCheck` | kernel/src/kernel/sporadic.c:298-342 | Conserves the total and stays within the buffer; a head that remains sufficient stays so; when the charge is due again is in the rows SplitCheckBy, SplitCheckUsable and SplitCheckExact. |
| `Sporadic.Exhaust` | kernel/src/kernel/sporadic.c:248-270 | The loop over exhausted heads ends, conserves the total, and leaves less usage than the head holds. |
| `Sporadic.Overrun` | kernel/src/kernel/sporadic.c:271-285 | The delay for an overrun conserves the total and moves the head by exactly the usage. |
| `Sporadic.BudgetCheck` | kernel/src/kernel/sporadic.c:248-296 | Conserves the total and ends with a sufficient head and a buffer that is not full. |
| `Sporadic.MergeOverlapping` | kernel/src/kernel/sporadic.c:345-370 | Conserves the total and leaves no second refill that overlaps the head. |
| `Sporadic.UnblockCheck` | kernel/src/kernel/sporadic.c:345-370 | Conserves the total; the head only grows; it is due now if it was ready, give or take a kernel entry, and otherwise nothing changes. |
| `Sporadic.Update` | kernel/src/kernel/sporadic.c:171-209 | The total becomes the new budget, the head only shrinks, the rest comes one period later; the head is due now if it was ready and when it was otherwise, so never earlier by more than a kernel entry. |
| `Sporadic.ScheduleUsedOrdered` | kernel/src/kernel/sporadic.c:211-223 | Keeps the refills ordered in time. |
| `Sporadic.EnsureSufficientOrdered` | kernel/src/kernel/sporadic.c:225-235 | Keeps the refills ordered; the head does not move to an earlier time. |
| `Sporadic.SplitCheckOrdered` | kernel/src/kernel/sporadic.c:298-342 | Keeps the refills ordered; the head does not move to an earlier time. |
| `Sporadic.UnblockCheckOrdered` | kernel/src/kernel/sporadic.c:345-370 | Keeps the refills ordered. |
| `Sporadic.UpdateOrdered` | kernel/src/kernel/sporadic.c:171-209 | With a positive period the refills are ordered afterwards, whatever they were. |
| `Sporadic.ExhaustOrdered` | kernel/src/kernel/sporadic.c:248-270 | Replenishing exhausted heads keeps the refills ordered. |
| `Sporadic.BudgetCheckOrderedIff` | kernel/src/kernel/sporadic.c:248-296 | From an ordered queue, refill_budget_check leaves the refills out of order exactly if the head delayed by the overrun, merged with the second refill, passes the third, and then either waits with a sufficient amount or is charged with a sufficient rest that is not merged on: a condition on queue, usage and time. |
| `Sporadic.ExhaustReads` | kernel/src/kernel/sporadic.c:248-270 | Below the total, the usage left by the loop is the usage minus the refills it covers, and the queue left begins with the refills from the first uncovered one up to, but without, the last. |
| `Sporadic.Billed` | kernel/include/kernel/thread.h:124-159 | A burst of execution, with refill_unblock_check at its start and split or budget check at its end as commitTime and checkBudget choose, conserves the total and stays within the buffer. |
| `Sporadic.BilledOrderedIff` | kernel/include/kernel/thread.h:247-269 | A burst leaves an ordered queue ordered exactly if it does not make the budget check pass a refill. |
| `Sporadic.RunOrderedIff` | kernel/src/kernel/sporadic.c:248-370 | Over every run of bursts from an ordered queue, all queues are ordered exactly if no burst makes the budget check pass a refill. |
| `Sporadic.RunUnorders` | kernel/src/kernel/sporadic.c:248-370 | A context with budget 9, period 10 and the minimum budget of twice the kernel entry time, run for 14 ticks at 0, 2 at 16 and 6 at 18, each time when its head is ready, ends with its refills out of order. |
| `Sporadic.SplitCheckUsable` | kernel/src/kernel/sporadic.c:298-342 | What a charge takes from a head before a deadline is no longer usable before that deadline. |
| `Sporadic.ChargedWithinUsable` | kernel/src/kernel/sporadic.c:298-342 | The usage charged before a deadline by any run of charges is within what was usable before it. |
| `Sporadic.BandwidthBound` | kernel/src/kernel/sporadic.c:298-342 | From ordered refills of total B at times from T on, any run of refill_split_check calls charges at most B from heads released in the period that starts at T. |
| `Sporadic.ScheduleUsedBy` | kernel/src/kernel/sporadic.c:211-223 | Scheduling an amount leaves no refill due later than the latest before and the amount itself. |
| `Sporadic.SplitCheckBy` | kernel/src/kernel/sporadic.c:298-342 | Whatever is charged is due again no later than the latest refill before, or one period after the head was due. |
| `Sporadic.ExhaustHeadBy` | kernel/src/kernel/sporadic.c:248-270 | So is a head that is used up. |
| `Sporadic.ExhaustBy` | kernel/src/kernel/sporadic.c:248-270 | Below the total, everything that the loop uses up is due again no later than the latest refill before, or one period after the last refill it uses up was due. |
| `Sporadic.ExhaustWithin` | kernel/src/kernel/sporadic.c:248-270 | However much is used, everything is due again no later than the latest refill before, or one period after the head that the loop leaves. |
| `Sporadic.BudgetCheckBy` | kernel/src/kernel/sporadic.c:248-296 | After a budget check everything is due no later than the latest refill before, or one period after the head was due; with an overrun, one period and the overrun after the next head. |
| `Sporadic.BudgetReturns` | kernel/src/kernel/sporadic.c:298-342 | After any run of charges from refills within one period, the whole budget is usable again within one period of the head: the other side of the sliding window. |
| `Sporadic.BilledBy` | kernel/include/kernel/thread.h:124-159 | A burst leaves nothing due later than the latest refill before or what its charge asks for. |
| `Sporadic.RunReturns` | kernel/src/kernel/sporadic.c:248-370 | Over every run of bursts in which the refills stay in order, the whole budget is usable again by the latest of these times. |
| `Sporadic.WithinHeadBack` | kernel/src/kernel/sporadic.c:248-370 | For a burst that does not use up the head, that time is one period after its start. |
| `Sporadic.EnsureSufficientReads` | kernel/src/kernel/sporadic.c:225-235 | The loop merges exactly the first refills, up to the first place where they suffice and leave room, and leaves the rest. |
| `Sporadic.UnblockReads` | kernel/src/kernel/sporadic.c:345-370 | The loop merges exactly the refills that are due before those in front of them are used up, and leaves the rest. |
| `Sporadic.ScheduleUsedExact` | kernel/src/kernel/sporadic.c:211-223 | An amount that suffices delays no other budget, and is usable exactly when it is due or the last refill is; a smaller one delays the last refill at most. |
| `Sporadic.SplitCheckExact` | kernel/src/kernel/sporadic.c:298-342 | A charge that suffices and leaves enough at the head moves just what was used, to one period later or to the last refill. |
| `SchedContexts.SchedContext.RefillSize` | kernel/include/kernel/sporadic.h:70-76 | The size computed from head and tail is the number of refills in the circular buffer. |
| `SchedContexts.SchedContext.RefillSingle` | kernel/include/kernel/sporadic.h:86-89 | Head equals tail exactly if there is one refill. |
| `SchedContexts.SchedContext.PopHead` | kernel/src/kernel/sporadic.c:113-126 | Removes the first refill of the abstract queue and returns it. |
| `SchedContexts.SchedContext.AddTail` | kernel/src/kernel/sporadic.c:129-140 | Appends to the abstract queue, within the buffer. |
| `SchedContexts.SchedContext.MaybeAddEmptyTail` | kernel/src/kernel/sporadic.c:142-150 | Refines the abstract operation, for round-robin contexts only. |
| `SchedContexts.SchedContext.RefillNew` | kernel/src/kernel/sporadic.c:153-169 | The queue holds exactly the requested budget, ready now. |
| `SchedContexts.SchedContext.RefillUpdate` | kernel/src/kernel/sporadic.c:171-209 | Refines the abstract update; the total is the new budget. |
| `SchedContexts.SchedContext.Schedule` | kernel/src/kernel/sporadic.c:211-223 | Refines the abstract schedule_used in the circular buffer. |
| `SchedContexts.SchedContext.EnsureSufficientHead` | kernel/src/kernel/sporadic.c:225-235 | The loop refines the abstract operation: sufficient head, buffer not full, total conserved. |
| `SchedContexts.SchedContext.RefillSplitCheck` | kernel/src/kernel/sporadic.c:298-342 | Refines the abstract split check; total conserved. |
| `SchedContexts.SchedContext.ExhaustRefills` | kernel/src/kernel/sporadic.c:248-270 | The loop refines the abstract one and terminates also on zero-amount heads. |
| `SchedContexts.SchedContext.DelayForOverrun` | kernel/src/kernel/sporadic.c:271-285 | Refines the abstract overrun. |
| `SchedContexts.SchedContext.RefillBudgetCheck` | kernel/src/kernel/sporadic.c:248-296 | Refines the abstract budget check: total conserved, sufficient head, buffer not full. |
| `SchedContexts.SchedContext.RefillUnblockCheck` | kernel/src/kernel/sporadic.c:345-370 | Refines the abstract unblock check; total conserved. |
| `ClhLock.StepInv` | kernel/include/smp/lock.h:93-131 | Every atomic step of every core keeps the queue shape, the links, the ownership of nodes, their values and the order of tickets. |
| `ClhLock.LockSafety` | kernel/include/smp/lock.h:93-136 | Over all interleavings of any number of cores: at most one core is inside, cores enter in the order of their exchanges, settled cores never share a node even with one delayed mid-release, and clh_is_self_in_queue holds of a settled core exactly if it is inside. |
| `ClhLock.InvSafety` | kernel/include/smp/lock.h:93-136 | The invariant implies these properties in every state. |
| `ClhLock.FirstProgresses` | kernel/include/smp/lock.h:93-131 | While a core waits, the first one in the queue has a step that changes the state and brings the waiting core nearer: no deadlock. |
| `ClhLock.WorkNotIncreased` | kernel/include/smp/lock.h:93-131 | No step of any core moves a waiting core further from its turn. |
| `ClhLock.NoStarvation` | kernel/include/smp/lock.h:93-131 | A waiting core is served once the first cores have taken as many steps as there is work before it. |
| `ClhLock.JoinsQueue` | kernel/include/smp/lock.h:93-131 | A core that takes as many steps as its place asks for, whatever the others do, has exchanged and is in the queue: no core is kept out. |
| `ClhLock.BigKernelLock.constructor` | kernel/src/smp/lock.c:14-23 | The initialisation loop establishes the initial state. |
| `ClhLock.BigKernelLock.StepCore` | kernel/include/smp/lock.h:93-131 | The stores on the shared arrays refine the abstract step of that core. |
| `Fastpath.SameObjects` | kernel/src/fastpath/fastpath.c:167-201 | Reply links, stack, bindings and thread states after unlink, push and donation are those the fast path stores. |
| `Fastpath.HandOverSchedules` | kernel/src/object/endpoint.c:85-106 | While the caller hands over, ready queues stay and the scheduler only notes that it has to choose. |
| `Fastpath.ChoosesOther` | kernel/src/kernel/thread.c:340-444 | If a ready thread of the domain beats the woken receiver, the scheduler does not choose the receiver. |
| `Fastpath.ChoosesDest` | kernel/src/kernel/thread.c:340-444 | The woken receiver is queued, chosen and taken off again: ready queues are as before, the receiver is current, the action is to resume. |
| `Fastpath.FastIsSlowIff` | kernel/src/fastpath/fastpath.c:112-217 | Past its checks, the fast path leaves endpoint queue, thread states, reply links, bindings, ready queues, current thread and action as the slow path (restart, sendIPC, reply_push, donation, schedule) does exactly if no ready thread of the domain has a higher priority than the receiver. |
| `Fastpath.FastReady` | kernel/src/fastpath/fastpath.c:160-190 | What the fast path stores through without a test is there: the reply object, the context, and an old caller different from the new one. |
| `Fastpath.FastKernel.FastpathCall` | kernel/src/fastpath/fastpath.c:67-217 | Declines without a change exactly if a check fails; otherwise the state is that of the slow path exactly if no ready thread of the domain beats the receiver, and always if none beats the caller. |
| `Fastpath.FastCanDiffer` | kernel/src/fastpath/fastpath.c:112-217 | A kernel state with a ready thread above the receiver that passes all checks and in which the two paths leave different states. |
| `Fastpath.FastKernel.Commit` | kernel/src/fastpath/fastpath.c:167-217 | The stores in their order give the fast path's state. |
| `CallSteps.RescheduleSeen` | kernel/src/kernel/thread.c:645-660 | rescheduleRequired of the slow path, as the scheduler sees it, is that of the scheduler's law. |
| `CallSteps.WakeSeen` | kernel/src/kernel/thread.c:519-538 | So is possibleSwitchTo, for a thread whose context is configured. |
| `CallSteps.ScheduleSeen` | kernel/src/kernel/thread.c:340-400 | So is schedule, in all its branches. |
| `CallSteps.SlowIsEntry` | kernel/src/object/endpoint.c:26-124 | The slow path of a call to a receiver without a context leaves what the scheduler's law says of an entry with the seven steps of a call. |
| `CallSteps.CallKeepsLaw` | kernel/src/fastpath/fastpath.c:67-217 | If the current thread was one of the highest priority in its domain before such a call, it is after it; and past its checks the fast path does what the slow path does. |
| `CallStacks.PushInv` | kernel/src/object/reply.c:9-51 | Push keeps all links mutual, stacks acyclic, and bindings one to one. |
| `CallStacks.PopInv` | kernel/src/object/reply.c:54-88 | Pop at the top of a stack keeps all links mutual, stacks acyclic, and bindings one to one. |
| `CallStacks.PopInvIff` | kernel/src/object/reply.c:54-88 | Under its asserts alone, pop keeps the invariant exactly if the reply object has something above it or nothing below it: the precondition that the asserts leave out, and that reply_remove, the only caller, meets. |
| `CallStacks.PopLosesThread` | kernel/src/object/reply.c:54-88 | The asserts alone do not suffice: in a well linked state that meets them, and that no caller of pop can be in, it leaves a reply object on a stack without its thread. |
| `CallStacks.PushPop` | kernel/src/object/reply.c:9-88 | A donating push followed by pop restores reply objects, stack and binding; only the caller's state is now inactive. |
| `CallStacks.RemoveInv` | kernel/src/object/reply.c:91-120 | Removal from any place of a stack keeps the invariant. |
| `CallStacks.RemoveTcbInv` | kernel/src/object/reply.c:122-144 | Removal of a waiting thread keeps the invariant. |
| `CallStacks.RemoveAgrees` | kernel/src/object/reply.c:91-144 | Below the top of a stack the two removals have the same effect. |
| `CallStacks.UnlinkInv` | kernel/include/object/reply.h:14-23 | Unlinking a reply object that is on no stack keeps the invariant. |
| `CallStacks.UnbindTcbInv` | kernel/src/object/schedcontext.c:302-324 | Unbinding the thread of a context keeps the invariant. |
| `CallStacks.BeheadInv` | kernel/src/object/schedcontext.c:136-145 | Cutting a context from its stack keeps the invariant. |
| `CallStacks.BindInv` | kernel/src/object/schedcontext.c:280-300 | Binding an unbound thread and context keeps the invariant. |
| `CallStacks.OfferInv` | kernel/src/object/endpoint.c:171-186 | A receiver that blocks with a reply object keeps the invariant. |
| `CallStacks.ChainExists` | kernel/src/object/reply.c:9-51 | Following a stack down from any reply object comes to an end. |
| `CallStacks.ChainDescends` | kernel/src/object/reply.c:9-51 | No reply object occurs twice on a stack. |
| `CallStacks.PushChain` | kernel/src/object/reply.c:9-51 | A donating push puts the reply object on top of the sequence of callers of that context. |
| `CallStacks.PopChain` | kernel/src/object/reply.c:54-88 | Pop takes the top off the sequence of callers. |
| `CallStacks.IsolateChain` | kernel/src/object/reply.c:91-144 | Removal leaves the part of a stack above the removed object, and other stacks whole. |
| `CallStacks.PushHandsOver` | kernel/src/object/reply.c:9-51 | After a push the caller waits on the reply object; if a context was handed over, the callee has it, the caller has none and the reply object is on top of its stack, and otherwise all contexts are as before; all other threads are as before. |
| `CallStacks.PopReturns` | kernel/src/object/reply.c:54-88 | After a pop the thread is inactive, the reply object is free, what was below it is on top, and the context has gone back to the thread unless that has one of its own; all other threads but the one that had it are as before. |
| `CallStacks.RemoveWithdraws` | kernel/src/object/reply.c:91-144 | Removing a waiting thread, or a reply object that is not on top, frees the object, leaves the thread inactive and hands no context over. |
| `CallStacks.Objects.ReplyUnlink` | kernel/include/object/reply.h:14-23 | The whole new state: thread inactive, both links cleared. |
| `CallStacks.Objects.SchedContextDonate` | kernel/src/object/schedcontext.c:326-345 | The new bindings of context, giver and receiver; nothing else changes. |
| `CallStacks.Objects.ReplyPush` | kernel/src/object/reply.c:9-51 | The whole new state; the invariant is kept. |
| `CallStacks.Objects.ReplyPop` | kernel/src/object/reply.c:54-88 | The whole new state, with and without something above the reply object; the invariant is kept exactly if there is something above or nothing below. |
| `CallStacks.Objects.ReplyRemove` | kernel/src/object/reply.c:91-120 | The whole new state in all three cases; the invariant is kept. |
| `CallStacks.Objects.ReplyRemoveTcb` | kernel/src/object/reply.c:122-144 | The whole new state; the invariant is kept. |
| `CallStacks.Objects.UnbindSchedContext` | kernel/src/object/schedcontext.c:136-145 | The context has neither thread nor reply object, its thread has no context, and the reply object that was on top has nothing above it; nothing else changes; the invariant is kept. |
| `CallStacks.Objects.BindTcb` | kernel/src/object/schedcontext.c:280-300 | Thread and context name each other; nothing else changes; the invariant is kept. |
| `CallStacks.Objects.BlockReceiver` | kernel/src/object/endpoint.c:171-186 | The whole new state; the invariant is kept. |
| `CallStacks.Objects.ReleaseReceiver` | kernel/src/object/endpoint.c:86-89 | The whole new state; the invariant is kept. |
| `CallStacks.RunOps` | kernel/src/object/reply.c:9-144 | After any sequence of push, pop, removals, unbinding, binding and blocking from unconnected objects, all links are mutual, stacks are finite and bindings one to one. |
| `TcbQueues.InsertHolds` | kernel/include/object/tcb.h:82-112 | Linking a thread in between two neighbours of a doubly linked queue inserts it at that position of the sequence the queue holds. |
| `TcbQueues.RemoveHolds` | kernel/src/object/tcb.c:242-257 | Unlinking a thread removes it from the sequence the queue holds. |
| `TcbQueues.OtherHolds` | kernel/src/object/tcb.c:242-257 | Queues none of whose threads were touched hold what they held. |
| `EndpointQueue.AttachedValid` | kernel/include/object/tcb.h:82-112 | A thread placed behind all that are at least as high keeps: idle exactly if empty, exactly the waiting threads, one direction, sorted by priority and then by arrival, at every endpoint. |
| `EndpointQueue.DetachedValid` | kernel/src/object/tcb.c:242-257 | A thread that leaves its queue and no longer waits keeps the same at every endpoint. |
| `EndpointQueue.InsertSorted` | kernel/include/object/tcb.h:82-112 | Insertion behind all that are at least as high keeps priority order and arrival order among equals. |
| `EndpointQueue.PlaceIsPlace` | kernel/include/object/tcb.h:82-112 | Searching from the back of a sorted queue finds the place behind all that are at least as high. |
| `EndpointQueue.ReorderedValid` | kernel/src/object/endpoint.c:464-470 | Reordering after a change of priority keeps every queue in order. |
| `EndpointQueue.KeepExact` | kernel/src/object/endpoint.c:404-461 | Thinning a queue by badge drops exactly the threads with that badge. |
| `EndpointQueue.KeepSorted` | kernel/src/object/endpoint.c:404-461 | Thinning keeps the order. |
| `EndpointQueue.ThinnedValid` | kernel/src/object/endpoint.c:365-461 | A queue thinned out, with the threads that left no longer waiting, leaves every endpoint in order. |
| `EndpointQueue.LookNext` | kernel/src/object/endpoint.c:422-447 | Each round of the badge loop handles one thread: links, queue and thread states are those of the part looked at, and the saved next pointer is the next thread. |
| `EndpointQueue.RunChangedValid` | kernel/src/kernel/thread.c:540-544 | Changes of state and priority of threads that do not wait leave every endpoint in order. |
| `EndpointQueue.Sent` | kernel/src/object/endpoint.c:233-247 | A sender whose message is taken goes on exactly if it neither called nor has a fault, and waits for a reply exactly if it did, may grant and the receiver has a reply object. |
| `EndpointQueue.Cancelled` | kernel/src/object/endpoint.c:378-396 | A cancelled thread can run again exactly if it has no fault. |
| `EndpointQueue.Endpoints.FindPlace` | kernel/include/object/tcb.h:82-95 | The backward search returns the neighbours of the place behind all that are at least as high. |
| `EndpointQueue.Endpoints.TcbEPAppend` | kernel/include/object/tcb.h:82-112 | The thread is linked in at that place. |
| `EndpointQueue.Endpoints.TcbEPDequeue` | kernel/src/object/tcb.c:242-257 | The thread is unlinked and the queue ends are adjusted. |
| `EndpointQueue.Endpoints.SendIPC` | kernel/src/object/endpoint.c:26-124 | With a receiver waiting, the first one runs and the sender waits for the reply, if the receiver offers a reply object, stops or goes on; otherwise a blocking sender is queued at its place and a non-blocking one changes nothing; every endpoint stays in order. |
| `EndpointQueue.Endpoints.ReceiveIPC` | kernel/src/object/endpoint.c:127-266 | With a sender waiting, the first one is served and waits for the reply, stops or goes on; otherwise a blocking receiver is queued at its place; every endpoint stays in order. |
| `EndpointQueue.Endpoints.CancelIPC` | kernel/src/object/endpoint.c:296-363 | A waiting thread leaves exactly its own queue; one that waited on an endpoint or for a reply is inactive, any other keeps its state; the fault is gone, and no other thread changes; every endpoint stays in order. |
| `EndpointQueue.Endpoints.SetPriority` | kernel/src/kernel/thread.c:472-499 | A waiting thread gets the priority and moves to its new place, any other only gets the priority; every endpoint stays in order. |
| `EndpointQueue.Endpoints.ReorderEP` | kernel/src/object/endpoint.c:464-470 | Unlinks the thread and links it in at its new place. |
| `EndpointQueue.Endpoints.CancelAllIPC` | kernel/src/object/endpoint.c:365-402 | The endpoint is idle, exactly the threads that waited on it restart, or stop if they have a fault, and can run afterwards exactly if they have none; every endpoint stays in order. |
| `EndpointQueue.Endpoints.RestartAll` | kernel/src/object/endpoint.c:378-396 | The loop along the links reaches exactly the threads of the queue. |
| `EndpointQueue.Endpoints.CancelBadgedSends` | kernel/src/object/endpoint.c:404-461 | Exactly the senders with the badge leave and restart, or stop if they have a fault; the rest stay in order; every endpoint stays in order. |
| `EndpointQueue.Endpoints.CancelMatching` | kernel/src/object/endpoint.c:422-447 | The loop over the detached queue leaves exactly the senders with another badge, linked in the same order. |
| `EndpointQueue.RunOps` | kernel/src/object/endpoint.c:26-470 | After any sequence of send, receive, cancel, cancel all, cancel by badge, change of priority of any thread and change of state, every endpoint is in order. |
| `EndpointQueue.SendFirst` | kernel/src/object/endpoint.c:26-266 | If the sender comes first and then the receiver, both end in the stated states and the endpoint is idle. |
| `EndpointQueue.ReceiveFirst` | kernel/src/object/endpoint.c:26-266 | If the receiver comes first, they end in the very same states. |
| `EndpointQueue.MeetEitherWay` | kernel/src/object/endpoint.c:26-266 | So it makes no difference who comes first, for the same call flag, fault, grant right and reply object; the sender can run afterwards exactly if it neither called nor has a fault. |
| `ReadyQueues.AddMarks` | kernel/src/object/tcb.c:52-66 | Both bitmap levels mark exactly the busy queues after a queue becomes busy. |
| `ReadyQueues.RemoveMarks` | kernel/src/object/tcb.c:68-79 | Both bitmap levels mark exactly the busy queues after a queue becomes empty. |
| `ReadyQueues.HighestDefined` | kernel/include/kernel/thread.h:61-75 | The asserts of getHighestPrio hold. |
| `ReadyQueues.HighestIsMax` | kernel/include/kernel/thread.h:61-75 | getHighestPrio returns the highest priority of the domain with a busy queue. |
| `ReadyQueues.ZeroIsIdle` | kernel/include/kernel/thread.h:77-81 | The upper bitmap word of a domain is zero exactly if all its queues are empty. |
| `ReadyQueues.ScanAgrees` | kernel/include/kernel/thread.h:61-81 | The bitmap answers what a scan of all queues of the domain from the top answers. |
| `ReadyQueues.ScanIsMax` | kernel/include/kernel/thread.h:61-75 | The reference scan returns the highest busy priority, or -1 exactly if there is none. |
| `ReadyQueues.EnteredValid` | kernel/src/object/tcb.c:82-149 | A thread linked into its queue keeps: queues hold exactly the queued threads of their level, and the bitmap marks exactly the queues that are not empty. |
| `ReadyQueues.LeftValid` | kernel/src/object/tcb.c:152-184 | A thread unlinked from its queue keeps the same. |
| `ReadyQueues.ChangedValid` | kernel/src/kernel/thread.c:455-499 | A thread outside the queues may change level and state, one in a queue its state. |
| `ReadyQueues.IndexUnique` | kernel/include/kernel/thread.h:19-27 | Different domains and priorities have different queues. |
| `ReadyQueues.ScanMore` | kernel/include/kernel/thread.h:61-75 | A thread added to a queue raises the highest busy priority to that queue's, at most. |
| `SchedulerLaw.ScheduleSettlesIff` | kernel/src/kernel/thread.c:340-400 | After schedule the current thread is schedulable, of the current domain, in no queue, and no queued thread of the domain is higher, exactly if: nothing was to be done and that held, or a new choice was asked for, or the candidate is not switched to unseen, that is without a look at the bitmap while a higher thread is queued, or from another domain. |
| `SchedulerLaw.PassedIsBeaten` | kernel/src/kernel/thread.c:340-384 | While no queued thread of the domain beats the current one, which may have stopped, the tests of schedule pass a candidate over exactly if a queued thread is higher or the current thread goes on and is no lower. |
| `SchedulerLaw.RivalStays` | kernel/src/kernel/thread.c:340-384 | Queueing a candidate that is beaten, at the front or behind its equals, does not change who is chosen. |
| `SchedulerLaw.ActedOk` | kernel/src/kernel/thread.c:340-660 | Each of the thirteen steps an entry can make leaves every queue with schedulable threads of its level only, each once. |
| `SchedulerLaw.PoisedPrepared` | kernel/src/kernel/thread.c:340-384 | If the candidate is schedulable and of the domain, and the current thread fits even if it has stopped, schedule overlooks nobody although it may skip the bitmap, and its assert holds. |
| `SchedulerLaw.ActPoisedIff` | kernel/src/kernel/thread.c:455-660 | Each step keeps that exactly if it does not stop, postpone, unbind or move away the candidate, postpone the current thread without asking for a choice, lower a current thread that has stopped below a queued one while there is a candidate, or move a higher schedulable thread into the domain. |
| `SchedulerLaw.MoveSettlesIff` | kernel/src/kernel/thread.c:455-465 | An entry that moves another thread to a domain keeps the law exactly if the thread is not schedulable, goes to another domain, or is no higher than the current one. |
| `SchedulerLaw.EntrySettlesIff` | kernel/src/kernel/thread.c:340-660 | For an entry of any steps, the law holds after it exactly if schedule is prepared when it comes to it. |
| `SchedulerLaw.CalmSettles` | kernel/src/kernel/thread.c:340-660 | After an entry of any number of steps none of which is such an exception, or that asks for a new choice in the end, the assert of schedule and the law hold. |
| `SchedulerLaw.RunSettledIff` | kernel/src/kernel/thread.c:340-660 | Over every run of kernel entries in which the asserts hold, the law holds throughout exactly if schedule never overlooks a thread. |
| `SchedulerLaw.RunCalm` | kernel/src/kernel/thread.c:340-660 | Over every run of kernel entries without such an exception, the asserts of schedule and the law hold throughout. |
| `SchedulerLaw.PlainCalm` | kernel/src/kernel/thread.c:519-553 | Steps that stop or unbind no thread after waking it, and postpone, prioritise and move none, are no exception in any state. |
| `SchedulerLaw.CallSettles` | kernel/src/object/endpoint.c:85-106 | After every call with donation to a waiting receiver the law holds, if it held before. |
| `SchedulerLaw.RescheduleCalm` | kernel/src/object/endpoint.c:378-399 | Any steps followed by rescheduleRequired, as in cancelAllIPC, end with a new choice. |
| `SchedulerLaw.IntruderWaits` | kernel/src/kernel/thread.c:455-465 | A run from the start, with two threads woken and one of them moved, after which the lower one runs while the higher one is ready in the same domain. |
| `ThreadsKept.ActKeeps` | kernel/src/kernel/thread.c:455-660 | Through each of the thirteen steps, a thread that was current, the candidate or in the queue of its level, and is schedulable afterwards, still is one of these. |
| `ThreadsKept.ActBrings` | kernel/src/kernel/thread.c:455-538 | A thread that is woken, gets a context, is yielded to or is moved, and is schedulable, is one of these afterwards. |
| `ThreadsKept.ScheduleKeeps` | kernel/src/kernel/thread.c:340-400 | schedule loses no schedulable thread either. |
| `ThreadsKept.EntryBrings` | kernel/src/kernel/thread.c:340-660 | A thread that any step of an entry brings to the scheduler, and that stays schedulable, is current or in its queue when the entry is over. |
| `ThreadsKept.RunKeeps` | kernel/src/kernel/thread.c:340-660 | Over every run of kernel entries, a thread that the scheduler knows of and that stays schedulable is never lost: in the end it is current or in its queue. |
| `Turns.ActChanges` | kernel/src/kernel/thread.c:455-660 | Each step changes its own thread as intended (state, context, priority or domain), no other thread, and neither the current thread nor the domain. |
| `Turns.ScheduleChanges` | kernel/src/kernel/thread.c:293-400 | schedule changes no thread; it goes on with the next domain exactly if it has to choose. |
| `Turns.ActPlaces` | kernel/src/kernel/thread.c:455-616 | While there is no candidate, a step leaves the other threads of every queue in the same order; its own thread comes to the front, or to the end if its budget was used up. |
| `Turns.WakeTurn` | kernel/src/kernel/thread.c:340-538 | An entry that wakes a thread, from any state in which the law holds: a higher one takes over and the current thread comes first on its level; an equal one queues behind the others, a lower one before them. |
| `Turns.ExpireTurn` | kernel/src/kernel/thread.c:579-616 | When the budget of the current thread is used up and there again, the first of its level runs and the current thread is behind the others: round robin. |
| `Turns.YieldTurn` | kernel/src/object/schedcontext.c:169-203 | When the current thread yields, a thread as high runs at once and the current one comes first on its level; a lower one comes first on its own. |
| `Scheduling.Scheduler.AddBit` | kernel/src/object/tcb.c:52-66 | The two stores with shift and mask set the bits of the level. |
| `Scheduling.Scheduler.RemoveBit` | kernel/src/object/tcb.c:68-79 | The stores clear the lane, and the group if its word became zero. |
| `Scheduling.Scheduler.TcbSchedEnqueue` | kernel/src/object/tcb.c:82-114 | The thread, which is schedulable, is at the front of its queue; a queued one changes nothing; all else stays; queues and bitmap are kept, and all queued threads are schedulable. |
| `Scheduling.Scheduler.TcbSchedAppend` | kernel/src/object/tcb.c:117-149 | The thread, which is schedulable, is at the end of its queue; a queued one changes nothing; all else stays; queues and bitmap are kept, and all queued threads are schedulable. |
| `Scheduling.Scheduler.TcbSchedDequeue` | kernel/src/object/tcb.c:152-184 | The thread is out of its queue, the others stay in order; queues and bitmap are kept. |
| `Scheduling.Scheduler.GetHighestPrio` | kernel/include/kernel/thread.h:61-75 | Returns what the scan of all queues returns. |
| `Scheduling.Scheduler.IsHighestPrio` | kernel/include/kernel/thread.h:77-81 | True exactly if no busy queue of the domain has a higher priority. |
| `Scheduling.Scheduler.SwitchToThread` | kernel/src/kernel/thread.c:429-444 | The thread is current and in no queue; the others stay in order. |
| `Scheduling.Scheduler.ChooseThread` | kernel/src/kernel/thread.c:402-427 | The first thread of the queue the scan finds becomes current and leaves the queue, and its asserted schedulability is proved; the idle thread if all queues of the domain are empty. |
| `Scheduling.Scheduler.RescheduleRequired` | kernel/src/kernel/thread.c:645-660 | A schedulable candidate goes to the front of its queue; the action is to choose anew. |
| `Scheduling.Scheduler.PossibleSwitchTo` | kernel/src/kernel/thread.c:519-538 | A thread of another domain is queued, a second candidate is queued together with the first, and otherwise the thread becomes the candidate and no queue changes; without a scheduling context nothing happens. |
| `Scheduling.Scheduler.SetThreadState` | kernel/src/kernel/thread.c:540-553 | The thread, queued or not, changes state; a current thread that cannot go on calls for a new choice, unless there is a candidate. |
| `Scheduling.Scheduler.SuspendThread` | kernel/src/kernel/thread.c:80-81 | The state is set while the thread is still queued, then it leaves its queue; afterwards all queued threads are schedulable again. |
| `Scheduling.Scheduler.TakeContext` | kernel/src/object/schedcontext.c:331-340 | The thread that gives its context away leaves its queue; if it is current or the candidate, a new choice is asked for. |
| `Scheduling.Scheduler.UnbindTcb` | kernel/src/object/schedcontext.c:302-316 | The thread leaves its queue and loses its context; if it is current, a new choice is asked for first. |
| `Scheduling.Scheduler.BindTcb` | kernel/src/object/schedcontext.c:280-300 | A runnable thread that gets a ready context goes to the front of its queue and a new choice is asked for. |
| `Scheduling.Scheduler.YieldToThread` | kernel/src/object/schedcontext.c:169-203 | A lower thread goes to the front of its queue; one that is no lower goes in front of the current thread, and a new choice is asked for. |
| `Scheduling.Scheduler.SetPriority` | kernel/src/kernel/thread.c:472-499 | A queued or current runnable thread moves to the front of its new queue and a pending candidate is queued, any other only changes priority; the whole new contents of the queues. |
| `Scheduling.Scheduler.SetDomain` | kernel/src/kernel/thread.c:455-465 | The thread leaves its queue and, if schedulable, goes to the front of the one in its new domain; if it is current, a pending candidate is queued; the whole new contents of the queues. |
| `Scheduling.Scheduler.ChargeBudget` | kernel/src/kernel/thread.c:579-616 | A current thread that can go on goes to the back of its queue if its next refill is ready, and waits for it otherwise; a new choice is asked for. |
| `Scheduling.Scheduler.Decide` | kernel/src/kernel/thread.c:361-384 | The tests in their order, with the bitmap looked at only if the current thread is idle or higher, make exactly the decision they stand for. |
| `Scheduling.Scheduler.Schedule` | kernel/src/kernel/thread.c:340-400 | The whole new state, with queues, current thread and domain, is that of the abstract schedule. |
| `Scheduling.Scheduler.Perform` | kernel/src/kernel/thread.c:455-660 | Each step on the linked queues and the bitmap does what the abstract step does. |
| `Scheduling.Scheduler.SiteWhole` | kernel/src/object/tcb.c:82-184 | Whenever the scheduler is in order, every thread marked as queued is in the queue of its level, so that the laws above apply to it. |
| `Scheduling.Scheduler.Enter` | kernel/src/kernel/thread.c:340-660 | A kernel entry of any number of steps gives the abstract result, up to the assert of schedule; the law holds after it exactly if schedule was prepared. |
| `Scheduling.RunEntries` | kernel/src/kernel/thread.c:340-660 | Any run of kernel entries, each of any number of steps, gives the abstract run up to the first failing assert; if no step is an exception, no assert fails and after the run no ready thread of the current domain has a higher priority than the current thread. |
| `Scheduling.Run` | kernel/src/object/tcb.c:52-184 | After any sequence of enqueue, append, dequeue, choose and the steps above, in every domain the bitmap is zero exactly if a scan finds no thread, and otherwise getHighestPrio is what the scan finds. |
| `Untyped.LayoutExtends` | kernel/src/object/untyped.c:273-306 | New objects side by side from an aligned address keep all objects aligned, disjoint and inside. |
| `Untyped.UnalignedCheckSuffices` | kernel/src/object/untyped.c:183-233 | The capacity check on the unaligned offset guarantees that the aligned objects fit. |
| `Untyped.UnalignedCheckIff` | kernel/src/object/untyped.c:183-233 | And they fit aligned only if the capacity check passes. |
| `Untyped.Region.CopyCap` | kernel/src/object/cnode.c:396-408 | A copy is made only without children, and marks its source full. |
| `Untyped.Region.DeleteCap` | kernel/src/object/cnode.c:567-592 | Deleting a copy keeps the invariant. |
| `Untyped.Region.DeleteObject` | kernel/src/object/cnode.c:567-592 | Deleting a child keeps the invariant. |
| `Untyped.Region.Write` | kernel/src/object/untyped.c:273-306 | A store through a child changes that byte only and keeps the memory above the free offset zero. |
| `Untyped.Region.ResetUntypedCap` | kernel/src/object/untyped.c:235-271 | Preempted exactly if it goes by chunks and there are at least as many as are cleared before the preemption; then the free offset is down by exactly that many chunks, and otherwise zero; bytes below the new offset are as before, and so is device memory; the invariant is kept. |
| `Untyped.Region.ClearChunk` | kernel/src/object/untyped.c:260-268 | One chunk is cleared and the free offset moved down to it. |
| `Untyped.Region.FitsIsLast` | kernel/src/object/untyped.c:183-233 | Only the latest copy can pass the capacity check, all others are full. |
| `Untyped.Region.FitsIffAligned` | kernel/src/object/untyped.c:183-233 | The capacity check passes exactly if the objects fit from the next aligned address on. |
| `Untyped.Region.Retype` | kernel/src/object/untyped.c:183-306 | Range error, lack of memory (with the bytes left), preemption (with the exact progress of the reset) or success, each exactly in its case; on success exactly the new aligned objects are added, the free offset is the end of the last of them, and the memory of a non-device region from the first of them on is zero. Other capabilities are as before; with children, or in device memory, no byte changes, and a preempted reset leaves the bytes below its progress alone. |
| `Untyped.Region.InvokeRetype` | kernel/src/object/untyped.c:273-306 | Exactly the requested objects are added from the aligned offset on, and the free offset is the end of the last; the invariant is kept. |
| `Untyped.Region.CreateNewObjects` | kernel/src/object/objecttype.c:586-613 | The loop records objects of the size side by side. |
| `Untyped.RetypeNext` | kernel/src/object/untyped.c:183-306 | While objects live, a retype succeeds exactly if its objects fit, aligned, above the free offset. |
| `Untyped.RetypeTwice` | kernel/src/object/untyped.c:183-306 | After a retype, a second one succeeds exactly if its objects fit, aligned, above the last object of the first, and that is where they are. |
| `Untyped.Run` | kernel/src/object/untyped.c:183-306 | After any sequence of retypes, copies, deletions, resets and stores, all live children are aligned, disjoint, inside and below the free offset, and the rest is zero. |
| `CSpaceLookup.UpdateGuard` | kernel/src/object/objecttype.c:415-433 | Setting the guard yields a well formed CNode capability or none; none exactly if guard and radix exceed the word. |
| `CSpaceLookup.ResolveAddressBits` | kernel/src/kernel/cspace.c:126-196 | The loop computes the reference resolution, faults included, and terminates. |
| `CSpaceLookup.LookupFp` | kernel/include/fastpath/fastpath.h:10-53 | The fast loop computes the reference fast lookup and terminates. |
| `CSpaceLookup.FastRadixInTable` | kernel/include/fastpath/fastpath.h:10-53 | The shifted radix never leaves the table. |
| `CSpaceLookup.GuardsAgree` | kernel/include/fastpath/fastpath.h:10-53 | The guard the fast path extracts with two shifts is the one the slow path extracts with shift and mask. |
| `CSpaceLookup.OffsetsAgree` | kernel/include/fastpath/fastpath.h:10-53 | The slot offset of the fast path is that of the slow path. |
| `CSpaceLookup.FastIsSlow` | kernel/include/fastpath/fastpath.h:10-53 | From any CNode and depth, the fast lookup returns the capability in the slot the slow one finds, null if it faults. |
| `CSpaceLookup.LookupsAgree` | kernel/include/fastpath/fastpath.h:10-53 | lookup_fp and lookupCap agree on every capability space, root and address. |
| `CSpaceLookup.ResolveFollows` | kernel/src/kernel/cspace.c:126-196 | Every lookup follows a path of CNodes whose guards and indices, side by side, are the first bits looked up. It finds a slot where the bits are used up or no CNode follows, and reports the bits that are left; it faults where a guard differs or too few bits are left, and reports that guard or level and the bits that are left. |
| `CSpaceLookup.AddressResolves` | kernel/src/kernel/cspace.c:126-196 | Conversely, for every path of CNodes, looking up bits that begin with its address finds its last slot, with the remaining bits reported, if there are none or no CNode follows. |
| `UntypedCarve.TrailingZeros` | kernel/src/kernel/boot.c:598-601 | The largest power of two that divides the address. |
| `UntypedCarve.NextBits` | kernel/src/kernel/boot.c:594-610 | The next block is the largest that is naturally aligned, fits and is within the limit. |
| `UntypedCarve.CarvingCovers` | kernel/src/kernel/boot.c:584-620 | The blocks cover exactly the region. |
| `UntypedCarve.CarvingBlocks` | kernel/src/kernel/boot.c:584-620 | The blocks are naturally aligned, within the limit, inside the region and disjoint. |
| `UntypedCarve.WasteBound` | kernel/src/kernel/boot.c:584-620 | The blocks too small to hand out total less than twice the smallest untyped. |
| `UntypedCarve.BootSlots.ProvideUntyped` | kernel/src/kernel/boot.c:559-582 | Fails exactly if there is room for an untyped but no slot; beyond the limit of untypeds it does nothing. |
| `UntypedCarve.BootSlots.CreateUntypedsForRegion` | kernel/src/kernel/boot.c:584-620 | The loop ends with start equal to end, and hands out exactly the usable blocks, as far as there is room. |
| `BootRegions.MergeGapped` | kernel/src/kernel/boot.c:26-44 | Merging adjacent regions leaves gaps between all exactly if the regions were sorted and disjoint. |
| `BootRegions.MergeCovers` | kernel/src/kernel/boot.c:26-44 | Merging covers exactly the same addresses. |
| `BootRegions.PlaceCovers` | kernel/src/kernel/boot.c:46-95 | Placing a region covers exactly what was covered and the region. |
| `BootRegions.PlaceSorted` | kernel/src/kernel/boot.c:46-95 | Placing a region keeps the regions sorted exactly if it is disjoint from them. |
| `BootRegions.ReservedExact` | kernel/src/kernel/boot.c:46-95 | reserve_region keeps gaps between neighbours exactly if the region is empty or disjoint, and always covers exactly the union. |
| `BootRegions.SweepRight` | kernel/src/kernel/boot.c:734-789 | What the sweep hands out is available, and everything available and not reserved is handed out. |
| `BootRegions.SpillsIffCrosses` | kernel/src/kernel/boot.c:734-789 | The sweep spills exactly if some reserved region overlaps an available one, reaches past the start of a later one, and leaves no free piece right below it in the first: a condition on the two lists alone. |
| `BootRegions.FreeMemoryExact` | kernel/src/kernel/boot.c:734-789 | The sweep hands out exactly available minus reserved if and only if no reserved region overlaps an available one, reaches past the start of a later one, and leaves no free piece right below it in the first. |
| `BootRegions.MarksCover` | kernel/src/kernel/boot.c:734-789 | The regions the sweep marks as reserved cover exactly the reserved and the free memory, if all free regions find a slot. |
| `BootRegions.MarksSorted` | kernel/src/kernel/boot.c:734-789 | Unless the sweep spills, it marks regions in address order and apart. |
| `BootRegions.ReservedAfterSweep` | kernel/src/kernel/boot.c:706-789 | If the sweep is exact, the array has gaps, shares nothing with the two lists and has entries enough, then afterwards it has gaps and covers exactly what it covered and the two lists. |
| `BootRegions.RunFrom` | kernel/src/kernel/boot.c:734-789 | The rounds of the sweep and of the two loops after it, run one by one, end with the regions and the marks of the abstract sweep. |
| `BootRegions.NoStraddleNoSpill` | kernel/src/kernel/boot.c:734-789 | If no reserved region overlaps two available ones, the sweep does not spill. |
| `BootRegions.SpillLeaks` | kernel/src/kernel/boot.c:734-789 | If the sweep spills, some reserved address is handed out. |
| `BootRegions.SpillWitness` | kernel/src/kernel/boot.c:734-789 | Two available regions and one reserved region across both for which the sweep hands out reserved memory. |
| `BootRegions.NdksBoot.RemoveEntry` | kernel/src/kernel/boot.c:26-44 | The shift loop removes one entry and keeps the others in order. |
| `BootRegions.NdksBoot.InsertEntry` | kernel/src/kernel/boot.c:75-81 | The shift loop inserts one entry and keeps the others in order. |
| `BootRegions.NdksBoot.MergeRegions` | kernel/src/kernel/boot.c:26-44 | The in-place loop computes the merge. |
| `BootRegions.NdksBoot.ReserveRegion` | kernel/src/kernel/boot.c:46-95 | Fails exactly if a new entry is needed and the array is full; otherwise the array holds the reserved regions with the new one. |
| `BootRegions.NdksBoot.InsertRegion` | kernel/src/kernel/boot.c:97-126 | Stores the region in the first free slot and marks it as reserved; fails exactly if there is no slot and the region is not empty, and then drops the region without marking it. |
| `BootRegions.NdksBoot.SweepRound` | kernel/src/kernel/boot.c:734-789 | One round of the two-index sweep advances one index, hands out and marks exactly what the abstract round does. |
| `BootRegions.NdksBoot.InitFreemem` | kernel/src/kernel/boot.c:706-789 | The sweep terminates; the free slots hold the result of the abstract sweep as far as they go, the regions beyond being dropped; the reserved array has exactly the sweep's marks, and under the condition of ReservedAfterSweep it has gaps and covers exactly what it covered and the two lists. |
| `Reciprocal.CriticalValue` | kernel/tools/reciprocal.py:24-26 | The largest value within range that is one below a multiple of the divisor. |
| `Reciprocal.Multiplier` | kernel/tools/reciprocal.py:29-29 | The multiplier times the divisor is the power of two rounded up to a multiple. |
| `Reciprocal.SearchSucceeds` | kernel/tools/reciprocal.py:27-32 | Twice the bit length always passes the test, so the search never fails. |
| `Reciprocal.MagicDivides` | kernel/tools/reciprocal.py:24-36 | Any accepted shift divides exactly, for every value in range. |
| `Reciprocal.MagicExact` | kernel/tools/reciprocal.py:24-36 | The first accepted shift divides exactly for every value in range if and only if the divisor is at most one more than the range, or the range is zero. |
| `Reciprocal.BeyondRange` | kernel/tools/reciprocal.py:24-36 | For larger divisors shift 0 is accepted and wrong for every value but 0. |
| `Reciprocal.Magicgu` | kernel/tools/reciprocal.py:24-32 | The loop finds the least shift, at most twice the bit length; correct exactly under that condition. |
| `BlockFields.LayOut` | kernel/tools/bitfield_gen.py:2173-2191 | Fields are placed from the top down, each just above all that is declared after it, padding included. |
| `BlockFields.LaidApart` | kernel/tools/bitfield_gen.py:2173-2191 | No two fields of a block overlap. |
| `BlockFields.AcceptedOk` | kernel/tools/bitfield_gen.py:2211-2224 | In a block that set_base accepts, the fields in any order are apart, and every field is within one of the words. |
| `BlockFields.BitPlaced` | kernel/tools/bitfield_gen.py:1846-1880 | What is or-ed in for a field, low or high, masked or filling its word, has exactly the value's bits, moved into the field, and none outside. |
| `BlockFields.BitNewWord` | kernel/tools/bitfield_gen.py:1841-1884 | In a field, the or of all fields of a word has exactly the bits of that field's part. |
| `BlockFields.ReadsIff` | kernel/tools/bitfield_gen.py:355-368 | A reader, with its sign extension, returns the value whose bits its field holds exactly if all other bits of the value are zero, or copies of the sign for a sign-extended high field. |
| `BlockFields.NewReadsIff` | kernel/tools/bitfield_gen.py:1824-1899 | For every block, field and value of every other field, what the constructor was given is read back exactly if the field can represent it. |
| `BlockFields.NewAssertsIff` | kernel/tools/bitfield_gen.py:1869-1873 | The constructor's assertion lets through exactly the values the field can represent. |
| `BlockFields.BitSet` | kernel/tools/bitfield_gen.py:387-398 | A writer replaces exactly the bits of its field. |
| `BlockFields.SetKeeps` | kernel/tools/bitfield_gen.py:387-398 | A writer leaves every other field of the block as it is. |
| `BlockFields.SetAssertsIff` | kernel/tools/bitfield_gen.py:387-398 | The writer's assertion decides what it should of the bits its shifted mask reaches. |
| `BlockFields.SetReadsIff` | kernel/tools/bitfield_gen.py:355-398 | What a writer was given is read back exactly if the field can represent it; if the assertion passed, exactly if no bit of the value was shifted out of the word unseen. |
| `BlockFields.NothingLostLow` | kernel/tools/bitfield_gen.py:387-398 | For a field that is not high, that is exactly if the value is below two to the power of the word size minus the field's lowest bit. |
| `BlockFields.SetLoses` | kernel/tools/bitfield_gen.py:387-398 | For every field that is neither high nor at the bottom of its word, there is a value that passes the writer's assertion and is not read back. |
| `BlockFields.SetLosesTop` | kernel/tools/bitfield_gen.py:387-398 | Writing 16 to the top four bits of a 64-bit word passes the assertion, and zero is read back. |
| `BlockFields.RunReadsIff` | kernel/tools/bitfield_gen.py:1824-1963 | For every accepted block, order of its fields and values, and after any run of writers, every reader returns the value last given to its field exactly if the field can represent it. |
| `TagReader.TestInField` | kernel/tools/bitfield_gen.py:2134-2141 | The mask test decides whether all bits lie in the tag field. |
| `TagReader.TestCovers` | kernel/tools/bitfield_gen.py:2151-2161 | The mask test decides whether one mask covers another. |
| `TagReader.TaggedUnion.RecordOffsets` | kernel/tools/bitfield_gen.py:2097-2102 | Records one offset for each tag width. |
| `TagReader.TaggedUnion.MinimumOffset` | kernel/tools/bitfield_gen.py:2104-2104 | Finds the least offset. |
| `TagReader.TaggedUnion.MoveMasks` | kernel/tools/bitfield_gen.py:2106-2109 | Moves every class mask to the common offset. |
| `TagReader.TaggedUnion.CheckBounds` | kernel/tools/bitfield_gen.py:2134-2141 | Accepts exactly if every mask lies in its tag field. |
| `TagReader.TaggedUnion.CheckNesting` | kernel/tools/bitfield_gen.py:2151-2161 | Accepts exactly if every mask covers the next narrower one. |
| `TagReader.TaggedUnion.MakeClasses` | kernel/tools/bitfield_gen.py:2056-2169 | Succeeds exactly if there are tags, every class has tags and the masks are accepted; states the resulting classes. |
| `TagReader.TaggedUnion.CheckValue` | kernel/tools/bitfield_gen.py:2010-2047 | Accepts exactly the values that fit and mark their own class and all narrower ones. |
| `TagReader.TaggedUnion.CheckTags` | kernel/tools/bitfield_gen.py:1279-1317 | Accepts exactly if every element has a block of the same base and size and a tag that is accepted and not high. |
| `TagReader.TaggedUnion.Resolve` | kernel/tools/bitfield_gen.py:1279-1338 | Succeeds exactly if every mask is of a width that some element has and the encoding is accepted as a whole. |
| `TagReader.MasksNest` | kernel/tools/bitfield_gen.py:2151-2161 | A wider class mask covers every narrower one. |
| `TagReader.ClassTestOnWord` | kernel/tools/bitfield_gen.py:2049-2054 | The test of the generated reader on a word is the test on the tag value in it. |
| `TagReader.TagReaderExact` | kernel/tools/bitfield_gen.py:1775-1789 | For every accepted union, tag, block and setting of all other bits, the generated reader returns the tag in the word. |
| `TagReader.TagRoundTrip` | kernel/tools/bitfield_gen.py:1768-1899 | For every accepted union and element, every block whose tag field is the element's, every value of its other fields and every run of their writers, the generated tag reader returns the element's tag. |
| `TagReader.ReadsHeld` | kernel/tools/bitfield_gen.py:424-431 | The reader's shift and mask return the value that a tag field holds. |

## Left out

- Architecture, platform and MMU code, register and message transfer, IPC buffers, faults other than their
  presence, timers, benchmarks, debugging and all argument decoding: plain copying or checks, one by one.
- CapSpaces.SameObjectEquivalence: without architecture capabilities, and without `sameRegionAs` for an untyped
  first argument, which never passes this test.
- Derivations.DerivedFound: of what lies in an untyped region, only untyped memory is modelled. The loop of
  `cteRevoke`, which deletes what it finds by `CapDeletion.Deletion.CteDelete`, is not part of this model.
- Derivations.RunAsIs: that memory is handed out only where all other capabilities to the region are full is a
  condition on the run; `Derivations.RunTied` proves it of copies, deletions and retypes of a region.
- CapSpaces.CapSpace.EmptySlot: without `postCapDeletion`, the cleanup of interrupt handlers and of reply
  capabilities after the slot is empty.
- CapDeletion.Deletion.PreemptionPoint: which point preempts is an input; the count of work units, the pending
  interrupt and the budget that decide it are left out.
- CapDeletion.Deletion.Finalise: what `finaliseCap` does to endpoints, notifications, threads and scheduling
  contexts is left out; the model keeps the remainder that is left in the slot.
- CapDeletion.Deletion.CteDelete: a node of a thread has five slots, as without the x86 virtualisation
  extension; a thread capability is known by the address of its first slot.
- Sporadic.BudgetCheck: takes a usage of 0 as well, which the debug assert of `refill_split_check` would
  refuse on that path.
- Sporadic.Billed: without the round-robin branch and without the end of a domain's time.
- Sporadic.ExhaustReads: says nothing of the refills behind the untouched ones, and nothing if the usage reaches
  the total, where what is merged depends on every round.
- The order of the release queue and the timer: in the scheduler a thread with a postponed context is one without
  a ready context, and awaken is a step that makes it ready followed by possibleSwitchTo. The fast path is compared
  with nobody to be released and no reprogramming of the timer.
- Fastpath.FastIsSlowIff: compares the contents of the ready queues, not the links that unqueued threads keep
  from earlier, which differ between the two paths; a thread state is its type and its reply object, not the
  stale endpoint fields.
- Fastpath.FastKernel.FastpathCall: the checks on the message, on faults, on the address space and its
  identifier, and the lookup of the endpoint capability (`CSpaceLookup`) come before and are left out; they only
  make the fast path decline.
- The reply path of the fast path (`fastpath_reply_recv`): the same kind of comparison once more.
- CallStacks.Objects.SchedContextDonate: without the ready queues and the scheduler's action, which are in
  `Fastpath.SchedContextDonate`.
- CallStacks.Objects.UnbindSchedContext: without notifications and ready queues.
- CallStacks.Objects.BindTcb: without resuming the context and queueing the thread.
- EndpointQueue.Endpoints.SendIPC: the reply object and the donation of the scheduling context are in
  `CallStacks` and `Fastpath`; here only the resulting thread state appears, and the scheduler does not.
- EndpointQueue.Endpoints.ReceiveIPC: without bound notifications and without the cancelling of a reply
  object's earlier thread, which is a call of cancelIPC; reply objects and the scheduler as for SendIPC.
- EndpointQueue.Endpoints.CancelIPC: without the case of a thread that waits on a notification; the unlinking of
  reply objects is `CallStacks.Objects.ReleaseReceiver` and `CallStacks.Objects.ReplyRemoveTcb`.
- EndpointQueue.Endpoints.CancelAllIPC: without the unlinking of reply objects and without possibleSwitchTo and
  rescheduleRequired, which are in `Scheduling`.
- EndpointQueue.Endpoints.CancelBadgedSends: without possibleSwitchTo and rescheduleRequired, which are in
  `Scheduling`.
- EndpointQueue.Endpoints.SetPriority: without the ready queues, which are in `Scheduling`, and without
  notification queues.
- EndpointQueue.RunOps: threads that wait on notifications do not occur.
- Scheduling.Scheduler.SetPriority: the endpoint queue of a blocked thread is
  `EndpointQueue.Endpoints.SetPriority`, and notification queues are not part of this model.
- Scheduling.Scheduler.SwitchToThread: without the change of address space.
- Scheduling.Scheduler.Schedule: without `switchSchedContext`; awaken comes before it as steps, and whether the
  domain's time is up and which domain follows are inputs.
- Scheduling.Scheduler.ChargeBudget: without the charge itself, which is `Sporadic.BudgetCheck`, and without
  timeout faults.
- Scheduling.RunEntries: that a given system call makes a given sequence of steps is proved of calls only
  (`CallSteps.SlowIsEntry`); other sequences are covered as such.
- CallSteps.WakeSeen: for a thread whose context is configured; the scheduler's law takes one that is not for none.
- Turns.ActPlaces: with a candidate pending, where it goes to the front of its own queue as well, only
  `ThreadsKept.ActKeeps` is stated.
- Notifications and interrupts.
- Untyped.Region.CreateNewObjects: records address and size of each object; the initial contents of the kernel
  objects and their capabilities are left out.
- The lock without the handling of interprocessor interrupts in its loops, and with sequentially consistent
  steps.
- BootRegions.NdksBoot.InsertRegion: physical and virtual addresses of a region are the same, as their
  difference is fixed.
- BootRegions.NdksBoot.InitFreemem: stops before the placement of the root server's objects at the end of
  `init_freemem`.
- TagReader.TaggedUnion.Resolve: names of tags and the test for duplicates among them are left out.
- TagReader.TagReaderExact: the generated reader, not the generated equality test of tags.
- BlockFields.LayOut: fields have no names; their places in the list stand for them.
- Documentation and header generators, device trees and the C library stubs.

# Verified model of the chain-following core of venus

Venus is a Filecoin node written in Go. This project models, in Dafny, the code
that decides which tipset is the head, works out the reorganisation between two
heads, tells observers about it, answers "which tipset is at height h", selects
and executes messages over null rounds and network upgrades, and keeps
generator, validator and extractor of beacon entries in agreement. Everything is
proved for all inputs and, where the code is a protocol, for all runs.

`dafny verify dfyconfig.toml` checks the whole project.

## How the model is laid out

| file | source | content |
|---|---|---|
| `Wrappers.dfy` | | optional values and results |
| `Sequences.dfy` | | three facts about sequences, and sequences without repeats |
| `Tipsets.dfy` | `pkg/chain` | tipsets, the store, the chain below a tipset, the tipset at or above a height |
| `ChainIndex.dfy` | `pkg/chain/chain_index.go` | the skip-list index with its lazily filled cache shared by concurrent readers |
| `Reorg.dfy` | `pkg/chain/store.go`, `pkg/chain/traversal.go` | the two algorithms for the segments between two heads |
| `HeadChanges.dfy` | | head changes and feeds of them |
| `Coalescer.dfy` | `pkg/chain/coalescer.go` | merging head changes |
| `Observer.dfy` | `pkg/events/observer.go` | replaying head changes to observers |
| `Ties.dfy` | `pkg/chain/store.go` | choosing among the tipsets of a height |
| `ForkChoice.dfy` | `pkg/chain/store.go` | choosing the head |
| `Following.dfy` | `pkg/chain`, `pkg/events` | store, coalescer and observer put together |
| `HeightEvents.dfy` | `pkg/events/events_height.go` | calling handlers at a height, with concurrent registration |
| `HeightLimits.dfy` | `pkg/events/events_height.go` | what long gaps and deep reverts do to a handler |
| `CalledEvents.dfy` | `pkg/events/events_called.go` | calling handlers once an event has confidence |
| `Waiter.dfy` | `pkg/chain/waiter.go` | waiting for a message |
| `Messages.dfy` | `pkg/chain/message_store.go` | selecting the messages of a tipset, with eager and lazy sender resolution |
| `LazySelection.dfy` | `pkg/chain/message_store.go` | when the two agree |
| `Nonces.dfy` | `pkg/consensus/block_validator.go` | the nonce check of a block and what it means for a tipset |
| `LazyNonces.dfy` | `pkg/chain/message_store.go`, `pkg/consensus/block_validator.go` | when the lazy selection gives every actor its next nonces |
| `Receipts.dfy` | `pkg/consensus/processor.go`, `pkg/chain/waiter.go` | receipts by position |
| `Repeats.dfy` | `pkg/chain/message_store.go`, `pkg/chain/waiter.go` | when every selected message has its own receipt |
| `Upgrades.dfy` | `pkg/fork/fork.go` | the upgrade schedule and its tables |
| `Execution.dfy` | `pkg/consensus/processor.go` | executing a chain over null rounds and upgrades |
| `PreMigrations.dfy` | `pkg/fork/fork.go` | the pre-migration worker |
| `Beacons.dfy` | `pkg/beacon`, `pkg/chain/randomness.go` | beacon rounds of blocks |
| `Snapshot.dfy` | `pkg/chain/store.go` | the snapshot walk |

Objects that the source updates in place are classes, loops are loops, and each
method is proved against a specification function. Concurrency is explicit:
wherever a lock is free, a method that stands for the other goroutines
(`OtherReaders`, `OthersRegister`, `Others`) may do anything they can do.

A tipset is reduced to its key, height and parent key, and the store is a map in
which every parent of a tipset above height 0 is present and strictly lower.
Weights, tickets, message execution, migrations, address lookup,
state lookups, signatures, the beacon network, clocks and the outcomes of
handlers are parameters or non-deterministic choices.

## What the proofs found

Where a property does not hold of the code as it is, the model keeps the code and
the exact condition is proved.

- A handler registered with `ChainAt` keeps its promise over an applied gap exactly
  when garbage collection spares its trigger height and, if that lies in the gap
  too, its own height (`HeightLimits.ApplyKeepsPromise`, both directions, gaps of
  any length, whatever happened before). Beyond the first limit it is never called
  (`HeightLimits.GapForgetsHandler`), beyond the second it is called without a
  tipset (`HeightLimits.GapCallsWithoutTipset`); both are runs from the start.
- A handler that `ChainAt` calls at once, deeper than the collection confidence, is
  in no index and stays called when the head is reverted below it
  (`HeightLimits.RevertKeepsPromise`, both directions;
  `HeightLimits.DeepRevertLeavesCalled` is a run).
- The waiter remembers the height of the last applied tipset and does not lower it
  on a revert: what it remembers is the head's height exactly when the last head
  change was not a revert (`Waiter.RememberedHeight`). A message found by the
  background search is deep enough for every confidence under exactly that condition
  (`Waiter.SearchReturnIsDeep`); `Waiter.SearchReturnMayBeShallow` gives a run in
  which it is not.
- Lazy sender resolution agrees with eager resolution, for all tipsets of a set of
  senders and all iteration orders of the map, exactly when every sender resolves
  and no two robust ones stand for one actor (`LazySelection.LazyRefinesEager`).
  The inputs that show it are `UnresolvedDisagrees` and `SharedActorDisagrees`.
- With two robust addresses of one actor and a sender written as an ID address, the
  lazy selection may take a message twice; the processor then skips the repeat and
  later receipts are found one place off. Receipts line up exactly when there is no
  ID sender or the robust ones stand for different actors
  (`Repeats.ReceiptsLineUp`; `Repeats.MessageRepeats` is the input, and its blocks
  pass the nonce check).
- If every block passes its nonce check, the lazy selection should give every actor
  the nonces from its own on, without gap or repeat. It uses robust addresses as
  written until it meets an ID sender, so above the Hyperdrive height this holds,
  for all tipsets of a set of senders and all orders of the map, exactly when no two
  robust senders stand for one actor (`LazyNonces.EveryActorInTurn`). Otherwise an
  actor's nonce may be selected twice (`LazyNonces.SharedActorRepeats`). Nonces of
  an actor rise, whatever the blocks, under the same condition
  (`LazyNonces.LazyRises`).
- The block check resolves senders above the Hyperdrive height and the selection at
  it (`Upgrades.VersionStartsAbove`). At that one height the condition is stronger:
  no two senders at all may stand for one actor, and an ID sender needs all others
  to resolve. `LazyNonces.OwnIdLoses` and `LazyNonces.UnresolvedStops` are the
  further inputs: a block that passes loses a message, and a tipset whose blocks
  pass cannot be loaded.
- A pre-migration whose start limit is negative is started at any head: a negative
  limit means none (`PreMigrations.StartLimitKept`, both directions).
- The block generator asks for one beacon entry an epoch. On a chained beacon the
  validator accepts that exactly when the rounds continue those of the chain
  (`Beacons.GeneratedAccepted`, both directions); this holds for a beacon as fast
  as the chain (`Beacons.SteadyBeaconAgrees`) but not on the first block of
  network version 16, which counts rounds from one: the validator rejects it
  (`Beacons.Version16SkipsRound`).
- The statement `prev.Round = maxRound - 1` in `BeaconEntriesForBlock`
  (`pkg/beacon/beacon.go:134-137`) has no effect: the value is not read again.
- After equivocation the source searches, as its comment says, five epochs above
  the head and "5 below"; the loop stops at four below, and so does the model.
- The tie-break between equally heavy tipsets is no order: each of two may have the
  smaller ticket in some place (`Ties.BothBreak`). Which tipset is formed at a height
  is then up to the order of a map; it is not exactly if one tipset is heavier than
  each other or wins the tie with it both ways round (`Ties.OrderIndependence`).
- The coalescer's documented maximal delay is kept in every run exactly when the
  minimal delay does not exceed it (`Coalescer.MaxDelayKept`); otherwise a single
  change waits longer (`Coalescer.FirstChangeWaits` is the run).
- From network version 16 on every epoch has a beacon round, but for a beacon of
  period one that started at time zero at the last 64-bit time
  (`Beacons.EveryEpochHasRound`, both directions).

## Model

| member | source | states |
|---|---|---|
| `Tipsets.StraddlesIsLowest` | pkg/chain/chain_index.go:194-205 | A tipset at or above a height whose parent is below it is the lowest of the whole chain at or above it, and its parent the highest below. |
| `Tipsets.LowestUnique` | pkg/chain/chain_index.go:65-112 | A height has at most one answer on a chain. |
| `Tipsets.AtOrAboveFrom` | pkg/chain/chain_index.go:74-109 | Looking back from any member of the chain still at or above the height gives the same answer. |
| `ChainIndex.SkipKeepsAnswer` | pkg/chain/chain_index.go:120-162 | A skip goes strictly down the chain, and one that stays at or above the wanted height keeps the answer. |
| `ChainIndex.SkipSpendsLookup` | pkg/chain/chain_index.go:74-109 | Every skip spends one of the lookups allowed between the two heights. |
| `ChainIndex.WalkBack` | pkg/chain/chain_index.go:180-208 | Succeeds exactly for heights from 0 to that of the start, and returns the lowest tipset of the chain at or above the height. |
| `ChainIndex.ChainIndex.constructor` | pkg/chain/chain_index.go:47-53 | A new index is valid and empty. |
| `ChainIndex.ChainIndex.FillCache` | pkg/chain/chain_index.go:120-162 | Computes the correct skip entry of any stored tipset and fails exactly for a key not in the store. |
| `ChainIndex.ChainIndex.RoundDown` | pkg/chain/chain_index.go:169-178 | Stays on the chain and in the same skip segment, and lands on the segment's lowest tipset. |
| `ChainIndex.ChainIndex.GetTipSetByHeight` | pkg/chain/chain_index.go:65-112 | For any contents of the shared cache and any interleaving with other readers the answer equals the uncached walk, is the lowest tipset at or above the height, and takes at most one lookup for each skip boundary and one more. |
| `ChainIndex.ChainIndex.StoreGetTipSetByHeight` | pkg/chain/store.go:363-398 | Succeeds exactly for heights from 0 to that of the start; returns the lowest tipset at or above the height or, with `prev`, the highest at or below it. |
| `Reorg.SplitIsDropped` | pkg/chain/store.go:1300-1352 | Splitting one chain at a member of the other, with nothing of the other above, gives exactly the tipsets the other chain lacks. |
| `Reorg.WalkStep` | pkg/chain/store.go:1320-1346 | The walk that is not lower than the other may step down without passing a common tipset. |
| `Reorg.ReorgOps` | pkg/chain/store.go:1313-1352 | Succeeds exactly when the heads share a genesis, and returns for each head exactly the tipsets the other chain lacks, highest first. |
| `Reorg.TipsetIterator.constructor` | pkg/chain/traversal.go:19-28 | The iterator stands at the start. |
| `Reorg.TipsetIterator.Advance` | pkg/chain/traversal.go:41-56 | Moves to the parent, or completes at genesis. |
| `Reorg.FindCommonAncestor` | pkg/chain/traversal.go:126-155 | Finds the highest common tipset exactly when there is one. |
| `Reorg.CollectTipSetsOfHeightAtLeast` | pkg/chain/traversal.go:159-174 | Collects exactly the tipsets of the chain at or above the height, highest first. |
| `Reorg.CollectTipsToCommonAncestor` | pkg/chain/traversal.go:96-118 | Returns the same segments as `ReorgOps` on the same condition, by a different walk. |
| `Reorg.ForkPoint` | pkg/chain/traversal.go:96-155 | Two heads with a common genesis fork at one tipset, the highest one both have, and each chain is its own segment followed by the chain of that tipset. |
| `HeadChanges.FeedExtends` | pkg/chain/store.go:591-622 | Appending the minimal change from the last head to a new one extends a feed. |
| `Coalescer.KeysIdentify` | pkg/chain/coalescer.go:150-196 | Cancelling by key is cancelling by tipset. |
| `Coalescer.DropsCompose` | pkg/chain/coalescer.go:136-209 | Cancelling the drops of two consecutive switches gives the drops of the direct switch, in order. |
| `Coalescer.MergeIsComposition` | pkg/chain/coalescer.go:136-209 | Merging the minimal changes l to m and m to n gives exactly the minimal change l to n, both lists in order. |
| `Coalescer.HeadChangeCoalescer.constructor` | pkg/chain/coalescer.go:47-60 | A new coalescer has the delays given, nothing pending and no timer set. |
| `Coalescer.HeadChangeCoalescer.Coalesce` | pkg/chain/coalescer.go:136-209 | The pending change becomes the merge of what was pending and what came in. |
| `Coalescer.HeadChangeCoalescer.Dispatch` | pkg/chain/coalescer.go:211-219 | The notifee gets exactly the minimal change from the head of the previous dispatch to the current head. |
| `Coalescer.HeadChangeCoalescer.OnHeadChange` | pkg/chain/coalescer.go:92-103 | The pending change is the minimal change to the new head; the first pending change sets the timer to the minimal delay, a later one leaves it. |
| `Coalescer.HeadChangeCoalescer.OnTimer` | pkg/chain/coalescer.go:105-125 | Waits on exactly when both intervals allow it, and otherwise dispatches. |
| `Coalescer.HeadChangeCoalescer.OnDone` | pkg/chain/coalescer.go:127-131 | On closing everything received has been dispatched, as one more change if any was pending. |
| `Coalescer.ClockRunOk` | pkg/chain/coalescer.go:84-125 | In every run the timer is set exactly while a change is pending, due after the minimal delay and within the larger of the two after the first one. |
| `Coalescer.PendingTimes` | pkg/chain/coalescer.go:92-103 | In every run the remembered times are those at which the first and the last pending change came in. |
| `Coalescer.TimerDecides` | pkg/chain/coalescer.go:92-125 | In every run a timer that goes off waits on exactly if the last pending change came less than the merge interval ago and the first less than the maximal delay, and then for the minimal delay but not past the maximal one; otherwise all is handed on, no sooner than the minimal delay after the first change. The times are those of the wakes. |
| `Coalescer.MaxDelayKept` | pkg/chain/coalescer.go:10-125 | In every run the timer is due at most the maximal delay after the first pending change, if and only if the minimal delay is not larger. |
| `Coalescer.FirstChangeWaits` | pkg/chain/coalescer.go:92-103 | A run in which a single change waits for the minimal delay, whatever the maximal one. |
| `Observer.DiffReplays` | pkg/events/observer.go:130-216 | The minimal change between two heads can always be replayed and leads from the one to the other. |
| `Observer.ChainObserver.constructor` | pkg/events/observer.go:32-42 | A new observer list is empty and in step with the head; nobody has been told anything or has left. |
| `Observer.ChainObserver.Observe` | pkg/events/observer.go:222-227 | A new observer starts at the current head and misses nothing after it. |
| `Observer.ChainObserver.Unregister` | pkg/events/observer.go:233-251 | Removes exactly this observer, notes that it has left and reports whether it was there. |
| `Observer.ChainObserver.Notify` | pkg/events/observer.go:168-188 | Exactly the observers registered when the head is set are told, once, while others register and leave. |
| `Observer.ChainObserver.RevertAll` | pkg/events/observer.go:146-189 | Succeeds exactly when the first reverted tipset is the head and the last has a parent, and ends at that parent; what was told before is kept, and every observer that does not leave meanwhile is told exactly these reverts, in order. |
| `Observer.ChainObserver.ApplyAll` | pkg/events/observer.go:191-214 | Succeeds exactly when each tipset is on top of the one before, starting at the head; what was told before is kept, and every observer that does not leave meanwhile is told exactly these applies, in order. |
| `Observer.ChainObserver.HeadChange` | pkg/events/observer.go:130-216 | For any stored tipsets, fails exactly when the change does not fit on the head; in any case what each observer has been told is kept and is a walk without gaps ending at the head, along parent links as long as the reverted tipsets were linked, which is not checked; if it succeeds every observer that does not leave meanwhile is told exactly the steps of the change, once and in order. |
| `Observer.ChainObserver.CatchUp` | pkg/events/observer.go:75-104 | Catching up succeeds exactly when the heads share a genesis, ends at the current head, keeps what was told, and tells every observer that does not leave meanwhile exactly the steps between the heads. |
| `Observer.ChainObserver.Follow` | pkg/events/observer.go:106-128 | Replaying any feed of consecutive published changes never fails, ends at the last head, keeps what was told, and tells every observer that does not leave meanwhile exactly the steps from head to head, once and in order. |
| `Following.FollowStore` | pkg/events/observer.go:106-128 | An observer that starts at the store's first head and replays what the store has published since never fails and ends at the store's head; its observers that do not leave are told exactly the steps between all the store's heads. |
| `Following.FollowCoalesced` | pkg/chain/coalescer.go:80-219 | With a coalescer in between, whenever changes arrive and timers fire, the merged changes lead the observer to the store's head; its observers that do not leave are told exactly the steps between the heads the coalescer handed on. |
| `ForkChoice.ExceedsForkLength` | pkg/chain/store.go:1777-1833 | False exactly when the switch drops fewer than 900 tipsets, not the checkpoint, and the chains share a genesis; false if a side is missing. |
| `ForkChoice.SafeRun` | pkg/chain/store.go:1574-1679 | Between any two heads of a run of allowed switches the weight does not fall and a checkpoint on the chain of the first stays on that of the second. |
| `ForkChoice.RunIsSafe` | pkg/chain/store.go:1574-1679 | The same for all pairs of heads, and no switch of the run drops 900 tipsets. |
| `Ties.BreakWeightTie` | pkg/chain/store.go:1749-1765 | True exactly if the first tipset has a smaller ticket in some place that both have. |
| `Ties.BothBreak` | pkg/chain/store.go:1749-1765 | Two lists of tickets of which each breaks the tie with the other. |
| `Ties.OneBlockDecides` | pkg/chain/store.go:1749-1765 | If one of two tipsets has a single block, one wins whichever is visited first, if and only if their weights or first tickets differ. |
| `Ties.WinnerPicked` | pkg/chain/store.go:1724-1746 | A tipset that wins against every other is chosen in every order of the map. |
| `Ties.OrderIndependence` | pkg/chain/store.go:1724-1746 | The tipset chosen at a height is the same for all orders of the map if and only if one is heavier than each other or wins the tie with it both ways round. |
| `ForkChoice.ChainStore.constructor` | pkg/chain/store.go:555-582 | A new store has what it is given, no head, no tracked blocks and nothing published. |
| `ForkChoice.ChainStore.SetCheckPoint` | pkg/chain/store.go:1142-1144 | A new checkpoint guards the switches from the current head on. |
| `ForkChoice.ChainStore.SetHead` | pkg/chain/store.go:555-622 | Succeeds exactly for a first head or one with the same genesis; then the published changes are the minimal changes between consecutive heads; setting the same head publishes nothing; a safe switch continues a safe run. |
| `ForkChoice.ChainStore.AddToTipSetTracker` | pkg/chain/store.go:1528-1565 | Records a block once at its height; at most heights below finality are forgotten. |
| `ForkChoice.ChainStore.FormHeaviestTipSetForHeight` | pkg/chain/store.go:1683-1747 | Returns a heaviest tipset that the blocks of honest miners at the height can form, or none if there is none; the one that wins against all others, if there is such a one. |
| `ForkChoice.GroupsAreFormable` | pkg/chain/store.go:1690-1722 | The groups are exactly the non-empty sets of all blocks with the same parents whose miners made no other block at the height. |
| `ForkChoice.ChainStore.GroupByParents` | pkg/chain/store.go:1690-1722 | Groups exactly the blocks of miners with one block at the height by their parents. |
| `ForkChoice.ChainStore.BadMiners` | pkg/chain/store.go:1695-1708 | The blocks kept from miners not marked bad are exactly those of miners with one block at the height. |
| `ForkChoice.ChainStore.Heaviest` | pkg/chain/store.go:1724-1746 | A formable tipset that no formable one outweighs, in any order of iteration, and the winner against all others if there is one. |
| `ForkChoice.ChainStore.HeaviestAround` | pkg/chain/store.go:1617-1627 | The heaviest candidate from four heights below the head to five above, if there is one. |
| `ForkChoice.ChainStore.RefreshHeaviestTipSet` | pkg/chain/store.go:1574-1679 | Unless equivocation shrank the head's own tipset, the head only moves to a tipset at least as heavy and within the fork limits, and stays below a candidate only if the limits forbid the switch; where the head's height and the new one each have a tipset that wins against their others, the new head is determined: the new height's if it is heavier or breaks the tie, within the limits. After equivocation it moves, whatever the limits, to a formable tipset that none formed nearby outweighs, or if there is none nearby only within the limits. |
| `ForkChoice.ChainStore.TakeAround` | pkg/chain/store.go:1609-1639 | After equivocation the head becomes the heaviest tipset formable nearby, if there is one and it has the same genesis. |
| `ForkChoice.ChainStore.HeavierAt` | pkg/chain/store.go:1642-1656 | The heaviest candidate of the new height if it is heavier or breaks the tie, otherwise what was chosen before. |
| `ForkChoice.ChainStore.FindHeaviest` | pkg/chain/store.go:1592-1656 | The tipset to switch to: without equivocation one that nothing formed at the two heights outweighs and, where every tie is decided, the one decided on; after it one that nothing nearby outweighs. |
| `ForkChoice.ChainStore.SwitchWithin` | pkg/chain/store.go:1658-1679 | Switches exactly when the limits allow it. |
| `ForkChoice.ChainStore.HasShrunk` | pkg/chain/store.go:1603-1609 | Whether the blocks tracked at the head's height form nothing as heavy as the head. |
| `ForkChoice.ChainStore.Drive` | pkg/chain/store.go:1528-1679 | For any interleaving of blocks seen and refreshes, up to a refresh that meets equivocation: the head's weight never falls, a checkpoint on its chain stays on it, and every switch drops fewer than 900 tipsets. |
| `HeightEvents.StepKeeps` | pkg/events/events_height.go:52-244 | Every atomic step of the event loop and of concurrent `ChainAt` calls keeps the invariant. |
| `HeightEvents.RunKeeps` | pkg/events/events_height.go:52-244 | Hence every state of every run has it. |
| `HeightEvents.EveryRunPromises` | pkg/events/events_height.go:52-244 | In every state of every run a handler has the height of a call of `ChainAt` and that height plus its confidence as trigger; its calls alternate handle and revert, each handle comes at a head not below the trigger and gets the lowest tipset at or above the handler's height, and each revert the tipset of the handle before; at rest a handler is called if the head has reached its trigger, and a called one was last called with the tipset that is on the chain now. |
| `HeightEvents.RunBegins` | pkg/events/events_height.go:52-71 | Every handler of every run comes from one call of `ChainAt`, with its height and its height plus confidence. |
| `HeightEvents.StillHeadRegisters` | pkg/events/events_height.go:72-146 | While the head stands still a call of `ChainAt` is done after at most four sections, whatever runs in between. |
| `HeightEvents.WithdrawnForCause` | pkg/events/events_height.go:91-135 | `ChainAt` withdraws a call only if the head it read is below the height or has another tipset there than the one called with. |
| `HeightEvents.FailureFails` | pkg/events/events_height.go:84-134 | A call of `ChainAt` fails at a step if and only if there the chain API gives no tipset or the handler called returns an error. |
| `HeightEvents.FailureEnds` | pkg/events/events_height.go:84-146 | In every run after such an error the handler is in no index, is never called again and stays as it is. |
| `HeightEvents.RetiredIsDeep` | pkg/events/events_height.go:106-122 | In every run `ChainAt` ends without the handler being watched only if it was called at a head the collection confidence or more above its height, and a handler whose standing call is that deep is watched only if the call came exactly at its trigger. |
| `HeightLimits.PassApplies` | pkg/events/events_height.go:208-244 | Through every turn of an apply of any length, with registrations in between, a handler is where its surviving index entries put it. |
| `HeightLimits.ApplyKeepsPromise` | pkg/events/events_height.go:150-244 | After an apply over a gap of any length a handler that was in step has what it was promised if and only if its heights in the gap were indexed and not collected; nothing is assumed of other handlers or earlier moves. |
| `HeightLimits.ApplySettles` | pkg/events/events_height.go:150-244 | It is in step with the new head under the corresponding condition, again if and only if. |
| `HeightLimits.PassReverts` | pkg/events/events_height.go:177-206 | Through every turn of a revert a handler is undone exactly when its index entries are met. |
| `HeightLimits.RevertKeepsPromise` | pkg/events/events_height.go:177-206 | After a revert however deep a handler that was in step has what it was promised if and only if it is still indexed or was not to be undone. |
| `HeightLimits.InvInStep` | pkg/events/events_height.go:52-146 | Within the collection limits every handler that `ChainAt` is done with is in step, and what it waits for is indexed. |
| `HeightLimits.RevertSettles` | pkg/events/events_height.go:177-206 | It is in step with the new head under the same condition. |
| `HeightLimits.PassSettles` | pkg/events/events_height.go:52-244 | Each apply, revert or step of `ChainAt` leaves a handler in step if and only if it spares it. |
| `HeightLimits.PassesSettle` | pkg/events/events_height.go:52-244 | Through any number of applies and reverts that spare it a handler stays in step and has what it was promised, whatever becomes of the others. |
| `HeightLimits.GapForgetsHandler` | pkg/events/events_height.go:150-173 | A run from the start after which a handler whose trigger height is passed has not been called. |
| `HeightLimits.GapCallsWithoutTipset` | pkg/events/events_height.go:150-244 | A run from the start in which a handler is called without a tipset. |
| `HeightLimits.DeepRevertLeavesCalled` | pkg/events/events_height.go:110-206 | A run from the start after which a handler is called although the head is below its height. |
| `HeightEvents.StartApplyKeeps` | pkg/events/events_height.go:208-215 | Moving the head up, with garbage collection, leaves every handler either right or still due in the loop. |
| `HeightEvents.StartRevertKeeps` | pkg/events/events_height.go:177-183 | Moving the head down leaves every handler either right or still due to be undone. |
| `HeightEvents.TurnKeeps` | pkg/events/events_height.go:185-244 | Each turn of the apply and revert loops keeps the invariant. |
| `HeightEvents.SectionKeeps` | pkg/events/events_height.go:72-146 | Each critical section of `ChainAt`, with the head having moved any number of times since the last, keeps the invariant. |
| `HeightEvents.HeightObserver.constructor` | pkg/events/events_height.go:32-50 | A new observer starts a run. |
| `HeightEvents.HeightObserver.UpdateHead` | pkg/events/events_height.go:150-173 | Sets head and highest height and drops exactly the indexed heights below the collection limit when collection is due. |
| `HeightEvents.HeightObserver.ChainAt` | pkg/events/events_height.go:52-71 | Refuses exactly a confidence above the limit and otherwise starts registering. |
| `HeightEvents.HeightObserver.ChainAtSection` | pkg/events/events_height.go:72-146 | One section of the registration loop is one step of the run, so that what is proved of every run holds of it: no call before the confidence, none withdrawn without cause, errors end it. |
| `HeightEvents.HeightObserver.Apply` | pkg/events/events_height.go:208-244 | Applying a tipset while registrations go on ends with every registered handler where it should be for the new head and no handler or call lost. |
| `HeightEvents.HeightObserver.Revert` | pkg/events/events_height.go:177-206 | Reverting a tipset likewise. |
| `CalledEvents.QueuedKeeps` | pkg/events/events_called.go:188-209 | Queueing an event keeps the invariant: an event's history is lawful and it is queued exactly while its tipset is on the chain. |
| `CalledEvents.AttemptedKeeps` | pkg/events/events_called.go:218-243 | Calling a handler for an event that is due keeps the invariant, whatever the handler answers. |
| `CalledEvents.QueueMember` | pkg/events/events_called.go:188-245 | Nothing in the confidence queue refers to a tipset off the current chain. |
| `CalledEvents.HeightServed` | pkg/events/events_called.go:212-245 | Trying every event queued for a height leaves no event waiting for that height untried. |
| `CalledEvents.UncountedUnhandled` | pkg/events/events_called.go:248-277 | A trigger whose timeout is due has had no event handled. |
| `CalledEvents.RevertMoves` | pkg/events/events_called.go:156-184 | Once every event of the reverted tipset is withdrawn the invariant holds for the parent. |
| `CalledEvents.HcEvents.constructor` | pkg/events/events_called.go:98-118 | A new observer is valid and empty. |
| `CalledEvents.HcEvents.OnHeadChanged` | pkg/events/events_called.go:285-320 | Registers a new trigger with its timeout unless the first check fails. |
| `CalledEvents.HcEvents.QueueForConfidence` | pkg/events/events_called.go:188-209 | Queues one event under its trigger height and its own height. |
| `CalledEvents.HcEvents.CallHandler` | pkg/events/events_called.go:218-243 | Calls the handler unless it was called or is disabled; a call that succeeds is recorded with the head, and a handler that wants no more is disabled; after one that fails nothing but the attempt is recorded. |
| `CalledEvents.HcEvents.ApplyWithConfidence` | pkg/events/events_called.go:212-245 | Takes a turn for exactly the events queued for the height. |
| `CalledEvents.HcEvents.ApplyTimeouts` | pkg/events/events_called.go:248-277 | Delivers the timeout, once, to exactly the triggers due at this height with no call and, for it, no event handled; only disables triggers. |
| `CalledEvents.HcEvents.Apply` | pkg/events/events_called.go:120-154 | Exactly the matches are queued as new events; every event is handled at most once, only under a head at its trigger height or above with its tipset on that chain; every event due by the new height has been tried; calls, attempts and reverts already recorded stay; a handler that wanted no more events is not called for any; every trigger whose deadline was passed is told so once, unless it has had an event or wants no more, and no other is. |
| `CalledEvents.HcEvents.Revert` | pkg/events/events_called.go:156-184 | Exactly the events of the reverted tipset are withdrawn, and the revert is called once for each that was handled and for no other; the history of all other events, withdrawn before or not, is unchanged, and no handler is called. |
| `CalledEvents.LaterTransitive` | pkg/events/events_called.go:120-277 | That nothing recorded is taken back holds over any number of operations. |
| `CalledEvents.SilentTransitive` | pkg/events/events_called.go:218-243 | That a handler which wanted no more events is called for none, old or new, holds over any number of operations. |
| `CalledEvents.DeliveredNext` | pkg/events/events_called.go:147-152 | One more height, its events before its timeouts, extends the exact delivery of timeouts. |
| `CalledEvents.TurnsDeserved` | pkg/events/events_called.go:218-243 | A trigger is counted as called only if an event of it was handled. |
| `Waiter.FindMessage` | pkg/chain/waiter.go:107-165 | Returns the answer, error or message, of the highest tipset reached where the sender's nonce passes the message's; with nonces that grow along the chain it finds the message exactly when it is in a tipset of the chain above the limit; it fails if the sender has no actor at the start. |
| `Waiter.ReceiveTracks` | pkg/chain/waiter.go:196-267 | One input keeps the candidate on the chain and what is returned is on the chain. |
| `Waiter.ReturnedIsOnChain` | pkg/chain/waiter.go:196-267 | For every stream of head changes and every end of the search, a returned message is in a tipset of the chain at that moment, and it is at least the confidence below the head if it is returned on an apply, or by the search when the last head change was not a revert. |
| `Waiter.RememberedHeight` | pkg/chain/waiter.go:212-248 | In every run the remembered height is at least the head's, and equal if and only if the last head change was not a revert. |
| `Waiter.RevertsKnown` | pkg/chain/waiter.go:213-230 | While the search is on, the loop knows exactly the tipsets reverted. |
| `Waiter.SearchReturnIsDeep` | pkg/chain/waiter.go:245-262 | After every stream of head changes that has not reverted what the search found, it is returned only deep enough, for every confidence, if and only if the last head change was not a revert. |
| `Waiter.SearchReturnMayBeShallow` | pkg/chain/waiter.go:245-262 | A run in which it is not. |
| `Waiter.WaitForMessage` | pkg/chain/waiter.go:173-268 | The loop is a run of the state machine; it ends found, failed or open exactly as the machine does. |
| `Waiter.FoundIsReturned` | pkg/chain/waiter.go:212-248 | In every run on every chain: if an applied tipset has the message, is not reverted, no later one has an answer, and one is applied at least the confidence above it, or the confidence is 0, the wait has ended with a message by then. |
| `Waiter.SearchedIsReturned` | pkg/chain/waiter.go:249-262 | The same of what the search found, if it was not reverted before the search ended or after. |
| `Messages.SelectAllEager` | pkg/chain/message_store.go:249-283 | Selects one list of messages as the reference does, and fails exactly if a sender cannot be resolved. |
| `Messages.LoadTipSetMesssages` | pkg/chain/message_store.go:232-304 | Eager selection equals the reference selection, and fails exactly if a sender cannot be resolved. |
| `Messages.ResolveApplied` | pkg/chain/message_store.go:405-411 | Re-keys the nonces while iterating the map in the order given, and stops at the first address that cannot be resolved. |
| `Messages.SelectAllLazy` | pkg/chain/message_store.go:445-465 | Selects one list of messages as the lazy reference does, state and failure included. |
| `Messages.LoadTipSetMessage` | pkg/chain/message_store.go:379-474 | The loop over the blocks computes the lazy selection, for any order of the map, and fails exactly when an address cannot be resolved while re-keying or for an ID sender. |
| `LazySelection.RekeyMeaning` | pkg/chain/message_store.go:405-411 | Re-keying gives every actor the nonce of one of its addresses and fails exactly if an address does not resolve. |
| `LazySelection.LazyOneAgrees` | pkg/chain/message_store.go:390-435 | One message keeps the lazy state standing for the eager one, and both take it or neither does. |
| `LazySelection.LazyBlocksAgree` | pkg/chain/message_store.go:379-474 | With senders that resolve and stand for different actors, lazy selection equals eager selection block by block and in order, wherever the first ID sender appears and in whatever order the map is iterated. |
| `LazySelection.LazyBlocksUnresolved` | pkg/chain/message_store.go:379-474 | Without ID senders lazy selection is eager selection without resolution. |
| `LazySelection.LazyRefinesEager` | pkg/chain/message_store.go:379-474 | For a set of senders the two selections agree on all their tipsets and all map orders if and only if every sender resolves and no two robust ones stand for one actor. |
| `LazySelection.UnresolvedDisagrees` | pkg/chain/message_store.go:249-435 | An address that does not resolve makes them disagree. |
| `LazySelection.SharedActorDisagrees` | pkg/chain/message_store.go:390-435 | Two blocks with one nonce from two robust addresses of one actor: the lazy selection takes both messages, the eager one does not. |
| `LazySelection.LazyIsReference` | pkg/chain/message_store.go:379-474 | Without ID senders or with separate actors a lazy selection that succeeds is the reference selection, resolving exactly if there is an ID sender. |
| `Nonces.CheckMsg` | pkg/consensus/block_validator.go:824-875 | Accepts one more message exactly when the longer list is still valid. |
| `Nonces.CheckBlockMessages` | pkg/consensus/block_validator.go:814-897 | Passes exactly when all messages are valid, the gas fits, senders resolve, and each sender may send and has the nonces from its actor's on without gap or repeat. |
| `Nonces.SelectionRaisesLevel` | pkg/chain/message_store.go:423-435 | Selecting from runs of nonces takes exactly those not covered yet, with senders of check and selection apart. |
| `Nonces.SelectionRule` | pkg/chain/message_store.go:249-283 | One more message is selected exactly if its sender resolves and it carries the nonce after the sender's last selected message, or is the sender's first. |
| `Nonces.BlocksAsOneList` | pkg/chain/message_store.go:232-304 | The blocks are selected as one long list, BLS before secp messages, and every block keeps its own part. |
| `Nonces.TipsetNonces` | pkg/chain/message_store.go:232-304 | Of the eager selection: if every block passes its check, it gives each sender exactly the nonces from its actor's on, as many as the longest run one block has from one sender of the check, in order. |
| `Nonces.NoncesAreMost` | pkg/chain/message_store.go:232-304 | Of the eager selection: that is as many as one block has messages for the actor, if and only if a block with the most has them all from one sender of the check. |
| `Nonces.SameSendersLead` | pkg/chain/message_store.go:232-304 | Which always holds where check and eager selection resolve alike. |
| `Nonces.UpgradeHeightLosesNonce` | pkg/chain/message_store.go:232-304 | At the upgrade height a block passes and of its two messages the eager selection takes one. |
| `Nonces.TipsetRises` | pkg/chain/message_store.go:232-304 | Of the eager selection: later selected messages of a sender carry higher nonces, whatever the blocks. |
| `LazyNonces.EveryActorInTurn` | pkg/chain/message_store.go:379-474 | Of the lazy selection, for a set of senders, over all map orders and all tipsets whose blocks pass: it succeeds and every actor gets exactly its next nonces, as many as one block has messages for it at most, if and only if, with the check resolving, no two robust senders stand for one actor, and, at the upgrade height, no two senders do and all resolve or none is an ID address. |
| `LazyNonces.ToldApartInTurn` | pkg/chain/message_store.go:379-474 | The one half, for one tipset, one map order and all actors. |
| `LazyNonces.SharedActorRepeats` | pkg/chain/message_store.go:390-435 | Two blocks that pass, with the check resolving or not, from which the lazy selection takes one actor's nonce twice in every map order. |
| `LazyNonces.OwnIdLoses` | pkg/chain/message_store.go:390-435 | At the upgrade height a block passes and of an address's message and its ID's the lazy selection takes one. |
| `LazyNonces.UnresolvedStops` | pkg/chain/message_store.go:401-411 | At the upgrade height two blocks pass and the lazy selection fails. |
| `LazyNonces.BelowUpgradeInTurn` | pkg/chain/message_store.go:379-474 | Below the upgrade every address as written gets its next nonces, whatever the senders. |
| `LazyNonces.LazyRises` | pkg/chain/message_store.go:379-474 | For a set of senders, over all their tipsets and map orders, an actor's selected messages carry rising nonces if and only if no two robust senders stand for one actor. |
| `Receipts.SelectedDistinct` | pkg/chain/message_store.go:423-435 | No two selected messages have the same CID. |
| `Receipts.ApplyMessages` | pkg/consensus/processor.go:186-250 | The loop computes the run over the blocks: its state and its receipts. |
| `Receipts.EveryBlockRunsOn` | pkg/consensus/processor.go:186-250 | Of every block exactly the messages not run before are run, in order, each on the state the one before left and the first on what the previous block left, or on the state given; then the reward is paid on the last state, with exactly the penalties and tips of these messages. |
| `Receipts.NewAreFirsts` | pkg/consensus/processor.go:203-208 | The messages run in a block are those that are the first with their CID in the whole tipset. |
| `Receipts.RunBlocksRan` | pkg/consensus/processor.go:186-232 | One receipt for each message that is the first with its CID, in order, and it is the one running that message gave. |
| `Receipts.OneReceiptEach` | pkg/consensus/processor.go:186-232 | When CIDs differ the skip never fires and receipts line up with messages. |
| `Receipts.ReceiptByIndex` | pkg/chain/waiter.go:321-347 | Returns the receipt at the position of the first message with the CID, or none if there is no receipt for it. |
| `Receipts.ReceiptOf` | pkg/chain/waiter.go:321-347 | For any tipset: without ID senders or with separate actors, the receipt found for a selected message is the one that running this very message gave, in its state of the run that `EveryBlockRunsOn` determines. |
| `Receipts.LazyDistinct` | pkg/chain/message_store.go:379-474 | Under that condition no two selected messages have the same CID. |
| `Receipts.FoundIsOwn` | pkg/chain/waiter.go:321-347 | With different CIDs the receipt at the message's position is the one its run gave. |
| `Repeats.SkipNeverFires` | pkg/consensus/processor.go:186-232 | The processor skips no message if and only if all CIDs differ. |
| `Repeats.ReceiptsLineUp` | pkg/chain/message_store.go:379-474 | For a set of senders every selected message has its own receipt, for all tipsets and map orders, if and only if there is no ID sender or the robust ones stand for different actors. |
| `Repeats.MessageRepeats` | pkg/chain/message_store.go:390-435 | Three blocks from which one map order makes the lazy selection take a message twice. |
| `Repeats.RepeatingPasses` | pkg/consensus/block_validator.go:814-897 | Each of them passes the nonce check. |
| `Upgrades.HeightsRise` | pkg/fork/fork.go:484-499 | In a validated schedule heights rise from the first enabled upgrade on. |
| `Upgrades.NewChainFork` | pkg/fork/fork.go:596-654 | Succeeds exactly for a valid schedule and builds version, migration and expensive-upgrade tables that match it. |
| `Upgrades.NetworkVersionIsLastUpgrade` | pkg/fork/fork.go:728-737 | The scan of the version table gives the version of the last upgrade strictly below the height. |
| `Upgrades.VersionStartsAbove` | pkg/fork/fork.go:728-737 | The version at a height is at least an upgrade's if and only if the height is above the upgrade's. |
| `Upgrades.HasExpensiveForkBetween` | pkg/fork/fork.go:719-726 | True exactly if an expensive upgrade lies from the parent's height up to but not including the height. |
| `Execution.ApplyBlocks` | pkg/consensus/processor.go:146-257 | One tipset does, over its null rounds, exactly the acts of its epochs, as recorded act by act: migrations of the heights passed, cron of every epoch, messages before the last cron; its root is their effect, which `EffectsOfStory` determines. |
| `Execution.ExecuteChain` | pkg/consensus/expected.go:170-243 | Executing a chain from genesis does, act by act, what the reference story of its epochs tells, whatever the null rounds: cron exactly once for each epoch and each height offered to the upgrades exactly once, in order. |
| `Execution.ExecuteScheduled` | pkg/consensus/expected.go:170-243 | The root of a chain is the state that the schedule and the heights of its tipsets determine: for each epoch the migration of the height before, if an upgrade of that height has one, then its messages if it has a tipset, then cron, with the network version of the last upgrade below. |
| `Execution.EffectsOfStory` | pkg/consensus/processor.go:146-257 | The acts of any run of epochs have exactly that effect. |
| `Execution.EpochEffect` | pkg/consensus/processor.go:146-257 | So have the acts of one epoch. |
| `Execution.OfferedMigrates` | pkg/fork/fork.go:667-709 | For a valid schedule, offering a height runs its migration if an upgrade of that height has one and otherwise leaves the root. |
| `Execution.EveryEpochOnce` | pkg/consensus/processor.go:146-178 | Cron runs exactly once for each epoch from 1 to the head and each height from 0 to below the head is offered to the upgrades exactly once, in order. |
| `Execution.BeforeEpoch` | pkg/consensus/processor.go:146-178 | Before anything of an epoch runs exactly the heights below it have been offered. |
| `Execution.VersionFollowsUpgrades` | pkg/fork/fork.go:728-737 | The network version of an epoch is that of the last upgrade offered before it, or of genesis. |
| `Execution.ExpensiveMet` | pkg/fork/fork.go:719-726 | The query on a parent's height and a tipset's holds exactly if executing the tipset offers the height of an expensive upgrade. |
| `PreMigrations.BuildOps` | pkg/fork/fork.go:776-815 | One start and one cancel for each pre-migration, and nothing else, in any order of the map. |
| `PreMigrations.PreMigrationWorker` | pkg/fork/fork.go:761-838 | Each operation is consumed at the first head that reaches its epoch and runs exactly if that head is below its limit or it has none. |
| `PreMigrations.PreMigrationInTime` | pkg/fork/fork.go:776-838 | A valid pre-migration with a non-negative limit is started at most once, before its cancel, only from a head between its start epoch and both the height from which it may not start and its stop epoch, and is cancelled exactly once a head reaches its stop epoch. |
| `PreMigrations.StartedExactly` | pkg/fork/fork.go:782-835 | In every run a pre-migration is started exactly if the first head to reach its start epoch is below its limit or the limit is negative, and at that head; the limit is written out from the schedule. |
| `PreMigrations.StartLimitKept` | pkg/fork/fork.go:829-832 | Over all runs of the worker a valid pre-migration is never started at a head past its limit, if and only if the limit is not negative. |
| `Beacons.BeaconForEpoch` | pkg/beacon/schedule.go:15-23 | The backward loop gives the beacon of the epoch. |
| `Beacons.BeaconAtIsLastStarted` | pkg/beacon/schedule.go:15-23 | That is the last beacon started by the epoch, or the first one before any. |
| `Beacons.RoundPastGenesis` | pkg/beacon/drand.go:197-223 | Past the beacon's genesis the 64-bit arithmetic gives the plain quotient, plus one from version 16 on. |
| `Beacons.RoundIsLatest` | pkg/beacon/drand.go:197-223 | That is the latest round the beacon has published when the epoch before starts. |
| `Beacons.RoundsRise` | pkg/beacon/drand.go:197-223 | There rounds rise with the epoch if the beacon is as fast as the chain, by exactly one if equally fast. |
| `Beacons.EveryEpochHasRound` | pkg/beacon/drand.go:213-223 | From version 16 on an epoch has round 0 if and only if the beacon has period one, started at time zero, and the time is the last of 64 bits. |
| `Beacons.ValidateBlockValues` | pkg/beacon/beacon.go:41-101 | Accepts exactly the entries that the rules for forks, repeats, genesis, rounds and signatures allow. |
| `Beacons.AcceptedIsGenuine` | pkg/beacon/beacon.go:41-101 | If only what the network published verifies, an accepted block carries nothing else: at a fork its second entry, elsewhere all entries, the last of them of the round of the epoch, unless they are the first of a chained beacon; and none if the round has not changed. |
| `Beacons.AcceptedRoundsFollow` | pkg/beacon/beacon.go:57-101 | On a chained beacon, after an entry of the network, an accepted block carries exactly the rounds that follow it, one by one, up to that of its epoch. |
| `Beacons.UnchainedRoundsDetermined` | pkg/beacon/beacon.go:57-101 | On an unchained beacon a block is accepted exactly when it has one verified entry for each epoch since its parent, of that epoch's round; `AcceptedIsGenuine` says that these are the network's. |
| `Beacons.ReverseEntries` | pkg/beacon/beacon.go:161-165 | Reverses the array in place. |
| `Beacons.BeaconEntriesForBlock` | pkg/beacon/beacon.go:104-159 | Returns the entries of exactly the needed rounds, in order, and fails exactly if one cannot be fetched. |
| `Beacons.GeneratedAccepted` | pkg/beacon/beacon.go:41-159 | What the generator makes for any parent and child epoch is accepted if, and with data that never repeat only if, the stated condition on rounds and previous entry holds: forks, repeats, genesis, null rounds, unchained and chained beacons. |
| `Beacons.SteadyBeaconAgrees` | pkg/beacon/beacon.go:104-159 | The condition holds for a chained beacon as fast as the chain, through null rounds. |
| `Beacons.Version16SkipsRound` | pkg/beacon/drand.go:197-223 | For the first block on such a beacon that counts by version 16 after a parent that counted by version 15 the condition fails, and the validator rejects what the generator makes. |
| `Beacons.GetLatestBeaconEntry` | pkg/chain/store.go:495-521 | The last entry of the nearest of twenty tipsets that has one. |
| `Beacons.LatestIsNearest` | pkg/chain/store.go:495-521 | In terms of the chain: the last entry of the first of its first tipsets that has any, and nothing exactly if none has. |
| `Beacons.ExtractBeaconEntryForEpoch` | pkg/chain/randomness.go:221-248 | Searches twenty tipsets from the lowest at or above the epoch, found through the chain index, for the epoch's round. |
| `Beacons.SearchIsNearest` | pkg/chain/randomness.go:221-248 | In terms of the chain: an entry of the round from the first of its first tipsets that has one, and nothing if none has. |
| `Beacons.ChainHasEveryRound` | pkg/beacon/beacon.go:57-101 | Along a chain of accepted blocks every tipset carries exactly one entry for each epoch since its parent. |
| `Beacons.EveryEpochExtracted` | pkg/chain/randomness.go:90-248 | Hence the extractor finds the entry of every epoch, null or not, in the first tipset it looks at. |
| `Snapshot.SnapshotWalk.constructor` | pkg/chain/store.go:899-908 | A walk starts with nothing seen or walked and the tipset's blocks queued. |
| `Snapshot.SnapshotWalk.RecurseLinks` | pkg/chain/store.go:839-873 | Terminates on any graph; appends exactly the newly walked cids, each once and each linked from the root or an earlier one; the links of the root and of every new cid have been walked; fails only if an object is missing. |
| `Snapshot.SnapshotWalk.CollectRoot` | pkg/chain/store.go:938-946 | Visits a root unless it was walked before, with the same closure. |
| `Snapshot.SnapshotWalk.CollectState` | pkg/chain/store.go:957-972 | Collects the state of a header with everything it leads to, and its receipt root without, if they are wanted. |
| `Snapshot.SnapshotWalk.Collect` | pkg/chain/store.go:936-975 | Collects what a header selects by height and options and queues its parents, or at height 0 collects them. |
| `Snapshot.SnapshotWalk.Emit` | pkg/chain/store.go:977-998 | Gives the cids not seen before to the callback, exactly those that are neither identity cids nor of a foreign codec. |
| `Snapshot.SnapshotWalk.WalkChain` | pkg/chain/store.go:910-1001 | One block of the queue keeps what is covered. |
| `Snapshot.ExpandsCovers` | pkg/chain/store.go:910-1001 | A new header, expanded with the shared sets, keeps coverage of all headers seen so far. |
| `Snapshot.WalkSnapshot` | pkg/chain/store.go:899-1011 | For all options: terminates, calls back at most once for each cid and but for headers never with an identity cid or a foreign codec, succeeds if nothing is missing, and ends with what the options select covered, closed under links but for receipt roots, and with a reason for every cid. |
| `Snapshot.HeadersExported` | pkg/chain/store.go:899-1011 | Every header reachable through parents is given to the callback. |
| `Snapshot.LinksExported` | pkg/chain/store.go:839-1001 | Everything linked from the messages of a header (a recent one if old messages are skipped), from the state and, unless skipped, the receipts of a recent header or genesis, over any path of dag-cbor links that does not lead through a receipt root, is collected and given to the callback unless it is an identity cid or of a foreign codec. |
| `Snapshot.WalkedForReason` | pkg/chain/store.go:936-975 | Nothing else is collected: it is one of those roots of a header seen, or linked from something collected. |
| `Snapshot.NothingUnfollowed` | pkg/chain/store.go:957-972 | With receipts skipped everything collected is closed under links. |

## Left out

- HeightEvents.EveryRunPromises: runs are limited to null gaps and reverts within the garbage-collection confidence, because beyond it the promise fails; `HeightLimits` proves for any gap and any revert exactly when it is kept.
- ForkChoice.ChainStore.RefreshHeaviestTipSet: needs positive weights and a head, since otherwise the source compares with or dereferences a missing tipset; the limits are not claimed after equivocation, where the source by design ignores them.
- ForkChoice.ChainStore.FormHeaviestTipSetForHeight: which of several equally heavy tipsets is taken is claimed only if one wins against all others, because otherwise it depends on the order of a map (`Ties.OrderIndependence`).
- Beacons.GeneratedAccepted: the "only if" half assumes that no signature verifies against a different predecessor, so it does not model the cache of verified entries, which skips that check.
- Beacons.UnchainedRoundsDetermined: assumes that the times of the epochs involved fit 64 bits.
- Coalescer.HeadChangeCoalescer.OnHeadChange: times are integers given by the caller; that the timer goes off in time is up to the runtime.
- Snapshot.WalkSnapshot: coverage needs the parents of a header to be lower than it and its receipts not to be a header, as validated headers have them; what receipt roots link to is not claimed, since the source marks them as walked without following them.
- Nonces.TipsetNonces: nonces are unbounded here and in `LazyNonces`, so wrap-around of 64-bit nonces is not modelled.
- Execution.ApplyBlocks: errors of the virtual machine, which abort the execution, are not modelled; gas and circulating supply are inside the opaque machine, and so are the messages and rewards of a tipset, which `Receipts` takes apart.
- The weight function, ticket and election validation, message signatures and BLS aggregation.
- CIDs, CBOR, AMT and HAMT encodings, block stores and data stores; keys stand for CIDs.
- The bodies of state migrations, the migration result cache and the running of pre-migrations once started.
- The tipset cache of `pkg/events/tscache.go`, which the running node does not use.
- Cancelled contexts, slow or blocked channel readers, logging and metrics.
- The message matchers and state-change checks of the event system, whose results are inputs.
- Replaced messages in the waiter, which change what counts as found in a tipset.
- Chain synchronisation, the message pool, mining, the market and paych actors, wallets, the network layer, the command line and the RPC layer.

# ddcoin: a model of the block tree, its ledger and its protocols

ddcoin is a small peer-to-peer coin. Every node runs a *hub* that receives blocks in any
order, keeps a tree of valid blocks and a pool of orphans, follows the highest valid block,
and maintains the set of unspent cash. This project models the hub and what surrounds it
(mining, transfers, catching up with a peer, the peer table) and proves what they guarantee.

## How it is built

| file | content |
|---|---|
| `Types.dfy` | cash, transactions, blocks, the configuration; the branch of a block |
| `Difficulty.dfy` | the difficulty adjustment on saturating 256-bit targets |
| `Ledger.dfy` | applying, undoing and replaying blocks; the cached unspent set over runs of calls |
| `Transactions.dfy` | 64-bit sums and fees, the checks on a transaction |
| `Rules.dfy` | the checks on a block against its parent, and what they give along a branch |
| `Supply.dfy` | conservation, the bound on the supply, double spending |
| `Halving.dfy` | the subsidy in closed form, and what all eras mint |
| `HubState.dfy` | the hub's state as a value, its invariant, and one judgement as a step |
| `Drain.dfy` | draining the orphan pool, as a flat worklist |
| `Walks.dfy` | the walks along previous-block ids, and transaction depth |
| `Hub.dfy` | the hub as a class, updated in place; every method refines a step on the value |
| `Runs.dfy` | sequences of messages: what holds in every reachable state and between states |
| `Rejections.dfy` | exactly what one message rejects |
| `Acceptance.dfy` | the verdict a block deserves on its own branch, and when the hub gives it |
| `Schedule.dfy` | the target along a branch that keeps to schedule |
| `OrderIndependence.dfy` | when what a hub accepts depends only on what it was given |
| `AsWritten.dfy` | the hub as written: exactly which blocks it judges wrongly |
| `Deliveries.dfy` | building runs: every message can be processed, so every run can be continued |
| `Disputes.dfy` | when the lookup makes the order of delivery matter, exactly |
| `Claims.dfy` | when leftover cash makes it matter |
| `BranchVerdicts.dfy` | what draining the pool does to the blocks of one branch |
| `CatchUp.dfy` | the exchange that closes the gap below a new block |
| `Witnesses.dfy` | runs of the hub as written that end where one would not expect |
| `Connections.dfy` | the peer table and the tie-break between duplicate connections |
| `Transfer.dfy` | the coin selection of a transfer |
| `ProofOfWork.dfy` | the record that is hashed, and the nonce search |
| `Mining.dfy` | building a block on the leader, mining and submitting it, and a transfer mined at once |

The state machine is modelled twice. `Hub.PeerHub` has the fields of the original and
methods that change them in place, with the recursion between validating and adopting. Its
abstract value is a `HubState.State`; each method's contract says which step on that value it
performs. `ValidateBlock` is proved to perform the flat worklist `Drain.Drains` in some order;
the order is a ghost result, because the original iterates over hash sets. Everything about
whole runs is then proved about steps on values.

### Modelling decisions

- **Hashes are symbolic.** A block id is the block it hashes, or a bit string that is the hash
  of nothing. So ids are collision-free, the zero hash is no block's id, and previous-block
  links have no cycles. No step of the model uses more of an id than equality.
- **Named repairs.** `HubState.Repairs(ownLookup, writeBack, deepRoot)` selects departures from the
  code. With all three off, the model is the code as written. `ownLookup` looks the previous
  adjustment up on the judged block's own branch (the code: on the leader's chain,
  src/peerhub.rs:233). `writeBack` records in the cached unspent set the block it was moved to (the
  code never does, src/peerhub.rs:421-471). `deepRoot` requests the missing block the orphan walk
  ended at (the code: the block it started from, src/peerhub.rs:150). Every theorem about runs
  is stated for all eight settings at once; where the code as written needs a condition on the
  delivered blocks, the repair named there lifts it.
- **Fair blocks.** Two things make the hub's verdict differ from the one a block deserves on its own
  branch. The lookup matters to a block (`Acceptance.LookupMatters`) when all else about it is in
  order and its header passes on the chain of some other block but not on its own branch, or the
  other way round; it never does outside the adjustment numbers, where both chains give the same
  adjustment block, or on the chain of a descendant of the parent. And the cache may cover a claim
  on cash that was created off the branch (`OrderIndependence.FairLedger` excludes it).
  `Acceptance.VerdictIsAcceptedIff` and `Acceptance.DeservedIsGivenIff` give the exact condition for
  one verdict, `Disputes.OrderFreeIff` for whole runs; `Claims.ClaimDecides` shows that the claims
  excluded decide verdicts too.
- **Rejections.** The six ways in which validation rejects a block end alike, so `Examine` makes the
  checks in the original's order and `ValidateBlock` rejects in one place.
- **Time** is a parameter of each received block. Differences of timestamps wrap at 128 bits.
- **Amounts** are 64-bit words and sums of them wrap around, as in a release build; a debug build
  panics instead. `Transactions.AdmissibleIsCoveredIff`, `Rules.RewardExactIff` and
  `Supply.SupplyStepIff` say exactly when the wrapped checks agree with exact sums, and
  `Supply.CleanBranchConserves` shows that no sum on a clean branch wraps while what was minted fits.
- **The subsidy shift** keeps the low six bits of its distance, as an unchecked 64-bit shift does.
- **Freshness** of new cash ids (random in the source) is a hypothesis, `Ledger.Fresh`, where a
  result needs it.
- **Signatures, digests and the encodings of single values** are parameters; how records are put
  together from them is modelled, and where it matters the encodings of two values are taken to be
  told apart.

### Where the code does not do what it seems to intend

- As written, acceptance depends on the order of delivery. Of blocks fair to the ledger this happens if
  and only if one of them is disputed: `Disputes.OrderFreeIff`. Claims on cash of other branches make
  it happen too: `Claims.ClaimDecides`. Smallest cases: `Witnesses.OrderMatters`, where the same four
  blocks come in two orders and only leftover cash decides, and `Witnesses.LookupOrderMatters`, where
  three blocks without transactions do and only the lookup decides.
- An input listed twice in a block adds its amount to the supply again: `Supply.SupplyStepIff`, and
  in a run `Witnesses.RepeatedInputAccepted`.
- Outputs whose 64-bit sum wraps pass the checks and add 2^64 to the supply:
  `Transactions.AdmissibleIsCoveredIff`, and in a run `Witnesses.WrappedOutputsAccepted`.
- After 64 halving periods the subsidy starts over: `Supply.SubsidyStartsOver`. The supply stays
  below twice the first era's issue for those 64 periods, and beyond them exactly as long as
  `Supply.MintedBelowTwoErasIff` says.
- Slower blocks can make the target smaller around a quarter of the expected span:
  `Difficulty.MonotoneAcrossQuarterIff`.
- An exchange that meets an ancestor already parked stalls: `CatchUp.Exchange`, and in a run
  `Witnesses.ExchangeStalls`. One that does not stall still ends without the block where the lookup on
  the leader's chain breaks the branch: `CatchUp.Exchange` says exactly when, for a receiver with
  nothing off the branch parked, and `Witnesses.ExchangeBreaks` reaches such a state. A receiver that
  holds nothing off the branch is never affected, however many periods it is behind.
- A peer table that fills up between the two handshakes of a double dial leaves the two ends
  holding different connections: `Connections.FullTableDisagrees`.

## Model

| member | source | states |
|---|---|---|
| Hub.PeerHub.constructor | src/peerhub.rs:115-138 | a new hub holds genesis as its only valid block and leader, and satisfies the invariant |
| Hub.PeerHub.AncestorsId | src/peerhub.rs:198-205 | the walk yields a valid block's ids down to genesis, and nothing for an unknown id |
| Hub.PeerHub.ChainEndingAt | src/peerhub.rs:208-230 | the buffer filled backwards is, slot for slot, the block's branch from genesis; its body proves every write in bounds and to an unwritten slot, and no slot left unwritten |
| Hub.PeerHub.ConfirmedChain | src/peerhub.rs:208-230 | the leader's branch |
| Hub.PeerHub.PrevDifficultyAdjustedBlock | src/peerhub.rs:232-244 | the block of the previous adjustment on the chain read, or the out-of-range case on which the source panics |
| Hub.PeerHub.CashSetAt | src/peerhub.rs:421-471 | a valid target is always found, and the set becomes the exact move from its old position; an unknown target is not, and leaves the set alone |
| Hub.PeerHub.RewindCash | src/peerhub.rs:438-454 | undoes every block from the set's position down to the common ancestor, rewards and outputs before inputs |
| Hub.PeerHub.ReplayCash | src/peerhub.rs:457-469 | applies the listed blocks in order if all are valid |
| Hub.PeerHub.AddInvalidBlock | src/peerhub.rs:246-257 | terminates on any index; an id is rejected afterwards exactly if it was before or a walk through the index reaches it, and exactly the entries of the ids reached are gone |
| Hub.PeerHub.Examine | src/peerhub.rs:302-406 | the verdict is that of all checks together, and the unspent set is moved exactly when the header passes |
| Hub.PeerHub.AddValidBlock | src/peerhub.rs:260-290 | adopts the block, drains everything that waited for it at any depth, and returns the adopted ids in order |
| Hub.PeerHub.ValidateBlock | src/peerhub.rs:295-418 | terminates; with a valid parent it judges the block and drains the pool as a flat worklist would, otherwise it parks the block |
| Hub.PeerHub.BlockRoot | src/peerhub.rs:141-153 | terminates and returns what the walk through the pool calls for |
| Hub.PeerHub.ReceiveBlock | src/peerhub.rs:698-751 | one message is one step of a run; one announcement per newly valid block, one request for an orphan; its body proves that the requested root is never genesis |
| Hub.PeerHub.ReceiveTransaction | src/peerhub.rs:646-662 | a transaction step of a run: entered once, blocks untouched |
| Hub.PeerHub.LeadingCashSet | src/peerhub.rs:794-798 | never fails, and is a query step of a run |
| Hub.PeerHub.TransactionDepth | src/peerhub.rs:61-68 | d exactly when the block d places below the leader holds the transaction and none below it does; none exactly when no block of the branch does |
| HubState.ReachedIsCascade | src/peerhub.rs:246-257 | on any index, what walks from the rejected id reach is the least closed set that holds it |
| HubState.CascadeStep | src/peerhub.rs:254-256 | collecting below the children one after the other, in the index without what is gone, misses nothing and adds nothing |
| HubState.RejectPool | src/peerhub.rs:246-257 | a rejection keeps the pool consistent: condemned orphans have condemned parents, all others stay filed |
| HubState.LookupInRange | src/peerhub.rs:328-337 | from validation the adjustment lookup never leaves the chain it reads, because the leader is highest |
| HubState.JudgeInv | src/peerhub.rs:302-417 | each judgement keeps the tree of valid blocks, the leader's height and the pool with its pending orphans |
| Rejections.DrainRejects | src/peerhub.rs:246-290 | a drain rejects exactly what was rejected before, the blocks that fail their checks, and what was filed below those, at any depth, when it began |
| Rejections.ReceivedRejects | src/peerhub.rs:698-728 | one message rejects exactly the blocks that fail while it is processed and everything filed below them |
| Rejections.RejectedTogether | src/peerhub.rs:246-257 | whatever a message rejects takes every orphan filed below it with it in the same step |
| Drain.DrainsConcat | src/peerhub.rs:283-288 | drains compose, and so do the lists of ids they return |
| Drain.DrainsKeeps | src/peerhub.rs:260-290 | a drain keeps the invariant, forgets nothing, changes no verdict, and replaces the leader only by a strictly higher block |
| Drain.AdoptedIsNewlyValid | src/peerhub.rs:259-290 | the returned ids are exactly the newly valid ones, once each, parents before children |
| Drain.VerdictOnHeld | src/peerhub.rs:295-408 | judging a block that was never in the pool is judging it as one more pending orphan |
| Drain.ParkedBecauseParentMissing | src/peerhub.rs:730-734 | a block still in the pool after it was received has no valid parent |
| Walks.LineageIsBranch | src/peerhub.rs:197-205 | the reversed walk is the branch |
| Walks.FirstListedIsCommon | src/peerhub.rs:428-436 | the first listed id met on the way down is the newest common ancestor of position and target |
| Walks.MoveReplays | src/peerhub.rs:438-469 | rewinding to it and replaying from its place in the list is one exact move |
| Walks.MissingRootIsMissing | src/peerhub.rs:732-735 | on a drained pool the orphan walk ends at an id neither valid nor parked, so never at genesis |
| Walks.MissingRootUnique | src/peerhub.rs:141-153 | the walk's end is an ancestor, and every ancestor above it is parked |
| Walks.FirstCarrierIsFirst | src/peerhub.rs:61-68 | the carrier found is the first block with the transaction, and none is found only if there is none |
| Walks.DepthFollowsLength | src/peerhub.rs:61-68 | for a transaction in a kept prefix the depth changes by exactly the change in chain length |
| Runs.ReachableState | src/peerhub.rs:96-112 | in every reachable state valid blocks have valid ancestors and followed the rules, pools are disjoint, no orphan has a valid parent, and the leader is highest |
| Runs.PermanentVerdicts | src/peerhub.rs:698-728 | between any two states of a run accepted stays accepted, rejected stays rejected and is never accepted, nothing known is forgotten |
| Runs.LeaderOnlyRises | src/peerhub.rs:274-277 | between any two states of a run the leader is the same or strictly higher |
| Runs.KnownIsDelivered | src/peerhub.rs:191-195 | the known blocks are genesis and exactly those delivered |
| Runs.ReachableDifficulty | src/peerhub.rs:328-353 | every valid block of every reachable state keeps the difficulty bound |
| Runs.DrainsCollect | src/peerhub.rs:261-268 | a drain leaves in the mempool exactly the transactions that no newly valid block carries |
| Runs.RepliesAnnounce | src/peerhub.rs:744-750 | every block that became valid is announced, once, after its parent if that became valid too, and nothing else is |
| Runs.RepliesRequest | src/peerhub.rs:730-743 | a request goes out exactly for a block from a peer that has no valid parent, to that peer, for a block neither valid nor genesis |
| Runs.ValidInThePast | src/peerhub.rs:711-724 | on a clock that has not passed `now`, no valid block but genesis is dated later |
| Acceptance.JudgeKeepsLedger | src/peerhub.rs:295-418 | each judgement keeps every valid branch sound, and the cached set exact under the write-back or within the known cash without it |
| Acceptance.ParentOnChain | src/peerhub.rs:232-244 | on the chain of any descendant of its parent a block's lookup gives what its own branch gives, at every number |
| Acceptance.VerdictIsAcceptedIff | src/peerhub.rs:295-408 | a block fair to the ledger gets the verdict its own branch deserves if and only if it does not matter to it that the present leader leads |
| Acceptance.DeservedIsGivenIff | src/peerhub.rs:295-408 | whatever the cache was left with, a block that deserves acceptance is accepted under the same condition and only then |
| OrderIndependence.JudgeExact | src/peerhub.rs:295-418 | with undisputed blocks each judgement keeps: valid blocks are the expected ones, rejected ones deserve no acceptance |
| OrderIndependence.AcceptedSetDetermined | src/peerhub.rs:260-418 | on a fair run, of the code as written too, a block is valid exactly when it deserves acceptance and it and all its ancestors were delivered |
| OrderIndependence.SameBlocksSameVerdicts | src/peerhub.rs:260-418 | two hubs fairly given the same blocks, in any order and with repeats and queries, hold the same valid blocks and leaders of one height |
| OrderIndependence.AgreeingLookupsUndisputed | src/peerhub.rs:232-244 | blocks are undisputed when each sits at no adjustment number or finds one adjustment block on all expected chains high enough to lead |
| OrderIndependence.OneChainUndisputed | src/peerhub.rs:232-244 | the blocks of a single chain are undisputed, at whatever numbers |
| Disputes.OrderFreeIff | src/peerhub.rs:295-418 | of blocks fair to the ledger, all runs on time end with the same valid blocks if and only if none of the blocks is disputed |
| Disputes.DisputeDecides | src/peerhub.rs:328-353 | over any set of blocks with a disputed one, two runs of deliveries alone disagree on some block for good |
| Claims.ClaimDecides | src/peerhub.rs:421-471 | without the write-back, over any set of fresh blocks in which one claims what another expected block leaves unspent and its own branch does not offer, two runs disagree on some block for good |
| Deliveries.DrainExists | src/peerhub.rs:260-290 | every pool can be drained, so every message can be processed in every state |
| OrderIndependence.ReachableLedger | src/peerhub.rs:355-406 | with blocks fair to the ledger, at whatever numbers and times, every valid branch is free of double spends, and the unspent amounts equal what was minted if and only if no block lists a paid input twice |
| AsWritten.VerdictAsWritten | src/peerhub.rs:328-406 | as written the verdict reads the leader's chain, and inputs may be unspent at the parent or left over in the cache |
| AsWritten.WronglyRejectedIff | src/peerhub.rs:328-353 | a deserving block is rejected if and only if it sits at an adjustment number where leader's chain and own branch call for different targets |
| AsWritten.WronglyAcceptedIff | src/peerhub.rs:328-406 | an undeserving block is accepted if and only if it passes with the leader's chain and either the targets differ or leftovers are needed to cover its inputs |
| AsWritten.DiffersOnlyByLeftovers | src/peerhub.rs:355-383 | where no adjustment is looked up, or both lookups find one block, no deserving block is rejected, and wrongly accepted are exactly those covered only by leftovers |
| AsWritten.AcceptedSetAsWritten | src/peerhub.rs:260-418 | the code as written, given on time only fresh, undisputed blocks that claim no cash created off their branches, holds as valid exactly the deserving blocks whose ancestors were all delivered |
| Witnesses.OrderMatters | src/peerhub.rs:421-471 | the same four fresh and undisputed blocks in two orders, nothing else: one run accepts a block spending cash no ancestor created, the other rejects it |
| Witnesses.LookupOrderMatters | src/peerhub.rs:328-344 | the same three blocks without transactions in two orders: one run rejects a block that deserves acceptance |
| Ledger.UndoIsInverse | src/peerhub.rs:444-452 | undoing a block that spent unspent cash and created new cash restores the set exactly |
| Ledger.LastTouchDecides | src/peerhub.rs:460-468 | after a block's transactions a coin is unspent exactly as the last one that touches it says, creating before taking |
| Ledger.FirstTouchDecides | src/peerhub.rs:445-452 | after they are undone, exactly as the first one that touches it says, the other way round |
| Ledger.RewardComesAndGoes | src/peerhub.rs:444-468 | a block's reward is unspent after it, and not after it is undone unless the block itself took it |
| Ledger.ApplyIdempotent | src/peerhub.rs:460-468 | applying a block once more changes nothing, whatever the block |
| Ledger.RewindExact | src/peerhub.rs:438-454 | an exact set rewinds to the exact set of the common ancestor |
| Ledger.ReplayFromAncestor | src/peerhub.rs:457-469 | replaying from the common ancestor inclusive, with the tip twice, gives the exact set of the target |
| Ledger.MoveExact | src/peerhub.rs:421-471 | an exact cache stays exact across any fork |
| Ledger.WrittenBackRunExact | src/peerhub.rs:421-471 | with the position written back, every call of every sequence of calls returns the replay of its target from genesis |
| Ledger.MoveFromRoot | src/peerhub.rs:421-471 | as written a call keeps earlier cash the target's branch does not spend, and adds the true set |
| Ledger.AsWrittenContents | src/peerhub.rs:421-471 | as written the cache holds, after any calls, exactly what some target left unspent and no later target's branch spent |
| Ledger.AsWrittenExactIff | src/peerhub.rs:421-471 | as written the result is a superset of the true set, and equal to it exactly when all leftovers are unspent or spent on the target's branch |
| Ledger.AsWrittenExactOnOneBranch | src/peerhub.rs:421-471 | as written the result is exact when all earlier targets were ancestors or the target itself |
| Witnesses.StaleRewardAcrossFork | src/peerhub.rs:421-471 | a run makes two rivals valid, and moving the cache as written to one and then the other leaves the first one's reward in the set |
| Rules.AdjustmentFound | src/peerhub.rs:232-244 | the lookup finds the greatest multiple of the period below the number, and is in range exactly when that is positive and on the chain |
| Rules.RootedBranch | src/peerhub.rs:208-230 | a branch that followed the rules has one block per sequence number from genesis |
| Rules.TimestampsMonotone | src/peerhub.rs:303-315 | timestamps never decrease along a branch |
| Rules.AdjustmentSpanDoesNotWrap | src/peerhub.rs:329-337 | when the chain read agrees with the branch at the adjustment, the block found is an ancestor and the time span does not wrap |
| Rules.DifficultyOnChain | src/peerhub.rs:328-353 | along a branch every target is positive and at most quadruples with each period |
| Schedule.TargetOnSchedule | src/peerhub.rs:328-353 | on an accepted branch whose periods took the average time of their blocks, the target is the genesis target through the first period and then, for good, the largest multiple of the scheduled span it holds |
| Difficulty.ScheduleKeepsTarget | src/util.rs:85-97 | a period that took average block time times period length keeps the target, up to the rounding of one division, if and only if the target is not below that span |
| Difficulty.AdjustScales | src/util.rs:86-95 | between a quarter of that span and four times it the target scales by actual over scheduled time, up to one rounding |
| Difficulty.AdjustFourfold | src/util.rs:88-93 | outside it changes fourfold, within one and 256 bits |
| Difficulty.WrappedSpanEases | src/peerhub.rs:333 | a block dated before the adjustment block it is compared with has its target quadrupled |
| Difficulty.TargetIsCount | src/util.rs:99-102 | a target is met by exactly as many hashes as it says |
| Difficulty.MiddleBranchScales | src/util.rs:95 | without saturation the target is scaled by actual over expected, up to the rounding of one division |
| Difficulty.AdjustedRange | src/util.rs:85-97 | an adjusted target is positive, fits 256 bits and is at most four times the larger of old target and expected span |
| Difficulty.AdjustedMonotone | src/util.rs:85-97 | from a quarter of the expected span upward a longer span never gives a smaller target |
| Difficulty.MonotoneAcrossQuarterIff | src/util.rs:92-95 | monotone over all spans exactly when a quarter of the old target is at most the value at the mark; a case where it is not |
| Transactions.AdmissibleIsCoveredIff | src/transaction.rs:176-192 | a transaction that passed its checks pays out no more than it takes if and only if its output sum wraps no more often than its input sum |
| Transactions.AdmissibleMeans | src/transaction.rs:176-192 | the checks ask for some inputs, all of one owner, whose 64-bit sum covers that of the outputs |
| Transactions.NewTransactionMeans | src/transaction.rs:194-217 | building succeeds exactly with the key of the owner of every input and covered outputs |
| Rules.RewardExactIff | src/peerhub.rs:385-406 | a reward exactly due passes, and one that passes is exactly due if and only if what is due fits 64 bits |
| Supply.SupplyStep | src/peerhub.rs:457-469 | the books of any block: the supply grows by the subsidy, by what is counted twice, and by what the reward exceeds its due |
| Supply.SupplyStepIff | src/peerhub.rs:385-406 | when what is due fits 64 bits, a block adds exactly its subsidy if and only if it lists no paid input twice, and otherwise more; when it lists none twice, if and only if what is due fits |
| Supply.SupplyOnChainIff | src/peerhub.rs:385-406 | on a sound branch whose rewards fit, the unspent amounts add up to the subsidies of its blocks if and only if no block lists a paid input twice |
| Supply.CleanBranchConserves | src/peerhub.rs:385-406 | with outputs that fit and no repeats, and as long as what was minted fits 64 bits, no sum wraps and the supply is exactly what was minted |
| Witnesses.RepeatedInputAccepted | src/peerhub.rs:366-406 | in a legal run a valid block lists the genesis reward twice, and more is unspent than was minted |
| Witnesses.WrappedOutputsAccepted | src/transaction.rs:186-190 | in a legal run a valid block, its inputs distinct, adds 2^64 to what was minted |
| Supply.MintedBelowTwoEras | src/peerhub.rs:386-387 | before 64 half periods the supply is below twice the first era's issue |
| Supply.MintedBelowTwoErasIff | src/peerhub.rs:386-387 | exactly how long it stays there: those 64 half periods, and into the next as long as the repeated first subsidies still fit |
| Supply.SubsidyStartsOver | src/peerhub.rs:386-387 | 64 half periods later the subsidy is the same again |
| Halving.SubsidyClosed | src/peerhub.rs:386-387 | the subsidy is the first one divided by two to the power of the era, eras counted modulo 64 |
| Halving.SubsidyHalves | src/peerhub.rs:386-387 | one half period later it is half, rounded down, except after the last era |
| Halving.WholeIssue | src/peerhub.rs:386-387 | the 64 eras mint exactly twice the first era's issue, less one unit per block of an era for each binary one of the first subsidy |
| Halving.BoundHoldsIff | src/peerhub.rs:386-387 | in closed form, exactly how long the supply stays below twice the first era's issue |
| Halving.DefaultIssue | src/config.rs:38-39 | what the default configuration mints in all eras, and its subsidy after one half period |
| Supply.MintedUnbounded | src/peerhub.rs:386-387 | so the supply exceeds every bound in the end |
| Supply.DefaultSupplyOutgrows64 | src/config.rs:38-39 | with the default configuration sixteen blocks mint more than 64 bits hold, fifteen do not |
| Supply.UtxoIsCreatedMinusSpent | src/peerhub.rs:458-469 | at a sound block, unspent is exactly created and not spent |
| Supply.NoDoubleSpend | src/peerhub.rs:366-383 | what a block of a sound branch spends was created by a strict ancestor and is spent by no other block of the branch |
| BranchVerdicts.DrainsSpare | src/peerhub.rs:260-290 | if the lookup matters to no missing block of a deserving branch, whoever may lead, draining the pool rejects none of it, whatever other orphans it judges and rejects |
| BranchVerdicts.DrainsAdopt | src/peerhub.rs:260-290 | if nothing off the branch is parked, the old leader leads until the branch outgrows it, and nothing is adopted past a block at which the lookup breaks |
| BranchVerdicts.LeaderOnBranchUnbroken | src/peerhub.rs:232-244 | the lookup breaks nothing on the leader's own chain, at whatever numbers |
| BranchVerdicts.KnownAndUnrejectedIsValid | src/peerhub.rs:283-288 | on a drained pool a deserving block is valid as soon as it and its ancestors are known and none is rejected |
| CatchUp.RejectedBranchIsLost | src/peerhub.rs:698-728 | once a block of the branch is rejected, the block above is never valid |
| CatchUp.GapCloses | src/peerhub.rs:283-288 | when the lowest missing block arrives, the announced block becomes valid if and only if nothing of the branch is rejected, and, where nothing off the branch was parked, if and only if the lookup does not break it |
| CatchUp.GapJumps | src/peerhub.rs:732-739 | the deep root requested is the next missing ancestor, strictly lower |
| CatchUp.Exchange | src/peerhub.rs:688-742 | the exchange ends; the block is valid at the end if and only if no ancestor was parked before or the deep root is requested, and none of the branch is rejected; none is when the branch is fair or the receiver holds nothing off it, and with nothing off it parked some is exactly where the lookup breaks it; fewer round trips than the height above any valid ancestor |
| CatchUp.Announced | src/peerhub.rs:678-742 | the same from an announcement: a known block costs nothing and an unknown one at most its height above any valid ancestor in round trips |
| Witnesses.ExchangeStalls | src/peerhub.rs:732-739 | a reachable state in which the request for a parked block's root goes to a block already held; further deliveries of the blocks held change nothing, and in no later run without the missing block is the parked one valid |
| Witnesses.ExchangeBreaks | src/peerhub.rs:328-344 | a reachable state with nothing parked, all that an exchange asks for, and a block held by the peer whose branch the lookup breaks |
| Connections.PeerTable.NewPeer | src/peerhub.rs:621-645 | one message admits, replaces or refuses a connection as the table's rule says |
| Connections.TableWithinLimit | src/peerhub.rs:622-629 | in every history of any number of nodes no table exceeds the limit |
| Connections.WinnerIsTable | src/peerhub.rs:630-644 | what a node holds for a peer is decided by the connections to that peer and the room each found |
| Connections.DoubleDialAgreesIff | src/peerhub.rs:621-645 | two nodes that dial each other end with the smaller id's connection at both ends exactly when, at each end, it came first or found room |
| Connections.FullTableDisagrees | src/peerhub.rs:621-645 | a history in which a table fills up in between and the ends disagree |
| Mining.ProducedPassesIff | src/block.rs:206-238 | a block built on the leader with the queried time and a clock not behind the leader passes every check if and only if its inputs are in the unspent set in use at the leader |
| ProofOfWork.EncodingInjective | src/block.rs:18-38 | two records with one encoding are one record: no field is left out of what is hashed and signed, and none is mistaken for another |
| ProofOfWork.LittleEndianAt | src/block.rs:281 | the least significant byte comes first |
| ProofOfWork.PatchIsReencoding | src/block.rs:275-281 | overwriting the last eight bytes of the record encoded with one nonce gives the record encoded with another, and different nonces are hashed from different bytes |
| ProofOfWork.EveryNonceFits | src/block.rs:281 | every 64-bit nonce is recovered from its eight bytes |
| ProofOfWork.FindNonce | src/block.rs:275-289 | the nonce found is the least that meets the target; none is found only if no 64-bit nonce does |
| ProofOfWork.TryConfirm | src/block.rs:240-295 | with the miner's key it succeeds exactly when some nonce passes the check of decoding, gives a block that passes it with the least, and never reports a bad nonce |
| Mining.AcceptedOnArrival | src/peerhub.rs:698-751 | a new block that passes its checks is valid afterwards and the leader is at least as high |
| Mining.RejectedOnArrival | src/peerhub.rs:698-751 | a new block that fails one is rejected for good |
| Mining.MineRound | src/bin/miner.rs:31-66 | undisturbed, with any transactions, the hub accepts the mined block if and only if their inputs are in the unspent set in use at the leader, and otherwise rejects it; accepted, it leads unless orphans waited for it; the reward, subsidy and fees, goes to the miner and is unspent at the block |
| Mining.ProducedStands | src/block.rs:206-238 | whatever adjustment time it is told, a produced block is in order on the block it was built on, but for its target and inputs |
| Mining.SubmittedLater | src/bin/miner.rs:64-65 | after any messages in between the parent is still valid, and a new block is accepted if and only if its target agrees with the lookup at that time and its inputs are in the set then in use at its parent; otherwise it is rejected |
| Mining.TrueCashLater | src/peerhub.rs:355-383 | inputs truly unspent at the parent stay covered after any messages, so only the target decides |
| Mining.TargetStillAgrees | src/peerhub.rs:328-344 | a target taken from the parent's chain agrees as long as the leader descends from the parent or the number is ordinary |
| Mining.MoveTwice | src/peerhub.rs:421-471 | moving the cached set to where it was just moved leaves it as it is |
| Mining.SubmitTransfer | src/hub_helper.rs:47-82 | as long as sums fit, a transfer is built exactly when the sender's coins at the leader cover it, in whatever order they are iterated, and enters the mempool; blocks stay |
| Mining.TransferAndMine | src/bin/miner.rs:31-66 | undisturbed, a transfer built from the hub's own unspent set and mined on the leader is accepted |
| Transfer.FirstCoverIsShortest | src/hub_helper.rs:57-71 | when the sender's coins sum below 2^64, the coins chosen are the shortest prefix that covers the need |
| Transfer.SelectInputs | src/hub_helper.rs:57-71 | the coins chosen are the first, in iteration order, whose running 64-bit sum reaches the need |
| Transfer.NewTransfer | src/hub_helper.rs:47-82 | exactly when it succeeds, wrapping included; the fee is always the one asked for, the coins distinct and the sender's; when nothing wraps, it succeeds when the sender owns enough and inputs equal amount, change and fee |

## Left out

- Overflow panics of debug builds: sums wrap, as in release builds.
- Panics: an out-of-range adjustment lookup is the `None` of `Rules.AdjustmentBlock`; a division by a zero period is excluded by the type of configurations, and the adjustment with a zero expected span is given a value where the source divides by zero.
- CatchUp.Exchange: for a receiver with orphans of other branches, which the drain judges in an order the code leaves open, the lookup condition is sufficient only; the branch deserves acceptance and none of it was rejected before; messages of other peers during the exchange are not interleaved.
- Claims.ClaimDecides: one way only, and for cash that a single other block leaves unspent; what several blocks leave together depends on the order in which the hub can be made to follow them.
- Mining.TransferAndMine: no other message arrives between the transfer and the mined block; `Mining.SubmittedLater` and `Mining.TrueCashLater` cover what may.
- Mining.MineRound: no other message arrives between the queries and the submission; `Mining.ProducedStands` and `Mining.SubmittedLater` cover what may.
- ProofOfWork.FindNonce: ends after the last 64-bit nonce, where the source would panic or start over.
- Decoding checks: signatures of received blocks and transactions, and the nonce of received blocks, are verified before the hub sees them, and the hub's steps do not depend on them; the digest, the signature scheme and the byte layout of ids, targets, cash and transactions are not modelled.
- The announcement table for transactions and the sending of messages to peers: replies are returned as values, and failures of a stream are not modelled.
- A hub-wide mempool invariant: a confirmed transaction can be submitted again, so only what one drain removes is stated.
- Whether to dial a discovered node: one comparison with the table.
- Discovery, connection setup, framing and the actor runtime: each handled message is one atomic step.
- The removal of peers: the source never removes one.
- The miner's choice of transactions by fee: a library sort and a prefix.
- The width of sequence numbers: 64 bits in the source, unbounded here.
- Hex parsing and display.

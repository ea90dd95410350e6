# HotShot, modelled and verified in Dafny

HotShot is a BFT consensus node: it proposes, votes, locks and decides leaves under two rules
(the three-chain rule of section 5 of HotStuff, arXiv 1803.05069, and HotStuff-2), synchronises
views when leaders fail, and records what it did so that a restart does not repeat it. This
project models those protocols and several self-contained cores of the repository, and proves what
they promise over runs and inputs of any length, or exactly when they keep it.

| file | what it holds |
|---|---|
| `Committee.dfy` | stake tables, thresholds, quorum intersection |
| `Leaves.dfy` | leaves, certificates, ancestry, the in-memory leaf store |
| `Decide.dfy` | both decide rules and the acceptance walk, as loops proved against declarative readings; garbage collection |
| `Replica.dfy` | one replica, from receiving a proposal to delivering leaves; the `Consensus` object |
| `Protocol.dfy`, `Agreement.dfy`, `JustifiedRuns.dfy` | the network as a state machine, its guards and invariant, agreement |
| `Delivery.dfy` | what a replica locks, decides, delivers and stores over a run, exactly |
| `ForkRuns.dfy`, `TwoChainForks.dfy`, `ThreeChainForks.dfy`, `Forks.dfy` | for each guard, a run that meets all the others and ends in disagreement |
| `Transmit.dfy`, `Exclusion.dfy` | the gate in front of the network, crashes and restarts; what it means for certificates |
| `ViewSync.dfy`, `ViewSyncNetwork.dfy` | view synchronisation in one node and across the committee |
| `VoteCollection.dfy` | per-view vote collectors |
| `StakeTable.dfy` | the vector stake table and its three snapshots |
| `Consistency.dfy`, `CheckedRuns.dfy` | the cross-node consistency checker, what its verdict means, and that it accepts what guarded runs deliver |
| `Bytes.dfy`, `MessageCodec.dfy`, `PayloadCodec.dfy` | the two byte codecs |
| `VidSearch.dfy`, `Registration.dfy` | the search for the last VID commitment; dynamic registration |

## Assumptions

- Byzantine stake: `2 * success > total + byzantine` and `failure > byzantine`
  (`Committee.Sound`). For the static committee this is proved to be the same as "at most a third".
- A commitment stands for what it commits to, and a signature that checks was made by its signer.
  Byzantine nodes may sign and propose anything.
- Tasks interleave at every point where the code lets go of the shared state. Saving a proposal (after
  any outcome of looking its parent up), checking it, entering a view, reading the store for the decide
  rule, taking the proposal up (lock, collection, delivery), saving it with its state delta and voting
  for it (neither of which waits for the proposal to be taken up) are separate steps. View numbers are
  unbounded.
- A replica votes at most once per view (`VoteCast` in `Protocol`); `Transmit` and `Exclusion`
  prove this of the gate that sends votes.
- A collector is told each honest vote at most once; `VoteCollection.RedeliveryFormsTwice` shows the
  statement needs it.

## Where the code and a natural claim differ

Agreement is not a property of every run the code allows. `Protocol.Guard` names seven things the code
does not check; `Agreement` proves agreement for all runs that meet them, and `Forks` gives for each of
them a run that meets the other six and delivers two leaves on no common chain
(`Forks.GuardsAreNeeded`; four nodes with one Byzantine are an instance,
`Forks.FourNodes`). In these runs every saved leaf carries a certificate that checks, every proposal is
saved while its view is not old and right after its parent was looked up (`ForkRuns.ArePrompt`), and
voters save what they vote for with its delta.

- *EntryCertified* (three-chain rule): the walk starts from the state map's entry at the justify view
  and not from the certified leaf, and a second leaf of a view overwrites the first. After a leader
  signs two leaves for a view, the walk can start from the wrong one. The walk is the certified
  leaf's if and only if the entry is that leaf (`Agreement.WalkIffEntryCertified`); the run is
  `ThreeChainForks.EquivocationForks`.
- *WalksFall*: nothing compares a leaf's justify view with its own, so at a node that has not voted in
  that view a saved leaf justified above its own view leads the safety walk up to the lock
  (`TwoChainForks.ClimbingWalkForks`). The guard holds by
  itself when every leaf that enters a store is justified by an earlier view
  (`JustifiedRuns.JustifiedAgreement`); for certified leaves this is proved
  (`Protocol.CertifiedLeaf`).
- *GenesisNamed*: a certificate of the genesis view checks whatever leaf it names; a leaf nobody voted
  for can be delivered through it (`TwoChainForks.GenesisClaimForks`).
- *Settled*: a proposal can be accepted before the vote task has taken up one for a lower view and
  raised the lock (`TwoChainForks.UnsettledForks`).
- *NotOvertaken*: accepting does not move the view; a later event does. So a proposal for a lower view
  can be accepted after one for a higher view and then lock above what that one is justified by
  (`TwoChainForks.OvertakenForks`; the vote for the lower view goes out before the view change of the
  higher one is handled). The discipline of locks is kept if and only if this guard and the one before
  hold (`Agreement.AcceptKeepsLocksIffOrdered`).
- *StoreClosed* (three-chain rule): the lock is read off stored ancestors, and is reached if and only
  if parent and grandparent are stored (`Agreement.LockReachedIffStored`); nodes that lack one go on
  below it (`ThreeChainForks.OpenStoreForks`).
- *NoLostLock*: an error before the decide rule is logged and voting goes on without the lock
  (`TwoChainForks.LostLockForks`). Harmless if and only if the lock had been reached already
  (`Agreement.TakeUpKeepsLocksIffReached`).

A proposal whose justify view is not the one before its own also carries evidence for the view change,
which the model does not ask for. In these runs that evidence can exist: a timeout certificate for the
view before where nothing was certified there, which `Exclusion.QuorumExcludesTimeout` does not rule
out. That is view 1 for `a`, 3 for `b` and 6 for `w` in the two-branch forks, views 2 and 4 for `c` and `w`
in `TwoChainForks.GenesisClaimForks`, and view 4 for `w` in `ThreeChainForks.OpenStoreForks`. In
`ThreeChainForks.EquivocationForks` view 2 is certified, so `b` needs a view-sync certificate for view 3.
Fetched leaves are not asked for evidence.

Elsewhere:

- "Votes leave a node in strictly rising views" is false: transmit tasks run concurrently, and
  `Transmit.SendOrderCanInvert` builds, for any two views, a run that sends the later first. They
  rise if and only if they leave in the order in which they were claimed
  (`Transmit.VotesRiseIffSentAsClaimed`). At most one vote per view holds always, and that is what
  certificate exclusion needs.
- A decide whose lock does not exceed the current one is skipped, because raising the lock fails
  first. The model does the same.
- A deregistered stake-table key stays known with zero stake.
- HotStuff-2 collects ancestors only as far as the store has them. A replica has delivered the whole
  path from genesis to its anchor if and only if each of its decides found all ancestors down to the
  anchor before (`Delivery.TwoChainGaplessIffFound`); under the three-chain rule it always has
  (`Delivery.ThreeChainGapless`).

## Model

| member | source | states |
|---|---|---|
| `Committees.SuccessQuorumsShareHonest` | crates/types/src/simple_certificate.rs:49-61 | any two signer sets that reach the success threshold share an honest signer |
| `Committees.FailureQuorumHasHonest` | crates/types/src/simple_certificate.rs:63-73 | the failure threshold guarantees one honest signer |
| `Committees.StaticCommitteeSoundIffThird` | crates/hotshot/src/traits/election/static_committee.rs:218-230 | the static committee's thresholds meet both intersection bounds exactly when at most a third of the nodes are Byzantine |
| `Committees.HonestReachSuccessIffBelowThird` | crates/hotshot/src/traits/election/static_committee.rs:218-230 | the honest nodes reach the success threshold by themselves if and only if fewer than a third are Byzantine |
| `Leaves.UpdateLeaf` | crates/types/src/consensus.rs:672-729 | saving a leaf keeps every state-map entry at its own leaf's view, forgets no leaf and adds at most this one |
| `Leaves.SavedExactly` | crates/types/src/consensus.rs:672-729 | a save without a delta leaves an entry that has one; any other save takes the view with exactly that leaf, and no other view changes |
| `Leaves.UpdateDaView` | crates/types/src/consensus.rs:652-665 | a DA entry keeps the state map keyed and touches no leaf |
| `Leaves.DaSavedExactly` | crates/types/src/consensus.rs:652-665 | a DA entry takes a view exactly when it has no state, and no other view changes |
| `Leaves.CollectGarbage` | crates/types/src/consensus.rs:871-901 | collection keeps the state map keyed and adds no leaf |
| `Leaves.CollectedExactly` | crates/types/src/consensus.rs:871-901 | the views that stay are exactly those from the one below the new anchor on; the saved leaves that go are exactly those the map names between the old anchor and there |
| `Leaves.ParentInfo` | crates/types/src/consensus.rs:524-549 | whatever it returns is the parent the certificate names |
| `Decide.Callback` | crates/task-impls/src/helpers.rs:392-487 | one visit of the three-chain callback extends what the captured variables mean by one leaf, and it stops only where the views stop being consecutive |
| `Decide.DecideFromProposal` | crates/task-impls/src/helpers.rs:378-503 | the stateful walk reports a lock exactly when the first two visited ancestors have views v-1 and v-2, a decide exactly when the third has v-3, and delivers exactly the visited suffix from the decided leaf on |
| `Decide.DecideFromProposal2` | crates/task-impls/src/helpers.rs:257-345 | the HotStuff-2 loop locks the justify view, decides the grandparent exactly when parent and grandparent have consecutive views and are stored, and delivers its stored ancestors above the anchor |
| `Decide.SafetyCheck` | crates/task-impls/src/helpers.rs:665-679 | the safety walk succeeds exactly when the stored chain from the justify view has a leaf of the locked view |
| `Decide.ReachesIffStored` | crates/task-impls/src/helpers.rs:665-679 | the walk succeeds if and only if an ancestor of the locked view is reached through stored leaves only |
| `Decide.AcceptedNotBelowLock` | crates/task-impls/src/helpers.rs:662-681 | "safety or liveness" means the proposal is justified at or above the lock, when views fall along parents |
| `Decide.AboveCompleteIffClosed` | crates/task-impls/src/helpers.rs:287-327 | HotStuff-2 delivers every ancestor above the anchor if and only if the store is closed there |
| `Decide.VisitedComplete` | crates/types/src/consensus.rs:809-865 | a walk that reaches the anchor misses no ancestor |
| `Decide.VisitedExactly` | crates/types/src/consensus.rs:809-865 | the walk visits ancestors newest first as long as they are stored and not of the anchor view |
| `Decide.WalkUnique` | crates/types/src/consensus.rs:809-865 | only one sequence fits that |
| `Decide.PathSplit` | crates/task-impls/src/helpers.rs:287-327 | what a complete decide delivers is exactly what leads from the old anchor to the new one, in order |
| `Decide.GarbageKeepsWalks` | crates/types/src/consensus.rs:871-901 | collection neither cuts nor opens a walk that ends at or above the view before the new anchor |
| `Decide.GarbageKeepsAcceptance` | crates/types/src/consensus.rs:871-901 | collection changes no verdict of the acceptance rule while the lock is not behind the anchor |
| `Decide.GarbageKeepsVisited` | crates/types/src/consensus.rs:871-901 | after collection a decide walk to the new anchor visits the same leaves |
| `Replicas.Consensus.UpdateViewEntry` | crates/types/src/consensus.rs:702-729 | a leaf with a state delta is not overwritten by one without; every other entry is |
| `Replicas.Consensus.SaveLeaf` | crates/types/src/consensus.rs:672-695 | the object's store becomes the specified one |
| `Replicas.Consensus.UpdateLockedView` | crates/types/src/consensus.rs:638-645 | the lock moves only up, and says whether it moved |
| `Replicas.Consensus.Collect` | crates/types/src/consensus.rs:871-901 | the loop over old views and the split leave exactly the specified store |
| `Replicas.Consensus.HandleProposalValidated` | crates/task-impls/src/quorum_vote/handlers.rs:317-445 | lock, anchor, garbage collection, delivery and decide event as specified, including the early return when the lock does not rise and an error before the decide rule, which leaves everything as it was |
| `Replicas.Consensus.LookUpParent` | crates/task-impls/src/quorum_proposal_recv/handlers.rs:227-263 | the parent is missing, without a state, or found |
| `Replicas.Consensus.ReceiveProposal` | crates/task-impls/src/quorum_proposal_recv/handlers.rs:303-333 | what is saved and locked for each outcome of the lookup (the liveness path of lines 47-96, the save of `helpers.rs:601-611`); only a proposal whose parent was found goes on to be checked, and the view does not move |
| `Replicas.Consensus.CheckProposal` | crates/task-impls/src/helpers.rs:632-719 | a validation event is sent exactly when safety or liveness holds, and nothing else changes |
| `Protocol.CertifiedLeaf` | crates/task-impls/src/helpers.rs:576-693 | a certified leaf has its certificate's view and is itself justified by a valid certificate of an earlier view |
| `Protocol.CertifiedFalls` | crates/task-impls/src/helpers.rs:576-693 | views fall along all ancestors of a certified leaf |
| `Protocol.OneLeafPerView` | crates/types/src/simple_certificate.rs:49-61 | two valid certificates of one view certify one leaf |
| `Protocol.CertifiedExtendsCommitted` | crates/task-impls/src/helpers.rs:632-693 | every leaf certified at or above a committed view extends the committed leaf, under both rules |
| `Protocol.CommittedComparable` | crates/task-impls/src/helpers.rs:632-693 | two committed leaves lie on one chain |
| `Agreement.AcceptedAboveLock` | crates/task-impls/src/helpers.rs:632-693 | an accepted proposal's justify view is no lower than the replica's lock, when views fall along the walk |
| `Agreement.AcceptKeepsLocksIffOrdered` | crates/task-impls/src/quorum_vote/mod.rs:473-484 | accepting keeps the discipline of locks if and only if no proposal still waiting for the vote task will lock above the new one's justify view, and the new one will not lock above the justify view of one accepted for a higher view |
| `Agreement.WalkIffEntryCertified` | crates/task-impls/src/helpers.rs:386-392 | the three-chain walk visits the certified leaf's ancestors if and only if the state map's entry at the justify view is that leaf |
| `Agreement.LockReachedIffStored` | crates/task-impls/src/helpers.rs:392-487 | a proposal that should raise the three-chain lock does so if and only if its parent and grandparent are stored |
| `Agreement.TakeUpKeepsLocksIffReached` | crates/task-impls/src/quorum_vote/mod.rs:479-484 | taking a proposal up keeps the discipline of locks if and only if its lock has been reached, whether or not the handler failed |
| `Agreement.DecideCommits` | crates/task-impls/src/quorum_vote/handlers.rs:317-445 | what is decided is committed by the proposal's own justify certificate, the lock rises above it, and the certificate of the decide event exists and is a valid one for the decided leaf |
| `Agreement.StepKeeps` | crates/task-impls/src/quorum_proposal_recv/handlers.rs:138-344 | every guarded step of any replica keeps the agreement invariant, in any interleaving of saving, checking, entering views, reading the store, taking up and voting |
| `Agreement.LogGrows` | crates/task-impls/src/quorum_vote/handlers.rs:317-445 | delivered leaves are never taken back |
| `Agreement.DecidedLeavesAgree` | crates/task-impls/src/helpers.rs:257-345 | agreement under both rules: in every run that meets the seven guards, any two leaves ever delivered by honest replicas lie on one ancestor chain |
| `Delivery.TwoChainTakenUp` | crates/task-impls/src/helpers.rs:257-345 | one proposal under HotStuff-2: the lock becomes the higher of itself and the justify view; the grandparent is decided exactly when it and the parent are stored, consecutive, above the anchor and the lock rises, and then the log grows by exactly the stored ancestors down to the first missing one |
| `Delivery.SegmentUnique` | crates/task-impls/src/helpers.rs:287-327 | there is only one such stretch of ancestors |
| `Delivery.ThreeChainTakenUp` | crates/task-impls/src/helpers.rs:378-503 | one proposal under the three-chain rule: the lock becomes the higher of itself and what the proposal asks for, the great-grandparent is decided exactly on three consecutive views above lock and anchor, and the log grows by every ancestor from the old anchor on |
| `Delivery.LockIsHighestAsked` | crates/task-impls/src/quorum_vote/handlers.rs:337-385 | in every run the lock is exactly the highest lock any step so far has asked for |
| `Delivery.TwoChainGaplessIffFound` | crates/task-impls/src/helpers.rs:287-327 | in every HotStuff-2 run a replica has delivered exactly the path from genesis to its anchor if and only if each of its decides found all ancestors down to the anchor before |
| `Delivery.ThreeChainGapless` | crates/task-impls/src/helpers.rs:428-487 | in every three-chain run it has |
| `Delivery.DeliveredInOneOrder` | crates/task-impls/src/quorum_vote/handlers.rs:421-434 | the logs of any two such replicas are prefixes of one another |
| `Delivery.StatesKept` | crates/types/src/consensus.rs:702-729 | in every run, guarded or not, a view that has a state keeps one, and its delta, until the anchor has passed it |
| `Delivery.DecideCollects` | crates/types/src/consensus.rs:871-901 | whenever the anchor moves, nothing more than one view behind it is left in the state map |
| `Delivery.LookedUp` | crates/task-impls/src/quorum_proposal_recv/handlers.rs:227-263 | the parent is found exactly when it is saved with a state at its view, missing exactly when it is not saved |
| `Delivery.ReceivedExactly` | crates/task-impls/src/quorum_proposal_recv/handlers.rs:47-96 | a received proposal is saved unless its parent lacks a state, goes on to be checked exactly when the parent was found, and moves the lock only under HotStuff-2 without a parent |
| `Delivery.CheckedExactly` | crates/task-impls/src/helpers.rs:662-681 | a checked proposal may be voted for exactly when it is justified above the lock or the entry at its justify view leads through stored leaves to the locked view |
| `JustifiedRuns.StoreOkWalkFalls` | crates/task-impls/src/helpers.rs:576-693 | when saved leaves are justified by earlier views, the acceptance rule is only applied to leaves along whose parents views fall |
| `JustifiedRuns.JustifiedRunIsRun` | crates/task-impls/src/helpers.rs:576-693 | a run in which every leaf that enters a store is justified by an earlier view meets the guard on walks by itself |
| `JustifiedRuns.JustifiedAgreement` | crates/task-impls/src/helpers.rs:257-345 | agreement under both rules over every such run, with no assumption on the acceptance walk |
| `ThreeChainForks.EquivocationForks` | crates/task-impls/src/helpers.rs:378-503 | with only the guard on the state map's entry dropped, a run of the three-chain rule ends in disagreement after one view has two leaves |
| `TwoChainForks.ClimbingWalkAccepts` | crates/task-impls/src/helpers.rs:662-681 | a proposal justified below the lock is accepted when the entry at its justify view has a stored parent of the locked view |
| `TwoChainForks.ClimbingWalkForks` | crates/task-impls/src/helpers.rs:662-681 | with only the guard on walks dropped, a HotStuff-2 run ends in disagreement, the climbing walk being at nodes that never voted in the overwritten view |
| `TwoChainForks.GenesisClaimForks` | crates/types/src/simple_certificate.rs:167-175 | with only the guard on genesis certificates dropped, a leaf nobody voted for is delivered and the run ends in disagreement |
| `TwoChainForks.UnsettledForks` | crates/task-impls/src/quorum_vote/mod.rs:473-484 | with only the guard on waiting proposals dropped, a HotStuff-2 run ends in disagreement |
| `TwoChainForks.OvertakenForks` | crates/task-impls/src/consensus/handlers.rs:205-230 | with only the guard on overtaking dropped, a HotStuff-2 run in which two proposals are accepted in falling view order ends in disagreement |
| `TwoChainForks.LostLockForks` | crates/task-impls/src/quorum_vote/mod.rs:479-484 | with only the guard on early errors dropped, a HotStuff-2 run ends in disagreement |
| `ThreeChainForks.OpenStoreForks` | crates/task-impls/src/helpers.rs:378-503 | with only the guard on closure dropped, a run of the three-chain rule ends in disagreement, in every committee whose honest nodes split into three groups any two of which make a quorum with the Byzantine ones |
| `ThreeChainForks.CutWalkKeepsLock` | crates/task-impls/src/helpers.rs:392-487 | a node that lacks the grandparent keeps its old lock although its entry is certified |
| `Forks.GuardsAreNeeded` | crates/task-impls/src/helpers.rs:576-720 | for each of the seven guards a run that meets the other six ends in disagreement, in every sound committee with a quorum, an honest node outside it and three suitable groups |
| `Forks.FourNodes` | crates/hotshot/src/traits/election/static_committee.rs:218-230 | four nodes of equal stake with one Byzantine are a committee these runs exist in |
| `Transmit.Storage.RecordActionInPlace` | crates/example-types/src/storage_types.rs:253-273 | the storage object's mark and epoch become the specified ones |
| `Transmit.Actions.UpdateActionInPlace` | crates/types/src/consensus.rs:571-593 | votes and proposals are granted only for strictly newer views; each action has its own last view |
| `Transmit.MaybeRecordAction` | crates/task-impls/src/network.rs:639-670 | nothing goes out unless the action was granted and stored |
| `Transmit.ClaimKeeps` | crates/types/src/consensus.rs:571-593 | a granted claim lies above every view claimed or sent before |
| `Transmit.SendKeeps` | crates/task-impls/src/network.rs:1117-1159 | sending a stored claim repeats no view |
| `Transmit.StepKeeps` | crates/task-impls/src/network.rs:1117-1159 | every step, crash and restart included, keeps the gate's invariant |
| `Transmit.NoDoubleSendAcrossCrashes` | crates/hotshot/src/lib.rs:1110-1147 | with crashes between any two steps and restarts from storage, no view is voted or proposed twice, and the restored mark covers all that was sent |
| `Transmit.ClaimGranted` | crates/types/src/consensus.rs:571-593 | quorum proposals, votes and DA proposals are granted exactly above the last view of their kind, everything else always, and what the last views become |
| `Transmit.MarkIsHighestRecorded` | crates/example-types/src/storage_types.rs:253-273 | over all lives of the node the mark is exactly the highest view recorded for a vote, proposal, or later view sync vote |
| `Transmit.EpochIsHighestRecorded` | crates/example-types/src/storage_types.rs:253-273 | and the epoch beside it the highest recorded |
| `Transmit.RestartRestoresMark` | crates/hotshot/src/lib.rs:1110-1147 | a crash loses only the tasks, and after a restart votes and proposals begin above the mark |
| `Transmit.CanSend` | crates/task-impls/src/network.rs:639-670 | whatever the gate grants can go out, from any point of any run |
| `Transmit.ClaimKeepsOrder` | crates/types/src/consensus.rs:571-593 | among the votes sent and in flight, the order of claims is the order of views, and a new claim keeps it so |
| `Transmit.VotesRiseIffSentAsClaimed` | crates/task-impls/src/network.rs:1147-1159 | over all lives of a node, votes leave in strictly rising views if and only if they leave in the order in which they were claimed |
| `Transmit.OneAtATimeRises` | crates/task-impls/src/network.rs:1147-1159 | in particular when no vote is claimed while another is in flight |
| `Transmit.SendOrderCanInvert` | crates/task-impls/src/network.rs:1147-1159 | any two views can be sent in falling order |
| `Exclusion.OneVotePerView` | crates/task-impls/src/network.rs:721-766 | a node never sends two different quorum, extended or timeout votes for one view |
| `Exclusion.QuorumExcludesTimeout` | crates/task-impls/src/network.rs:983-1008 | no view ever has both a quorum certificate and a timeout certificate |
| `Exclusion.QuorumCertifiesOneLeaf` | crates/task-impls/src/network.rs:721-766 | no view ever has quorum certificates for two leaves, extended votes included |
| `ViewSync.ReplicaTask.Handle` | crates/task-impls/src/view_sync.rs:535-920 | the replica task's fields and outputs become the specified reaction for every event |
| `ViewSync.CertificateAnswered` | crates/task-impls/src/view_sync.rs:541-795 | a valid pre-commit certificate is answered by a commit vote, a commit certificate by a finalize vote and the view change, both to its relay, a finalize certificate by the view change alone, which ends the task; the relay follows the certificate |
| `ViewSync.TimerAnswered` | crates/task-impls/src/view_sync.rs:851-916 | a timer of the relay in use asks the next relay and starts a timer for it in the same phase |
| `ViewSync.WithoutVote` | crates/task-impls/src/view_sync.rs:541-633 | without a signature the relay moves and nothing is sent; invalid certificates and timers of other relays change nothing |
| `ViewSync.AnsweredOnly` | crates/task-impls/src/view_sync.rs:541-795 | and nothing else sends those votes or view changes |
| `ViewSync.RelayNeverFalls` | crates/task-impls/src/view_sync.rs:541-633 | over a replica's whole life its relay never falls and its view never changes |
| `ViewSync.TimeoutVotesClimb` | crates/task-impls/src/view_sync.rs:851-916 | timeout-driven pre-commit votes carry pairwise different, rising relays |
| `ViewSync.ViewSyncTask.SendToOrCreateReplica` | crates/task-impls/src/view_sync.rs:198-256 | an event below the current view changes nothing; otherwise exactly the replica of its view reacts, is created or is dropped |
| `ViewSync.ViewSyncTask.CollectReplicas` | crates/task-impls/src/view_sync.rs:459-478 | the loop removes exactly the replicas of the walked views |
| `ViewSync.ViewSyncTask.EnterView` | crates/task-impls/src/view_sync.rs:440-480 | an advancing view change resets the timeout count and collects; any other changes nothing |
| `ViewSync.ViewSyncTask.CountTimeout` | crates/task-impls/src/view_sync.rs:481-524 | the first timeout moves the view, later ones trigger view sync for the next view |
| `ViewSync.TimeoutAnswered` | crates/task-impls/src/view_sync.rs:481-524 | the first timeout in a row moves on by one view, later ones send the first pre-commit vote to relay 0 |
| `ViewSync.TimeoutsCounted` | crates/task-impls/src/view_sync.rs:440-524 | the count is exactly the timeouts handled since the last change to a higher view |
| `ViewSync.ChangeAnswered` | crates/task-impls/src/view_sync.rs:440-480 | a view change enters the higher of the two views and leaves no task behind it |
| `ViewSync.OthersKept` | crates/task-impls/src/view_sync.rs:198-256 | no event disturbs the tasks of other views that are not behind it, and no relay falls |
| `ViewSync.ViewSyncTask.HandleEvent` | crates/task-impls/src/view_sync.rs:261-529 | the whole handler computes the specified next state and outputs |
| `ViewSync.HandleKeepsTidy` | crates/task-impls/src/view_sync.rs:440-480 | every replica's view is its key and at least the last collected view, the current view never falls, and nothing below it survives an advance |
| `ViewSync.RunStaysTidy` | crates/task-impls/src/view_sync.rs:261-529 | the same over every run |
| `ViewSync.GcIsLinear` | crates/task-impls/src/view_sync.rs:459-478 | collection steps over a run equal the last collected view plus the number of advances |
| `ViewSyncNetwork.CertificateCaused` | crates/task-impls/src/view_sync.rs:541-606 | a valid certificate of any phase traces back to an honest node's second timeout |
| `ViewSyncNetwork.HandleTargets` | crates/task-impls/src/view_sync.rs:535-920 | a node's replica tasks act only for the event's view, only on a valid certificate, a fired timer or a timeout that starts view sync, start no Finalize timer and never reach the unimplemented branch |
| `ViewSyncNetwork.StepKeeps` | crates/task-impls/src/view_sync.rs:635-740 | every step keeps the cause of every vote, timer and move |
| `ViewSyncNetwork.NoMoveWithoutHonestCause` | crates/task-impls/src/view_sync.rs:742-795 | whenever an honest replica task emits a change to view v > 0, some honest node had handled a timeout of v-1 with at least two counted |
| `ViewSyncNetwork.PhasesInOrder` | crates/task-impls/src/view_sync.rs:541-795 | in every run an honest commit vote rests on a failure quorum of pre-commit votes for its view and relay, a finalize vote on a success quorum of commit votes, and every view change on a success quorum of commit votes |
| `ViewSyncNetwork.StepAnswers` | crates/task-impls/src/view_sync.rs:541-916 | in every run each step that calls for a vote or a move makes it |
| `ViewSyncNetwork.NeverPanics` | crates/task-impls/src/view_sync.rs:851-916 | no timer ever carries phase Finalize, so the unimplemented branch is unreachable in every run |
| `VoteCollection.VoteCollectors.Handle` | crates/task-impls/src/vote_collection.rs:251-312 | the collector map and the emitted certificate are the specified ones: create, accumulate, remove and prune |
| `VoteCollection.LaterViewsKept` | crates/task-impls/src/vote_collection.rs:275-312 | every later view stays as it was, and a view is dropped only together with a certificate of that or a later view |
| `VoteCollection.AccumulateKeeps` | crates/types/src/vote.rs:163-250 | tallies equal the stake of their voters, each counted once |
| `VoteCollection.FormedIffQuorum` | crates/types/src/vote.rs:163-250 | a vote forms a certificate exactly when it counts and its voters then hold a success quorum |
| `VoteCollection.StepKeeps` | crates/task-impls/src/vote_collection.rs:251-312 | every delivered vote keeps live accumulators apart from the certificates already formed |
| `VoteCollection.OneCertificatePerView` | crates/task-impls/src/vote_collection.rs:107-152 | in every run at most one certificate event per view, each backed by a success quorum, though collectors are removed, pruned and created again |
| `VoteCollection.QuorumForms` | crates/task-impls/src/vote_collection.rs:107-152 | the converse: once the signed votes of a success quorum for one view and datum have been delivered, a certificate of that or a later view has been formed |
| `VoteCollection.QuorumFormsItsDatum` | crates/task-impls/src/vote_collection.rs:107-152 | and if it is of that view, it is for that datum |
| `VoteCollection.FormedFromVotes` | crates/types/src/vote.rs:163-250 | every signer of a certificate had a signed vote for exactly its view and datum delivered |
| `VoteCollection.RedeliveryFormsTwice` | crates/task-impls/src/vote_collection.rs:275-312 | the statement needs honest votes to be delivered at most once: two votes delivered twice form the certificate twice |
| `StakeTables.PushKeeps` | crates/hotshot-stake-table/src/vec_based.rs:104-122 | appending a key adds exactly one entry to the head book and keeps index and vectors aligned |
| `StakeTables.OlderUnmoved` | crates/hotshot-stake-table/src/vec_based.rs:104-122 | a new position in the shared index changes no older snapshot |
| `StakeTables.SetKeeps` | crates/hotshot-stake-table/src/vec_based.rs:197-215 | overwriting a position changes one key's stake and nothing else |
| `StakeTables.BookTotal` | crates/hotshot-stake-table/src/vec_based.rs:143-150 | a snapshot's running total is the total of the map it stands for |
| `StakeTables.BookSize` | crates/hotshot-stake-table/src/vec_based.rs:152-154 | its length is the number of keys of that map |
| `StakeTables.StakeTable.RegisterKey` | crates/hotshot-stake-table/src/vec_based.rs:104-121 | registering refines adding to the head map, and refuses a known key |
| `StakeTables.StakeTable.DeregisterKey` | crates/hotshot-stake-table/src/vec_based.rs:123-132 | deregistering refines setting the stake to zero |
| `StakeTables.StakeTable.UpdateKey` | crates/hotshot-stake-table/src/vec_based.rs:197-215 | adding or removing stake refines the same change of the head map, with the source's error cases |
| `StakeTables.StakeTable.SetKeyValue` | crates/hotshot-stake-table/src/vec_based.rs:301-312 | setting a value refines overwriting it in the head map and returns the old one |
| `StakeTables.StakeTable.AdvanceEpoch` | crates/hotshot-stake-table/src/vec_based.rs:287-299 | advancing shifts the three maps by one |
| `StakeTables.StakeTable.Lookup` | crates/hotshot-stake-table/src/vec_based.rs:160-172 | a lookup at any version equals the lookup in that version's plain map, errors included |
| `StakeTables.StakeTable.TotalStake` | crates/hotshot-stake-table/src/vec_based.rs:143-150 | the total at any version is the sum over that version's plain map |
| `StakeTables.StakeTable.Len` | crates/hotshot-stake-table/src/vec_based.rs:152-154 | the length at any version is that map's size |
| `StakeTables.StakeTable.Perform` | crates/hotshot-stake-table/src/vec_based.rs:104-312 | every sequence of operations leaves the table, and answers, as three independent plain maps would |
| `StakeTables.OperationOnKey` | crates/hotshot-stake-table/src/vec_based.rs:104-312 | every operation gives its key the new stake at the head, or is refused and says why |
| `StakeTables.OtherLookups` | crates/hotshot-stake-table/src/vec_based.rs:104-312 | no other key and no older snapshot changes, except that advancing moves each snapshot to the one before it |
| `StakeTables.EpochStartIsHead` | crates/hotshot-stake-table/src/vec_based.rs:287-299 | after any script the epoch start is the head as it was at the last advance |
| `StakeTables.LastEpochStartIsHead` | crates/hotshot-stake-table/src/vec_based.rs:287-299 | and the last epoch start the head as it was at the advance before |
| `StakeTables.TotalMoves` | crates/hotshot-stake-table/src/vec_based.rs:104-312 | stake is conserved: the total moves by what the key gains or loses |
| `Consistency.DedupToOneIffEqual` | crates/testing/src/consistency_task.rs:41-45 | dropping adjacent repeats leaves at most one element exactly when all are equal |
| `Consistency.AllConsecutive` | crates/testing/src/consistency_task.rs:89-118 | zipping the values with themselves shifted tests exactly the pairs of neighbouring views |
| `Consistency.SanitizeNodeMap` | crates/testing/src/consistency_task.rs:34-58 | succeeds exactly when the node's leaves of each view are all equal, and returns that leaf per view |
| `Consistency.SanitizeNetworkMap` | crates/testing/src/consistency_task.rs:132-146 | succeeds exactly when every node is consistent with itself |
| `Consistency.InvertNetworkMap` | crates/testing/src/consistency_task.rs:155-172 | succeeds exactly when every node's history is in order, and holds the same entries under interchanged keys |
| `Consistency.SanitizeViewMap` | crates/testing/src/consistency_task.rs:177-208 | succeeds exactly when the nodes agree per view and neighbouring views link by justify commitment |
| `Consistency.LinkedByView` | crates/testing/src/consistency_task.rs:200-205 | linking of the merged map is linking of the nodes' own reports |
| `Consistency.Validate` | crates/testing/src/consistency_task.rs:225-230 | the pipeline accepts exactly the consistent networks |
| `Consistency.ConsistentIsOneChain` | crates/testing/src/consistency_task.rs:177-230 | whatever was collected, acceptance means that any two reported leaves lie on one chain, the later view extending the earlier |
| `Consistency.ConsistentIffOneChain` | crates/testing/src/consistency_task.rs:61-230 | leaves recorded under their own views are accepted if and only if they lie on one chain without a gap, each node's justified in order |
| `Consistency.ConsistencyTask.HandleDecide` | crates/testing/src/consistency_task.rs:265-281 | a decide event pushes its leaves on the sender's record and touches no other |
| `Consistency.EventRecorded` | crates/testing/src/consistency_task.rs:265-281 | collecting an event adds exactly its leaves to what the node has delivered |
| `Consistency.ConsistencyTask.Check` | crates/testing/src/consistency_task.rs:283-289 | the verdict on what was collected |
| `CheckedRuns.OneChainIsConsistent` | crates/testing/src/consistency_task.rs:225-230 | nodes that reported whole paths along one chain are accepted |
| `CheckedRuns.CollectedRecordsLog` | crates/testing/src/consistency_task.rs:265-281 | along any run, feeding the checker each decide event of a node leaves it holding exactly the node's log |
| `CheckedRuns.CheckerAcceptsRuns` | crates/testing/src/consistency_task.rs:225-230 | in any run that meets the guards, under either rule and at any point, the checker accepts the decide events collected from honest replicas, under HotStuff-2 from those whose decides found all ancestors |
| `Bytes.LeRoundTrip` | crates/request-response/src/message.rs:262-272 | little-endian words decode to the number they encode |
| `Bytes.LeOfFromLe` | crates/request-response/src/message.rs:274-282 | and encode back to the bytes they came from |
| `Bytes.LeByte` | crates/request-response/src/message.rs:262-272 | the byte of weight 256^i stands at position i |
| `MessageCodec.Cursor.ReadExact` | crates/request-response/src/message.rs:274-282 | the next n bytes, or failure when fewer are left |
| `MessageCodec.Cursor.ReadLengthPrefixed` | crates/request-response/src/message.rs:274-282 | reads exactly what a length prefix delimits |
| `MessageCodec.Cursor.ReadToEnd` | crates/request-response/src/message.rs:285-289 | everything that is left |
| `MessageCodec.WriteRequest` | crates/request-response/src/message.rs:184-201 | the written bytes are the specified encoding, oversized parts refused |
| `MessageCodec.ReadRequest` | crates/request-response/src/message.rs:203-225 | the parsed request is the specified decoding, every malformed input refused |
| `MessageCodec.ReadResponse` | crates/request-response/src/message.rs:242-259 | the same for responses |
| `MessageCodec.WriteMessage` | crates/request-response/src/message.rs:131-155 | the type byte and the content |
| `MessageCodec.RequestLayout` | crates/request-response/src/message.rs:131-201 | type byte 0, then key and signature each behind its length in four bytes, the timestamp in eight, the request to the end |
| `MessageCodec.ResponseLayout` | crates/request-response/src/message.rs:228-240 | type byte 1, the 32-byte hash, the response to the end |
| `MessageCodec.EncodesIffFits` | crates/request-response/src/message.rs:131-201 | an encoding exists exactly when all fields encode and key and signature fit a 32-bit length |
| `MessageCodec.ReadMessage` | crates/request-response/src/message.rs:157-181 | an unknown type byte or bad content is refused |
| `MessageCodec.RoundTrip` | crates/request-response/src/message.rs:129-259 | decoding any encoded request or response returns it |
| `MessageCodec.EncodingInjective` | crates/request-response/src/message.rs:129-259 | distinct messages never share an encoding |
| `MessageCodec.DecodedReEncodes` | crates/request-response/src/message.rs:129-259 | re-encoding a decoded message gives its bytes back, for canonical inner codecs |
| `MessageCodec.DecodesIffEncoded` | crates/request-response/src/message.rs:129-259 | over serializers that round-trip both ways, exactly the encoder's outputs decode |
| `MessageCodec.SignedContentInjective` | crates/request-response/src/message.rs:68-75 | the signed content determines request bytes and timestamp |
| `MessageCodec.SignedLayout` | crates/request-response/src/message.rs:68-75 | the request bytes first, the timestamp in the last eight |
| `PayloadCodec.Encode` | crates/example-types/src/block_types.rs:92-108 | the buffer loop computes the specified encoding |
| `PayloadCodec.Layout` | crates/example-types/src/block_types.rs:92-108 | each transaction stands behind its length in four little-endian bytes, right after the one before, and nothing follows the last |
| `PayloadCodec.Decode` | crates/example-types/src/block_types.rs:210-229 | the index loop terminates on every input and computes the specified parse, a slice out of bounds being its only failure |
| `PayloadCodec.RoundTrip` | crates/example-types/src/block_types.rs:92-108 | every transaction list survives the round trip |
| `PayloadCodec.ReEncodes` | crates/example-types/src/block_types.rs:210-229 | re-encoding whatever decodes gives the same bytes |
| `PayloadCodec.DecodesIffEncoded` | crates/example-types/src/block_types.rs:210-229 | decoding succeeds on exactly the encoder's outputs |
| `VidSearch.LastVidCommitment` | crates/task-impls/src/transactions.rs:526-561 | terminates on every state map and names the greatest view at or below the one before `block_view` that is not a recorded failure, with what is there: a commitment, a missing record or a missing leaf |
| `VidSearch.AnswerIsUnique` | crates/task-impls/src/transactions.rs:526-561 | no other answer fits that description |
| `Registration.PostedIndices` | crates/orchestrator/src/lib.rs:244-320 | indices are exactly 0 to n-1, one per distinct key |
| `Registration.StepKeeps` | crates/orchestrator/src/lib.rs:244-320 | every call keeps the registration invariant, the node count staying above zero |
| `Registration.EveryRunIsSound` | crates/orchestrator/src/lib.rs:244-320 | over every call sequence: index range, node and DA limits, and the network has started exactly when started by hand or when enough registered nodes are ready |
| `Registration.DaAreFirstToAsk` | crates/orchestrator/src/lib.rs:274-293 | over every call sequence the DA committee is exactly the first accepted peers that asked for it, up to its size |
| `Registration.FlagsFollowState` | crates/orchestrator/src/lib.rs:244-320 | keys are accepted exactly until the network is full or started, published exactly when it is full, and a manual start is possible exactly until it has started |
| `Registration.ConnectedAreReady` | crates/orchestrator/src/lib.rs:495-529 | exactly the peers that reported ready while registered count towards the start |
| `Registration.ReachedIsFraction` | crates/orchestrator/src/lib.rs:518-526 | the threshold is on the fraction of nodes that are ready |
| `Registration.RepliesTell` | crates/orchestrator/src/lib.rs:244-573 | a refusal changes nothing, an answer is what is posted, and a manual start succeeds exactly with the password, two DA members and nothing started |
| `Registration.AnswersAreStable` | crates/orchestrator/src/lib.rs:251-253 | a registered key gets the same index and DA flag ever after |
| `Registration.NothingAddedAfterStart` | crates/orchestrator/src/lib.rs:255-262 | nothing is registered once the network has started |
| `Registration.Orchestrator.constructor` | crates/orchestrator/src/lib.rs:105-138 | a new orchestrator accepts keys and may be started by hand |
| `Registration.Orchestrator.RegisterUnknown` | crates/orchestrator/src/lib.rs:244-320 | the object's lists, map and flags become the specified ones, with the specified reply |
| `Registration.Orchestrator.PostReady` | crates/orchestrator/src/lib.rs:495-529 | only registered nodes connect, and the threshold closes registration and starts the network |
| `Registration.Orchestrator.PostManualStart` | crates/orchestrator/src/lib.rs:532-573 | a manual start installs the registered counts, and its non-zero conversion cannot fail |

## Left out

- Restarts inside agreement: a restarted node does not get its lock back from storage, so restarts appear only in the no-double-vote results.
- Epoch changes, eQCs, next-epoch certificates, DRB results and epoch roots: one committee throughout.
- `JustifiedRuns.JustifiedAgreement`: for runs in which leaves that enter a store are justified by earlier views, since the code does not check it; `TwoChainForks.ClimbingWalkForks` shows what happens otherwise.
- Upgrade certificates and `included_txns`: not part of the outcome of a decide here, nor of the consistency checker.
- `validate_proposal_view_and_certs` (crates/task-impls/src/helpers.rs:727): view-change evidence and upgrade certificates are not part of this model; agreement does not need them, and what the fork runs need of them is said above.
- The `expect` in `collect_garbage` on an empty state map (crates/types/src/consensus.rs:878-882) and the collections of certificates, payloads and VID shares.
- `Decide.GarbageKeepsVisited`: for walks that reach the new anchor; a walk that misses it may go below it and is then cut.
- `ViewSyncNetwork.NoMoveWithoutHonestCause`: speaks of changes emitted by replica tasks; the first timeout's own change of view is the node's own cause. Certificates of view 0 are always valid in the source and are excluded.
- `ViewSyncNetwork.PhasesInOrder`: for views above 0, as the line before.
- `Delivery.ThreeChainGapless`: in runs that meet the guards; `Delivery.TwoChainGaplessIffFound` and `Delivery.LockIsHighestAsked` too.
- `ViewSyncNetwork.NeverPanics`: an aborted timer is taken to be able to fire at any later time.
- Relay vote collectors of view sync and 64-bit overflow of the relay counter.
- `VoteCollection.QuorumForms`: requirements as `VoteCollection.OneCertificatePerView`, and votes that arrive after a certificate of a later view may form none.
- `VoteCollection.OneCertificatePerView`: requires distinct keys in the stake table and honest votes delivered at most once.
- Data-availability, upgrade and view-sync votes in `VoteCollection`: the same collector with other thresholds.
- `StakeTables.StakeTable.Perform`: requires sums below 2^256 and capacity at each advance, where the source overflows or underflows; commitments, `sample` and iteration are not part of this model.
- The Merkle stake table (crates/hotshot-stake-table/src/mt_based.rs).
- `MessageCodec.RoundTrip`: inner serialisers are parameters assumed to round-trip; clocks and signature checks are not part of this model.
- `Consistency.InvertNetworkMap`: without the upgrade check of `validate_node_map`.
- `Consistency.ConsistencyTask.Check`: as `Consistency.Validate`.
- `Consistency.Validate`: stops before the expectations on transaction counts and upgrades, and `validate_node_map` is without its upgrade check.
- `Registration.Orchestrator.RegisterUnknown`: libp2p bootstrap lists are not part of this model, and a key that fails to decode is a reply instead of a panic; registration from a fixed list is left out.
- Builder selection, message version gates, VID, BLS aggregation, networking, HTTP, metrics and logging.

# mshkn: a verified model

mshkn runs short-lived computers for agents: it snaps and merges their disks, hands out VM
slots, advances labelled chains of checkpoints one fork at a time, and relays model calls. The
embryo's membrane, kept in the same repository, turns messages into model turns, lets the model
propose changes to itself, and drives capability runs. This project models that logic in Dafny
and proves what the code and its comments promise.

`dafny verify dfyconfig.toml` checks everything.

## What is modelled

| component | files | form |
|---|---|---|
| merge of two forks' disks | `FileTree`, `Volume`, `Merge` | a volume changed in place, against a pick-and-shadow specification |
| slots, computers, teardown | `Allocator`, `Computers`, `Cleanup`, `Teardowns` | an allocator class; a step machine with failures, crashes and restarts; a cleanup pass, which is a run of that machine |
| labelled chains | `LabelChain`, `LinearChain`, `SparseCopy` | a lock table class and a step machine over all interleavings; an imperative copy |
| the membrane's turns | `Turn`, `TurnRuns`, `Membranes` | value functions, theorems over every run of commands, and a class whose state is always one a run leads to |
| proposals and the catalog | `Declarations`, `Patterns`, `RoundTrips`, `StateDoc`, `Proposals`, `ProposalRuns`, `Ledgers`, `Saving`, `RevertedHook`, `Offering` | parsers and printers over JSON; run invariants; a class whose tables are always what a run leads to; runs with a save and a load between any two commands |
| the relay | `Relay`, `Reassembly`, `Framing` | a restartable job class; a stream fold; text framing |
| the capability driver | `Speak`, `Capabilities` | nested bounded loops, specified turn by turn over arbitrary behaviour of the agent and the approver; a depth-first order |
| two small cores | `SshPool`, `Truncate` | a step machine; UTF-8 on bytes |
| shared by several | `Wrappers`, `Json`, `Common` | options and results, JSON values, bytes, principals, messages, decimal numbers |

Asynchronous code is a step machine: each stretch between two awaits is one atomic step, and the
theorems range over every sequence of steps. What a caller, the host, the clock, the model or an
approver does is an argument or a nondeterministic choice. Where the source mutates objects, a
class has the same fields, and its methods keep it valid and say what they change. The membrane
and the ledger are valid when some run of commands leads to what they hold, so each theorem about
runs is one about them; the lock table is valid when the lock invariant holds of it.

## What turned out not to hold

- **A linear chain needs its head to stand.** The head is read under the label's lock, but the
  run already in flight takes its checkpoint outside it. A checkpoint that lands between the
  resolution and the active-computer check leaves the new fork on a replaced head, and the chain
  forks. `LinearChain.NewHeadsFollowTheHead` holds when each check passes on the
  current head (`HeadStands`); `StaleHeadForksTheChain` shows every other check breaks the chain,
  and `StaleHeadIsReachable` gives a run that gets there.
- **A row claimed before its bring-up returns can share its slot.** If a teardown claims a row
  whose bring-up, or the abandoning of it, has not returned, both release the slot.
  `Computers.EarlyClaimSharesASlot` continues every such claim to two live computers on one slot,
  and `EarlyClaimIsReachable` gives a run from the start. The other theorems assume that no claim
  comes so early (`Disciplined`). Nothing in the repository sees to that: `reap_dead`
  (`src/mshkn/services/reaper.py:115-130`) claims any running row whose process is dead, and a row
  is running from its insertion on.
- **Reverting a policy looks at no hook.** A verb superseded while it was no live hook may assert
  nothing, and reverting to a policy that names it makes it live. `RevertedHook` has the run;
  `ProposalRuns.RevertKeepsHooksExactly` gives the condition a caller can check first: that
  approval's own check of the hooks would pass on the policy to be restored.
- **The hatched policy is not checked.** Approval refuses an open door without a hook, an unfit
  hook and a proposing anonymous, but the policy a state hatches with is taken as it is.
  `ProposalRuns.LivePolicyStands` says that every live policy is safe, or is that one.
- **An event's data loses its leading white space.** The parser strips all of it, where section
  9.2.6 of the WHATWG HTML standard takes one space off. `Framing.DataKeptExactly` is the condition.
- **`truncate_output` with a limit below 2 keeps everything.** Half of 1 is 0, and the last zero
  bytes of a Python slice are all of them. `Truncate.TailBoundedExactly` is the condition.
- **The merge can drop a change without a conflict.** A file or link put by one fork shadows a
  child added by the other. `Merge.SilentLoss` gives one, and `Merge.ChangeOfASurvives` and
  `ChangeOfBSurvives` say exactly when a change of either fork survives.

## Model

| member | source | states |
|---|---|---|
| Volumes.Volume.EntryPath | src/mshkn/services/merge.py:66-84 | the path, or nothing exactly when a file or link stands above it |
| Volumes.Volume.Lookup | src/mshkn/services/merge.py:26-40 | what a tree holds at a path, never through a link |
| Volumes.Volume.CopyEntry | src/mshkn/services/merge.py:104-123 | the entry stands at the destination, all that stood below is gone, every other path is as it was |
| Volumes.Volume.UnlinkStaleAncestors | src/mshkn/services/merge.py:87-101 | exactly the files and links in the way of the entries are removed |
| FileTree.EntriesArePrefixFree | src/mshkn/services/merge.py:43-63 | the entries of a tree: none stands above another |
| FileTree.Sorted | src/mshkn/services/merge.py:151-153 | each path once, in the order of their texts |
| FileTree.AncestorsComeFirst | src/mshkn/services/merge.py:151-157 | in that order a path never comes after one below it |
| Merge.Apply | src/mshkn/services/merge.py:126-135 | writes the entry in place of what stood there, or nothing when the source or the destination is missing |
| Merge.Resolve | src/mshkn/services/merge.py:159-193 | at one path the pick is applied and one of the three tallies moves, in every branch |
| Merge.ThreeWayMerge | src/mshkn/services/merge.py:138-195 | the walk leaves exactly the picks that no pick stands above; it lists the paths where the trees differ pairwise, each once, and counts those where all agree and the rest |
| Merge.MergedIsPrefixFree | src/mshkn/services/merge.py:66-84 | the merged entries form a tree |
| Merge.VerdictsByEquality | src/mshkn/services/merge.py:163-193 | a path is unchanged exactly when the three trees agree there, a conflict exactly when they differ pairwise, and merged otherwise |
| Merge.CountsSumToPaths | src/mshkn/services/merge.py:163-195 | the paths counted as unchanged, the merged and the conflicting add up to all paths walked |
| Merge.MergeIdentities | src/mshkn/services/merge.py:163-178 | merging with an unchanged or an equal fork gives the fork |
| Merge.SymmetricWithoutConflict | src/mshkn/services/merge.py:167-193 | without a conflict the forks may be swapped |
| Merge.ChangeOfASurvives | src/mshkn/services/merge.py:66-84 | fork A's change at a path survives exactly when B changed nothing above it |
| Merge.ChangeOfBSurvives | src/mshkn/services/merge.py:66-84 | fork B's change survives, where the forks do not conflict, exactly when A changed nothing above it; where they do, A's entry is taken |
| Merge.SilentLoss | src/mshkn/services/merge.py:66-84 | a change can be lost that is reported as merged |
| Merge.ApplyOnto | src/mshkn/services/checkpoints.py:653-668 | the output that starts as the parent ends with the merged entries exactly: nothing stale, nothing skipped |
| Merge.DeletePass | src/mshkn/services/checkpoints.py:662-668 | deletes the parent's entries that are not merged, and none the merge placed |
| Merge.MergeInto | src/mshkn/services/checkpoints.py:645-669 | both passes together leave exactly the merged entries, with the conflicts and counts of the walk |
| Allocator.SlotAllocator.Initialize | src/mshkn/services/allocator.py:52-80 | the pool rebuilt from the undestroyed rows, past every volume id in use and no further |
| Allocator.SlotAllocator.Acquire | src/mshkn/services/allocator.py:82-119 | a slot not held and a fresh volume id, refused exactly when every usable slot is held |
| Allocator.SlotAllocator.AcquireVolumeId | src/mshkn/services/allocator.py:86-88 | the next volume id, no slot touched |
| Allocator.SlotAllocator.ReleaseSlot | src/mshkn/services/allocator.py:90-102 | the slot is held no more; one that was not held changes nothing |
| Allocator.IssueHolds | src/mshkn/services/allocator.py:104-114 | an issued slot is usable, was free, and is now held |
| Allocator.FullWhenNothingToIssue | src/mshkn/services/allocator.py:104-114 | nothing can be issued exactly when all usable slots are held |
| Allocator.ReleaseFrees | src/mshkn/services/allocator.py:90-102 | release removes exactly that slot from the held ones |
| Allocator.AllSlotsAre254 | src/mshkn/services/allocator.py:104-114 | there are 254 usable slots |
| Computers.RunKeepsInv | src/mshkn/services/computers.py:282-553 | every disciplined run, with any host step failing and crashes anywhere, keeps the protocol's invariant |
| Computers.UndestroyedShareNothing | src/mshkn/services/computers.py:282-437 | no two undestroyed computers share a slot or a volume id |
| Computers.SlotsNeverLeak | src/mshkn/services/computers.py:389-553 | free and held slots partition the issued range without the staging slot, and each held one has its holder |
| Computers.ReleasedOnceAndLast | src/mshkn/services/computers.py:426-432 | a release frees a held slot and leaves no holder of it; a tap or volume still up then is one whose removal this very pass tried and failed at |
| Computers.FreeSlotsHaveNoTap | src/mshkn/services/computers.py:421-430 | a tap or a volume that is up belongs to a holder, unless it was left behind |
| Computers.LeftBehindInTwoWays | src/mshkn/services/computers.py:282-437 | only a removal that failed or was interrupted, or a crash during a bring-up without a row, leaves a tap or a volume behind |
| Computers.RunningStaysUp | src/mshkn/services/computers.py:282-437 | a computer whose bring-up returned has its tap and volume up for as long as its row is running, whatever fails or crashes elsewhere |
| Computers.VolumeIdsAreFresh | src/mshkn/services/allocator.py:116-119 | between two restarts no volume id is given out twice |
| Computers.RefusedExactlyWhenFull | src/mshkn/services/allocator.py:104-114 | in every reachable state acquire fails exactly when 254 slots are held |
| Computers.EarlyClaimSharesASlot | src/mshkn/db/computers.py:110-121 | every claim of a row whose bring-up or its abandoning has not returned leads to two live computers on one slot |
| Computers.EarlyClaimIsReachable | src/mshkn/services/reaper.py:115-130 | a run from the start makes such a claim and ends so |
| Cleanup.FirstFailedIsFirst | src/mshkn/services/computers.py:78-86 | the remembered failure is the earliest one |
| Cleanup.CleanupPass.Step | src/mshkn/services/computers.py:78-86 | a step's outcome is recorded, and the first of each kind remembered |
| Cleanup.CleanupPass.Steps | src/mshkn/services/computers.py:88-99 | independent steps all run, once each, in any order |
| Cleanup.Teardown | src/mshkn/services/computers.py:508-553 | whatever fails, every planned step runs once, in phases, the slot release last; the earliest failure and interruption are reported |
| Teardowns.PassIsARun | src/mshkn/services/computers.py:497-553 | a pass, however its steps end, is a run of the protocol that frees the slot and leaves up only what it failed to remove |
| LabelChain.LabelLocks.Enter | src/mshkn/services/checkpoints.py:471-475 | the entry it gives is the one all others inside the label have, a new one if there are none, and counts them all; the table stays valid |
| LabelChain.LabelLocks.Acquire | src/mshkn/services/checkpoints.py:476-478 | who acquires a free lock is the only one inside the label to hold it |
| LabelChain.LabelLocks.Leave | src/mshkn/services/checkpoints.py:479-482 | the entry goes with the last one inside and stays, counting them, for any others; the table stays valid |
| LabelChain.LocksKept | src/mshkn/services/checkpoints.py:469-482 | every step keeps the table: one entry for all inside a label, an exact count, none for an idle label |
| LabelChain.OneHolderPerLabel | src/mshkn/services/checkpoints.py:476-478 | at most one task holds a label's lock |
| LabelChain.LockEntriesAreExact | src/mshkn/services/checkpoints.py:469-482 | in every reachable state holders and waiters of a label share one entry that counts them |
| LabelChain.ResolvesTheNewest | src/mshkn/services/checkpoints.py:500-503 | a fork by label gets the newest checkpoint that carries the label and still exists, one by id the one it names |
| LabelChain.AdmitsExactly | src/mshkn/services/checkpoints.py:545-584 | an exclusive fork passes exactly when no running computer comes from an existing checkpoint of the label; a shared one always |
| LabelChain.ExclusiveAdmission | src/mshkn/services/checkpoints.py:545-584 | when an exclusive fork's row is inserted, nothing else visible to the check is active on the label |
| LinearChain.ChainRunKeepsInv | src/mshkn/services/lifecycle.py:83-95 | runs of self-destructing exclusive forks keep the chain's invariant |
| LinearChain.NewHeadsFollowTheHead | src/mshkn/services/checkpoints.py:230-249 | each new head's parent is the previous head |
| LinearChain.StaleHeadForksTheChain | src/mshkn/services/checkpoints.py:500-511 | a check that passes on a replaced head forks the chain |
| LinearChain.StaleHeadIsReachable | src/mshkn/services/lifecycle.py:89-95 | such a check is reachable from the start |
| SparseCopy.CopyPage | src/mshkn/services/checkpoints.py:607-615 | one page keeps the state of a half-copied chunk |
| SparseCopy.CopyChunk | src/mshkn/services/checkpoints.py:602-617 | one chunk is copied whole, runs closed at its end |
| SparseCopy.Copy | src/mshkn/services/checkpoints.py:592-620 | the copy is identical to the source, and exactly the pages with data in them are written |
| SparseCopy.PageWrittenOnce | src/mshkn/services/checkpoints.py:606-617 | a page with data lies in one write whole and in no other |
| Truncate.RoundTrip | src/mshkn/services/lifecycle.py:48-53 | decoding what was encoded gives the text (section 3 of RFC 3629) |
| Truncate.EncodesAsTheStandard | src/mshkn/services/lifecycle.py:44-53 | the bytes of characters of each length are those of section 7 of RFC 3629 |
| Truncate.HeadIsPrefix | src/mshkn/services/lifecycle.py:52 | a cut prefix of the bytes decodes to a true prefix of the text, at most 3 bytes short |
| Truncate.TailIsSuffix | src/mshkn/services/lifecycle.py:53 | a cut suffix of the bytes decodes to a true suffix, at most 3 bytes short |
| Truncate.TruncationKeepsHeadAndTail | src/mshkn/services/lifecycle.py:41-55 | short text is unchanged; of a long one a prefix, a notice with the number of bytes cut, and a suffix that does not overlap |
| Truncate.TailBoundedExactly | src/mshkn/services/lifecycle.py:51-53 | the tail is bounded exactly when the limit is at least 2 |
| Truncate.BelowTwoKeepsAll | src/mshkn/services/lifecycle.py:51-53 | what a lower limit gives: all of the text under a notice that nothing was cut |
| SshPool.PooledIsFresh | src/mshkn/host/ssh.py:146-183 | a pooled connection was begun after its address's last eviction and is not closed |
| SshPool.ReturnedIsFresh | src/mshkn/host/ssh.py:146-183 | so was the connection a call returns, at that moment |
| SshPool.ReturnedUnlessEvicted | src/mshkn/host/ssh.py:146-183 | a finished connect is pooled and handed out exactly when its address was not evicted meanwhile, else closed; a probed one is used again exactly when healthy and still pooled |
| SshPool.NoConnectionLeaks | src/mshkn/host/ssh.py:146-183 | every connection ever made is either pooled or closed |
| SshPool.OneConnectInFlight | src/mshkn/host/ssh.py:148-174 | one pooled connect per address is in flight |
| Relay.DelayDoubles | src/mshkn/models.py:420-432 | the first wait is the initial delay, each later one doubles the one before until the cap, and none exceeds it |
| Relay.RetriedCodes | src/mshkn/services/relay.py:222 | exactly 408, 409, 429 and everything from 500 is retried |
| Relay.SettledStays | src/mshkn/services/relay.py:182-198 | a settled job keeps its result, and its headers never return |
| Relay.DeliveryIsFinal | src/mshkn/services/relay.py:296-345 | a delivery status leaves pending once and is final |
| Relay.RelayJob.Conclude | src/mshkn/services/relay.py:206-232 | completed exactly on a final answer, another attempt exactly on a transient failure with attempts left, else failed with a reason |
| Relay.RelayJob.Call | src/mshkn/services/relay.py:200-235 | every attempt but the last was one to retry, each after the wait that is due; it completes with a final answer and fails only for good or with no attempt left |
| Relay.RelayJob.Run | src/mshkn/services/relay.py:182-198 | unless the process dies, the stored row ends settled, an unforeseen exception included, and its delivery decided; a settled row is what this process's attempts made of it |
| Relay.RelayJob.Deliver | src/mshkn/services/relay.py:296-354 | unless the process dies, the last fork tried was admitted and is the one recorded, the others having raised, or as many were tried as the policy allows and none was |
| Relay.RelayJob.Resume | src/mshkn/services/relay.py:163-172 | an unsettled row ends settled and delivered, unless this process dies too, and its attempts explain it; a settled one is left as it is |
| Relay.Life | src/mshkn/services/relay.py:163-235 | through any number of deaths and restarts: at most `attempts` calls, each process's but its last one to retry, one admitted fork, waits within the cap, headers stored exactly while unsettled; a settled job is what one process's attempts made of it; settled once a process survives, delivery decided if it was the one to settle it |
| Framing.ParseEvents | src/mshkn/services/sse.py:35-49 | the loop gives the decoded payloads in order and skips the rest |
| Framing.DecodedSplits | src/mshkn/services/sse.py:44-49 | what decodes is kept and what does not is skipped, each payload by itself and in its place |
| Framing.PayloadsRoundTrip | src/mshkn/services/sse.py:35-43 | what was framed with either line end, its last event with or without a blank line, is what is parsed, multi-line data and foreign lines included, but for white space in front |
| Framing.DataKeptExactly | src/mshkn/services/sse.py:39 | data written after one space is kept whole exactly when it begins with no white space |
| Framing.FramedStreamIsReassembled | src/mshkn/services/sse.py:35-110 | from text to message |
| Reassembly.Reassemble | src/mshkn/services/sse.py:52-110 | the loop that edits the message in place is the fold of its events, errors included |
| Reassembly.EmittedIsReassembled | src/mshkn/services/sse.py:52-110 | any split of the blocks into deltas after what they start with, interleaved in any order with unknown events, gives the message back, with the last word of the message deltas on stop and usage, whatever follows |
| Reassembly.CutStreamIsRejected | src/mshkn/services/sse.py:104-109 | a prefix without message_stop is rejected |
| Reassembly.EmittedPrefixIsRejected | src/mshkn/services/sse.py:104-109 | every strict prefix of an emitted stream is |
| Reassembly.ErrorIsRaised | src/mshkn/services/sse.py:60-110 | an error event anywhere before the stop is the stream's error, whatever follows |
| Reassembly.StartComesFirst | src/mshkn/services/sse.py:60-110 | nothing but an error can come before message_start |
| Reassembly.OutOfTurnIsRejected | src/mshkn/services/sse.py:66-98 | a block that starts out of turn, or an event about one that has not started, is rejected |
| Reassembly.BadInputIsRejected | src/mshkn/services/sse.py:88-98 | a call whose input is no JSON is rejected as its block stops |
| Reassembly.StartsOver | src/mshkn/services/sse.py:60-66 | a second message_start, with no call left open, begins the message anew |
| Turn.RunCalls | embryo/membrane/loop.py:37-64 | the calls in order up to the turn's cap, a result with its id for each; capped exactly when one would exceed it |
| Turn.CallsCameOut | embryo/membrane/loop.py:50-63 | an unknown tool and a late call are errors that say so, any other gives its handler's result; what is recorded is what is sent, under the call's id |
| Turn.CallsInOrder | embryo/membrane/model.py:140-166 | a completion's calls are its tool blocks, in their order |
| Turn.TextsInOrder | embryo/membrane/model.py:140-166 | its text is its text blocks', in their order, on lines of their own |
| Membranes.StartsNext | embryo/membrane/turn.py:384-452 | a started turn is the next to begin: an authenticated one takes the whole inbox, an anonymous one nothing, and its request is the window retold in order and then this message with what was taken; it waits and the queue with it, or it fails and the queue's turns begin in their order |
| Membranes.PostSendsOrFails | embryo/membrane/turn.py:370-381 | a taken request carries a job never seen and a well-formed conversation and is all that happens; a refused one fails the turn |
| Membranes.EndGivesBack | embryo/membrane/turn.py:603-677 | a failed turn has its drained items back in front of the inbox, any other has delivered them; either is the newest of the last ten |
| Membranes.CloseStartsTheQueue | embryo/membrane/turn.py:603-689 | after a turn the queue's begin in order, until one waits or all have ended |
| Membranes.AnswerEndsOrContinues | embryo/membrane/turn.py:560-600 | an answer ends its turn as its checks say, or runs all its calls and posts their results; no queued message is lost |
| Membranes.SettleReadsOnce | embryo/membrane/turn.py:515-549 | a settled job is read, for the first time, and is pending no more; one in flight or out of reach changes nothing |
| Membranes.EveryCommandSettlesFirst | embryo/membrane/cli.py:80-102 | any command but a wake-up reads the pending job first if that has settled |
| Membranes.ResumeOnlyPending | embryo/membrane/turn.py:499-512 | a wake-up changes something exactly when it names the pending job and that job has settled |
| Membranes.SayQueuesOrStarts | embryo/membrane/turn.py:455-496 | behind a pending turn a message changes nothing but the queue; else its turn alone begins, and waits or has failed |
| Membranes.Membrane.Command | embryo/membrane/cli.py:80-102 | the state stays one that a run leads to, this command added; nothing that happened is rewritten; a crash leaves what was saved |
| TurnRuns.RunKeeps | embryo/membrane/turn.py:384-689 | every run of commands keeps the machine's invariant |
| TurnRuns.ArrivalsBecomeTurnsInOrder | embryo/membrane/turn.py:476-496 | turn k is the k-th message that arrived; the queue is the rest; nothing waits while no turn is pending |
| TurnRuns.WindowIsTheLastTen | embryo/membrane/turn.py:665-677 | the window is the last ten closed turns, numbered consecutively |
| TurnRuns.AnswersAreReadOnce | embryo/membrane/turn.py:499-531 | no job's answer is read twice, and only jobs that were posted are read |
| TurnRuns.StaleResumeDoesNothing | embryo/membrane/turn.py:499-503 | a wake-up for a job already read changes nothing |
| TurnRuns.NoItemIsLost | embryo/membrane/turn.py:400-432 | every item ever added is, in order, delivered by a turn that closed without error, drained by the pending turn, or in the inbox |
| TurnRuns.RequestsAreWellFormed | embryo/membrane/turn.py:188-198 | every request alternates, starts and ends with the user, and answers each tool call by id and in order |
| TurnRuns.RequestsExtend | embryo/membrane/turn.py:342-367 | a later request of a turn extends the earlier ones; turns post in order, each under a newer job |
| TurnRuns.TurnsAreBounded | embryo/membrane/turn.py:560-600 | at most 20 calls and 21 requests a turn; model calls, efforts and offered tools match the requests |
| TurnRuns.PendingTurnIsBounded | embryo/membrane/turn.py:342-367 | so does the pending turn between any two commands |
| Declarations.ReadRequirements | embryo/membrane/declarations.py:142-160 | the loop over verb.requires gives the parsed entries or the first refusal |
| Declarations.ReadPrincipals | embryo/membrane/declarations.py:352-384 | the loop over the grants gives every principal's grant or refuses |
| Patterns.NamesExactly | embryo/membrane/declarations.py:40-41 | which texts are names and namespaces, character by character, a final newline included |
| Patterns.PrincipalsExactly | embryo/membrane/declarations.py:42-43 | so for principals, split at a colon |
| Patterns.PlaceholdersExactly | embryo/membrane/declarations.py:44 | the scan finds exactly the words that stand in double braces |
| RoundTrips.ParseVerbExact | embryo/membrane/declarations.py:177-274 | a document is parsed into a verb exactly when it declares it, absent fields read as their defaults, and the verb is well formed |
| RoundTrips.ParsePolicyExact | embryo/membrane/declarations.py:344-393 | the same for policies, which take no unknown field |
| RoundTrips.ParseProposalExact | embryo/membrane/declarations.py:430-463 | the same for proposals |
| RoundTrips.VerbRoundTrips | embryo/membrane/declarations.py:122-139 | a verb prints to a document that parses back to it exactly when parse_verb can produce it |
| RoundTrips.PolicyRoundTrips | embryo/membrane/declarations.py:336-393 | the same for policies |
| RoundTrips.ProposalRoundTrips | embryo/membrane/declarations.py:410-463 | the same for proposals, under their id |
| RoundTrips.ParsedVerbOk | embryo/membrane/declarations.py:177-274 | what every parsed verb satisfies |
| RoundTrips.ParsedPolicyOk | embryo/membrane/declarations.py:344-393 | what every parsed policy satisfies |
| RoundTrips.ParsedProposalOk | embryo/membrane/declarations.py:430-463 | what every parsed proposal satisfies |
| StateDoc.PendingBack | embryo/membrane/state.py:156-161 | the pending turn survives printing |
| StateDoc.EntryBack | embryo/membrane/state.py:38-55 | a catalog entry survives printing exactly when its verb does |
| StateDoc.TrialBack | embryo/membrane/state.py:72-97 | so does a trial |
| StateDoc.StateReadsExactly | embryo/membrane/state.py:246-267 | a document is read into a state exactly when it declares it, absent parts read as their defaults, and every declaration in it is one its parser accepts |
| StateDoc.StateRoundTrips | embryo/membrane/state.py:211-267 | the saved state reads back as it is, exactly when every declaration in it is one its parser accepts |
| Proposals.PidInjective | embryo/membrane/state.py:198-201 | proposal ids never repeat |
| Common.DecimalReadsBack | embryo/membrane/state.py:198-201 | the number in an id is the one it was made from |
| Ledgers.Ledger.ProposeDoc | embryo/membrane/proposals.py:48-65 | a document adds one pending proposal under an id never used, or is refused and changes nothing; the tables stay those of a run |
| Ledgers.ApprovalDoes | embryo/membrane/proposals.py:99-150 | what each answer means: only a pending proposal that no rule refuses begins or fails its build, alone under its name, or takes effect |
| Ledgers.Ledger.ApproveProposal | embryo/membrane/proposals.py:99-150 | the answer says what the approval did to the tables, which stay those of a run |
| Ledgers.RejectionIsFinal | embryo/membrane/proposals.py:153-164 | what waits is rejected, and no approval or second rejection does anything after it |
| Ledgers.ProvidesOnce | embryo/membrane/proposals.py:167-186 | a name that a verb requires is recorded and told once; any other changes nothing |
| Ledgers.ProvidedOnceAndRequired | embryo/membrane/proposals.py:167-186 | over every run, what was provided for a verb is listed once each, and only what it requires |
| Ledgers.Ledger.DisableVerb | embryo/membrane/proposals.py:189-196 | a verb and its proposal are disabled together and no other moves |
| Ledgers.DisabledNameIsFree | embryo/membrane/invariants.py:86-97 | no proposal is refused for the name of a disabled verb |
| Ledgers.Ledger.RevertProposal | embryo/membrane/proposals.py:199-220 | what is in effect goes back to what it replaced and cannot go back again; the catalog and the inbox are untouched |
| Ledgers.RevertIsOnce | embryo/membrane/proposals.py:199-220 | what is in effect goes back under the one id it was applied by; any other revert changes nothing |
| Ledgers.ToldOnce | embryo/membrane/proposals.py:74-96 | the model is told a proposal's news under its id and title, and the same words once |
| Ledgers.PolledEntries | embryo/membrane/verbs.py:127-151 | a poll settles exactly the builds that are done, whatever its list repeats, and moves no other entry |
| Ledgers.PollTells | embryo/membrane/verbs.py:127-151 | a build that is done settles its verb and its proposal together; a failed one leaves the end of its log |
| Ledgers.PollSaysOnce | embryo/membrane/verbs.py:127-151 | the model is told how a build ended, and not again |
| Ledgers.Ledger.Poll | embryo/membrane/verbs.py:127-151 | the loop over the catalog's builds does so, and keeps the tables those of a run |
| ProposalRuns.BornPending | embryo/membrane/proposals.py:48-65 | whatever a document says, its proposal is born pending and unbuilt; it is refused exactly when it does not parse or names one to supersede that is not of its kind and verb name |
| ProposalRuns.RunKeeps | embryo/membrane/proposals.py:99-220 | every run of commands keeps the tables' invariant |
| ProposalRuns.CatalogAgreesWithProposals | embryo/membrane/proposals.py:99-196 | entries agree with their proposals on verb, status and recipe; verbs are local or read and assert nothing reserved, whatever policy was hatched |
| ProposalRuns.LivePolicyStands | embryo/membrane/invariants.py:47-72 | a live policy is the hatched one, or names only hooks of the catalog, opens no door without one and lets anonymous propose nothing |
| ProposalRuns.OneLiveProposalPerVerb | embryo/membrane/proposals.py:126-134 | at most one proposal per verb is building or ready, and it is the catalog's |
| ProposalRuns.RefusePolicyExact | embryo/membrane/invariants.py:47-72 | a policy is refused exactly for its door, its hooks or its grant to anonymous |
| ProposalRuns.RefuseVerbExact | embryo/membrane/invariants.py:75-111 | a verb is refused exactly for its effect, its namespace, its name or the live hook it breaks, and the reason given is so |
| ProposalRuns.RefuseApprovalExact | embryo/membrane/invariants.py:75-113 | a verb for a verb's reasons, a policy for a policy's, a prompt never |
| ProposalRuns.RevertKeepsHooksExactly | embryo/membrane/proposals.py:199-208 | a revert leaves fitting hooks exactly when approval's hook check would pass on the restored policy |
| ProposalRuns.GuardedRunsKeepHooks | embryo/membrane/invariants.py:75-112 | on runs whose reverts are guarded, or with none, every live hook asserts a namespace and takes one parameter |
| ProposalRuns.RevertUndoesApproval | embryo/membrane/proposals.py:136-150 | approving a policy and reverting it restores the one before |
| ProposalRuns.RevertUndoesPrompt | embryo/membrane/proposals.py:143-220 | the same of a self-description |
| ProposalRuns.ReachableStatesReadBack | embryo/membrane/state.py:211-267 | every reachable state is saved and read back as it is |
| Saving.SavingChangesNoRun | embryo/membrane/cli.py:80-102 | a load before and a save after every command leave the document that the commands alone would |
| RevertedHook.RevertCanBreakALiveHook | embryo/membrane/proposals.py:199-208 | a run after which a revert leaves a live hook that asserts nothing |
| Offering.OffersAreBounded | embryo/membrane/offering.py:24-46 | built-ins go by principal alone, proposing never to anonymous, and anonymous gets only what the policy grants it |
| Offering.OffersExactly | embryo/membrane/offering.py:24-46 | for every principal, policy and catalog, what is offered: two built-ins unless anonymous, two more if it may propose, and each ready verb with a recipe that the policy or, where that is silent, the verb lets it run |
| Offering.OfferedVerbsWereApproved | embryo/membrane/offering.py:39-45 | an offered verb is local or read and runs the recipe of a ready proposal |
| Speak.Undelivered | embryo/membrane/capability.py:1737 | the events to deliver: each once, none delivered before |
| Speak.UndeliveredInOrder | embryo/membrane/capability.py:1737 | in the order they were seen |
| Speak.Driver.SettleRepairs | embryo/membrane/capability.py:1609-1702 | repairs while one is owed, worded and in budget, and then none is due |
| Speak.Driver.Settle | embryo/membrane/capability.py:1706-1753 | exactly the repairs and continuations that are due, each continuation through its row's door and carrying the results not delivered before, until none is due |
| Speak.Driver.AskAgain | embryo/membrane/capability.py:1807-1833 | after each policy change one round that asks again exactly the turns it made answerable, in order; the backwards goto ends |
| Speak.Driver.AskRound | embryo/membrane/capability.py:1807-1833 | one such round: a re-ask in budget through the row's door, and its settling |
| Speak.Driver.SpeakRows | embryo/membrane/capability.py:1835-1846 | the turns are the rows' own, in order, with nothing between them |
| Speak.RowsAddUp | embryo/membrane/capability.py:1755-1774 | every turn belongs to a row |
| Speak.Speak | embryo/membrane/capability.py:1609-1846 | the driver stops, and the turns it spoke are exactly those due, in order; at most 15 for a public row and 7 for a root row, and no result is delivered twice |
| Capabilities.Sorter.Visit | embryo/membrane/capabilities.py:346-358 | the walk keeps the list sorted and closed, and every error it raises is true |
| Capabilities.Order | embryo/membrane/capabilities.py:339-361 | exactly what is reachable, each once, dependencies first, the name last; with none missing, an error exactly on a reachable cycle |
| Capabilities.SortedHasNoCycle | embryo/membrane/capabilities.py:346-358 | nothing on a cycle can be sorted |
| Capabilities.SortedIsClosed | embryo/membrane/capabilities.py:353-358 | a sorted list holds all that its members reach |

## Left out

- Merge.ThreeWayMerge: the traversal of the host's directories is taken as its result, md5 as injective, and modes, device nodes and empty directories are not tracked.
- Computers.UndestroyedShareNothing: assumes database writes succeed and that no row is claimed before its bring-up, or the abandoning of it, has returned; without the second it fails (Computers.EarlyClaimSharesASlot).
- Computers.ReleasedOnceAndLast: a removal that fails or is interrupted counts as tried; what it leaves behind is marked stuck.
- Teardowns.PassIsARun: the status update and the slot release are taken to succeed, as every database write is.
- Cleanup.CleanupPass.Steps: the interruption that gather itself re-raises after its steps ended is not modelled apart from theirs.
- LinearChain.NewHeadsFollowTheHead: holds while heads stand at their checks; one account, and timestamps in the order of insertion.
- LabelChain.ExclusiveAdmission: one account; the deferred queue's drain, which forks without the check, is a shared fork.
- SshPool.PooledIsFresh: which idle connections are probed is a choice, since last-used times are not modelled; nor is closing the pool.
- Relay.Life: one attempt's HTTP work is a nondeterministic outcome; the response's headers and body are not kept. The delivery is decided when the process that settled the job survived; a restart takes up unsettled rows only, so a death between settling and delivering leaves the delivery pending, and the model's rows say so.
- Reassembly.EmittedIsReassembled: events are typed, so a negative index or a field of the wrong JSON type does not arise.
- Framing.ParseEvents: JSON decoding is a function of the payload.
- Turn.RunCalls: a handler's effects on trials and proposals are not part of this model; its result is an argument.
- Membranes.CloseStartsTheQueue: memory, usage totals, hook runs' contents and the printed audit line are left out, and a reply is kept as its parts, not as one text.
- Membranes.StartsNext: the set of principals ever seen is left out, and the user text is kept as its parts.
- TurnRuns.AnswersAreReadOnce: counts what committed commands read; a crashed command saves nothing and its tool calls may run again.
- Declarations.ReadPrincipals: JSON objects have no order here, so which of several refusals comes first is not stated, nor is any refusal's wording.
- RoundTrips.VerbRoundTrips: an effect or a status that is no text is a refusal here, where a list raises TypeError in Python.
- Saving.SavingChangesNoRun: what the turns do to the rest of the state between the commands is arbitrary; the turn machine's own state is an abstraction of that rest (typed messages and replies, where the document keeps JSON and text), so no theorem carries its pending turn through the document.
- StateDoc.StateReadsExactly: plain fields are typed, so a document of another shape is refused where Python would carry it on; the atomic file replacement is one step.
- Ledgers.Ledger.ApproveProposal: how a refusal is worded is an argument, and of the printed answer only its kind is kept.
- Speak.Speak: why a repair is owed, what an approval provides and which words a policy change makes answerable are arbitrary functions of the turns spoken so far.
- Host calls (dmsetup, Firecracker, Docker, rclone, Caddy, SSH transport), HTTP routes, metrics, rate limits, scopes and alerts: steps that succeed or fail, or nothing.
- The deferred queue's liveness, deadlines and fairness: time is a choice.
- Recipes, ingress rules, trials' own runs and the effort ladder: they would add easy members.

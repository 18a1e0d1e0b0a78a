# metiq: verified models of the hard parts

metiq is an agent runtime: a command-line client (`cmd/metiq`), a daemon (`cmd/metiqd`) and some
maintenance scripts. This project models the parts of it whose correctness is not obvious from the
code, in Dafny 4.11, and proves what they are for. `dafny verify dfyconfig.toml` checks everything.

| file | what it models |
|---|---|
| `EditDistance.dfy`, `Suggestions.dfy` | the two-row edit distance and the "did you mean" list built on it |
| `ConfigCommit.dfy`, `ConfigChecks.dfy`, `ConfigWatcher.dfy` | the commit protocol that keeps one document in a file, a repository and the live store: its runs, its checks, and the file watcher at work beside it |
| `ConfigPath.dfy`, `ConfigTree.dfy`, `ConfigFlatten.dfy`, `Json.dfy` | config paths: parsing, get/set/unset/merge on JSON trees, the flattener |
| `MessageEntry.dfy`, `MessageVerbs.dfy`, `RetryPrompt.dfy`, `RetryRuns.dfy` | message.action: edits, reactions, deletes, the ancestor walk, idempotent retries |
| `ApprovalLedger.dfy`, `ApprovalFields.dfy` | the durable approval registry and its ledger file, and what each operation writes |
| `AcpRouting.dfy`, `AcpChoice.dfy`, `FleetDirectory.dfy`, `AcpTransport.dfy` | choosing an ACP peer from the fleet directory, and a transport to it |
| `RuntimeReload.dfy`, `ReloadEffects.dfy` | the hot-reload reconciler of agent runtimes |
| `ManagedRuns.dfy`, `FallbackLoop.dfy` | agent runs from the shutdown gate to the finalizer, and the attempt loop over runtimes inside them |
| `BlockReplace.dfy`, `PageBatches.dfy` | two script functions: marked-block replacement and page batching |
| `Order.dfy`, `Text.dfy`, `Wrappers.dfy` | the library calls they share: string order, sorting, trimming, decimal numbers |

Code that changes state step by step is a class or a method with loops, proved against a function or
predicate on values; the laws are then lemmas about that function. Protocols are state machines
whose runs are arbitrary sequences of steps, and every call that can fail does so at will.

## What the proofs found

Where a law that the code or its documentation suggests does not hold as stated, the model follows
the code, one lemma exhibits an input, and another says when the law holds.

- **Config commit.** The managed setting `managed_hooks_only` is applied by the live store but not
  enforced on candidates, so a successful commit leaves the repository and the file different from
  the live document exactly when the committed document lacks the flag (`AgreementCanFail`,
  `CommittedAgreesIff`). A non-partial repository failure normally changes nothing, but after an
  earlier partial failure its rollback repairs the file (`RollbackRepairsFile`,
  `NonPartialErrorFrame`).
- **Config watcher.** It makes what it read live without applying the managed settings, so the reload
  of such a file drops the flag (`ReloadCanDropTheFlag`, `MixedRunKeeps`). Only its apply is under the
  commit mutex: a commit after its read is undone in the live store and the repository, and one after
  its apply in the repository (`StaleReadUndoesCommit`, `LatePushUndoesCommit`, `ReloadLeaves`), until
  the next reload (`ReloadHeals`). With it at work two successful puts can expect the same version, and
  a put that failed can set the stored version (`StalePushRepeatsVersion`,
  `ReloadStoresUnwonVersion`); the version rule holds when no put succeeds between its read and its
  push and it reads only what a successful put, or a rollback after one, wrote
  (`OrderlyPutVersionsCount`).
- **ACP.** `README.md:344` says that `auto` prefers nip04 for a peer without metadata; the code tries
  FIPS, then nip17, and nothing else. A peer that advertises nothing is therefore an eligible target
  that cannot be reached when only a nip04 bus exists (`SilentPeerIsStranded`,
  `SilentPeerHasRouteIff`). The directory adds FIPS to the schemes of a peer when a flag enables it, of
  the list or of the peer's own announcement, but the transport resolver reads the announced schemes
  alone: the two disagree exactly when those schemes share no mode with this side and FIPS, enabled by
  a flag, would (`FipsFlagCanMislead`, `SoleEntryAgreesIff`), or, for a peer with several entries and
  no usable announced scheme, when the entries differ in FIPS (`TransportAgreesIff`).
- **Runtime reload.** A repeated reload builds nothing if and only if no two buildable agents share
  an id and differ; blank models do not matter (`TwinsAreRebuilt`, `RepeatBuildsNothingIff`). The
  baseline that startup seeds matches the installed runtimes if and only if no buildable agent's id was
  loaded from a stored document and, for each id, the last agent built is configured like the last
  agent listed (`DocumentMisleads`, `StartIsFaithfulIff`). Without a seeded baseline the first reload
  takes every configured agent to be installed already, and is right if and only if they all are
  (`FirstReloadWithoutBaseline`, `FirstReloadIsFaithfulIff`). The agents RPCs change runtimes behind
  the fingerprints' back, and only a reload that changes the agent repairs that
  (`FaithfulIffUndisturbed`, `RepairedIff`).
- **Agent runs.** With an answer from the k-th fallback the reported reason is always the primary's
  error, while `FallbackFrom` names runtime k - 1: they speak of the same runtime only for the first
  fallback (`ReasonIsThePrimarys`). A refused launch is finished a second time by a caller that
  finishes on every error, with the same record (`RefusedLaunchEnds`); one that fails validation is
  finished by nobody else (`InvalidLaunchEnds`).
- **Approvals.** A resolved record does change if and only if it is the registry's own expiry denial
  and a policy fallback is written over it (`ResolvedRecordCanChange`, `OnlyFallbackRewrites`). A record
  disappears only when a clean-up finds it resolved over an hour ago or among the oldest beyond two
  hundred (`OnlyCleanupRemoves`), and an id can be granted twice only if that happens in between, within
  one millisecond (`GrantedIdsAreDistinct`).
- **Block replacement.** It is idempotent exactly when the end marker does not occur in the rendered
  block above its last line (`MarkerInBlockRepeats`, `ReplaceIsIdempotentIff`); with an empty start
  marker, only if the text also opens with a line break (`EmptyStartRepeats`,
  `EmptyStartIsIdempotentIff`).
- **Config paths.** A printed path reads back exactly when its keys are non-empty, hold no dot and no
  opening bracket, its indices fit an int, and there is no space at the outer edge of its first or last
  key (`PrintParsesBackIff`).

## Model

| member | source | states |
|---|---|---|
| `EditDistance.MinInt` | cmd/metiq/registry.go:374-382 | the result is one of the values and no value is smaller |
| `EditDistance.Cell` | cmd/metiq/registry.go:362-366 | one cell is the least of insertion, deletion and (free on equal bytes) substitution |
| `EditDistance.NextRow` | cmd/metiq/registry.go:359-368 | a turn of the outer loop fills a row that follows the previous one by the recurrence |
| `EditDistance.NextDistRow` | cmd/metiq/registry.go:358-370 | a row that follows the distances of a prefix is the row of distances of the prefix one byte longer |
| `EditDistance.Levenshtein` | cmd/metiq/registry.go:345-372 | the two-row loop returns the length of a shortest insert/delete/substitute script, early returns included |
| `EditDistance.NoShorterScript` | cmd/metiq/registry.go:345-372 | every script that turns a into b has at least the recurrence's length |
| `EditDistance.ShortestScript` | cmd/metiq/registry.go:345-372 | constructs a script of exactly that length |
| `EditDistance.DistIsLeastEdits` | cmd/metiq/registry.go:345-372 | the recurrence is the least number of edits |
| `EditDistance.EditDistanceIsAMetric` | cmd/metiq/registry.go:345-372 | the least number of edits is zero only on equal strings, symmetric, obeys the triangle inequality, and lies between the length difference and the longer length |
| `Suggestions.CandidatesAreTheSuggestible` | cmd/metiq/registry.go:317-323 | the candidates are exactly the visible names within three edits or sharing a prefix, each with its distance |
| `Suggestions.TakeDistinct` | cmd/metiq/registry.go:330-342 | the loop lists distinct names in rank order and stops only at the limit or the end |
| `Suggestions.Suggest` | cmd/metiq/registry.go:309-343 | the nearest `limit` distinct visible names (three when not positive), nearest first then by name; no name left out comes before one listed |
| `Suggestions.SuggestibleIff` | cmd/metiq/registry.go:318-323 | a name can be suggested if and only if a visible command has it and a script of at most three edits leads to it, letter case aside, or one is a prefix of the other |
| `ConfigCommit.ConfigStores.PersistFile` | cmd/metiqd/main.go:9056-9061 | the file is replaced or left alone; without a configured file nothing happens and it succeeds |
| `ConfigCommit.ConfigStores.CommitMutation` | cmd/metiqd/control_rpc_config.go:86-140 | the locked commit, write by write with rollback, refines the pure commit step |
| `ConfigChecks.OutcomeIs` | cmd/metiqd/control_rpc_config.go:86-140 | exactly when a commit is refused, skipped, fails at the file, fails at the repository (partially or not) or succeeds, on the request, the stores and the calls that fail |
| `ConfigChecks.CommittedMeans` | cmd/metiqd/control_rpc_config.go:91-117 | a success means: the base hash is that of the live document, version and event are the stored ones, the document is valid and what the request asks for, and managed layer, permissions, hooks and locked paths are kept where they are managed |
| `ConfigChecks.FailedCheckRefuses` | cmd/metiqd/control_rpc_config.go:91-117 | each check alone refuses, and then nothing is written |
| `ConfigChecks.BaseHashGuards` | cmd/metiqd/control_rpc_config.go:101-103 | over every run, a commit with the hash of a document read earlier succeeds only if the live document is still that one |
| `ConfigChecks.AdmittedIff` | cmd/metiqd/control_rpc_config.go:142-180 | the checks, one by one, against the admission that the commit computes |
| `ConfigChecks.ManagedDocument` | internal/config/managed.go:55-82 | binding settings put their layer and flag into a document and leave version, hooks and body; others change nothing |
| `ConfigChecks.ManagedRules` | internal/config/managed.go:65-72 | which rules and agents apply under managed settings |
| `ConfigChecks.ManagedDefault` | internal/config/managed.go:73-77 | with tool approval required, a blank or "allow" default becomes "ask", and no other default changes |
| `ConfigCommit.ConfigStores.ReloadIfChanged` | cmd/metiqd/control_rpc_config.go:182-194 | live becomes the normalised document; it is reported changed exactly when it differed |
| `ConfigCommit.CommitFrame` | cmd/metiqd/control_rpc_config.go:112-140 | what each outcome leaves in each of the three stores |
| `ConfigCommit.CommitKeepsLiveSettled` | cmd/metiqd/main_trackers.go:88-101 | the live document stays one that Set leaves unchanged |
| `ConfigCommit.EnforcedIsSettledButForTheFlag` | internal/config/managed.go:86-116 | a candidate that passes enforcement is unchanged by the managed layer, if and only if it keeps the hooks flag |
| `ConfigCommit.CommittedAgreesIff` | cmd/metiqd/control_rpc_config.go:121-139 | after a success the three stores agree by hash if and only if the written document keeps the managed hooks flag |
| `ConfigCommit.NonPartialErrorFrame` | cmd/metiqd/control_rpc_config.go:124-132 | a non-partial error never touches repository or live, leaves all three exactly as they were if and only if it did not roll back over a file that already disagreed, and a rollback leaves file and live in agreement |
| `ConfigCommit.RunAgreement` | cmd/metiqd/control_rpc_config.go:86-140 | over every run of commits with arbitrary failures, repository and live agree, and the file too unless a partial failure stands; the next write that reaches the file restores it |
| `ConfigCommit.CommitAgreesIff` | cmd/metiqd/control_rpc_config.go:86-140 | for any normal live document, exactly when one commit leaves each stored copy in agreement with live |
| `ConfigCommit.RunAgreesIff` | cmd/metiqd/control_rpc_config.go:86-140 | over every run of commits, each stored copy agrees with live if and only if the last write that reached it went live unchanged |
| `ConfigWatcher.MixedRunKeeps` | cmd/metiqd/main.go:7220-7245 | over every run of commits, file edits and watcher steps, live stays normal, and the managed settings hold of it if and only if the last event that wrote it was a commit or a reload of a document that carried them |
| `ConfigWatcher.MixedRunAgreesIff` | internal/config/sync.go:206-226 | over every such run, exactly when the repository and the file agree with live |
| `ConfigWatcher.ReloadHeals` | internal/config/sync.go:206-226 | after any such run, an undisturbed reload of a valid file makes file and repository equal and live their normal form |
| `ConfigWatcher.ReloadLeaves` | internal/config/sync.go:206-226 | with any commits and edits after the watcher's read and after its apply: the repository gets what was read, live its normal form unless a commit after the apply succeeded, and the file keeps the last thing written to it |
| `ConfigWatcher.StaleReadUndoesCommit` | internal/config/sync.go:206-221 | a commit between the watcher's read and its apply is undone in live and repository, and kept in the file |
| `ConfigWatcher.LatePushUndoesCommit` | internal/config/sync.go:215-221 | a commit between its apply and its push is undone in the repository, and kept in live and the file |
| `ConfigWatcher.ReloadCanDropTheFlag` | cmd/metiqd/main.go:7225-7231 | a concrete commit and reload after which the managed flag is gone from live |
| `ConfigCommit.AgreementCanFail` | internal/config/managed.go:78-80 | a concrete commit that succeeds and leaves repository and live different |
| `ConfigCommit.OnePut` | cmd/metiqd/control_rpc_config.go:314-330 | a put succeeds only against the stored version it expected and stores the next one; a failed put leaves the repository alone |
| `ConfigCommit.PutVersionsCount` | cmd/metiqd/control_rpc_config.go:142-180 | over every run of puts from an empty repository, the stored version is the number of successful puts and the n-th success expected version n - 1, so no two expected the same |
| `ConfigWatcher.OrderlyPutVersionsCount` | cmd/metiqd/control_rpc_config.go:314-330 | the same with the file watcher at work, when no put succeeds between its read and its push and it reads only what a successful put, or a rollback after one, wrote |
| `ConfigWatcher.StalePushRepeatsVersion` | internal/config/sync.go:221 | a concrete run, otherwise, in which two successful puts expected version 1 |
| `ConfigWatcher.ReloadStoresUnwonVersion` | internal/config/sync.go:206-226 | concrete runs in which no put succeeded and a reload stores a version: of a partial failure's file, or of a rollback's before any success |
| `ConfigWatcher.RollbackRepairsFile` | cmd/metiqd/control_rpc_config.go:124-132 | a concrete non-partial error that changes the file, after a partial one |
| `ConfigPath.ParseSegment` | cmd/metiq/config_cmd.go:428-448 | the inner loop over one segment computes the segment grammar, errors included |
| `ConfigPath.ParseConfigPath` | cmd/metiq/config_cmd.go:418-451 | the parser's loops compute the path grammar |
| `ConfigPath.SegmentThenIndex` | cmd/metiq/config_cmd.go:428-448 | appending a bracketed index to any segment that parses appends that index to its steps |
| `ConfigPath.SplitNewSegment` | cmd/metiq/config_cmd.go:424-427 | appending a dot and a dot-free key appends one part to the split |
| `ConfigPath.PrintParsesBackIff` | cmd/metiq/config_cmd.go:418-451 | a path parses back from its printed form if and only if it is not empty, its keys are non-empty without dot or opening bracket, its indices fit an int, and neither end of the printed path is space |
| `ConfigPath.PrintThenParse` | cmd/metiq/config_cmd.go:418-451 | so every clean path parses back to the same steps |
| `ConfigPath.BlankIff` | cmd/metiq/config_cmd.go:419-422 | the blank-path error is given exactly on a blank path |
| `ConfigPath.HeadTells` | cmd/metiq/config_cmd.go:429-440 | a segment has no index exactly when it has no opening bracket, and an unclosed one exactly when its first bracket is never closed |
| `ConfigPath.PrintIsInjective` | cmd/metiq/config_cmd.go:580-588 | clean paths with the same printed form are equal |
| `ConfigTree.GetPath` | cmd/metiq/config_cmd.go:453-478 | the loop finds what following the parsed steps finds |
| `ConfigTree.SetPath` | cmd/metiq/config_cmd.go:480-519 | when a set succeeds (if and only if the path parses and is settable); then get returns the value; diverging paths never change; a failed set keeps every leaf |
| `ConfigTree.SetSucceedsIff` | cmd/metiq/config_cmd.go:488-519 | a set succeeds if and only if the path exists, or some existing object lacks the next key and only keys remain |
| `ConfigTree.SetThenGet` | cmd/metiq/config_cmd.go:488-519 | after a successful set, get on that path returns the value |
| `ConfigTree.SetFrame` | cmd/metiq/config_cmd.go:488-519 | a set, successful or not, is invisible on every diverging path |
| `ConfigTree.FailedSetKeepsLeaves` | cmd/metiq/config_cmd.go:505-518 | a failed set may create empty objects but keeps every leaf at its path |
| `ConfigTree.UnsetPath` | cmd/metiq/config_cmd.go:521-554 | it succeeds if and only if the path parses, exists and has only keys; then it is absent and diverging paths are unchanged; on failure nothing changes |
| `ConfigTree.UnsetIffPresent` | cmd/metiq/config_cmd.go:532-554 | the same on steps |
| `ConfigTree.UnsetFrame` | cmd/metiq/config_cmd.go:532-554 | diverging paths are unchanged |
| `ConfigTree.MergeMap` | cmd/metiq/config_cmd.go:556-566 | the loop over the patch's keys, in whatever order, computes one merge |
| `ConfigTree.MergeIsIdempotent` | cmd/metiq/config_cmd.go:556-566 | merging the same patch again changes nothing |
| `ConfigTree.MergeDeliversPatch` | cmd/metiq/config_cmd.go:556-566 | every value of the patch that is not an object, nulls and arrays included, is found at its path |
| `ConfigTree.MergeAtTargetLeaf` | cmd/metiq/config_cmd.go:556-566 | a leaf of the target survives if and only if the patch does not reach its path; otherwise the patch decides |
| `ConfigFlatten.Walk` | cmd/metiq/config_cmd.go:571-594 | the recursive walk appends one line per leaf, keys sorted, paths printed as they are extended |
| `ConfigFlatten.FlattenConfig` | cmd/metiq/config_cmd.go:568-598 | for any prefix, the output is sorted and holds exactly one line per leaf |
| `ConfigFlatten.LeavesAreGenuine` | cmd/metiq/config_cmd.go:571-594 | every entry is a leaf of the tree at its path |
| `ConfigFlatten.EveryLeafIsListed` | cmd/metiq/config_cmd.go:571-594 | every leaf of the tree has an entry |
| `ConfigFlatten.LeavesAreDistinct` | cmd/metiq/config_cmd.go:571-594 | no two entries have the same path |
| `ConfigFlatten.FlattenRoundTrip` | cmd/metiq/config_cmd.go:568-598 | for trees with clean keys, printed paths are pairwise distinct and parsing one and looking it up gives its leaf, for exactly the leaves |
| `MessageEntry.CloneEntryMeta` | cmd/metiqd/control_rpc_message.go:195-201 | a new map with the same entries |
| `MessageEntry.Contains` | cmd/metiqd/control_rpc_message.go:215-223 | true exactly when the reaction is in the list |
| `MessageEntry.NextReactions` | cmd/metiqd/control_rpc_message.go:232-258 | adding or removing one reaction, as loops over the actor's list |
| `MessageEntry.ApplyReaction` | cmd/metiqd/control_rpc_message.go:225-264 | only the given map is written; its nested map is replaced by a fresh one, the old one is untouched, the key is present exactly when reactions remain, and nothing else changes |
| `MessageEntry.ReactOnCopy` | cmd/metiqd/control_rpc_message.go:128-138 | clone then apply: the original map and the map nested in it are unchanged, and the copy is the original with the new reactions |
| `MessageEntry.ReactionsAreASet` | cmd/metiqd/control_rpc_message.go:225-264 | the map of lists refines a set of (actor, reaction) pairs under add and remove |
| `MessageEntry.ReactionsStayKept` | cmd/metiqd/control_rpc_message.go:225-264 | lists stay strictly sorted and non-empty |
| `MessageEntry.KeyPresentIffReactions` | cmd/metiqd/control_rpc_message.go:259-263 | the key is present exactly when somebody has a reaction |
| `MessageEntry.TranscriptEntry.Act` | cmd/metiqd/control_rpc_message.go:62-153 | the delete, edit and react verbs, with every call that may fail (the read after a write included), refine the pure step |
| `MessageVerbs.DeleteDeletes` | cmd/metiqd/control_rpc_message.go:63-85 | a delete leaves nothing exactly when none of its calls fails, and otherwise the entry |
| `MessageVerbs.EditEdits` | cmd/metiqd/control_rpc_message.go:87-119 | an edit takes effect exactly on a user's entry with another text when no call fails; to the same text it is no error |
| `MessageVerbs.EditLeaves` | cmd/metiqd/control_rpc_message.go:101-111 | what an edit records: the text replaced, when it was written and replaced, one more revision; every other key stays |
| `MessageVerbs.ReactReacts` | cmd/metiqd/control_rpc_message.go:121-153 | a reaction takes effect exactly when no call made for it fails; only a new one is propagated |
| `MessageVerbs.ReactLeaves` | cmd/metiqd/control_rpc_message.go:128-141 | text, role and time stay, and it is marked as propagated exactly when it is new and went out |
| `MessageVerbs.GoneIffDeleted` | cmd/metiqd/control_rpc_message.go:63-153 | after any sequence of verbs the entry is gone if and only if some delete went through |
| `MessageEntry.StepEffect` | cmd/metiqd/control_rpc_message.go:87-153 | what one verb does to the text history, the reaction set and the role |
| `MessageEntry.RunRefines` | cmd/metiqd/control_rpc_message.go:87-153 | over every sequence of verbs, revisions then current text are the full history of effective texts, and the reactions are the set of pairs |
| `MessageEntry.DeletedStaysDeleted` | cmd/metiqd/control_rpc_message.go:64-85 | no later verb brings a deleted entry back |
| `RetryPrompt.ResolveRetryPrompt` | cmd/metiqd/control_rpc_message.go:389-409 | on every finite parent graph, cyclic or dangling, it terminates with the text of the nearest user entry on the unbounded chain, or the entry's own when there is none |
| `RetryPrompt.CycleRepeats` | cmd/metiqd/control_rpc_message.go:394-398 | once an ancestor recurs, everything further up was already met |
| `RetryPrompt.RepeatEndsSearch` | cmd/metiqd/control_rpc_message.go:395-397 | stopping at a repeated parent loses no user entry |
| `RetryPrompt.MissingEndsSearch` | cmd/metiqd/control_rpc_message.go:399-402 | stopping at an unreadable or absent parent loses no user entry |
| `RetryRuns.RunKeepsInv` | cmd/metiqd/control_rpc_message.go:369-383 | in every interleaving each key maps to its own run, a registered keyed run is mapped or about to be, and launches equal expiries plus the run registered now |
| `RetryRuns.LaunchesAreBounded` | cmd/metiqd/control_rpc_message.go:365-383 | launches per key are at most one more than its expiries, and all replies for a key name one run |
| `RetryRuns.RegisteredRunIsReplayed` | cmd/metiqd/control_rpc_message.go:372-376 | while a key's run is registered, the look-up can only replay it |
| `RetryRuns.BeginIsFresh` | cmd/metiqd/control_rpc_message.go:377-381 | Begin never replaces a registered run |
| `RetryRuns.OnlyExpiryRemoves` | cmd/metiqd/runtime_semantics.go:707-726 | nothing else takes a run out of the registry |
| `RetryRuns.RetryRegistry.EvictStale` | cmd/metiqd/control_rpc_message.go:413-419 | exactly the mappings whose run is registered stay, as steps of the machine |
| `RetryRuns.RetryRegistry.RetryKeyed` | cmd/metiqd/control_rpc_message.go:369-383 | one undisturbed keyed retry is a run of the machine: it replays exactly when the mapped run is registered, else registers the key's run |
| `ApprovalLedger.ReadLedger` | cmd/metiqd/approval_owners.go:43-77 | the loading loop computes the ledger's records, refusing a wrong version or an unknown owner |
| `ApprovalLedger.Encode` | cmd/metiqd/approval_owners.go:100-114 | the document written lists every record once, by request time then id |
| `ApprovalLedger.LoadReadsLedger` | cmd/metiqd/approval_owners.go:32-78 | any ledger so written loads and gives back the same records and policies |
| `ApprovalLedger.ApprovalIdIsInjective` | cmd/metiqd/approval_owners.go:153 | for one time, different counters give different ids |
| `ApprovalLedger.PassingOne` | cmd/metiqd/approval_owners.go:151-157 | passing a taken id strictly shrinks the ledger ids not yet passed, so the search ends |
| `ApprovalLedger.NextCounter` | cmd/metiqd/approval_owners.go:150-158 | the first unused counter above the current one |
| `ApprovalLedger.ApprovalsRegistry.NextApprovalID` | cmd/metiqd/approval_owners.go:150-158 | the loop ends, with an id absent from the ledger and the counter on the first unused value |
| `ApprovalLedger.ApprovalsRegistry.Persist` | cmd/metiqd/approval_owners.go:96-148 | memory is swapped exactly when the file was replaced |
| `ApprovalLedger.ApprovalsRegistry.Request` | cmd/metiqd/approval_owners.go:160-195 | a request stores one new pending record under a fresh id, or fails and changes only the counter |
| `ApprovalLedger.ApprovalsRegistry.Act` | cmd/metiqd/approval_owners.go:197-293 | every operation, failure and restart is a step of the specification |
| `ApprovalFields.RequestWrites` | cmd/metiqd/approval_owners.go:160-230 | exactly when a request is granted, and the one pending record it adds, field by field, which expires after its timeout |
| `ApprovalFields.ResolveWrites` | cmd/metiqd/runtime_semantics.go:1675-1698 | a reviewer's decision is written exactly for a pending record |
| `ApprovalFields.TerminalizeWrites` | cmd/metiqd/approval_owners.go:270-293 | an expiry denies any record that is not resolved |
| `ApprovalFields.FallbackWrites` | cmd/metiqd/runtime_semantics.go:1703-1729 | a policy fallback decides as it is told, unless a reviewer or a policy has |
| `ApprovalFields.PolicyWrites` | cmd/metiqd/runtime_semantics.go:1630-1668 | a policy change is the one asked for, and touches no record |
| `ApprovalFields.CleanupOnlyDenies` | cmd/metiqd/runtime_semantics.go:1583-1591 | a clean-up changes nothing but overdue requests, and those it denies |
| `ApprovalFields.CleanupOnlyRemoves` | cmd/metiqd/runtime_semantics.go:1577-1609 | it removes a record that is not stale only when more than two hundred such are there |
| `ApprovalFields.CleanupLeavesNone` | cmd/metiqd/runtime_semantics.go:1577-1613 | once written it leaves no overdue request, no stale record and no more than two hundred |
| `ApprovalFields.ApprovedBySomebody` | cmd/metiqd/runtime_semantics.go:1675-1729 | over every run, an approved record was approved by a reviewer who decided so or by a policy fallback that allows it |
| `ApprovalFields.LedgerIsInOrder` | cmd/metiqd/approval_owners.go:109-114 | records are listed by request time, then id |
| `ApprovalFields.LoadRefusesIff` | cmd/metiqd/approval_owners.go:54-74 | a ledger is refused exactly for another version than 1 or a record with an unknown owner |
| `ApprovalLedger.OnlyFallbackRewrites` | cmd/metiqd/runtime_semantics.go:1703-1729 | a resolved record that stays changes if and only if the call is a ResolveFallback on an expiry denial that is written, and then to that policy outcome |
| `ApprovalLedger.ResolvedRecordCanChange` | cmd/metiqd/runtime_semantics.go:1703-1729 | a concrete run from an empty ledger in which a resolved record changes |
| `ApprovalLedger.ApprovalsRegistry.CleanUp` | cmd/metiqd/runtime_semantics.go:1569-1617 | stale records and the oldest surplus go, overdue requests are denied, and nothing is written when nothing changed |
| `ApprovalLedger.SurplusIsOldest` | cmd/metiqd/runtime_semantics.go:1594-1609 | surplus exists only beyond the bound, and is older than every record that stays |
| `ApprovalLedger.OnlyCleanupRemoves` | cmd/metiqd/runtime_semantics.go:1577-1609 | a record disappears only when a clean-up finds it resolved longer ago than the retention time or among the oldest surplus |
| `ApprovalLedger.StepKeeps` | cmd/metiqd/approval_owners.go:160-293 | every step keeps memory equal to what the ledger loads, and preserves every record unless a clean-up removes it or an undurable registry restarts |
| `ApprovalLedger.LedgerSafety` | cmd/metiqd/approval_owners.go:32-293 | over every run of a durable registry: reload succeeds and restores memory; and until it is removed, a record stays, a reviewer's or policy's resolution never changes, and an expiry denial changes only to a policy outcome |
| `ApprovalLedger.GrantedIdsAreDistinct` | cmd/metiqd/approval_owners.go:150-158 | two requests of a run are granted the same id only if a clean-up removed the first record in between, and only at the same millisecond |
| `ApprovalLedger.RestartForgetsUnlessDurable` | cmd/metiqd/approval_owners.go:40-42 | a restart preserves every record if and only if the registry is durable or empty |
| `AcpRouting.NormalizeSchemes` | cmd/metiqd/acp_routing.go:31-58 | the modes that the recognised values stand for, and no other |
| `AcpRouting.AvailableModes` | cmd/metiqd/acp_routing.go:128-158 | exactly the modes that have a bus and that the configured transport allows |
| `AcpRouting.FleetEntryDMCompatibility` | cmd/metiqd/acp_routing.go:164-179 | the early-exit loop answers unknown exactly when no advertised value is recognised, and compatible exactly when some value names a mode with a bus that the configuration allows |
| `AcpRouting.FleetEntryCapabilityCompatibility` | cmd/metiqd/acp_routing.go:288-320 | the early-exit loops compute the set-based test |
| `AcpRouting.BetterIsTotalUpToTies` | cmd/metiqd/acp_routing.go:344-370 | the comparator is asymmetric, and neither is better exactly when all six keys agree |
| `AcpRouting.BetterIsTransitive` | cmd/metiqd/acp_routing.go:344-370 | the six-key comparator is transitive |
| `AcpRouting.BetterIsAStrictWeakOrder` | cmd/metiqd/acp_routing.go:344-370 | it is a strict weak order |
| `AcpRouting.SettleNext` | cmd/metiqd/acp_routing.go:427-431 | one outer turn of the exchange sort settles one more position and only permutes |
| `AcpRouting.ExchangeSort` | cmd/metiqd/acp_routing.go:426-432 | for every strict weak order the result is a permutation with nothing better after anything |
| `AcpRouting.Collect` | cmd/metiqd/acp_routing.go:385-413 | the candidates are exactly the matching directory entries |
| `AcpRouting.BestOf` | cmd/metiqd/acp_routing.go:414-419 | a candidate that no candidate beats |
| `AcpRouting.Scan` | cmd/metiqd/acp_routing.go:433-464 | the first eligible candidate is the best eligible one; otherwise the best of the class whose error is reported, in the order of the reports |
| `AcpRouting.ResolveFleetTarget` | cmd/metiqd/acp_routing.go:380-465 | resolution answers as specified: blank, unknown, direct peer, target, or the reason there is none |
| `AcpChoice.AnswerIsBestOfItsClass` | cmd/metiqd/acp_routing.go:344-370 | the entry answered with is at least as good as every match of its class, key by key: DM reach, capabilities, ACP version, then the lesser name, then the lesser key |
| `AcpChoice.AtLeastAsGoodIsUnbeaten` | cmd/metiqd/acp_routing.go:344-370 | the comparator prefers an entry for no other reason |
| `AcpChoice.RegisteredComesFirst` | cmd/metiqd/acp_routing.go:345-350 | a registered peer is better than one that is not |
| `AcpChoice.ReportIsTheFirstThatApplies` | cmd/metiqd/acp_routing.go:433-464 | a target if any match is eligible, else a registered match's DM failure, else its capability failure, else that none is registered |
| `AcpChoice.ReachablePeerIsChosen` | cmd/metiqd/acp_routing.go:351-355 | of two registered peers of one name the reachable one is chosen over the silent one, wherever they stand |
| `AcpChoice.CapableIff` | cmd/metiqd/acp_routing.go:288-320 | exactly when a peer is capable, or nothing is known of it, by the tools and features it offers |
| `AcpRouting.TargetIsEligible` | cmd/metiqd/acp_routing.go:433-453 | a resolved target is registered and incompatible in neither way, and no better eligible entry matches |
| `AcpRouting.OrderOfDirectoryIsIrrelevant` | cmd/metiqd/acp_routing.go:380-465 | for permuted directories the outcome is the same, up to entries tied in all six keys |
| `AcpTransport.RouteIff` | cmd/metiqd/acp_routing.go:490-542 | there is a route if and only if the target parses and both sides share a mode (or, for a peer that advertises nothing, the blind fallback exists); a route uses a mode both sides have |
| `AcpTransport.RouteIsPreferred` | cmd/metiqd/acp_routing.go:514-541 | in auto mode no preferable usable mode was passed over: FIPS, then nip17, then nip04 |
| `AcpTransport.ErrorTells` | cmd/metiqd/acp_routing.go:490-542 | exactly when each error is given |
| `FleetDirectory.EnsureFips` | cmd/metiqd/nip51_allowlist.go:175-186 | "fips" is among the schemes afterwards, and no other mode was added |
| `FleetDirectory.Directory` | cmd/metiqd/nip51_allowlist.go:141-190 | every listed peer has an entry that advertises what the peer announced, and FIPS when the list or the announcement enables it |
| `AcpTransport.TransportAgreesIff` | cmd/metiqd/acp_routing.go:467-542 | for any entry of a peer in the directory, exactly when the resolver finds a route if and only if the compatibility test promises one |
| `AcpTransport.SoleEntryAgreesIff` | cmd/metiqd/acp_routing.go:467-542 | for a peer's first entry they agree unless FIPS, enabled by a flag of the list or of the announcement, is the one mode in common and the announced schemes lack it |
| `AcpTransport.EligibleTargetHasRouteIff` | cmd/metiqd/acp_routing.go:452 | a target that resolution found eligible, whichever of the peer's entries it is, has a route if and only if there is no such clash; or, without usable announced schemes, if FIPS enabled for the peer's first entry is available, or a blind route exists when it is not enabled |
| `AcpTransport.FipsFlagCanMislead` | cmd/metiqd/nip51_allowlist.go:160-185 | registered, eligible and compatible peers without a route: they announce the scheme nip04, FIPS is enabled by the announcement's flag or by a list, and FIPS is the only bus |
| `AcpTransport.SilentPeerHasRouteIff` | cmd/metiqd/acp_routing.go:514-541 | a peer that advertises nothing is of unknown compatibility, and has a route if and only if a blind one exists |
| `AcpTransport.UnknownPeerNeedsFipsOrNip17` | cmd/metiqd/acp_routing.go:538-541 | with only a nip04 bus in auto mode, a peer that advertises nothing is of unknown compatibility but unreachable |
| `AcpTransport.SilentPeerIsStranded` | cmd/metiqd/acp_routing.go:538-541 | such a peer, registered and eligible |
| `RuntimeReload.Reloader.Fingerprints` | cmd/metiqd/agent_runtime_reload.go:43-51 | the loop computes the fingerprint map, later agents winning |
| `RuntimeReload.Reloader.SeedBaseline` | cmd/metiqd/agent_runtime_reload.go:35-39 | the baseline is the fingerprints of the installed agents |
| `RuntimeReload.Reloader.SweepAgents` | cmd/metiqd/agent_runtime_reload.go:73-104 | the loop over agents refines the sweep and collects the present ids |
| `RuntimeReload.Dropped` | cmd/metiqd/agent_runtime_reload.go:105-112 | absent agents other than main lose fingerprint and runtime, and nothing else changes |
| `RuntimeReload.Reloader.Reprovision` | cmd/metiqd/agent_runtime_reload.go:59-113 | one reload refines the pure reload; with a baseline but no registry it changes nothing |
| `ReloadEffects.AppliedAfter` | cmd/metiqd/agent_runtime_reload.go:74-112 | after a reload exactly those ids have a fingerprint that are configured or main and had one or can be built |
| `ReloadEffects.CacheAfter` | cmd/metiqd/agent_runtime_reload.go:93-112 | an agent that left the configuration loses its runtime with its fingerprint; every other runtime stays unless an agent with its id is built |
| `ReloadEffects.AgentAfter` | cmd/metiqd/agent_runtime_reload.go:80-102 | an agent with its own id gets a runtime of its present configuration exactly when that is not the applied one, it names a model and it builds; main's becomes the default |
| `RuntimeReload.RunKeepsFaithful` | cmd/metiqd/agent_runtime_reload.go:59-113 | over every run of reloads and build failures, each applied fingerprint is that of the installed runtime |
| `RuntimeReload.FaithfulIffUndisturbed` | cmd/metiqd/control_rpc_agents.go:198-263 | over every run of reloads, build failures and agents RPCs, an applied fingerprint is that of the id's runtime if and only if no RPC changed the runtime since a reload last built it |
| `RuntimeReload.RepairedIff` | cmd/metiqd/agent_runtime_reload.go:80-102 | a reload repairs such an id if and only if the agent's configuration differs from the applied one and builds |
| `RuntimeReload.SeedIsFaithfulIff` | cmd/metiqd/agent_runtime_reload.go:35-51 | the seeded baseline is faithful if and only if startup installed, for each reported id, the runtime of the last agent with it |
| `RuntimeReload.FirstReloadIsFaithfulIff` | cmd/metiqd/agent_runtime_reload.go:62-67 | without a baseline, the first reload is faithful if and only if the runtime of the last agent with each id is installed for it |
| `RuntimeReload.FirstReloadWithoutBaseline` | cmd/metiqd/agent_runtime_reload.go:62-67 | so it is not when nothing is installed and an agent other than main is configured |
| `RuntimeReload.Reloader.Provision` | cmd/metiqd/main.go:3137-3252 | the startup loop refines the pure one: which runtimes it installs and which ids it reports |
| `RuntimeReload.StartIsFaithfulIff` | cmd/metiqd/main.go:3137-3252 | startup's baseline is faithful if and only if no buildable agent's id came from a stored document and, for each id, the last agent built is configured like the last agent |
| `RuntimeReload.CleanStartStaysFaithful` | cmd/metiqd/agent_runtime_reload.go:35-113 | from such a start, over every run of reloads and build failures, each applied fingerprint is that of the installed runtime |
| `RuntimeReload.FailedBuildIsRetried` | cmd/metiqd/agent_runtime_reload.go:88-92 | for an agent that shares its id with no other, a failed build keeps runtime and fingerprint and is tried again by the next reload |
| `RuntimeReload.FailedBuildIsRetriedOrServed` | cmd/metiqd/agent_runtime_reload.go:80-92 | for any agent, shared ids included, a failed build changes nothing, and the next reload tries it again unless the runtime installed for the id is the one it asks for |
| `RuntimeReload.RepeatBuildsNothingIff` | cmd/metiqd/agent_runtime_reload.go:59-113 | when all builds succeed, repeating a reload builds nothing if and only if no two buildable agents share an id and differ |
| `RuntimeReload.TwinsAreRebuilt` | cmd/metiqd/agent_runtime_reload.go:74-104 | a concrete configuration that is built again by every reload |
| `RuntimeReload.DocumentMisleads` | cmd/metiqd/main.go:3158-3163 | a concrete start whose baseline is not faithful |
| `ManagedRuns.RunKeepsInv` | cmd/metiqd/agent_run_orchestrator.go:230-285 | in every interleaving of launches, turns, panics, clean-ups and shutdown, each launch fits its job record and what its finalizer received, and the wait group counts the admitted unfinished runs |
| `ManagedRuns.AdmittedRunEnds` | cmd/metiqd/agent_run_orchestrator.go:448-481 | an admitted run that is over had exactly one Finish, with its answer, error, nil-result stand-in or recovered panic; its record says "ok" with the text exactly on an answer, else "error" with the error |
| `ManagedRuns.RefusedLaunchEnds` | cmd/metiqd/control_rpc_agents.go:95-98 | a refused launch is finished with the gate's error, and once more by a caller that finishes on errors, with the same record |
| `ManagedRuns.RecordNamesTheFallback` | cmd/metiqd/agent_run_orchestrator.go:469-471 | the record names the fallback's runtimes and reason exactly when a fallback answered |
| `ManagedRuns.InvalidLaunchEnds` | cmd/metiqd/agent_run_orchestrator.go:231-242 | a launch that fails validation has no finalizer call and no Finish but its caller's, and a begun job stays pending until that |
| `ManagedRuns.RunSucceedsIff` | cmd/metiqd/agent_run_orchestrator.go:468-480 | a run succeeds if and only if some runtime answers and every earlier one is nil or fails retryably; the nil-result exit is never taken |
| `ManagedRuns.ExactlyOneFinalizer` | cmd/metiqd/agent_run_orchestrator.go:254-283 | a finalizer is called at most once, after Finish, and exactly once when the launch is over, however it ended |
| `ManagedRuns.FinalizerGetsTheRecord` | cmd/metiqd/agent_run_orchestrator.go:276-282 | it receives the ended record, or nothing only if the job was never begun or has left the registry; always the record when it was begun and has not expired |
| `ManagedRuns.EveryLaunchCanFinish` | cmd/metiqd/agent_run_orchestrator.go:230-285 | from every reachable state a launch is at most seven steps of its own from its end |
| `ManagedRuns.NoRunAfterClose` | cmd/metiqd/main.go:8146-8153 | after the gate closes no run is admitted, and a drained wait group stays drained with every admitted run released |
| `ManagedRuns.RunController.LaunchManagedRun` | cmd/metiqd/agent_run_orchestrator.go:230-270 | a launch that fails validation touches nothing, a rejected one has finished its job and called its finalizer, a started one is counted; each is a run of the machine |
| `ManagedRuns.RunController.Execute` | cmd/metiqd/agent_run_orchestrator.go:448-481 | whatever the runtimes do, a panic included, one Finish with what the turn amounts to, the turn being that of the fallback loop |
| `ManagedRuns.RunController.Goroutine` | cmd/metiqd/agent_run_orchestrator.go:271-283 | after the execution the finalizer receives the registered record if there is one, and the wait group is released |
| `FallbackLoop.TryEach` | cmd/metiqd/agent_run_orchestrator.go:371-418 | the outcome, labels and reason, or the panic, are those of the one runtime that decides, and exactly the non-nil runtimes up to it were called, in order |
| `FallbackLoop.RunTurn` | cmd/metiqd/agent_run_orchestrator.go:322-325 | the same from a primary and fallbacks; a nil primary is an error and calls nothing |
| `FallbackLoop.OutcomeIsDetermined` | cmd/metiqd/agent_run_orchestrator.go:371-402 | exactly one runtime decides |
| `FallbackLoop.AnswerIff` | cmd/metiqd/agent_run_orchestrator.go:371-402 | there is an answer if and only if some runtime answers and every earlier one is nil or fails retryably |
| `FallbackLoop.FromWasCalledIff` | cmd/metiqd/agent_run_orchestrator.go:378-382 | the runtime named as "from" was called if and only if it is not nil |
| `FallbackLoop.RetriedIsNotBlank` | cmd/metiqd/agent_run_orchestrator.go:287-299 | an error with nothing but space in it is never retried |
| `FallbackLoop.RetryableIff` | cmd/metiqd/agent_run_orchestrator.go:287-299 | an error is retried if and only if one of the seven marks occurs in it, letter case aside |
| `FallbackLoop.DefaultLabelsDiffer` | cmd/metiqd/agent_run_orchestrator.go:483-494 | default labels tell the runtimes apart |
| `FallbackLoop.ReasonIsThePrimarys` | cmd/metiqd/agent_run_orchestrator.go:394-400 | the reason reported with a fallback's answer is the primary's error, while "from" and "to" name the runtimes k - 1 and k |
| `BlockReplace.TextAroundIsPreserved` | scripts/sync-moonshot-docs.ts:15-51 | the output is the text before the line of the first start marker, then start marker, given lines and end marker each on its line after that marker's indentation, then the text after the line of the first end marker from there on |
| `BlockReplace.FailsIffMissing` | scripts/sync-moonshot-docs.ts:21-28 | it fails exactly when the start marker is missing, or the end marker is missing from the first start marker on |
| `BlockReplace.Decompose` | scripts/sync-moonshot-docs.ts:30-37 | `before` is empty or ends a line, and the indentation is the rest of the start marker's line |
| `BlockReplace.BlockShape` | scripts/sync-moonshot-docs.ts:40-46 | the joined block is its indented start marker, terminated lines and last line |
| `BlockReplace.ReplaceIsIdempotentIff` | scripts/sync-moonshot-docs.ts:15-51 | running it again changes nothing if and only if the end marker does not occur in the rendered block above its last line |
| `BlockReplace.EmptyStartIsIdempotentIff` | scripts/sync-moonshot-docs.ts:21-32 | the same for an empty start marker, which also needs the text to open with a line break |
| `BlockReplace.MarkerInBlockRepeats` | scripts/sync-moonshot-docs.ts:40-46 | a concrete text and block that a second run changes |
| `BlockReplace.EmptyStartRepeats` | scripts/sync-moonshot-docs.ts:30-31 | the same for an empty start marker |
| `PageBatches.Push` | scripts/label-open-issues.ts:455-467 | one node is appended, and a full batch is yielded with number, running total and the total then known |
| `PageBatches.PushPage` | scripts/label-open-issues.ts:452-468 | one page contributes its items up to the limit |
| `PageBatches.ReadPage` | scripts/label-open-issues.ts:441-468 | one turn of the outer loop moves the page's items from what is owed to what was read |
| `PageBatches.LatestTotalIs` | scripts/label-open-issues.ts:444 | the total known is that of the last page that announced one |
| `PageBatches.FetchBatches` | scripts/label-open-issues.ts:426-486 | the batches concatenate to the first `limit` items (all of them without a limit) in order, all but the last have exactly 500, numbers are consecutive, each count is the running total and each total the one then known; exactly the pages needed are asked for, each with the cursor the one before it ended with |

## Left out

- Strings are sequences of characters (bytes in `EditDistance`); `strings.ToLower`, `EqualFold`, `ParsePubKey`, `json.Marshal` and the capability look-ups are arbitrary functions passed in; `AcpTransport.NormalKey` says what is needed of them for keys, and `FallbackLoop.KeepsBlank` for blank text.
- SHA-256 hashes, keyed run ids and runtime fingerprints are injective values; normalisation is idempotent and rewrites only the part of a document that nothing else here reads.
- File, repository and ledger writes succeed or fail as a whole, and JSON gives back what was written.
- `ConfigTree.SetPath`: works on values and returns the tree left behind; update in place and aliasing between nested maps are not captured, nor are they in unset and merge.
- `ConfigTree.UnsetPath`: likewise on values.
- `ConfigTree.MergeMap`: likewise on values, so a patch sharing a nested map with the target is not captured.
- `ConfigCommit.RunAgreement`: its runs consist of commits; what holds once the file watcher takes part is in `ConfigWatcher`. A malformed `managed_settings` layer, maps shared between documents, `list.put` and restart scheduling are not modelled.
- `ConfigCommit.RunAgreesIff`: likewise.
- `ConfigCommit.PutVersionsCount`: runs of puts alone; `ConfigWatcher.OrderlyPutVersionsCount` is the statement with the file watcher, and `StalePushRepeatsVersion` shows that it needs its condition.
- `ConfigWatcher.MixedRunAgreesIff`: for a single step of the watcher its condition compares the copies before that step; `ReloadLeaves` says what a whole reload leaves.
- `ConfigWatcher.OrderlyPutVersionsCount`: runs of puts and watcher steps, without edits of the file from outside or other kinds of commit.
- `MessageEntry.TranscriptEntry.Act`: calls on one entry are serialised; lock striping is not modelled.
- `RetryPrompt.ResolveRetryPrompt`: a parent that cannot be read counts as absent.
- `RetryRuns.RunKeepsInv`: unkeyed retries appear as other users of the job registry, and of that registry only Begin, Finish and expiry are modelled.
- `ApprovalLedger.LedgerSafety`: watcher notification is not modelled, and the counter does not wrap at 64 bits.
- `AcpRouting.ResolveFleetTarget`: display names and error texts are not modelled; the outcome says which error it is.
- `RuntimeReload.RunKeepsFaithful`: runs of reloads alone, from a faithful baseline; `StartIsFaithfulIff` says when startup provides one, for one configuration used both to provision and to seed, and `FaithfulIffUndisturbed` takes in the agents RPCs.
- `RuntimeReload.CleanStartStaysFaithful`: likewise runs of reloads alone.
- `ManagedRuns.RunController.LaunchManagedRun`: every launch has its own run id; the configurations without a run mutex or wait group, finalizers that panic and the times in a job record are not modelled.
- `RetryRuns.RetryRegistry.RetryKeyed`: one retry without registry steps between its own; those interleavings are in `RunKeepsInv`.
- `FallbackLoop.TryEach`: the commitment guard is an arbitrary function on the text; telemetry, timeouts, session bookkeeping and panics outside the runtimes are not modelled.
- `BlockReplace.ReplaceIsIdempotentIff`: markers that span lines, and an empty end marker (which occurs everywhere), are outside its scope.
- Flag parsing, output tables, Nostr signing and relays, HTTP, WebSocket and archive handling are I/O and are not modelled; tool allowlists, cron and percentile helpers would add only easy members.

# Verification of dns-update

dns-update keeps the A and AAAA records of one host name equal to the addresses
its egress probes report. This project models that protocol in Dafny, with the
parts it rests on, and proves what each of them promises.

- `Names.dfy` (with `Text.dfy`): the configured host name, its canonical form,
  the zone test, and the name's way to the provider and back.
- `Provider.dfy` (with `Ordering.dfy`): records, operations and the two sorts.
- `Planner.dfy`: the planner and the verifier.
- `Cloudflare.dfy`: the zone as the server holds it, the effect of a batch, the
  regrouping of a plan into a batch.
- `Reconcile.dfy`, `Guarantees.dfy`: what a plan does to the zone, whole and in
  part, in plan order and in batch order.
- `Minimality.dfy`: how short a plan can be.
- `Retry.dfy`, `Collect.dfy`: retryable errors, backoff, and the concurrent
  round of observation.
- `Runner.dfy`: whole runs against a server that may fail any call, list records
  in any order, and carry out any prefix of a batch and still report an error.
- `TokenPath.dfy`: the walk over the directories of a token path, against path
  resolution in a file tree with links.
- `AgentTree.dfy`, `AgentPlan.dfy`, `AgentDocs.dfy`: the file tree with its
  managed region, the plan of the generated documents, and writing and checking
  them.

The goal is stated on the zone and not on what the program computes: `Satisfied`
says that each observed family holds exactly the one record wanted, or none, and
`Emptied` that the selected families are gone. The planner, the verifier, the
batch and the runner are each proved against it. Lists that the source builds or
sorts in place are built by methods with loops over arrays and sequences, each
proved equal to a function about which the theorems speak.

Functions that both the methods and the theorems use are tied down by lemmas whose
names end in `Means`. These state them without naming them: by ASCII codes, by
paths through an error tree, by lines of a text, or by records of the host under
any spelling of its name.

## Assumptions

- Record ids are distinct, and the server mints ids that are not in use. The
  planner's methods are specified for listings without distinct ids as well.
- This program is the only writer (`README.md:66-76`): between its calls the zone
  does not change. A listing by name returns at least the records of that name.
- The server stores what it is sent, and carries out the deletes, patches and
  posts of a batch in that order. A patch without a proxy flag leaves the flag.
- Convergence, the guarantee that a fault-free attempt succeeds, and minimality
  take the proxy option as set, as `recordOptions` always does
  (`internal/provider/cloudflare/records.go:132-135`). Fail-closed, no gap, and
  the soundness of success do not need it.
- The configured name is one that `normalizeFQDN` has accepted.
- The working directory reported by the system is a clean absolute path.
- What is loaded from `docs/agents` is a function of the entries below `docs`: no
  link leads out of there. A source that loads has the slug that `slugPattern`
  demands (`internal/agentdocs/parse.go:10`), so it is a plain path component.
- A cancelled context shows as a failed server call, a failed wait, or the
  cancelled flag of a round of observation.

## Findings

Where a statement one would expect is false of the code, the code is kept, a
concrete input that fails is given, and the exact condition is proved.

- The verifier compares no names and the planner does. A state read back under
  another name can verify and still get a plan (`VerifierIgnoresNames`); nothing
  is planned if and only if the verifier accepts and the names agree
  (`PlannerAgreesWithVerifier`). States read from the provider always agree.
- The plan is not always shortest. Turning a surplus A record into the missing
  AAAA record, or the other way round, saves one operation (`OpportunityArises`).
  `PlanIsShortest` shows that this is the only saving and when it exists.
- The guard at `internal/app/run.go:335` marks the joined probe error only if
  both probes are retryable. The search through the error tree finds a mark below
  the join all the same, so one retryable probe is enough for a retry, with that
  probe's delay (`OneRetryableProbe`, `BothProbesRetry`).
- The backoff loop is not the capped power of two: it is one nanosecond longer
  (`BackoffExceedsPower`), exactly when the doubled delay is one below an odd
  limit (`BackoffIsCappedPower`).
- A Retry-After of more than 9,223,372,036 seconds wraps (`SecondsLost`). What is
  read back is then the wrapped product, or no wait where that is negative
  (`SecondsHonoured`).
- The lexical walk of a token path agrees with the real one, except where it goes
  up again right after an alias below the root (`LeavingAliasDisagrees`).
  Tolerating the alias is sound for every path if and only if its target is a
  directory right below the root (`RootAliasExact`); an alias that dangles or
  names a file is tolerated as well, and fails.
- `NormalizeName` is not idempotent (`TwoFinalDots`). It fails exactly for names
  that, space trimmed, end in a dot behind another dot or a space
  (`NormalizeNameIdempotence`).
- Skills with different slugs can still clash, because the command's name drops
  the prefix `dns-update-` (`NamedApartYetClash`). There is a plan if and only if
  the names of the commands differ (`PlanOutputs`).

## Model

| member | source | states |
|---|---|---|
| `Names.NormalizeFqdn` | internal/config/config.go:178-214 | accepts exactly the spellings of canonical names (any letter case, space around, final dot optional; sizes of RFC 1035 section 2.3.4), returns the name spelled, and is the identity on canonical names |
| `Text.ToLowerMeans` | internal/config/config.go:179 | the lower-case string, by ASCII codes |
| `Text.TrimSpaceMeans` | internal/config/config.go:179 | the one part of a string with space around it and none at its ends |
| `Text.SplitMeans` | internal/config/config.go:193-195 | the one list of parts without the separator that joins to the string |
| `Names.CheckLabel` | internal/config/config.go:196-211 | the loop over one label accepts exactly the valid labels |
| `Names.ValidLabelMeans` | internal/config/config.go:196-211 | the label test, by size and ASCII codes |
| `Names.CanonicalFixed` | internal/config/config.go:178-214 | a canonical name is a fixed point of folding and dotting; a name without final dot is not canonical |
| `Names.LabelsOfSpelling` | internal/config/config.go:195-211 | for a dotted spelling of legal length, canonical means that every label is valid |
| `Names.ZoneContainment` | internal/config/config.go:216-223 | the string suffix test holds exactly when the zone's labels are a suffix of the name's labels (RFC 1034 section 3.1), for all strings |
| `Names.LabelsOfCanonical` | internal/config/config.go:216-223 | the labels of a name spelled from labels are those labels |
| `Names.NormalizeNameIdempotence` | internal/provider/provider.go:430-433 | normalising twice equals normalising once exactly unless the name, space trimmed, ends in a dot behind another dot or a space |
| `Names.TwoFinalDots` | internal/provider/provider.go:430-433 | the name "a.." normalises to "a.", which normalises to "a" |
| `Names.NameRoundTrip` | internal/provider/cloudflare/records.go:124-130 | a canonical name survives normalisation for the provider and back |
| `Names.ReadBackName` | internal/provider/cloudflare/client.go:95-111 | any stored name that passes the read filter is shown under exactly the configured name |
| `Names.FilterMeans` | internal/provider/cloudflare/client.go:95-103 | the read filter passes exactly the spellings of the configured name |
| `Ordering.SortSlice` | internal/provider/provider.go:500-518 | sorting in place by a strict weak order leaves an ordered permutation |
| `Ordering.OrderedUnique` | internal/provider/provider.go:481-518 | two ordered permutations without ties are the same sequence, so an unstable sort has one result |
| `Ordering.StringLessMeans` | internal/provider/provider.go:481-518 | strings are ordered by the first place where they differ, a part before the whole |
| `Provider.RecordOrder` | internal/provider/provider.go:500-518 | the record comparator is a strict weak order that ties only records of one id |
| `Provider.OperationOrder` | internal/provider/provider.go:481-498 | the same for the operation comparator and the ids of the targets |
| `Provider.SortRecords` | internal/provider/provider.go:500-518 | sorts records in place: ordered, and a permutation |
| `Provider.SortOperations` | internal/provider/provider.go:481-498 | sorts operations in place: ordered, and a permutation |
| `Provider.RecordsByType` | internal/provider/provider.go:301-311 | for every listing, the records of the type in an order without inversions; with distinct ids, the one such listing there is |
| `Provider.ByTypeFacts` | internal/provider/provider.go:301-311 | the result is ordered and holds exactly the records of the type, each once |
| `Provider.ByTypeUnique` | internal/provider/provider.go:301-311 | whatever ordered rearrangement of whatever listing order the sort leaves, the result is the same |
| `Planner.BuildTypePlan` | internal/provider/provider.go:327-388 | for every listing, the operations of the specified plan in an order without inversions; with distinct ids, the specified plan itself |
| `Planner.FindKept` | internal/provider/provider.go:354-364 | the scan keeps the first match, or the first record |
| `Planner.TypePlanRepairs` | internal/provider/provider.go:327-388 | the plan deletes all without an address; else creates the missing record, or keeps one record, deletes all others, and updates the kept one only when nothing matched; targets are distinct |
| `Planner.TypePlanInOrder` | internal/provider/provider.go:386-387 | deletions come by ascending ids, the update last |
| `Planner.BuildObservedAddressPlan` | internal/provider/provider.go:213-233 | fails exactly for no family or a CNAME, and names the aliases' targets; else every create and update of type A carries the IPv4 address and of type AAAA the IPv6 address, A before AAAA, planned from some listing of the records; with distinct ids, the specified plan |
| `Planner.BuildDeletePlan` | internal/provider/provider.go:237-257 | fails exactly for no selection; else the deletions of the selected families in an order without inversions; with distinct ids, the specified plan |
| `Planner.DeletePlanTargets` | internal/provider/provider.go:237-257 | the deletions are exactly those of the selected types' records, each once |
| `Planner.DeletionsInOrder` | internal/provider/provider.go:237-257 | A before AAAA, and within a type by ascending ids |
| `Planner.PlanIgnoresListingOrder` | internal/provider/provider.go:213-257 | permuting the provider's records with distinct ids changes neither plan |
| `Planner.PlannerAgreesWithVerifier` | internal/provider/provider.go:213-281 | nothing is planned if and only if the verifier accepts and the names agree; planning fails exactly for no family or a CNAME |
| `Planner.VerifierIgnoresNames` | internal/provider/provider.go:398-428 | a state that verifies and still gets a plan, because of its record's name |
| `Planner.DeletePlannerAgreesWithVerifier` | internal/provider/provider.go:237-298 | the delete plan is empty if and only if the delete verifier accepts |
| `Cloudflare.BuildBatchParams` | internal/provider/cloudflare/records.go:17-58 | the regrouping loop computes the specified batch, or the first unsupported operation's error |
| `Cloudflare.BatchHoldsPlan` | internal/provider/cloudflare/records.go:17-58 | every operation lands in exactly one bucket of the batch |
| `Cloudflare.RefusedMeans` | internal/provider/cloudflare/records.go:23-40 | a batch is refused exactly for an unsupported operation, and the first one is to blame |
| `Cloudflare.BodyMeans` | internal/provider/cloudflare/records.go:60-126 | a record is sent as it is, under the name without its final dot |
| `Cloudflare.CommitPermuted` | internal/provider/cloudflare/records.go:22-43 | steps aimed at different ids give the same zone in any order |
| `Cloudflare.RegroupingPreservesMeaning` | internal/provider/cloudflare/records.go:17-58 | deletes, then patches, then posts leave the zone that the operations leave one by one |
| `Reconcile.ReadFamily` | internal/provider/cloudflare/client.go:89-114 | the records of a type in a state that was read are those of the zone's family, one for one |
| `Reconcile.MatchesMeansCarries` | internal/provider/provider.go:414-428 | on what is read back, matching is equality of address, TTL and proxy flag, with the name test or without |
| `Reconcile.VerifierDecides` | internal/provider/provider.go:262-281 | the verifier accepts what was read if and only if the zone satisfies the goal |
| `Reconcile.SatisfiedMeans` | internal/provider/provider.go:262-281 | the goal in plain terms: no alias under any spelling of the name, and of each observed family one record alone with that family's address, lifetime and proxy flag, or none |
| `Reconcile.EmptiedMeans` | internal/provider/provider.go:284-298 | the goal of a deletion in plain terms |
| `Reconcile.EmptyPlanDecides` | internal/app/run.go:118-130 | the planner plans nothing if and only if the zone satisfies the goal, so leaving without an update is sound |
| `Reconcile.DeletedDecides` | internal/provider/provider.go:284-298 | delete verifier and delete planner both decide that the selected families are empty |
| `Reconcile.PlanRepairsZone` | internal/provider/provider.go:213-233 | every plan from a read is accepted by the batch builder, aims at different records of the zone, and its steps repair each observed family and touch nothing else |
| `Reconcile.AllowedMeans` | internal/provider/provider.go:213-233 | the changes a reconciliation may cause are exactly: removals and patches of the host's records of an observed family, and a post where there is none, with that family's own address |
| `Reconcile.KeptIsLeast` | internal/provider/provider.go:354-376 | the record kept is the one with the smallest id among those that carry the goal, or else among all; exactly the others are deleted |
| `Guarantees.CommitCases` | internal/provider/cloudflare/records.go:22-43 | where a record is after any separate steps that reconciling may cause |
| `Guarantees.RestStays` | internal/provider/provider.go:213-233 | no part of a reconciliation changes a record outside the observed families of the host |
| `Guarantees.KeptStays` | internal/provider/provider.go:354-387 | the kept record survives any part of the steps, untouched if any record of the family carried the goal |
| `Guarantees.NoGapWhileApplying` | internal/provider/provider.go:354-387 | after every prefix of the plan and of the batch, one and the same record of the family is there; if any carried the goal, that one does and is untouched |
| `Guarantees.Converges` | internal/provider/provider.go:213-233 | without a CNAME, steps that repair the zone leave a zone that satisfies the goal |
| `Guarantees.FaultFreeAttempt` | internal/app/run.go:109-151 | from any CNAME-free zone the plan exists, batch and plan leave the same satisfying zone, re-reading verifies, and replanning is empty |
| `Guarantees.DeletePlanClears` | internal/provider/provider.go:237-257 | a delete plan's batch removes exactly the selected records |
| `Guarantees.DeletionClears` | internal/app/run.go:160-190 | carried out in full it empties the selected families; carried out in part it changes nothing else |
| `Guarantees.ForcePushSafe` | internal/app/run.go:194-221 | reached from an empty plan, a force push is at most one update per observed family, aimed at its only record; after any part of it the zone has the same ids, contents, TTLs and options and satisfies the goal |
| `Minimality.StepLowersByOne` | internal/provider/provider.go:390-412 | no change of one record lowers the potential by more than one, nor the cost, unless it moves the record across families |
| `Minimality.RunAtLeastPotential` | internal/provider/provider.go:390-412 | no sequence of changes that reaches the goal is shorter than the potential |
| `Minimality.PlanReaches` | internal/provider/provider.go:327-388 | the planner's own steps are legal, reach the goal, and are as many as the cost |
| `Minimality.ShorterByCrossing` | internal/provider/provider.go:327-388 | with a record to spare in one family and none in the other, a run one step shorter than the plan reaches the goal |
| `Minimality.OpportunityArises` | internal/provider/provider.go:327-388 | a zone of one record in which there is such an opportunity |
| `Minimality.PlanIsShortest` | internal/provider/provider.go:327-412 | the plan is shortest among all runs if and only if there is no such opportunity; it is never longer than shortest by more than one; among runs that keep records in their family it is always shortest |
| `Retry.AfterIsFirstMark` | internal/retry/retry.go:68-75 | the search finds the first mark of the error tree, depth first |
| `Retry.AfterFindsFirst` | internal/retry/retry.go:68-75 | on paths through the tree: the mark found is the one that no marked path precedes, and none is found only if no path is marked |
| `Retry.RetriedMeans` | internal/retry/retry.go:146-156 | an error is retried exactly if it holds a mark, even one that asks for no delay, and attempts are left; the first mark is read back |
| `Retry.Normalize` | internal/retry/retry.go:158-179 | the overwriting of unset fields computes the specified policy |
| `Retry.Normalized` | internal/retry/retry.go:158-179 | for every setting, attempts and delays are positive and the limit is not below the first delay |
| `Retry.NormalizedMeans` | internal/retry/retry.go:158-179 | settings that are given and in order are kept; the others are five attempts, half a second, thirty seconds |
| `Retry.BackoffIsCappedPower` | internal/retry/retry.go:115-124 | the doubling loop is min(limit, initial * 2^n), but for one exactly described case |
| `Retry.BackoffExceedsPower` | internal/retry/retry.go:115-124 | an instance of that case |
| `Retry.BackoffShape` | internal/retry/retry.go:115-124 | it is monotone in the attempt, within one nanosecond of the capped power, and exact for even limits |
| `Retry.JitterBounds` | internal/retry/retry.go:126-131 | jitter keeps at least half of the delay and never adds to it |
| `Retry.JitterEnds` | internal/retry/retry.go:126-131 | random zero keeps half of the delay, one keeps all of it |
| `Retry.WaitBounds` | internal/retry/retry.go:114-139 | for every setting the wait lies between half the delay and the limit and honours Retry-After up to the limit |
| `Retry.Delay` | internal/retry/retry.go:114-139 | in 64-bit arithmetic without overflow, the loop computes that wait, within these bounds |
| `Retry.WaitIsRight` | internal/retry/retry.go:114-139 | the wait in plain terms: the first delay doubled once for each earlier attempt and capped, a random half or more of it, no less than asked for, no more than the limit |
| `Retry.SecondsHonoured` | internal/retry/retry.go:90-104 | for every number of seconds, what a retry reads back is the wrapped 64-bit product or no wait; it is the product exactly as long as that fits, and then the wait is at least as long, up to the limit |
| `Retry.SecondsLost` | internal/retry/retry.go:90-104 | the first number of seconds that wraps is read back as no wait |
| `Retry.WrapMeans` | internal/retry/retry.go:97-101 | the product's 64-bit value is the one that differs from it by a multiple of 2^64 |
| `Collect.SingleProbeRetry` | internal/app/run.go:316-322 | a failed probe is retried exactly when its error is retryable, after the same delay |
| `Collect.BothProbesRetry` | internal/app/run.go:324-339 | with two failed probes, one retryable error is enough; with two the longer delay counts |
| `Collect.OneRetryableProbe` | internal/app/run.go:335-338 | an error that the guard leaves unmarked and the run retries all the same |
| `Collect.FailureMeans` | internal/app/run.go:274-339 | when a round fails, and that its error asks for what the failed read, the cancellation or the probes ask for |
| `Collect.AlwaysConsistent` | internal/app/run.go:241-288 | for every schedule the shared variables are those the goroutines' progress says |
| `Collect.CollectIgnoresInterleaving` | internal/app/run.go:241-307 | for every schedule that returns, the outcome is a function of the three answers, the partial-failure flag and cancellation; success means that both probes have finished and enough succeeded |
| `Collect.SchedulesAgree` | internal/app/run.go:241-288 | two schedules that agree on cancellation have the same outcome; a failed read needs no agreement |
| `Collect.ReturnIsFinal` | internal/app/run.go:274-279 | goroutines that run on after the return cannot change the outcome |
| `Collect.CollectProgresses` | internal/app/run.go:241-288 | until the return some party can move, and no move undoes another |
| `Runner.Client.ReadState` | internal/provider/cloudflare/client.go:89-114 | a successful read lists the host's records of the zone, one for one, under their provider names |
| `Runner.Client.SendBatch` | internal/provider/cloudflare/client.go:127-129 | the server's part: some prefix of the batch is committed, all of it on success |
| `Runner.Client.Apply` | internal/provider/cloudflare/client.go:116-131 | nothing for an empty or unsupported plan, else a prefix of its batch |
| `Runner.FailClosedChains` | internal/app/run.go:58-86 | what each attempt keeps, the run keeps |
| `Runner.SafePartFailClosed` | internal/app/run.go:95-152 | a family can change only if its probe succeeded, and become empty only if its probe said that there is no address |
| `Runner.PlanPartSafe` | internal/app/run.go:137-139 | every prefix of the batch of a plan is safe in this sense |
| `Runner.ForcePartSafe` | internal/app/run.go:118-139 | so is every prefix of a force push |
| `Runner.Runner.Observe` | internal/app/run.go:241-288 | a round yields an observation exactly when it was not cancelled, enough probes succeeded and no call failed, and then the observation and the state read are right |
| `Runner.PlanDue` | internal/app/run.go:110-130 | the operations sent are as many as are due: the cost, or by force one for each address, or none |
| `Runner.AnsweredMeans` | internal/app/run.go:101-116 | the goal of an attempt, stated on its own probes' answers |
| `Runner.Runner.Update` | internal/app/run.go:137-151 | success means that the goal holds and every operation was sent; a failure keeps the mark of the server's error |
| `Runner.Runner.ReconcileOnce` | internal/app/run.go:95-152 | success without dry run means that each probed family holds the address its own probe answered, or none; with that so at the start and no force push nothing is sent, with force push one change for each address, else as many as the cost; every zone on the way is fail-closed; a dry run changes nothing; an error keeps the mark of what failed, and an unobstructed attempt fails only for a fault or an unready probe |
| `Runner.Runner.DeleteOnce` | internal/app/run.go:154-192 | success without dry run means that the selected families are empty after one change for each of their records; nothing else changes at any point; an error keeps the mark of what failed; without a fault it succeeds |
| `Runner.Runner.Wait` | internal/retry/retry.go:141-144 | one wait is recorded, and a wait of no length cannot fail |
| `Runner.Runner.Run` | internal/app/run.go:58-86 | for every policy the run ends within the attempt limit, with one wait between attempts, each right for its attempt and for the first mark of the error before it, and bounded total waiting; it gives up only on an error without a mark or at the limit; every zone it passes is fail-closed; success means that each probed family holds the address its own probe answered last, or that the selected families are gone; the changes of each attempt are as many as are due; every failed attempt of an unobstructed run has an excuse |
| `TokenPath.TokenPathDirectories` | internal/securefile/securefile.go:169-206 | the loop computes the specified lexical directories, from the root or the working directory |
| `TokenPath.ParentPathMeans` | internal/securefile/securefile.go:169-176 | the parent is all of the path up to its last slash |
| `TokenPath.ValidateParentDirectory` | internal/securefile/securefile.go:118-155 | no error exactly when every lexical directory is a real directory or the tolerated root alias, and the last one is not writable by group or others where permission bits count |
| `TokenPath.WalkAgrees` | internal/securefile/securefile.go:118-206 | from any point of an accepted walk, following the raw components reaches the last lexical directory |
| `TokenPath.AcceptedWalkIsReal` | internal/securefile/securefile.go:118-206 | for every path, with any "." and "..", an accepted walk that does not leave a deep root alias by going up ends where path resolution ends |
| `TokenPath.OpenedIsInspected` | internal/securefile/securefile.go:118-206 | following the path as written, up to the file itself, reaches the last directory inspected, and that directory is shared exactly if the check says so |
| `TokenPath.RootAliasExact` | internal/securefile/securefile.go:157-167 | for every root alias, dangling ones included: every accepted walk through it is the real one if and only if its target is a directory right below the root |
| `TokenPath.LeavingAliasDisagrees` | internal/securefile/securefile.go:157-167 | a tree and a path whose accepted lexical walk and real walk end apart |
| `AgentTree.AgentLayoutValid` | internal/agentdocs/generate.go:277-287 | the managed files and roots do not overlap |
| `AgentTree.RegionMeans` | internal/agentdocs/generate.go:277-287 | the managed region, path by path |
| `AgentTree.FirstSymlinkMeans` | internal/agentdocs/generate.go:118-140 | a link with directories above it, or no link on the way, or a file in the way |
| `AgentTree.NewlinesMean` | internal/agentdocs/generate.go:214-220 | two texts are normalised to the same text exactly if they have the same lines up to one carriage return at the end of each |
| `AgentTree.PlainText` | internal/agentdocs/generate.go:334-336 | a text without carriage returns is its own normal form |
| `AgentTree.PathLessMeans` | internal/agentdocs/generate.go:273-274 | paths are sorted as they are written, with slashes |
| `AgentPlan.SkillsClash` | internal/agentdocs/render.go:28-34 | two skills share an output path exactly if their commands have the same name |
| `AgentPlan.NamedApartYetClash` | internal/agentdocs/render.go:96-106 | two slugs that differ and whose commands have the same name |
| `AgentPlan.PlanOutputs` | internal/agentdocs/generate.go:34-53 | there is a plan if and only if no two commands share a name; it holds what is rendered, each path once, inside the managed layout, in the one order that the sort can leave |
| `AgentPlan.PlanMeans` | internal/agentdocs/render.go:18-34 | a plan holds exactly the three root documents, each rendered for its own target, and the three outputs of each skill |
| `AgentPlan.CommandLeafMeans` | internal/agentdocs/render.go:96-106 | the command's name is the slug without its prefix, unless nothing would be left |
| `AgentPlan.DocumentsMean` | internal/agentdocs/load.go:13-47 | the sources are read from below docs as it is, and from nowhere else |
| `AgentPlan.DocumentsKept` | internal/agentdocs/load.go:13-47 | what leaves everything outside the managed region as it was leaves the sources as they were |
| `AgentDocs.Repository.Plan` | internal/agentdocs/generate.go:22-54 | the outputs that the sources in the tree call for |
| `AgentDocs.Repository.FirstManagedSymlink` | internal/agentdocs/generate.go:118-140 | finds the first link that lies on the way to a path |
| `AgentDocs.Repository.ManagedPaths` | internal/agentdocs/generate.go:277-332 | lists, each once and in order, exactly the files and links of the managed region, and fails exactly when a file stands where a managed root should |
| `AgentDocs.Repository.StaleManagedPaths` | internal/agentdocs/generate.go:255-275 | lists, in order, exactly those of them that are no outputs |
| `AgentDocs.Repository.WriteOutput` | internal/agentdocs/generate.go:72-83 | writes one output, never through a link; at most new directories on the way and the file itself change |
| `AgentDocs.Repository.Write` | internal/agentdocs/generate.go:56-85 | on success the region holds exactly the outputs of the sources; outside nothing changes, so the sources call for the same; a second write changes nothing; unless the system refuses an operation it succeeds if and only if there is a plan and nothing is in the way |
| `AgentDocs.Repository.Check` | internal/agentdocs/generate.go:174-227 | reports nothing if and only if the sources have a plan and the region holds exactly its outputs up to line ends; otherwise names every stale path and then each output's own fault with both texts, each part in order |
| `AgentDocs.WriteThenCheck` | internal/agentdocs/generate.go:56-227 | what a successful write leaves is what a check accepts, though the check plans anew |

## Left out

- HTTP, TLS, the Cloudflare SDK with its pagination, JSON and URL parsing: library behaviour; a listing arrives whole or fails.
- Logging, summaries, error texts, CLI flags and printing: no property spans them. Errors keep their tree of wrapping, joining and marking; other error values are reduced to leaves.
- The set of HTTP statuses that are retried, and Cloudflare's TTL rules for proxied records: single-branch checks.
- Retry.JitterBounds: does not model the rounding of float64; the random number is a real in [0, 1], and the product is truncated.
- Retry.Delay: takes the jitter in the same way.
- Parsing of HTTP dates and the clock: a Retry-After reaches the model as a 64-bit span or a number of seconds.
- Unicode case folding and spaces: names are sequences of characters with ASCII rules.
- Parsing and printing of addresses: an address is an opaque string.
- RecordSelection and ObservedFamilies as bytes: modelled as the two family bits and one flag for any other bit.
- Record ids: wrapped in a datatype, compared as the strings they are.
- Windows access lists, the permissions of the token itself, systemd credentials, opening the leaf and trimming the token.
- TokenPath.Lexical: clean absolute paths are lists of components without a volume name, and link targets are split into components already; a link is followed at most 40 times.
- Front matter, the reading of the sources and the texts of the outputs: functions that the model is given. Output paths are clean components below the root, so the guard against ".." in ensureSafeWritePath has nothing to refuse.
- Files other than plain files, directories and links.
- Runner.Runner.Observe: runs the probes and the read one after the other; `Collect.CollectIgnoresInterleaving` shows that the concurrent round has the same outcomes.
- AgentDocs.Repository.Check: what a path behind a link answers is arbitrary, so the report says nothing of such an output beyond the link itself; reading a file that is there does not fail.
- internal/repopolicy, internal/quality, packaging and deployment: text scanning and scripts.

# CardScope: the GPU-hours ledger and its delivery protocol

Agents sample the GPUs of a node, queue each sample on disk and post it to a hub. The hub
integrates neighbouring samples into minute and hour rollups of GPU time. Samples arrive
late, out of order and more than once; raw rows are discarded after 48 hours; agents are
killed and replies are lost. This project models that machinery and proves that the
numbers in the rollups are nevertheless the ones a simple batch computation over all
samples would give.

Check everything with `dafny verify dfyconfig.toml`.

## How the model is laid out

| file | what it holds |
|---|---|
| `Model.dfy`, `Validation.dfy` | snapshots, and the gate in front of the ledger |
| `Amounts.dfy` | the numeric columns of a rollup row, and sums over finite tables |
| `Rollups.dfy` | the contribution of one edge: reference definition by overlap of intervals, and the loop that cuts it at bucket boundaries |
| `Tables.dfy`, `Ingestion.dfy` | the tables as a value, and what one snapshot does to them |
| `Linking.dfy`, `Ledger.dfy`, `Batch.dfy` | what every step keeps, runs, and incremental equals batch |
| `Retention.dfy` | a pruned hub beside one that never prunes |
| `Reports.dfy`, `Meaning.dfy` | what a row says of the uploaded snapshots: a reference that goes through a bucket millisecond by millisecond, and the laws that follow from it |
| `LiveRow.dfy` | the live row of a node, lost cards, and when the node was last heard of |
| `ArrivalOrder.dfy`, `Bounds.dfy`, `EventHistory.dfy` | consequences: order of arrival, what the numbers mean, the events |
| `EqualTimes.dfy`, `RepeatedTime.dfy`, `RepeatedSample.dfy`, `RepeatedRuns.dfy` | two samples at one time: the edges, the difference at one card, a whole sample on any hub, two runs |
| `FailedInventory.dfy`, `EventRetention.dfy` | where other promises end, and exactly when |
| `Hub.dfy`, `Server.dfy` | the hub as classes whose methods update tables in place |
| `Delivery.dfy`, `Queue.dfy`, `Upload.dfy`, `Rounds.dfy` | the protocol, the agent's queue, its uploader, and their rounds as steps of the protocol |
| `Credentials.dfy`, `RateLimiter.dfy` | enrolment, tokens, and the limiter |
| `History.dfy`, `UserStats.dfy` | the readers of the ledger |

The classes carry the code's own form: fields, loops, early returns, a transaction that is
rolled back. Their methods are proved equal to functions of the tables (`Ingestion.Ingest`,
`Ledger.Prune`, `RateLimiter.After`, `Credentials.Step` and so on), and the theorems are
about those functions and about runs of them.

## Reading the statements

- Rollups are compared by their numeric columns, with a missing row read as zero
  (`Rollups.Totals`). Arithmetic is exact: times are integer milliseconds, sums are reals.
- A run is a sequence of `Ledger.Op`: uploads, prunes, registrations of nodes. `Coherent`
  says that within one run of an agent the sample number and the sample time identify each
  other, as they do for an agent that samples serially. `Clocked` says that the hub's clock
  does not run backwards. `Verbatim` says that a sample sent again is the same sample.
- `Retention.Unpruned` is the same run on a hub that never prunes.
- `Reports.Sighting` is one look at a card as an upload told it, and `Meaning.Looks` are those
  of one run of an agent in the order of time. The laws in `Meaning` speak of the fields of
  the uploaded cards and of the times and intervals of the uploads only.
- The backfill mark belongs to the request, not to the sample, because the agent sets it
  anew at every attempt.
- SQL leaves rows with equal times in any order. The lookups here break such ties by the
  sample number; no theorem about runs depends on it, because coherent runs have no ties.
- The hub's clock (`HubTime`) is past the first 25 hours of 1970, so accepted sample times
  are not negative and rounding down to a bucket is unambiguous. `History.Quotient` models
  division towards zero, because query arguments can lead to negative times.

## Where a promise has a condition

- Two samples of one agent run at the same time: the neighbour lookups compare strictly, so
  the stretch before the second is counted twice, and when the second has the earlier number,
  its state displaces that of its twin after it. `RepeatedSample.RepeatedSampleExceeds` gives
  the difference for all cards of the sample, both orders of arrival and any history with
  prunes, `RepeatedSampleIsHarmlessIff` says exactly when there is none, and `RepeatedRuns`
  has a run that counts ten seconds twice and one that loses them.
- Order of arrival: a failed inventory inherits the cards known when it arrives.
  `FailedInventory.FailedInventoryDependsOnOrder` is a run in which its points depend on the
  order, and `FailedInventoryOrderIff` says exactly when they do for any two new snapshots of
  a node. Among complete inventories the order does not matter.
- Events: a hub that has pruned all earlier points of an agent run records a second start,
  and one that has pruned the failed point before a failed one records a second failure.
  `EventRetention.OneStartIff` and `FailuresIff` say that nothing else makes the events differ
  from those of a hub with a full memory. Failure events match the runs of failed
  observations for samples in order; `EventRetention.FailureRunsIff` gives the exact
  condition for any order.
- Minutes are kept for 30 days and hours for 500, so an hour row is the sum of its minute rows
  until a prune reaches them (`Bounds.HourIsSumOfMinutes`).
- Losses in the queue: the count of dropped samples is written after each removal, a failed
  write is ignored, and an agent that cannot read the count starts from zero.
  `Delivery.CountIsExactIff` says exactly when the count is right, from the order of
  evictions, writes and starts alone, `ExactUnlessKilledBehind` that, if it can always be read,
  only a kill while the disk is behind loses any, and `OneLostPerKill` that, if it can always
  be written too, exactly one goes for each kill between removal and write.
  `ACountIsLost` is a run that loses one.
- The limiter admits at most 2 * limit - 1 calls in a minute, and that bound is met.
- An hourly query whose start, cut off at the retention, is not before its end asks for the
  hour before the end. Its row may be gone if the hour in which the range ends began before
  the retention, and for no other query (`History.HoursAreStillThere`, with a query in
  `AskingForTheEdge`).
- The repository's README speaks of events on process changes. The code records starts,
  first failures and missing cards only, and the model follows the code.

## Model

| member | source | states |
|---|---|---|
| Rollups.Contributions | internal/hub/rollups.go:48-97 | The contributions of an edge add up, in every cell, to the overlap of the edge with the bucket times the state of its left point; an edge that is too long gives none; the whole-card rows are those of the cuts, in order |
| Rollups.CutsTile | internal/hub/rollups.go:53-94 | The pieces of an interval lie end to end, each in its own bucket, and cover exactly the interval |
| Rollups.EdgeTouchesFewBuckets | internal/hub/rollups.go:49-57 | An edge that the hub accepts meets at most three minutes and two hours |
| Tables.SetEdgeBalanced | internal/hub/rollups.go:126-152 | Withdrawing the old edge and adding the new one keeps every cell of the rollups equal to the sum over the stored edges |
| Linking.LinkKeepsLinks | internal/hub/ingest.go:98-135 | Wherever in time a point lands, the two edge replacements leave exactly one edge per point that has an earlier neighbour, from its nearest one |
| Ledger.InsertKeeps | internal/hub/ingest.go:34-214 | A snapshot with a new identity is stored without error, keeps the tables sound and exact, forgets no card, and leaves the sample time of its node at the maximum |
| Ledger.OnlyTheGateRefuses | internal/hub/ingest.go:43-125 | On sound tables the lookup of first_seen finds its row and no point clashes: only validation or a missing node refuses a snapshot |
| Ledger.RunKeeps | internal/hub/ingest.go:16-222 | Soundness over every run with any interleaving of prunes, exactness over every run without |
| Ledger.CardsNeverVanish | internal/hub/ingest.go:184-214 | The cards of a node's live snapshot only grow over any run, stay distinct, and each has its row in time |
| Ledger.OnlyFreshReportsCount | internal/hub/ingest.go:215-220 | A node is marked as seen only by a report that was fresh and not backfilled, over every run |
| LiveRow.FreshReportIsSeen | internal/hub/ingest.go:215-220 | A new report that is not backfilled, not older than the live sample and at most two intervals old marks its node as heard of now; no other does, and no other node is touched |
| LiveRow.HeardOfLast | internal/hub/ingest.go:215-220 | Over every run a node was last heard of at the latest such report, or never |
| LiveRow.NewestIsShown | internal/hub/ingest.go:184-214 | A sample newer than the live one is shown as it is, with the known cards that it does not list as lost or, if its inventory failed, as unread; an older one leaves what is shown as it was |
| LiveRow.LossIsRecordedOnce | internal/hub/ingest.go:184-210 | A missing event is recorded exactly when a newer, complete snapshot does not list a known card that was not lost before |
| Batch.IncrementalEqualsBatch | internal/hub/rollups.go:126-152 | After any run without prunes, every cell equals the sum, over the runs of the agent, of the integrals over adjacent points sorted by time |
| Batch.LinksAddUpToBatch | internal/hub/ingest.go:98-135 | The edges between nearest neighbours add up to the sorted, pairwise definition |
| Ledger.CommittedIsIntegrated | internal/hub/ingest.go:67-135 | Over every run without prunes, each card that a stored sample lists has its point, which says of time, interval, status, use, users, utilisation and used memory what the sample said |
| Reports.RunTold | internal/hub/ingest.go:43-97 | Every stored point was told by an upload: what it lists of the card, or, if the inventory failed and did not list the card, that nothing is known |
| Meaning.RowIsOverTime | internal/hub/rollups.go:48-97 | In every run, with prunes, an unexpired row is the sum over the runs of the agent and the milliseconds of its bucket of what the uploads say: the worth of the latest look at the card, if the next look came after at most two intervals |
| Meaning.CommittedIsLookedAt | internal/hub/ingest.go:67-97 | Every sample that the hub has taken in is a look at each card it lists, with its time and interval |
| Meaning.NoUnderCount | internal/hub/rollups.go:48-97 | A bucket that one run of the agent watched throughout, with looks at most two intervals apart that know the use of the card, has its whole length as valid time |
| Meaning.LongGapAddsNothing | internal/hub/rollups.go:49-51 | A bucket between two looks more than two intervals apart gets nothing, for the card or for any user |
| Meaning.ValuesAsReported | internal/hub/rollups.go:66-73 | The integrals of memory and utilisation lie between the least and the greatest value that a successful report gave for the card, times the valid time |
| Meaning.UseIsAsReported | internal/hub/rollups.go:59-65 | A card that every report shows in use is in use for all its valid time, one that none does never; likewise for the attribution to known users |
| Meaning.OnlyUsersHaveTime | internal/hub/rollups.go:76-92 | Nobody has time on a card without a process in some report that knew its use |
| Meaning.UserHasAll | internal/hub/rollups.go:76-92 | A user whom every such report shows on the card has all of its valid time |
| Retention.PruningIsInvisible | internal/hub/prune.go:18-43 | Any interleaving of snapshots and prunes leaves every unexpired cell equal to that of the unpruned run, and to the batch integral over all points ever stored |
| Retention.EveryCell | internal/hub/prune.go:40-41 | The value of every cell of every run, with prunes: an expired cell is empty and never filled again, any other is the batch integral over all points ever stored |
| Retention.CountedOnce | internal/hub/ingest.go:25-33 | An identity that was ever counted is never counted again, even after its row was pruned: the step changes nothing |
| Ledger.RetentionIs | internal/hub/prune.go:18-43 | What a prune leaves, in milliseconds: samples, points and the edges that end at them for 48 hours, minutes and events for 30 days, hours for 500 days |
| ArrivalOrder.OrderDoesNotMatter | internal/hub/ingest.go:98-182 | Two runs with any prunes that take in the same complete snapshots, permuted and repeated, agree on first and last seen times, sample times, every cell that neither has expired, and the samples and points that both keep; if they were last pruned at the same time, on all samples and points, the worth of every edge, and every cell |
| FailedInventory.FailedInventoryDependsOnOrder | internal/hub/ingest.go:43-66 | Why the snapshots must be complete: a run in which a failed inventory leaves a point for a card or not, depending on whether it arrives before or after another snapshot |
| FailedInventory.FailedInventoryOrderIff | internal/hub/ingest.go:43-66 | Any two new snapshots of a node, complete or failed, leave the same points in both orders if and only if, for each that failed, every card that only the other lists is inherited alike: a live card unless only the other brings its first time down to the failed one's, another card unless the other makes it live and has seen it by then |
| RepeatedSample.RepeatedSampleExceeds | internal/hub/ingest.go:67-135 | After any history with prunes, when a sample arrives at the time of another of the same agent run, in either order of their numbers: every unexpired cell is the batch integral over all points ever stored plus, for each card that both have, the stretch before once more and, when the earlier number arrives last, the stretch after with its state in place of its twin's |
| RepeatedSample.RepeatedSampleIsHarmlessIff | internal/hub/ingest.go:67-135 | Such a sample leaves every unexpired cell equal to the batch if and only if for each of its cards, for the later number, the stretch before counts for nothing, and for a late earlier number with a point after it, the stretches before and after it come to its twin's for every user, and lie in one minute unless the first is nothing |
| RepeatedRuns.ARepeatCountsTwice | internal/hub/ingest.go:98-122 | A run of three reports, the last at the time of the second: the hour has ten seconds of use too many |
| RepeatedRuns.ALateTwinLoses | internal/hub/ingest.go:108-135 | A run in which an earlier number arrives last, at the time of the first report and with the card not queried: the hour lacks ten seconds of use |
| Bounds.HourIsSumOfMinutes | internal/hub/rollups.go:53-94 | In every run, with prunes, each hour row is the sum of its sixty minute rows, in every column, for the card and for every user, until a prune reaches the minutes |
| Bounds.RowsInOrder | internal/hub/rollups.go:59-92 | In every row of every run, with prunes: 0 <= occupied <= occupancy_valid, 0 <= attribution_valid <= occupancy_valid, 0 <= weighted <= util_valid, despite the signed updates |
| Bounds.NoOverCount | internal/hub/rollups.go:59-92 | In every run, with prunes, an unexpired row is the sum of one part per run of the agent, and no part holds more than the length of the bucket of any kind of valid time |
| Bounds.UserRowWithinCardRow | internal/hub/rollups.go:77-92 | In every run, with prunes, no user is counted on a card for longer than the card was in use |
| Bounds.UsersCoverCard | internal/hub/rollups.go:59-91 | In every run, with prunes, the users together account for at least occupied - (occupancy_valid - attribution_valid) of the card |
| EventHistory.OneStartEach | internal/hub/ingest.go:136-159 | Without prunes: exactly one start event per card and run of the agent, at the time of its earliest point, for any order of arrival |
| EventRetention.OneStartIff | internal/hub/ingest.go:136-159 | With prunes: at every moment the one start, at the time of the earliest point ever, as long as events are kept, if and only if no new snapshot ever listed the card when all earlier points of its run had been pruned |
| EventHistory.OneFailurePerRun | internal/hub/ingest.go:160-173 | Without prunes, for samples in order: as many failure events as maximal runs of failed observations |
| EventRetention.FailuresIff | internal/hub/ingest.go:160-173 | With prunes, in any order: at every moment the failures are those of a hub that never prunes, as long as events are kept, if and only if no failed observation ever came when the failed one before it had been pruned |
| EventRetention.FailuresAreRuns | internal/hub/prune.go:18-43 | With prunes, for samples in order and under that condition: one failure per maximal run of failed observations among all points ever stored, as long as events are kept |
| EventRetention.FailureRunsIff | internal/hub/ingest.go:160-173 | In any order of arrival, without prunes: at every moment a card has as many failures as maximal runs of failed observations, if and only if each point that ever came before a failed one left it as it was, beginning a run or not |
| EventHistory.StorePointFailuresIff | internal/hub/ingest.go:160-173 | Inserting a point anywhere keeps failure events and runs matched if and only if the point after it begins a run exactly as before |
| Validation.Validate | internal/hub/validation.go:13-76 | The checks with their loops pass exactly the acceptable snapshots |
| Validation.GateOnTime | internal/hub/validation.go:19-20 | An acceptable snapshot stays so with another time exactly from 25 hours back to half a minute ahead |
| Validation.GateOnCards | internal/hub/validation.go:50-68 | A card is let in exactly with texts and values within their bounds, and no card twice |
| Validation.GateOnSystem | internal/hub/validation.go:32-49 | The machine's values, networks, disks and devices are let in exactly within their bounds |
| Validation.GateOnProcess | internal/hub/validation.go:69-73 | A process is let in exactly with a positive number and texts and memory within their bounds |
| Hub.Hub.ApplyContributions | internal/hub/rollups.go:100-124 | Every cell rises, or falls, by what the list adds up to there |
| Hub.Hub.ReplaceEdge | internal/hub/rollups.go:128-152 | The tables become those of the edge replacement: what was stored is withdrawn, the new edge is added |
| Hub.Hub.StorePoint | internal/hub/ingest.go:98-182 | Neighbour lookups, insertion, both edges, events and the card's row, as one function of the tables |
| Hub.Hub.Ingest | internal/hub/ingest.go:16-222 | The transaction takes the whole snapshot in, as the specification says, or leaves every table as it was |
| Hub.Hub.Prune | internal/hub/prune.go:11-50 | The deletions leave exactly the recent rows and keep the totals of discarded edges |
| Server.Server.Snapshots | internal/hub/snapshots.go:10-43 | Each answer exactly when: 401 without a bearer, 429 when its 600 calls are used up, 400 for a missing, foreign or unacceptable body; on a sound ledger 200 in the remaining case, which commits the snapshot and keeps the ledger sound; any other answer leaves it unchanged; the counter moves for every bearer |
| Server.Server.CreateNode | internal/hub/node_service.go:44-58 | A new node appears with its code and with an empty ledger row, or nothing changes; the secrets stay distinct and the ledger sound |
| Delivery.NothingLostSilently | internal/agent/agent.go:20-76 | At every moment of every run each enqueued sample is queued, or committed, or evicted, and the evictions are the count of dropped samples plus what restarts have lost of it: at each, the count in memory less the count that the agent starts with |
| Delivery.CountIsExactIff | internal/agent/agent.go:39-42 | In every run, with failed writes and reads of the count: it is exact if and only if the order of evictions, writes and starts says so, where an eviction outdates the disk, a write brings it to what memory has, and a start takes what it can read, or zero |
| Delivery.ExactUnlessKilledBehind | internal/agent/queue.go:32-36 | If every start can read the count, it is exact if and only if the agent was never killed while the disk was behind |
| Delivery.OneLostPerKill | internal/agent/queue.go:32-36 | If the count can also be written every time, the evictions exceed it by exactly the kills between a removal and the write |
| Delivery.ACountIsLost | internal/agent/queue.go:32-36 | A run that loses one, with a kill before the write or after it failed |
| Delivery.AgentIs | internal/agent/agent.go:33-69 | The running agent numbers its samples from one, a request is under way from its post until it is handled or lost, and a sample is queued until it is evicted or deleted after its confirmation |
| Delivery.DeletedWasCommitted | internal/agent/upload.go:59-62 | The uploader deletes only files whose samples the hub has committed |
| Delivery.EffectivelyOnce | internal/agent/upload.go:42-63 | Over runs with lost replies, retries, restarts and prunes on both sides, every unexpired cell is the batch integral over all points ever stored; these belong to committed samples, and every committed sample of the agent has left its own as it was enqueued |
| Delivery.RetryChangesNothing | internal/hub/ingest.go:25-33 | Handling the request of a committed sample again leaves every table as it was |
| Queue.Disk.PruneQueue | internal/agent/queue.go:12-40 | The walk leaves the files that the specification keeps, the count rises by the number of files removed, and the disk has the count of the last write that succeeded |
| Queue.DiskIsCurrentIff | internal/agent/queue.go:32-36 | The disk has the count that is returned if and only if the last write succeeded, or none did and it held that count before |
| Queue.PruningIsMinimal | internal/agent/queue.go:22-37 | When ages fall along the names, exactly the shortest prefix of samples goes after which both limits hold, or all samples |
| Queue.GoneFor | internal/agent/queue.go:22-33 | A file goes only if it is a sample that can be read and removed and is older than 24 hours, or the files left at its turn exceed 100 MB |
| Queue.KeptFor | internal/agent/queue.go:22-33 | A file stays only if it is no sample, or cannot be read or removed, or is at most 24 hours old |
| Upload.Agent.UploadBatch | internal/agent/upload.go:32-65 | The posts are a prefix of the sendable files among the first twenty of the order, end at the first failure, and exactly the confirmed ones leave the queue |
| Upload.AttemptOrderIsPermutation | internal/agent/upload.go:37-41 | The order of attempts is the listing with the newest sample moved to the front |
| Upload.FirstFailureStops | internal/agent/upload.go:59-62 | If a post fails first, exactly the samples before it are removed and it is retained |
| Upload.AllSucceed | internal/agent/upload.go:42-63 | If every post succeeds, every sendable sample among the files tried is removed and no other file |
| Rounds.PruneRound | internal/agent/queue.go:12-40 | A round of pruning is a series of steps of the delivery protocol, and ends with the queue and the counts that the walk leaves |
| Rounds.UploadRound | internal/agent/upload.go:42-63 | A round of the uploader is a series of steps of the delivery protocol, in which exactly the confirmed samples are deleted |
| Credentials.LatestDecides | internal/hub/node_service.go:118-128 | The credentials of a node are decided by the latest act that concerned it, over every run |
| Credentials.NeverBoth | internal/hub/enrollment.go:28-32 | A node never holds a live token and a live code together |
| Credentials.RedeemedOnce | internal/hub/enrollment.go:20-33 | A code is redeemed at most once |
| Credentials.RedeemedInTime | internal/hub/enrollment.go:20-33 | A code is redeemed before it expires, by the node it was last issued for |
| Credentials.AcceptedIsCurrent | internal/hub/snapshots.go:16-31 | An accepted snapshot carries the token of an enrolment of that same node, and no act since has revoked the node or issued it a code |
| Credentials.LiveCodeIsRedeemed | internal/hub/enrollment.go:16-33 | A code that was given, not withdrawn, not used and less than fifteen minutes old is redeemed, and the token given for it is accepted |
| Credentials.TokenStays | internal/hub/snapshots.go:16-20 | A token stays accepted until its node is revoked or issued a code |
| Credentials.Registry.RevokeNode | internal/hub/node_service.go:118-121 | After a revocation no token is borne by the node and no code is redeemable for it; no other node changes |
| Credentials.Registry.IssueCode | internal/hub/node_service.go:123-128 | After a reissue the node bears no token, and exactly its new code is redeemable, for fifteen minutes |
| Credentials.StoredAreDistinct | internal/hub/snapshots.go:16-20 | Over every run with fresh secrets no secret is stored for two nodes, so each lookup has one answer |
| Credentials.Registry.EnrollNode | internal/hub/enrollment.go:16-33 | A live code of 64 characters is redeemed for the one node that holds it, which then bears exactly the new token and no code |
| RateLimiter.Limiter.Allowed | internal/hub/auth.go:43-64 | The sweep loop, the cap and the window, as functions of the table |
| RateLimiter.LessThanTwiceTheLimit | internal/hub/auth.go:43-64 | Any span of a minute admits at most 2 * limit - 1 calls of one key |
| RateLimiter.TheBoundIsMet | internal/hub/auth.go:43-64 | For every limit some run admits that many |
| RateLimiter.TableIsBounded | internal/hub/auth.go:47-56 | The table never exceeds 4097 entries |
| RateLimiter.UnexpiredIsKept | internal/hub/auth.go:47-53 | A sweep never resets an unexpired counter: it keeps its window, and its count changes by calls of its own key only |
| RateLimiter.AdmittedIff | internal/hub/auth.go:43-64 | A call is admitted if and only if at most 4096 counters are left after dropping the expired ones of a larger table, and its key has no open window or calls left in it |
| RateLimiter.OneCall | internal/hub/auth.go:43-64 | What a call leaves: one more call in its window or a new window of a minute; only expired counters go, and all of them from a full table |
| RateLimiter.ModestIsAdmitted | internal/hub/auth.go:43-64 | A key that keeps to its limit in every minute is never refused while the table has room |
| History.QueryRange | internal/hub/history.go:10-29 | The range is aligned outwards to a resolution chosen by age and length, and is never empty |
| History.RangeCases | internal/hub/history.go:11-24 | The range before alignment, case by case: what was asked for, up to now, the last day without a start, cut off at 500 days, one hour where it would be empty |
| History.MinutesAreStillThere | internal/hub/history.go:20-29 | When a query is answered by the minute, no prune so far has taken a minute row from its start on |
| History.HoursAreStillThere | internal/hub/history.go:11-29 | The hour rows from the start of a query on are still there after every prune so far, if and only if the query is not one whose start, cut off at the retention, is not before its end, and whose last hour began before the retention |
| History.AskingForTheEdge | internal/hub/history.go:20-23 | Such a query, one second after the retention began |
| History.Trend | internal/hub/history.go:50-70 | The readings are the buckets from the first stored to the last without hole or repetition, empty exactly where no row stands |
| History.TrendShowsTheLedger | internal/hub/history.go:33-70 | In every run, with prunes, each reading of a trend is that of its ledger cell: the utilisation is absent exactly without valid time, otherwise it is between 0 and 100 and times the valid time gives back the integral; the memory likewise; the coverage is the share of valid time in the bucket |
| History.ReadingsAsReported | internal/hub/history.go:33-70 | Each value of a reading lies between the least and the greatest that a successful report gave for the card, so reports that agree are given back |
| History.CoverageIsBounded | internal/hub/history.go:69 | The coverage of an unexpired bucket lies between 0 and the number of runs of the agent |
| UserStats.GroupUserStats | internal/hub/userstats.go:22-59 | One group per key with user rows, each once, in order, with the hours and cards of all user rows |
| UserStats.GroupingConserves | internal/hub/userstats.go:23-40 | Any listing of the groups has, in total, the hours and card counts of the user rows, each counted once |
| UserStats.GroupIsOneUser | internal/hub/userstats.go:26-39 | A group holds exactly the rows of one node and one user |
| UserStats.ResultIsDetermined | internal/hub/userstats.go:41-58 | Neither the order of the map nor the breaking of ties can change the result |
| UserStats.OrderMeans | internal/hub/userstats.go:53-58 | More hours come first; among equal hours the text of node and user decides |
| UserStats.CoverageIsAShare | internal/hub/userstats.go:42-50 | The coverage of a group lies between the least and the greatest share of valid time in its rows |
| UserStats.CoverageIsFull | internal/hub/userstats.go:48-50 | The coverage is the whole, and no more, where no row falls short of what was expected |

## Left out

- SQLite, HTTP routing, JSON decoding, cookies, bcrypt and CSV: a transaction is one atomic step over maps keyed by the declared primary keys, and a request arrives decoded.
- Rounding of floating-point numbers: the sums are exact, and NaN and infinities do not occur.
- Text columns decided by the last writer (`user_name`, `model`, the names of cards) and the process fingerprint of a point: no number depends on them.
- The order in which a list of contributions is stored: the code walks a hash map, so only the sums are specified.
- Failed removal of an uploaded file: the model removes it; a file that stays is posted again and counted once by `Delivery.RetryChangesNothing`.
- Names, tags and settings of nodes, and the uniqueness of names: text comparison with Unicode case folding.
- Events of missing cards and the sessions table: modelled or pruned in the code, no claim of their own.
- Liveness of delivery: a sample the hub rejects for good can block the backlog until it ages out.
- The statistics query and its coverage columns before grouping: plain sums over rows that `Bounds` describes.
- Hardware collection, the web frontend, schema migration, branding and the service installer.

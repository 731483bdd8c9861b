# RapidPro flow and campaign tasks, modelled in Dafny

This project models the periodic Celery tasks of RapidPro's flow engine
(`temba/flows/tasks.py`) and campaign scheduler (`temba/campaigns/tasks.py`):

- the flow timeout scan, which queues one TIMEOUT_EVENT per overdue run and
  deduplicates by the fingerprint `"<run id>:<epoch of timeout_on>"`;
- the START_MSG_FLOW_BATCH dispatcher, which pops one task, starts a flow
  batch or sends a broadcast batch, and always releases the org's partition;
- the session trim, which deletes ended sessions in batches of 1000 and
  detaches the runs that pointed at them;
- the expiry helpers, which expire due runs, interrupt a flow's runs and
  recompute expiries from the last path step;
- the campaign scan, which groups due event fires by event and splits them
  into chunks of 500. Each chunk is deduplicated against the
  `queued_event_fires` record and pushed to the handler queue of the flow's
  org. Its ids are recorded only after the push succeeds;
- the event-fire trim, which selects at most 100000 fires and deletes them
  100 at a time.

The database is the class `Models.Database`. Its tables are fields that the
tasks reassign:

- tables whose row order a query exposes (runs, sessions, event fires) are
  sequences;
- tables only read by key (orgs, flows, events, broadcasts, messages, flow
  starts) are maps or sets.

Timestamps are integer seconds. "Now", the trim thresholds and the flow's
expiry period are parameters.

The Redis helpers are modelled as two classes:

- `Queues.TaskQueue` holds the pending `(org, payload)` entries, the busy
  orgs and the log of `complete_task` calls. `Push` may fail: the broker's
  answer is a nondeterministic choice.
- `Queues.QueueRecord` holds the set of recorded keys.

Each scanning loop (timeouts, campaign chunks) returns the outcome of every
item: Skipped, Queued or Failed. Its postcondition says that replaying those
outcomes through a specification fold (`ScanTimeouts`, `ScanFires`) gives
exactly the new queue and the new record. The lemmas about the folds hold
for every pattern of accepted and refused pushes.

In a BROADCAST_BATCH task, the summary line after the send reads
`broadcast.id` and `kwargs["urn_ids"]`. When the broadcast is missing for the
org, `broadcast` is None and the task raises
(temba/flows/tasks.py:171-174). `FlowBatches.Dispatch` models this as
written, through the `raised` flag. `StartMsgFlowBatch` shows that
`complete_task` still runs exactly once.

## Model

| member | source | states |
|---|---|---|
| FlowTimeouts.OverdueRunsAreTheTimedOutRuns | temba/flows/tasks.py:79-80 | every row the timeout scan loads is an active run of an org without the flow server whose `timeout_on` is at or before now, and every such run is loaded |
| FlowTimeouts.OverdueRunsDistinct | temba/flows/tasks.py:79-80 | with unique run ids, the scan never loads two rows of one run |
| Fingerprints.DecimalRoundTrip | temba/flows/tasks.py:82 | reading back the decimal digits `%d` writes for a natural number gives the number |
| Fingerprints.IntStringInjective | temba/flows/tasks.py:82 | two integers with the same `%d` text are equal |
| Fingerprints.FingerprintInjective | temba/flows/tasks.py:82 | equal fingerprints `"%d:%d"` mean equal run ids and equal timeouts |
| FlowTimeouts.ScanRecordsExactlyWhatItPushes | temba/flows/tasks.py:84-93 | the record grows by exactly the fingerprints of the runs pushed; every pushed run was in the scan with a fingerprint not recorded before; no fingerprint is pushed twice |
| FlowTimeouts.RecordedRunIsSkipped | temba/flows/tasks.py:85-86 | a run whose fingerprint is already recorded is skipped, whatever the broker answers |
| FlowTimeouts.NonFailedRunIsRecorded | temba/flows/tasks.py:86-91 | after the scan, every run that was not a failed push has its fingerprint recorded |
| FlowTimeouts.FreshRunQueuedIffPushAccepted | temba/flows/tasks.py:86-93 | a run whose fingerprint was not yet recorded is queued if and only if its own push succeeds, whatever happened to the other pushes |
| FlowTimeouts.FailedRunStaysUnrecorded | temba/flows/tasks.py:87-93 | a run whose push failed is neither recorded nor queued, and the following runs are still scanned |
| FlowTimeouts.RescanPushesNothing | temba/flows/tasks.py:82-86 | rescanning runs whose fingerprints are all recorded pushes nothing and leaves the record unchanged |
| FlowTimeouts.SecondScanSkipsWhatTheFirstHandled | temba/flows/tasks.py:82-93 | a second scan over the same runs skips every run the first one queued or found recorded; when no push failed the first time, it pushes nothing |
| FlowTimeouts.RescheduledRunIsQueuedAgain | temba/flows/tasks.py:82-91 | a run whose `timeout_on` moved after it was queued gets a new fingerprint, so the next scan pushes it again if the broker accepts |
| FlowTimeouts.CheckFlowTimeouts | temba/flows/tasks.py:74-93 | the loop returns one outcome per overdue run; the handler queue grows by the TIMEOUT_EVENT tasks and the record becomes exactly what `ScanTimeouts` gives for those outcomes; nothing else changes |
| FlowBatches.Lookup | temba/flows/tasks.py:144-148 | a falsy id or a missing row gives None; otherwise the row's id |
| FlowBatches.ExistingBroadcasts | temba/flows/tasks.py:142 | a broadcast is passed on if and only if the task lists it and it exists |
| FlowBatches.Dispatch | temba/flows/tasks.py:134-174 | a flow batch is started if and only if the type is FLOW_BATCH (or absent) and the flow exists, is active and is not archived; it gets the task's contacts and extra and the existing broadcasts; it gets the start message (flow start) if and only if the task's id is non-zero and the row exists; a broadcast batch is sent if and only if the broadcast exists for the popped org; the body raises if and only if it is a broadcast batch whose broadcast is missing or whose kwargs lack `urn_ids` |
| FlowBatches.AbsentTypeIsFlowBatch | temba/flows/tasks.py:134 | a task without `task_type` is handled exactly as a FLOW_BATCH task |
| FlowBatches.OtherOrgsBroadcastIsNotSent | temba/flows/tasks.py:166-174 | a broadcast of another org is not sent, and the summary then raises |
| FlowBatches.StartMsgFlowBatch | temba/flows/tasks.py:123-177 | with nothing pending it returns None and changes nothing, so `complete_task` is not called; otherwise it dispatches the oldest task and calls `complete_task` for that task's org exactly once, also when the body returns early or raises, so the busy orgs are as before |
| Queues.TaskQueue.Start | temba/flows/tasks.py:125-129 | `start_task` pops the oldest entry and marks its org busy, or gives no task when the queue is empty |
| Queues.TaskQueue.Complete | temba/flows/tasks.py:177 | `complete_task` releases one busy mark of the org and is logged |
| Queues.TaskQueue.Push | temba/flows/tasks.py:89 | `push_task` either appends the entry to the queue or leaves the queue as it was |
| Queues.QueueRecord.IsQueued | temba/flows/tasks.py:86 | `is_queued` holds if and only if the key is recorded |
| Queues.QueueRecord.SetQueued | temba/flows/tasks.py:91 | `set_queued` adds the keys to the record |
| FlowSessions.EndedIds | temba/flows/tasks.py:210 | an id is listed if and only if some session with that id ended at or before the threshold |
| FlowSessions.TrimBatch | temba/flows/tasks.py:210-212 | one iteration takes the first ended ids in table order: the first 1000 of them, or all of them when there are fewer; it takes none only when no ended session is left |
| FlowSessions.TrimBatchDistinct | temba/flows/tasks.py:210 | with unique session ids, an iteration lists no id twice |
| FlowSessions.Detach | temba/flows/tasks.py:215 | every run is kept and only its session changes; it becomes None if and only if it was None or was one of the deleted sessions |
| FlowSessions.Without | temba/flows/tasks.py:217 | the delete keeps exactly the sessions whose id was not selected |
| FlowSessions.WithoutTwice | temba/flows/tasks.py:209-217 | deleting in two iterations deletes the union of the selections |
| FlowSessions.DetachTwice | temba/flows/tasks.py:209-215 | detaching in two iterations detaches from the union of the selections |
| FlowSessions.WithoutCount | temba/flows/tasks.py:217-218 | with unique ids, deleting k present ids removes exactly k sessions, so `num_deleted` counts the sessions removed |
| FlowSessions.UnendedSessionSurvives | temba/flows/tasks.py:209-217 | a session that had not ended, and whose id no ended session shares, survives the trim |
| FlowSessions.EverythingEndedIsDeleted | temba/flows/tasks.py:209-212 | when an iteration finds no ended session, every ended session's id has been deleted |
| FlowSessions.DeleteSessions | temba/flows/tasks.py:215-217 | one iteration's writes: the runs are detached from the selected sessions, then those sessions are deleted; no other table changes |
| FlowSessions.TrimFlowSessions | temba/flows/tasks.py:203-218 | the loop ends; the sessions left are the old ones minus every session that had ended by the threshold, so none of those remains; the runs are detached from exactly those sessions; `num_deleted` is the number of sessions removed; no other table changes |
| FlowExpiry.ExpiredRuns | temba/flows/tasks.py:65-67 | the due runs are the active runs of orgs without the flow server whose `expires_on` has passed, ordered by `expires_on`; each due row appears exactly as often as the query returns it |
| FlowExpiry.ExitRuns | temba/flows/tasks.py:68 | `bulk_exit` makes inactive, with the exit type, exactly the active runs it is given; no other column or run changes |
| FlowExpiry.ExitRunsIdempotent | temba/flows/tasks.py:68 | exiting the same runs a second time changes nothing |
| FlowExpiry.CheckFlowsLeavesNoneDue | temba/flows/tasks.py:65-68 | after `check_flows_task` no run is due for expiry |
| FlowExpiry.CheckFlowsExitsExactlyTheDueRuns | temba/flows/tasks.py:65-68 | with unique run ids, a run is exited as Expired if and only if it was due; every other run is unchanged |
| FlowExpiry.InterruptibleRuns | temba/flows/tasks.py:104 | the runs selected are exactly the active runs of the flow without an exit type |
| FlowExpiry.InterruptExitsOnlyTheFlowsRuns | temba/flows/tasks.py:104-105 | every selected run is exited as Interrupted; every other run, of this flow or another, is unchanged |
| FlowExpiry.Reexpire | temba/flows/tasks.py:51-54 | only the active runs of the flow with a non-empty path change, and only their expiry, which becomes the last path step's arrival plus the period |
| FlowExpiry.ReexpireIdempotent | temba/flows/tasks.py:51-54 | recomputing the expiries twice gives the same table |
| FlowExpiry.ReexpiredRunFate | temba/flows/tasks.py:51-57 | after the recomputation and the forced check, a recomputed run of an org that is not flow-server enabled is still active if and only if its last arrival plus the period is after now |
| FlowExpiry.BulkExit | temba/flows/tasks.py:68 | the runs table becomes `ExitRuns` of the ids; no other table changes |
| FlowExpiry.CheckFlows | temba/flows/tasks.py:61-68 | exits as Expired the ids of the due runs, in `expires_on` order, and returns them |
| FlowExpiry.InterruptFlowRuns | temba/flows/tasks.py:103-105 | exits as Interrupted the flow's unfinished active runs and returns their ids |
| FlowExpiry.DueRuns | temba/flows/tasks.py:65-66 | the query's rows are exactly the active runs of orgs without the flow server whose `expires_on` has passed |
| FlowExpiry.SetExpiration | temba/flows/tasks.py:53-54 | `update_expiration` changes only the expiry of that one run, to its last arrival plus the period |
| FlowExpiry.UpdateExpiration | temba/flows/tasks.py:54 | saves `SetExpiration` of the run to the runs table and touches nothing else |
| FlowExpiry.ReexpireStep | temba/flows/tasks.py:51-54 | each iteration finds its run untouched by the earlier ones, and updating it (or not) keeps the table equal to the recomputed prefix plus the untouched rest |
| FlowExpiry.ReexpireRuns | temba/flows/tasks.py:51-54 | the loop updates one run at a time and ends with the table equal to `Reexpire` of the old one |
| FlowExpiry.UpdateRunExpirations | temba/flows/tasks.py:47-57 | after the loop the table is `Reexpire` of the old one; then the due runs of that table are exited as Expired and returned; no other table changes |
| CampaignGrouping.UnfiredFiresAreTheDueFires | temba/campaigns/tasks.py:31-34 | every row the campaign scan loads is an unfired fire scheduled at or before now whose flow has the flow server disabled, and every such fire is loaded; the flows exist and the rows of one event agree on its flow |
| CampaignGrouping.UnfiredFiresDistinct | temba/campaigns/tasks.py:31-34 | with unique fire ids, no two loaded rows share an id |
| CampaignGrouping.EventOrder | temba/campaigns/tasks.py:37-41 | an event is visited if and only if some loaded fire belongs to it |
| CampaignGrouping.EventOrderDistinct | temba/campaigns/tasks.py:37-41 | each event is visited once |
| CampaignGrouping.EventIdsMembers | temba/campaigns/tasks.py:37-41 | an id is in an event's list if and only if a loaded fire of that event has it |
| CampaignGrouping.EventIdsNonEmpty | temba/campaigns/tasks.py:37-41 | an event's list is non-empty if and only if the event is visited |
| CampaignGrouping.FireInExactlyItsEventsList | temba/campaigns/tasks.py:37-41 | with unique fire ids, a fire's id is in its own event's list and in no other |
| CampaignGrouping.EventFlows | temba/campaigns/tasks.py:38-40 | `event_flow_map` has a key for exactly the visited events |
| CampaignGrouping.EventFlowIsTheEventsFlow | temba/campaigns/tasks.py:38-40 | when the rows of an event agree on its flow, the map sends the event to that flow |
| CampaignGrouping.EventFlowKnown | temba/campaigns/tasks.py:43-53 | every flow in the map is one of the flows loaded, so `flows_by_id[flow_id]` succeeds |
| CampaignGrouping.GroupFiresByEvent | temba/campaigns/tasks.py:37-41 | the loop builds the events in first-seen order, each event's fire ids in selection order, and each event's flow |
| Collections.Chunks | temba/campaigns/tasks.py:55 | the chunks of `chunk_list` concatenate back to the list, and each one has between 1 and n elements |
| Collections.ChunksDisjoint | temba/campaigns/tasks.py:55 | the chunks of a list without repetitions share no element |
| CampaignFires.EventBatches | temba/campaigns/tasks.py:55 | an event's planned batches are its chunks of 500, each for the event and its org |
| CampaignFires.EventIdsDistinct | temba/campaigns/tasks.py:37-41 | with unique fire ids, an event's list has no repetition |
| CampaignFires.PlanShape | temba/campaigns/tasks.py:49-55 | each planned chunk holds 1 to 500 ids, all fires of its event, and is pushed for the org of that event's flow |
| CampaignFires.PlanDisjoint | temba/campaigns/tasks.py:49-55 | with unique fire ids, no id is in two planned chunks |
| CampaignFires.EveryDueFireIsPlanned | temba/campaigns/tasks.py:31-55 | every loaded fire's id is in some planned chunk |
| CampaignFires.ScanFiresRecordsWhatItPushes | temba/campaigns/tasks.py:55-68 | the record grows by exactly the ids pushed; each pushed task holds a non-empty part of one chunk, none of it recorded before, for that chunk's org; no id is pushed twice |
| CampaignFires.PushedTasksAreWellFormed | temba/campaigns/tasks.py:49-62 | each FIRE_EVENT task pushed holds 1 to 500 ids, none recorded before the scan, all fires of one event, and is pushed for the org of that event's flow |
| CampaignFires.BatchOutcome | temba/campaigns/tasks.py:57-68 | with disjoint chunks, a chunk is skipped if and only if all its ids were already recorded; otherwise it is queued if and only if its own push succeeds, whatever happened to the other chunks |
| CampaignFires.RecordedOrigin | temba/campaigns/tasks.py:60-65 | an id recorded by the loop, and not recorded before it, lies in a chunk whose push succeeded: `set_queued` runs only after its own chunk's push |
| CampaignFires.FailedBatchStaysUnrecorded | temba/campaigns/tasks.py:57-68 | with no id in two chunks, the ids of a chunk whose push failed that were not recorded before stay unrecorded, so the next scan offers them again |
| CampaignFires.NonFailedBatchIsRecorded | temba/campaigns/tasks.py:57-64 | after a chunk that was not a failed push, all its ids are recorded |
| CampaignFires.RescanPushesNothing | temba/campaigns/tasks.py:57-59 | chunks whose ids are all recorded push nothing and leave the record unchanged |
| CampaignFires.SecondScanPushesNothing | temba/campaigns/tasks.py:55-65 | when no push of a first scan failed, a second scan over the same chunks skips them all and pushes nothing |
| Queues.UnqueuedMembers | temba/campaigns/tasks.py:57 | `filter_unqueued` keeps exactly the ids of the chunk that are not recorded, and no more of them than the chunk holds |
| Queues.UnqueuedEmpty | temba/campaigns/tasks.py:57-59 | nothing is left if and only if every id of the chunk is recorded |
| Queues.QueueRecord.FilterUnqueued | temba/campaigns/tasks.py:57 | the method returns `Unqueued` of the chunk and the current record |
| CampaignFires.QueueEventFires | temba/campaigns/tasks.py:55-68 | the inner loop over one event's chunks leaves the queue and the record as `ScanFires` of its outcomes says |
| CampaignFires.QueueCampaignFires | temba/campaigns/tasks.py:49-68 | the outer loop over the events, in first-seen order, leaves the queue and the record as `ScanFires` of the whole plan says |
| CampaignFires.CheckCampaigns | temba/campaigns/tasks.py:25-68 | one outcome per planned chunk; the handler queue grows by the FIRE_EVENT tasks, and the record becomes exactly what `ScanFires` gives for those outcomes |
| CampaignTrim.TrimIds | temba/campaigns/tasks.py:100-110 | one id per selected fire, and the old fired fires fill the quota: exactly min(100000, number of candidates) ids are selected |
| CampaignTrim.CandidateCount | temba/campaigns/tasks.py:100-110 | the candidates (unfired fires of inactive events, or fires fired before the boundary) number exactly the rows of the two queries together, since no fire is in both |
| CampaignTrim.SelectedFiresAreTrimmable | temba/campaigns/tasks.py:100-110 | every selected fire is a fire of the table that is either unfired with an inactive event or fired before the boundary |
| CampaignTrim.InactiveFiresGoFirst | temba/campaigns/tasks.py:100-105 | with 100000 or more unfired fires of inactive events, the selection is the first 100000 of them and nothing else; with fewer, all of them are selected |
| CampaignTrim.OldestFiredFirst | temba/campaigns/tasks.py:105-110 | a fire fired before the boundary that was left out fired no earlier than any fired fire that was selected |
| CampaignTrim.FewCandidatesSelection | temba/campaigns/tasks.py:100-110 | when every candidate fits in the quota, the selection is all unfired fires of inactive events followed by all fired fires, oldest first |
| CampaignTrim.FewCandidatesAllSelected | temba/campaigns/tasks.py:100-110 | when there are at most 100000 candidates in all, every one of them is selected |
| CampaignTrim.TrimKeepsOtherFires | temba/campaigns/tasks.py:100-114 | with unique fire ids, a fire that is neither unfired with an inactive event nor fired before the boundary survives the trim |
| CampaignTrim.WithoutFires | temba/campaigns/tasks.py:114 | the delete keeps exactly the fires whose id was not selected |
| CampaignTrim.WithoutFiresTwice | temba/campaigns/tasks.py:112-114 | deleting in two batches deletes the union of the batches |
| CampaignTrim.TrimEventFires | temba/campaigns/tasks.py:96-114 | deletes in chunks of 100 until the table is the old one without every selected id; returns the selected ids; no other table changes |

## Left out

- `nonoverlapping_task`, the Celery decorators and the locks are left out. Each task is modelled as one sequential run.
- Redis is not modelled. A push that raises is a nondeterministic refusal. The record is a set with no expiry.
- Queues.TaskQueue.Start: pops the oldest entry of one global queue. The real queue is partitioned by org: `start_task` serves an org that is not busy, and order holds only within one org. The model therefore fixes which task is served next where the real queue may serve another org's task first.
- Queues.QueueRecord.IsQueued: never fails. In the source `is_queued` (temba/flows/tasks.py:86) runs outside the `try`, so a Redis error there aborts the whole timeout scan and leaves the remaining runs unvisited. The model has no such abort.
- Queues.QueueRecord.FilterUnqueued: never fails. In the source `filter_unqueued` (temba/campaigns/tasks.py:57) runs outside the `try`, so a Redis error there aborts the campaign scan and leaves the remaining chunks unvisited.
- Queues.QueueRecord.SetQueued: never fails. In the source it runs inside the same `try` as the push (temba/flows/tasks.py:91, temba/campaigns/tasks.py:65). When it raises after an accepted push, the items are queued but not recorded, so a later scan pushes them again.
- FlowTimeouts.FreshRunQueuedIffPushAccepted: "queued" means pushed and recorded. A push that is accepted and then followed by a failing `set_queued` is not a modelled outcome (see Queues.QueueRecord.SetQueued).
- FlowTimeouts.FailedRunStaysUnrecorded: "failed" means the push itself raised. A run that was pushed and then left unrecorded by a failing `set_queued` is not modelled, and it too would be pushed again by the next scan.
- CampaignFires.BatchOutcome: a chunk is queued if and only if its push is accepted, because `set_queued` is taken to succeed. A failing `set_queued` after an accepted push (temba/campaigns/tasks.py:65) would leave the chunk pushed but unrecorded.
- `push_task`, `start_task`, `complete_task`, `QueueRecord` and `chunk_list` are not part of this model. They get the contracts their callers rely on, given in `Queues` and `Collections`.
- FlowExpiry.ExitRuns: `FlowRun.bulk_exit` is not part of this model. Its effect is stated as "the given active runs become inactive with the exit type". The exit time, session ends and other side effects are left out.
- FlowExpiry.Reexpire: `FlowRun.update_expiration` is not part of this model. The new expiry is the last arrival plus the flow's expiry period, given as a parameter.
- `Flow.start_msg_flow_batch` and `Broadcast.send_batch` are not part of this model. The dispatcher returns which of them is called, and with what.
- The task body indexes the JSON keys `flow`, `broadcasts`, `started_flows`, `start_msg`, `extra`, `flow_start` and `contacts` on the FLOW_BATCH path, and `broadcast` and `kwargs` on the BROADCAST_BATCH path. A missing key would raise a `KeyError`, which is not modelled: the task is a record with every key the body indexes present.
- `iso8601` parsing and `datetime_to_epoch` are not modelled. Timestamps are whole seconds, so the fingerprint's epoch is the timeout itself.
- FlowTimeouts.RescheduledRunIsQueuedAgain: holds because timestamps are whole seconds. In the source `timeout_on` has sub-second precision and `%d` truncates the float epoch (temba/flows/tasks.py:82), so a run whose timeout moves within the same second keeps its fingerprint and is skipped by the next scan.
- Thresholds read from settings are parameters: `FLOW_SESSION_TRIM_DAYS` and `EVENT_FIRE_TRIM_DAYS`.
- `print`, logging and the timings are left out. So is the progress message every 10000 sessions, because none of them changes state.
- Query order is modelled as follows:
  - a query without `order_by` returns rows in table order;
  - `order_by("expires_on")` and `order_by("fired")` are an insertion sort that keeps ties in their order by construction; the contracts state that the result is sorted and a permutation, and stability itself is not proved;
  - ties are left in table order, which the database does not promise.
- CampaignTrim.TrimEventFires: does not expose the individual delete batches. That each has at most 100 ids follows from `Collections.Chunks`, which the loop uses.
- `send_email_action_task`, `export_flow_results_task`, `start_flow_task`, `continue_parent_flows`, `create_event_fires` and the count-squashing tasks are outside the modelled core.

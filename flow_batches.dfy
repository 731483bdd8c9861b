/**
 * `start_msg_flow_batch_task`: pops the next task of the
 * START_MSG_FLOW_BATCH queue and, according to its `task_type` (FLOW_BATCH
 * when absent), starts a batch of contacts in a flow or sends a batch of a
 * broadcast, resolving the ids the task carries to the rows that exist.
 * Whatever happens once a task has been popped, its org's partition is
 * released with `complete_task` exactly once, in the `finally` clause.
 *
 * `Flow.start_msg_flow_batch` and `Broadcast.send_batch` are not part of this
 * model: the result says which of them is called and with what.
 */
module FlowBatches {
  import opened Collections
  import opened Models
  import opened Queues

  datatype TaskType = FlowBatch | BroadcastBatch | OtherType(name: string)

  /**
   * The JSON task. `taskType` is None when the key is absent; `startedFlows`,
   * `startMsg` and `flowStart` are None when the value is null.
   */
  datatype BatchTask = BatchTask(
    taskType: Option<TaskType>,
    flow: int,
    broadcasts: seq<int>,
    startedFlows: Option<seq<int>>,
    startMsg: Option<int>,
    extra: map<string, string>,
    flowStart: Option<int>,
    contacts: seq<int>,
    broadcast: int,
    kwargs: map<string, seq<int>>)

  /** What the task hands over to the models. */
  datatype BatchCall =
    | StartFlowBatch(flow: int, contacts: seq<int>, broadcasts: set<int>, startedFlows: seq<int>,
                     startMsg: Option<int>, extra: map<string, string>, flowStart: Option<int>)
    | SendBroadcastBatch(broadcast: int, kwargs: map<string, seq<int>>)
    | NoCall

  /** The call made, and whether the task body raised before returning. */
  datatype Dispatched = Dispatched(call: BatchCall, raised: bool)

  /** `task_obj.get("task_type", FLOW_BATCH)`. */
  function TypeOf(task: BatchTask): TaskType
  {
    if task.taskType.Some? then task.taskType.value else FlowBatch
  }

  /** `Flow.objects.filter(pk=flow, is_active=True, is_archived=False).first()` finds a row. */
  predicate FlowUsable(flows: map<int, FlowRow>, flow: int)
  {
    flow in flows && flows[flow].isActive && !flows[flow].isArchived
  }

  /** `Broadcast.objects.filter(org_id=org, id=broadcast).first()` finds a row. */
  predicate BroadcastOfOrg(broadcasts: map<int, BroadcastRow>, org: int, broadcast: int)
  {
    broadcast in broadcasts && broadcasts[broadcast].org == org
  }

  /** `None if not id else Model.objects.filter(pk=id).first()`: a falsy id or a missing row gives None. */
  function Lookup(id: Option<int>, table: set<int>): (r: Option<int>)
    ensures r.Some? <==> id.Some? && id.value != 0 && id.value in table
    ensures r.Some? ==> r == id
  {
    if id.Some? && id.value != 0 && id.value in table then id else None
  }

  /** `[] if not ids else Broadcast.objects.filter(pk__in=ids)`: the listed broadcasts that exist. */
  function ExistingBroadcasts(ids: seq<int>, broadcasts: map<int, BroadcastRow>): (r: set<int>)
    ensures forall b :: b in r <==> b in ids && b in broadcasts
  {
    set b | b in ids && b in broadcasts
  }

  /**
   * The body of the `try`. A flow batch starts the contacts in the flow only
   * when the flow is active and not archived; a broadcast batch sends only
   * when the broadcast exists for the popped org; any other type does
   * nothing. The summary printed after a broadcast batch reads the
   * broadcast's id and the `urn_ids` argument, so it raises when either is
   * missing.
   */
  function Dispatch(task: BatchTask, org: int, flows: map<int, FlowRow>, broadcasts: map<int, BroadcastRow>,
                    msgs: set<int>, flowStarts: set<int>): (r: Dispatched)
    ensures r.call.StartFlowBatch? <==> TypeOf(task) == FlowBatch && FlowUsable(flows, task.flow)
    ensures r.call.SendBroadcastBatch? <==> TypeOf(task) == BroadcastBatch && BroadcastOfOrg(broadcasts, org, task.broadcast)
    ensures r.raised <==>
      (TypeOf(task) == BroadcastBatch && (!BroadcastOfOrg(broadcasts, org, task.broadcast) || "urn_ids" !in task.kwargs))
    ensures r.call.StartFlowBatch? ==>
      && r.call.flow == task.flow && r.call.contacts == task.contacts && r.call.extra == task.extra
      && (forall b :: b in r.call.broadcasts <==> b in task.broadcasts && b in broadcasts)
      && (r.call.startMsg.Some? <==> task.startMsg.Some? && task.startMsg.value != 0 && task.startMsg.value in msgs)
      && (r.call.startMsg.Some? ==> r.call.startMsg == task.startMsg)
      && (r.call.flowStart.Some? <==> task.flowStart.Some? && task.flowStart.value != 0 && task.flowStart.value in flowStarts)
      && (r.call.flowStart.Some? ==> r.call.flowStart == task.flowStart)
      && (r.call.startedFlows == if task.startedFlows.Some? then task.startedFlows.value else [])
    ensures r.call.SendBroadcastBatch? ==> r.call.broadcast == task.broadcast && r.call.kwargs == task.kwargs
  {
    match TypeOf(task)
    case FlowBatch =>
      if !FlowUsable(flows, task.flow) then Dispatched(NoCall, false)
      else
        var started := if task.startedFlows.Some? then task.startedFlows.value else [];
        Dispatched(StartFlowBatch(task.flow, task.contacts, ExistingBroadcasts(task.broadcasts, broadcasts), started,
                                  Lookup(task.startMsg, msgs), task.extra, Lookup(task.flowStart, flowStarts)), false)
    case BroadcastBatch =>
      var found := BroadcastOfOrg(broadcasts, org, task.broadcast);
      Dispatched(if found then SendBroadcastBatch(task.broadcast, task.kwargs) else NoCall,
                 !found || "urn_ids" !in task.kwargs)
    case OtherType(_) =>
      Dispatched(NoCall, false)
  }

  /** A task without a `task_type` is handled exactly as a FLOW_BATCH task. */
  lemma AbsentTypeIsFlowBatch(task: BatchTask, org: int, flows: map<int, FlowRow>, broadcasts: map<int, BroadcastRow>,
                              msgs: set<int>, flowStarts: set<int>)
    requires task.taskType == None
    ensures Dispatch(task, org, flows, broadcasts, msgs, flowStarts)
         == Dispatch(task.(taskType := Some(FlowBatch)), org, flows, broadcasts, msgs, flowStarts)
  {
  }

  /**
   * A broadcast batch whose broadcast belongs to another org sends nothing,
   * even when the id exists, and the summary then raises.
   */
  lemma OtherOrgsBroadcastIsNotSent(task: BatchTask, org: int, flows: map<int, FlowRow>, broadcasts: map<int, BroadcastRow>,
                                    msgs: set<int>, flowStarts: set<int>)
    requires TypeOf(task) == BroadcastBatch
    requires task.broadcast in broadcasts && broadcasts[task.broadcast].org != org
    ensures Dispatch(task, org, flows, broadcasts, msgs, flowStarts) == Dispatched(NoCall, true)
  {
  }

  /**
   * `start_msg_flow_batch_task`. With nothing pending it returns at once and
   * leaves the queue untouched. Otherwise it takes the oldest task, dispatches
   * it, and calls `complete_task` for the task's org exactly once, whether
   * the body called a model, returned early or raised; the org's partition
   * is then no longer busy on account of this task.
   */
  method StartMsgFlowBatch(db: Database, q: TaskQueue<BatchTask>) returns (r: Option<Dispatched>)
    modifies q
    ensures old(q.pending) == [] ==>
      r == None && q.pending == old(q.pending) && q.busy == old(q.busy) && q.completed == old(q.completed)
    ensures old(q.pending) != [] ==>
      var head := old(q.pending)[0];
      && r == Some(Dispatch(head.payload, head.org, db.flows, db.broadcasts, db.msgs, db.flowStarts))
      && q.pending == old(q.pending)[1..]
      && q.completed == old(q.completed) + [head.org]
      && q.busy == old(q.busy)
  {
    var org, task := q.Start();
    if task == None {
      return None;
    }
    var d := Dispatch(task.value, org, db.flows, db.broadcasts, db.msgs, db.flowStarts);
    q.Complete(org);
    r := Some(d);
  }
}

/**
 * The rows of the database tables the tasks read and write (`FlowRun`,
 * `FlowSession`, `Org`, `Flow`, `Broadcast`, `Msg`, `FlowStart`,
 * `CampaignEvent`, `EventFire`), reduced to the columns the tasks use, and the
 * database itself as an object whose tables the tasks change in place.
 * Timestamps are integer seconds since the epoch.
 */
module Models {
  import opened Collections

  datatype ExitType = Completed | Interrupted | Expired

  /** One entry of a run's `path`: the node it reached and when. */
  datatype PathStep = PathStep(node: string, arrivedOn: int)

  datatype Run = Run(
    id: int,
    org: int,
    flow: int,
    isActive: bool,
    exitType: Option<ExitType>,
    timeoutOn: Option<int>,
    expiresOn: Option<int>,
    sessionId: Option<int>,
    path: seq<PathStep>)

  datatype Session = Session(id: int, endedOn: Option<int>)

  datatype OrgRow = OrgRow(flowServerEnabled: bool)

  datatype FlowRow = FlowRow(org: int, isActive: bool, isArchived: bool, flowServerEnabled: bool)

  datatype BroadcastRow = BroadcastRow(org: int)

  datatype EventRow = EventRow(flow: int, isActive: bool)

  datatype EventFire = EventFire(id: int, event: int, scheduled: int, fired: Option<int>)

  /** The payloads of HANDLE_EVENT_TASK pushed to the handler queue: TIMEOUT_EVENT and FIRE_EVENT. */
  datatype HandlerEvent = TimeoutEvent(run: int, timeoutOn: int) | FireEvent(fires: seq<int>)

  predicate DistinctRunIds(runs: seq<Run>)
  {
    forall i, j :: 0 <= i < j < |runs| ==> runs[i].id != runs[j].id
  }

  predicate DistinctSessionIds(sessions: seq<Session>)
  {
    forall i, j :: 0 <= i < j < |sessions| ==> sessions[i].id != sessions[j].id
  }

  predicate DistinctFireIds(fires: seq<EventFire>)
  {
    forall i, j :: 0 <= i < j < |fires| ==> fires[i].id != fires[j].id
  }

  /**
   * The database. Tables whose order a task observes (the order a query
   * returns rows in) are sequences; tables only looked up by primary key are
   * maps or sets of keys.
   */
  class Database {
    var orgs: map<int, OrgRow>
    var flows: map<int, FlowRow>
    var runs: seq<Run>
    var sessions: seq<Session>
    var broadcasts: map<int, BroadcastRow>
    var msgs: set<int>
    var flowStarts: set<int>
    var events: map<int, EventRow>
    var fires: seq<EventFire>
  }
}

/**
 * The second half of `check_campaigns_task`: each event's fire ids are cut
 * into chunks of at most 500; from each chunk the ids already recorded in the
 * `queued_event_fires` record are dropped; a non-empty remainder is pushed as
 * one FIRE_EVENT task to the handler queue of the org of the event's flow,
 * and its ids are recorded only once that push has succeeded. A failed push
 * is logged and the loop carries on.
 *
 * The chunks, in the order the loop meets them, form the plan; the loop is
 * specified by a left fold over the plan, `ScanFires`, in which the pushes the
 * broker accepts are a parameter.
 */
module CampaignFires {
  import opened Collections
  import opened Models
  import opened Queues
  import opened CampaignGrouping

  /** The chunk size passed to `chunk_list`. */
  const FireBatchSize: nat := 500

  /** One chunk of an event's fire ids, and the org it is pushed for. */
  datatype PlannedBatch = PlannedBatch(event: int, org: int, ids: seq<int>)

  /** The chunks of one event. */
  function EventBatches(ev: int, org: int, ids: seq<int>): (bs: seq<PlannedBatch>)
    ensures |bs| == |Chunks(ids, FireBatchSize)|
    ensures forall j :: 0 <= j < |bs| ==> bs[j] == PlannedBatch(ev, org, Chunks(ids, FireBatchSize)[j])
  {
    var cs := Chunks(ids, FireBatchSize);
    seq(|cs|, j requires 0 <= j < |cs| => PlannedBatch(ev, org, cs[j]))
  }

  /** `flows_by_id[event_flow_map[ev]].org_id`. */
  function EventOrg(rows: seq<FireRow>, flows: map<int, FlowRow>, ev: int): int
    requires FlowsKnown(rows, flows) && ev in EventFlows(rows)
  {
    EventFlowKnown(rows, flows, ev);
    flows[EventFlows(rows)[ev]].org
  }

  predicate Visitable(rows: seq<FireRow>, events: seq<int>)
  {
    forall k :: 0 <= k < |events| ==> events[k] in EventFlows(rows)
  }

  /** The chunks of the given events, event after event. */
  function PlanOf(events: seq<int>, rows: seq<FireRow>, flows: map<int, FlowRow>): seq<PlannedBatch>
    requires FlowsKnown(rows, flows) && Visitable(rows, events)
    decreases |events|
  {
    if events == [] then []
    else
      var n := |events| - 1;
      assert forall k :: 0 <= k < n ==> events[..n][k] == events[k];
      PlanOf(events[..n], rows, flows) + EventBatches(events[n], EventOrg(rows, flows, events[n]), EventIds(rows, events[n]))
  }

  /** The chunks the task visits, in order. */
  function CampaignPlan(rows: seq<FireRow>, flows: map<int, FlowRow>): seq<PlannedBatch>
    requires FlowsKnown(rows, flows)
  {
    PlanOf(EventOrder(rows), rows, flows)
  }

  /**
   * Each planned chunk holds between 1 and 500 ids, all of them fires of its
   * event, and is pushed for the org of that event's flow.
   */
  lemma {:induction false} PlanShape(events: seq<int>, rows: seq<FireRow>, flows: map<int, FlowRow>, j: nat)
    requires FlowsKnown(rows, flows) && Visitable(rows, events) && j < |PlanOf(events, rows, flows)|
    ensures var b := PlanOf(events, rows, flows)[j];
      && 0 < |b.ids| <= FireBatchSize
      && b.event in events
      && b.event in EventFlows(rows) && b.org == EventOrg(rows, flows, b.event)
      && forall i :: 0 <= i < |b.ids| ==> IdOfEvent(rows, b.event, b.ids[i])
    decreases |events|
  {
    var n := |events| - 1;
    assert Visitable(rows, events[..n]) by {
      forall k | 0 <= k < n ensures events[..n][k] in EventFlows(rows) {
        assert events[..n][k] == events[k];
      }
    }
    var before := PlanOf(events[..n], rows, flows);
    var ev := events[n];
    var ids := EventIds(rows, ev);
    var plan := PlanOf(events, rows, flows);
    assert plan == before + EventBatches(ev, EventOrg(rows, flows, ev), ids);
    if j < |before| {
      PlanShape(events[..n], rows, flows, j);
      assert plan[j] == before[j];
    } else {
      var c := j - |before|;
      var b := plan[j];
      assert b == PlannedBatch(ev, EventOrg(rows, flows, ev), Chunks(ids, FireBatchSize)[c]);
      forall i | 0 <= i < |b.ids| ensures IdOfEvent(rows, ev, b.ids[i]) {
        ChunkWithin(ids, FireBatchSize, c, b.ids[i]);
        EventIdsMembers(rows, ev, b.ids[i]);
      }
    }
  }

  /** No fire id is in two chunks. */
  predicate DisjointBatches(plan: seq<PlannedBatch>)
  {
    forall a, b :: 0 <= a < b < |plan| ==> Disjoint(plan[a].ids, plan[b].ids)
  }

  /** With unique fire ids, an event's list has no repetition. */
  lemma {:induction false} EventIdsDistinct(rows: seq<FireRow>, ev: int)
    requires forall a, b :: 0 <= a < b < |rows| ==> rows[a].id != rows[b].id
    ensures Distinct(EventIds(rows, ev))
    decreases |rows|
  {
    if rows != [] {
      var n := |rows| - 1;
      EventIdsDistinct(rows[..n], ev);
      var before := EventIds(rows[..n], ev);
      if rows[n].event == ev {
        forall i | 0 <= i < |before| ensures before[i] != rows[n].id {
          EventIdsMembers(rows[..n], ev, before[i]);
          var k :| 0 <= k < n && rows[..n][k].event == ev && rows[..n][k].id == before[i];
          assert rows[..n][k] == rows[k];
        }
        var r := before + [rows[n].id];
        forall a, b | 0 <= a < b < |r| ensures r[a] != r[b] {
          if b < |before| {
            assert r[a] == before[a] && r[b] == before[b];
          } else {
            assert r[a] == before[a];
          }
        }
      }
    }
  }

  /** Fires of two different events never share an id. */
  lemma OtherEventsIdsDiffer(rows: seq<FireRow>, e1: int, e2: int, x: int)
    requires forall a, b :: 0 <= a < b < |rows| ==> rows[a].id != rows[b].id
    requires e1 != e2 && IdOfEvent(rows, e1, x)
    ensures x !in EventIds(rows, e2)
  {
    var k :| 0 <= k < |rows| && rows[k].event == e1 && rows[k].id == x;
    FireInExactlyItsEventsList(rows, k, e2);
  }

  /** Ids of fires of one event share nothing with a chunk of another event's list. */
  lemma ChunkOfOtherEvent(rows: seq<FireRow>, e1: int, ev: int, xs: seq<int>, c: nat)
    requires forall a, b :: 0 <= a < b < |rows| ==> rows[a].id != rows[b].id
    requires e1 != ev && forall i :: 0 <= i < |xs| ==> IdOfEvent(rows, e1, xs[i])
    requires c < |Chunks(EventIds(rows, ev), FireBatchSize)|
    ensures Disjoint(xs, Chunks(EventIds(rows, ev), FireBatchSize)[c])
  {
    var chunk := Chunks(EventIds(rows, ev), FireBatchSize)[c];
    forall i | 0 <= i < |xs| ensures xs[i] !in chunk {
      OtherEventsIdsDiffer(rows, e1, ev, xs[i]);
      if xs[i] in chunk {
        ChunkWithin(EventIds(rows, ev), FireBatchSize, c, xs[i]);
      }
    }
  }

  /** A prefix of a list of visitable events is one too. */
  lemma VisitablePrefix(rows: seq<FireRow>, events: seq<int>, n: nat)
    requires Visitable(rows, events) && n <= |events|
    ensures Visitable(rows, events[..n])
  {
    assert forall k :: 0 <= k < n ==> events[..n][k] == events[k];
  }

  /** Without repetitions, the last event is not among the others, and they have no repetition either. */
  lemma DistinctLast(events: seq<int>)
    requires Distinct(events) && events != []
    ensures events[|events| - 1] !in events[..|events| - 1] && Distinct(events[..|events| - 1])
  {
    var n := |events| - 1;
    assert forall k :: 0 <= k < n ==> events[..n][k] == events[k];
  }

  /** No chunk of `p` shares an id with a chunk of `q`. */
  predicate ApartBatches(p: seq<PlannedBatch>, q: seq<PlannedBatch>)
  {
    forall a, b :: 0 <= a < |p| && 0 <= b < |q| ==> Disjoint(p[a].ids, q[b].ids)
  }

  /** Joining two plans keeps the chunks disjoint when no chunk of one meets a chunk of the other. */
  lemma DisjointAppend(p: seq<PlannedBatch>, q: seq<PlannedBatch>)
    requires DisjointBatches(p) && DisjointBatches(q) && ApartBatches(p, q)
    ensures DisjointBatches(p + q)
  {
    var r := p + q;
    forall a, b | 0 <= a < b < |r| ensures Disjoint(r[a].ids, r[b].ids) {
      if b < |p| {
        assert r[a] == p[a] && r[b] == p[b];
      } else if a >= |p| {
        assert r[a] == q[a - |p|] && r[b] == q[b - |p|];
      } else {
        assert r[a] == p[a] && r[b] == q[b - |p|];
      }
    }
  }

  /** With unique fire ids, the chunks of one event are pairwise disjoint. */
  lemma EventBatchesDisjoint(rows: seq<FireRow>, ev: int, org: int)
    requires forall a, b :: 0 <= a < b < |rows| ==> rows[a].id != rows[b].id
    ensures DisjointBatches(EventBatches(ev, org, EventIds(rows, ev)))
  {
    var bs := EventBatches(ev, org, EventIds(rows, ev));
    EventIdsDistinct(rows, ev);
    forall a, b | 0 <= a < b < |bs| ensures Disjoint(bs[a].ids, bs[b].ids) {
      ChunksDisjoint(EventIds(rows, ev), FireBatchSize, a, b);
    }
  }

  /** With unique fire ids, no chunk of the plan of some events meets a chunk of an event not among them. */
  lemma PlanApartFromEvent(events: seq<int>, rows: seq<FireRow>, flows: map<int, FlowRow>, ev: int, org: int)
    requires FlowsKnown(rows, flows) && Visitable(rows, events) && ev !in events
    requires forall a, b :: 0 <= a < b < |rows| ==> rows[a].id != rows[b].id
    ensures ApartBatches(PlanOf(events, rows, flows), EventBatches(ev, org, EventIds(rows, ev)))
  {
    var p, q := PlanOf(events, rows, flows), EventBatches(ev, org, EventIds(rows, ev));
    forall a, b | 0 <= a < |p| && 0 <= b < |q| ensures Disjoint(p[a].ids, q[b].ids) {
      PlanShape(events, rows, flows, a);
      ChunkOfOtherEvent(rows, p[a].event, ev, p[a].ids, b);
    }
  }

  /** With unique fire ids, the planned chunks of distinct events are pairwise disjoint. */
  lemma {:induction false} PlanDisjoint(events: seq<int>, rows: seq<FireRow>, flows: map<int, FlowRow>)
    requires FlowsKnown(rows, flows) && Visitable(rows, events) && Distinct(events)
    requires forall a, b :: 0 <= a < b < |rows| ==> rows[a].id != rows[b].id
    ensures DisjointBatches(PlanOf(events, rows, flows))
    decreases |events|
  {
    if events != [] {
      var n := |events| - 1;
      var ev := events[n];
      VisitablePrefix(rows, events, n);
      DistinctLast(events);
      PlanDisjoint(events[..n], rows, flows);
      EventBatchesDisjoint(rows, ev, EventOrg(rows, flows, ev));
      PlanApartFromEvent(events[..n], rows, flows, ev, EventOrg(rows, flows, ev));
      var batches := EventBatches(ev, EventOrg(rows, flows, ev), EventIds(rows, ev));
      DisjointAppend(PlanOf(events[..n], rows, flows), batches);
      assert PlanOf(events, rows, flows) == PlanOf(events[..n], rows, flows) + batches;
    }
  }

  /** Some chunk of the plan holds the id. */
  predicate InPlan(plan: seq<PlannedBatch>, x: int)
  {
    exists j :: 0 <= j < |plan| && x in plan[j].ids
  }

  /** An id in some chunk of a plan stays in some chunk when chunks are added after it. */
  lemma InPlanLeft(p: seq<PlannedBatch>, q: seq<PlannedBatch>, x: int)
    requires InPlan(p, x)
    ensures InPlan(p + q, x)
  {
    var j :| 0 <= j < |p| && x in p[j].ids;
    assert (p + q)[j] == p[j];
  }

  /** Every id of an event's list is in one of the event's chunks. */
  lemma InEventBatches(ev: int, org: int, ids: seq<int>, p: seq<PlannedBatch>, x: int)
    requires x in ids
    ensures InPlan(p + EventBatches(ev, org, ids), x)
  {
    var c := FromFlatten(Chunks(ids, FireBatchSize), x);
    assert (p + EventBatches(ev, org, ids))[|p| + c] == EventBatches(ev, org, ids)[c];
  }

  /** Every fire of a visited event is in some chunk of the plan. */
  lemma {:induction false} PlanOfCovers(events: seq<int>, rows: seq<FireRow>, flows: map<int, FlowRow>, ev: int, x: int)
    requires FlowsKnown(rows, flows) && Visitable(rows, events)
    requires ev in events && x in EventIds(rows, ev)
    ensures InPlan(PlanOf(events, rows, flows), x)
    decreases |events|
  {
    var n := |events| - 1;
    var last := events[n];
    VisitablePrefix(rows, events, n);
    var before := PlanOf(events[..n], rows, flows);
    var batches := EventBatches(last, EventOrg(rows, flows, last), EventIds(rows, last));
    assert PlanOf(events, rows, flows) == before + batches;
    if last == ev {
      InEventBatches(last, EventOrg(rows, flows, last), EventIds(rows, last), before, x);
    } else {
      var k :| 0 <= k < |events| && events[k] == ev;
      assert events[..n][k] == ev;
      PlanOfCovers(events[..n], rows, flows, ev, x);
      InPlanLeft(before, batches, x);
    }
  }

  /** Every selected fire is in some chunk of the plan: none is left behind. */
  lemma EveryDueFireIsPlanned(rows: seq<FireRow>, flows: map<int, FlowRow>, k: nat)
    requires FlowsKnown(rows, flows) && k < |rows|
    ensures InPlan(CampaignPlan(rows, flows), rows[k].id)
  {
    var ev := rows[k].event;
    EventIdsMembers(rows, ev, rows[k].id);
    PlanOfCovers(EventOrder(rows), rows, flows, ev, rows[k].id);
  }

  /** The state of the push loop: the tasks pushed, the record, and the outcome of each chunk. */
  datatype FireScan = FireScan(pushed: seq<Entry<HandlerEvent>>, recorded: set<int>, outcomes: seq<Outcome>)

  /** One chunk: drop the recorded ids; push the rest if any, and record them if the push succeeds. */
  function FireStep(s: FireScan, b: PlannedBatch, accepted: bool): FireScan
  {
    var newIds := Unqueued(b.ids, s.recorded);
    if newIds == [] then s.(outcomes := s.outcomes + [Skipped])
    else if accepted then FireScan(s.pushed + [Entry(b.org, FireEvent(newIds))], s.recorded + IdSet(newIds), s.outcomes + [Queued])
    else s.(outcomes := s.outcomes + [Failed])
  }

  /** The push loop over `plan` from the record `rec0`, when the broker accepts push j exactly when `accepts[j]`. */
  function ScanFires(plan: seq<PlannedBatch>, rec0: set<int>, accepts: seq<bool>): (s: FireScan)
    requires |accepts| == |plan|
    ensures |s.outcomes| == |plan|
    decreases |plan|
  {
    if plan == [] then FireScan([], rec0, [])
    else
      var n := |plan| - 1;
      FireStep(ScanFires(plan[..n], rec0, accepts[..n]), plan[n], accepts[n])
  }

  /** The fire ids a pushed task carries. */
  function FiresOf(e: Entry<HandlerEvent>): seq<int>
  {
    if e.payload.FireEvent? then e.payload.fires else []
  }

  function PushedIds(pushed: seq<Entry<HandlerEvent>>): set<int>
    decreases |pushed|
  {
    if pushed == [] then {} else PushedIds(pushed[..|pushed| - 1]) + IdSet(FiresOf(pushed[|pushed| - 1]))
  }

  /** A FIRE_EVENT task holding some of a chunk's ids, none of them recorded before the loop. */
  predicate PartOfBatch(e: Entry<HandlerEvent>, b: PlannedBatch, rec0: set<int>)
  {
    && e.payload.FireEvent? && e.org == b.org
    && 0 < |e.payload.fires| <= |b.ids|
    && forall i :: 0 <= i < |e.payload.fires| ==> e.payload.fires[i] in b.ids && e.payload.fires[i] !in rec0
  }

  predicate FromPlan(e: Entry<HandlerEvent>, plan: seq<PlannedBatch>, rec0: set<int>)
  {
    exists j :: 0 <= j < |plan| && PartOfBatch(e, plan[j], rec0)
  }

  /**
   * The record grows by exactly the ids pushed; every task pushed carries a
   * non-empty part of one chunk, for that chunk's org, made of ids not
   * recorded before; and no id is pushed twice.
   */
  lemma ScanFiresRecordsWhatItPushes(plan: seq<PlannedBatch>, rec0: set<int>, accepts: seq<bool>)
    requires |accepts| == |plan|
    ensures var s := ScanFires(plan, rec0, accepts);
      && s.recorded == rec0 + PushedIds(s.pushed)
      && (forall k :: 0 <= k < |s.pushed| ==> FromPlan(s.pushed[k], plan, rec0))
      && (forall a, b :: 0 <= a < b < |s.pushed| ==> Disjoint(FiresOf(s.pushed[a]), FiresOf(s.pushed[b])))
  {
    ScanFiresRecorded(plan, rec0, accepts);
    ScanFiresFromPlan(plan, rec0, accepts);
    ScanFiresPushesDisjoint(plan, rec0, accepts);
  }

  /** The record grows by exactly the ids pushed. */
  lemma {:induction false} ScanFiresRecorded(plan: seq<PlannedBatch>, rec0: set<int>, accepts: seq<bool>)
    requires |accepts| == |plan|
    ensures var s := ScanFires(plan, rec0, accepts); s.recorded == rec0 + PushedIds(s.pushed)
    decreases |plan|
  {
    if plan != [] {
      var n := |plan| - 1;
      ScanFiresRecorded(plan[..n], rec0, accepts[..n]);
      var prev := ScanFires(plan[..n], rec0, accepts[..n]);
      var s := ScanFires(plan, rec0, accepts);
      assert s == FireStep(prev, plan[n], accepts[n]);
      if s.pushed != prev.pushed {
        assert s.pushed[..|s.pushed| - 1] == prev.pushed;
      }
    }
  }

  /** Every pushed task holds a non-empty part of one chunk, not recorded before, for that chunk's org. */
  lemma {:induction false} ScanFiresFromPlan(plan: seq<PlannedBatch>, rec0: set<int>, accepts: seq<bool>)
    requires |accepts| == |plan|
    ensures var s := ScanFires(plan, rec0, accepts);
      forall k :: 0 <= k < |s.pushed| ==> FromPlan(s.pushed[k], plan, rec0)
    decreases |plan|
  {
    if plan != [] {
      var n := |plan| - 1;
      ScanFiresFromPlan(plan[..n], rec0, accepts[..n]);
      ScanFiresPrefix(plan[..n], rec0, accepts[..n], 0);
      var prev := ScanFires(plan[..n], rec0, accepts[..n]);
      var s := ScanFires(plan, rec0, accepts);
      assert s == FireStep(prev, plan[n], accepts[n]);
      forall k | 0 <= k < |prev.pushed| ensures FromPlan(prev.pushed[k], plan, rec0) {
        var j :| 0 <= j < n && PartOfBatch(prev.pushed[k], plan[..n][j], rec0);
        assert plan[..n][j] == plan[j];
      }
      if s.pushed != prev.pushed {
        UnqueuedMembers(plan[n].ids, prev.recorded);
        assert PartOfBatch(s.pushed[|prev.pushed|], plan[n], rec0);
      }
    }
  }

  /** No fire id is pushed twice. */
  lemma {:induction false} ScanFiresPushesDisjoint(plan: seq<PlannedBatch>, rec0: set<int>, accepts: seq<bool>)
    requires |accepts| == |plan|
    ensures var s := ScanFires(plan, rec0, accepts);
      forall a, b :: 0 <= a < b < |s.pushed| ==> Disjoint(FiresOf(s.pushed[a]), FiresOf(s.pushed[b]))
    decreases |plan|
  {
    if plan != [] {
      var n := |plan| - 1;
      ScanFiresPushesDisjoint(plan[..n], rec0, accepts[..n]);
      ScanFiresRecorded(plan[..n], rec0, accepts[..n]);
      var prev := ScanFires(plan[..n], rec0, accepts[..n]);
      var s := ScanFires(plan, rec0, accepts);
      assert s == FireStep(prev, plan[n], accepts[n]);
      if s.pushed != prev.pushed {
        var newIds := Unqueued(plan[n].ids, prev.recorded);
        UnqueuedMembers(plan[n].ids, prev.recorded);
        assert s.pushed == prev.pushed + [Entry(plan[n].org, FireEvent(newIds))];
        forall a, b | 0 <= a < b < |s.pushed| ensures Disjoint(FiresOf(s.pushed[a]), FiresOf(s.pushed[b])) {
          if b == |prev.pushed| {
            forall i | 0 <= i < |FiresOf(prev.pushed[a])| ensures FiresOf(prev.pushed[a])[i] !in newIds {
              PushedIdsCover(prev.pushed, a, i);
            }
          } else {
            assert s.pushed[a] == prev.pushed[a] && s.pushed[b] == prev.pushed[b];
          }
        }
      }
    }
  }

  lemma {:induction false} PushedIdsCover(pushed: seq<Entry<HandlerEvent>>, k: nat, i: nat)
    requires k < |pushed| && i < |FiresOf(pushed[k])|
    ensures FiresOf(pushed[k])[i] in PushedIds(pushed)
    decreases |pushed|
  {
    var n := |pushed| - 1;
    if k < n {
      assert pushed[..n][k] == pushed[k];
      PushedIdsCover(pushed[..n], k, i);
    }
  }

  /** A FIRE_EVENT task of fires of one event, none recorded before, for the org of that event's flow. */
  predicate OneEventTask(rows: seq<FireRow>, flows: map<int, FlowRow>, rec0: set<int>, e: Entry<HandlerEvent>)
    requires FlowsKnown(rows, flows)
  {
    && e.payload.FireEvent? && 0 < |e.payload.fires| <= FireBatchSize
    && (exists ev :: ev in EventFlows(rows) && e.org == EventOrg(rows, flows, ev)
          && forall i :: 0 <= i < |e.payload.fires| ==> IdOfEvent(rows, ev, e.payload.fires[i]) && e.payload.fires[i] !in rec0)
  }

  /** A non-empty part of a planned chunk, none of it recorded before, is a task for one event. */
  lemma PartOfPlanIsOneEvent(events: seq<int>, rows: seq<FireRow>, flows: map<int, FlowRow>, rec0: set<int>,
                             e: Entry<HandlerEvent>, j: nat)
    requires FlowsKnown(rows, flows) && Visitable(rows, events) && j < |PlanOf(events, rows, flows)|
    requires PartOfBatch(e, PlanOf(events, rows, flows)[j], rec0)
    ensures OneEventTask(rows, flows, rec0, e)
  {
    PlanShape(events, rows, flows, j);
    var b := PlanOf(events, rows, flows)[j];
    forall i | 0 <= i < |e.payload.fires| ensures IdOfEvent(rows, b.event, e.payload.fires[i]) {
      var c :| 0 <= c < |b.ids| && b.ids[c] == e.payload.fires[i];
    }
    assert b.event in EventFlows(rows) && e.org == EventOrg(rows, flows, b.event);
  }

  /**
   * Every FIRE_EVENT task the campaign scan pushes holds between 1 and 500
   * fire ids, none recorded before the scan, all fires of one event, and is
   * pushed for the org of that event's flow.
   */
  lemma PushedTasksAreWellFormed(rows: seq<FireRow>, flows: map<int, FlowRow>, rec0: set<int>, accepts: seq<bool>, k: nat)
    requires FlowsKnown(rows, flows) && |accepts| == |CampaignPlan(rows, flows)|
    requires k < |ScanFires(CampaignPlan(rows, flows), rec0, accepts).pushed|
    ensures OneEventTask(rows, flows, rec0, ScanFires(CampaignPlan(rows, flows), rec0, accepts).pushed[k])
  {
    var plan := CampaignPlan(rows, flows);
    var e := ScanFires(plan, rec0, accepts).pushed[k];
    ScanFiresFromPlan(plan, rec0, accepts);
    var j :| 0 <= j < |plan| && PartOfBatch(e, plan[j], rec0);
    PartOfPlanIsOneEvent(EventOrder(rows), rows, flows, rec0, e, j);
  }

  /** Once computed, the outcome of a chunk is never revisited, and the record only grows. */
  lemma {:induction false} ScanFiresPrefix(plan: seq<PlannedBatch>, rec0: set<int>, accepts: seq<bool>, k: nat)
    requires |accepts| == |plan| && k <= |plan|
    ensures var s, t := ScanFires(plan, rec0, accepts), ScanFires(plan[..k], rec0, accepts[..k]);
      s.outcomes[..k] == t.outcomes && t.recorded <= s.recorded
    decreases |plan|
  {
    if k < |plan| {
      var n := |plan| - 1;
      assert plan[..n][..k] == plan[..k] && accepts[..n][..k] == accepts[..k];
      ScanFiresPrefix(plan[..n], rec0, accepts[..n], k);
    } else {
      assert plan[..k] == plan && accepts[..k] == accepts;
    }
  }

  /** The outcome of chunk j is decided by the record as the loop reaches it. */
  lemma ScanFiresOutcomeAt(plan: seq<PlannedBatch>, rec0: set<int>, accepts: seq<bool>, j: nat)
    requires |accepts| == |plan| && j < |plan|
    ensures var before := ScanFires(plan[..j], rec0, accepts[..j]);
      && ScanFires(plan, rec0, accepts).outcomes[j] == FireStep(before, plan[j], accepts[j]).outcomes[j]
      && FireStep(before, plan[j], accepts[j]).recorded <= ScanFires(plan, rec0, accepts).recorded
  {
    ScanFiresPrefix(plan, rec0, accepts, j + 1);
    assert plan[..j + 1][..j] == plan[..j] && accepts[..j + 1][..j] == accepts[..j];
  }

  /** An id of chunk j was not pushed by any chunk before it, when no id is in two chunks. */
  lemma NotPushedBefore(plan: seq<PlannedBatch>, rec0: set<int>, accepts: seq<bool>, j: nat, x: int)
    requires |accepts| == |plan| && j < |plan| && DisjointBatches(plan) && x in plan[j].ids
    ensures x !in PushedIds(ScanFires(plan[..j], rec0, accepts[..j]).pushed)
  {
    var before := ScanFires(plan[..j], rec0, accepts[..j]);
    ScanFiresRecordsWhatItPushes(plan[..j], rec0, accepts[..j]);
    if x in PushedIds(before.pushed) {
      var k, i := PushedIdsOrigin(before.pushed, x);
      assert false;
    }
  }

  /**
   * Partial-failure isolation: when no fire id is in two chunks, chunk j is
   * skipped exactly when all its ids were recorded before the loop, and
   * otherwise queued exactly when its own push succeeds, whatever happened to
   * the other chunks.
   */
  lemma BatchOutcome(plan: seq<PlannedBatch>, rec0: set<int>, accepts: seq<bool>, j: nat)
    requires |accepts| == |plan| && j < |plan|
    requires DisjointBatches(plan)
    ensures ScanFires(plan, rec0, accepts).outcomes[j] ==
      if Unqueued(plan[j].ids, rec0) == [] then Skipped else if accepts[j] then Queued else Failed
  {
    var before := ScanFires(plan[..j], rec0, accepts[..j]);
    ScanFiresOutcomeAt(plan, rec0, accepts, j);
    ScanFiresRecordsWhatItPushes(plan[..j], rec0, accepts[..j]);
    forall i | 0 <= i < |plan[j].ids| ensures plan[j].ids[i] in before.recorded <==> plan[j].ids[i] in rec0 {
      NotPushedBefore(plan, rec0, accepts, j, plan[j].ids[i]);
    }
    UnqueuedAgree(plan[j].ids, before.recorded, rec0);
  }

  /** Every id recorded by the loop was carried by some pushed task. */
  lemma {:induction false} PushedIdsOrigin(pushed: seq<Entry<HandlerEvent>>, x: int) returns (k: nat, i: nat)
    requires x in PushedIds(pushed)
    ensures k < |pushed| && i < |FiresOf(pushed[k])| && FiresOf(pushed[k])[i] == x
    decreases |pushed|
  {
    var n := |pushed| - 1;
    if x in PushedIds(pushed[..n]) {
      k, i := PushedIdsOrigin(pushed[..n], x);
      assert pushed[..n][k] == pushed[k];
    } else {
      k := n;
      i :| 0 <= i < |FiresOf(pushed[n])| && FiresOf(pushed[n])[i] == x;
    }
  }

  /** After a chunk that was not a failed push, all its ids are recorded. */
  lemma NonFailedBatchIsRecorded(plan: seq<PlannedBatch>, rec0: set<int>, accepts: seq<bool>, j: nat)
    requires |accepts| == |plan| && j < |plan|
    requires ScanFires(plan, rec0, accepts).outcomes[j] != Failed
    ensures forall i :: 0 <= i < |plan[j].ids| ==> plan[j].ids[i] in ScanFires(plan, rec0, accepts).recorded
  {
    var before := ScanFires(plan[..j], rec0, accepts[..j]);
    ScanFiresOutcomeAt(plan, rec0, accepts, j);
    UnqueuedMembers(plan[j].ids, before.recorded);
  }

  /** Some chunk holding `x` was queued. */
  predicate QueuedIn(plan: seq<PlannedBatch>, outcomes: seq<Outcome>, x: int)
  {
    exists k :: 0 <= k < |plan| && k < |outcomes| && outcomes[k] == Queued && x in plan[k].ids
  }

  /** An id the loop recorded, and that was not recorded before it, is in a chunk whose push succeeded. */
  lemma {:induction false} RecordedOrigin(plan: seq<PlannedBatch>, rec0: set<int>, accepts: seq<bool>, x: int)
    requires |accepts| == |plan|
    requires x in ScanFires(plan, rec0, accepts).recorded && x !in rec0
    ensures QueuedIn(plan, ScanFires(plan, rec0, accepts).outcomes, x)
    decreases |plan|
  {
    if plan == [] {
      assert false;
    } else {
      var n := |plan| - 1;
      var prev := ScanFires(plan[..n], rec0, accepts[..n]);
      var s := ScanFires(plan, rec0, accepts);
      assert s == FireStep(prev, plan[n], accepts[n]);
      ScanFiresPrefix(plan, rec0, accepts, n);
      if x in prev.recorded {
        RecordedOrigin(plan[..n], rec0, accepts[..n], x);
        var k :| 0 <= k < n && k < |prev.outcomes| && prev.outcomes[k] == Queued && x in plan[..n][k].ids;
        assert s.outcomes[k] == prev.outcomes[k] && plan[..n][k] == plan[k];
      } else {
        UnqueuedMembers(plan[n].ids, prev.recorded);
        assert s.outcomes[n] == Queued;
      }
    }
  }

  /**
   * When no fire id is in two chunks, the ids of a chunk whose push failed
   * stay unrecorded (unless they were recorded before the loop), so the next
   * scan offers them again.
   */
  lemma FailedBatchStaysUnrecorded(plan: seq<PlannedBatch>, rec0: set<int>, accepts: seq<bool>, j: nat)
    requires |accepts| == |plan| && j < |plan|
    requires DisjointBatches(plan)
    requires ScanFires(plan, rec0, accepts).outcomes[j] == Failed
    ensures forall x :: x in plan[j].ids && x !in rec0 ==> x !in ScanFires(plan, rec0, accepts).recorded
  {
    var s := ScanFires(plan, rec0, accepts);
    forall x | x in plan[j].ids && x !in rec0 ensures x !in s.recorded {
      if x in s.recorded {
        RecordedOrigin(plan, rec0, accepts, x);
        var k :| 0 <= k < |plan| && k < |s.outcomes| && s.outcomes[k] == Queued && x in plan[k].ids;
        BatchesApart(plan, j, k, x);
      }
    }
  }

  /** With no id in two chunks, an id of one chunk is in no other. */
  lemma BatchesApart(plan: seq<PlannedBatch>, a: nat, b: nat, x: int)
    requires DisjointBatches(plan) && a < |plan| && b < |plan| && a != b && x in plan[a].ids
    ensures x !in plan[b].ids
  {
    var i :| 0 <= i < |plan[a].ids| && plan[a].ids[i] == x;
    if b < a {
      forall i2 | 0 <= i2 < |plan[b].ids| ensures plan[b].ids[i2] != x {
        assert plan[b].ids[i2] !in plan[a].ids;
      }
    } else {
      assert plan[a].ids[i] !in plan[b].ids;
    }
  }

  /** A loop over chunks whose ids are all recorded pushes nothing and records nothing. */
  lemma {:induction false} RescanPushesNothing(plan: seq<PlannedBatch>, rec0: set<int>, accepts: seq<bool>)
    requires |accepts| == |plan|
    requires forall j, i :: 0 <= j < |plan| && 0 <= i < |plan[j].ids| ==> plan[j].ids[i] in rec0
    ensures var s := ScanFires(plan, rec0, accepts);
      && s.pushed == [] && s.recorded == rec0
      && forall j :: 0 <= j < |plan| ==> s.outcomes[j] == Skipped
    decreases |plan|
  {
    if plan != [] {
      var n := |plan| - 1;
      assert forall j :: 0 <= j < n ==> plan[..n][j] == plan[j];
      RescanPushesNothing(plan[..n], rec0, accepts[..n]);
      UnqueuedEmpty(plan[n].ids, rec0);
    }
  }

  /**
   * Running the task twice over the same chunks: when no push of the first
   * run failed, the second pushes nothing and skips every chunk.
   */
  lemma SecondScanPushesNothing(plan: seq<PlannedBatch>, rec0: set<int>, acc1: seq<bool>, acc2: seq<bool>)
    requires |acc1| == |plan| && |acc2| == |plan|
    requires forall j :: 0 <= j < |plan| ==> ScanFires(plan, rec0, acc1).outcomes[j] != Failed
    ensures var s1 := ScanFires(plan, rec0, acc1);
      var s2 := ScanFires(plan, s1.recorded, acc2);
      s2.pushed == [] && s2.recorded == s1.recorded && forall j :: 0 <= j < |plan| ==> s2.outcomes[j] == Skipped
  {
    var s1 := ScanFires(plan, rec0, acc1);
    forall j, i | 0 <= j < |plan| && 0 <= i < |plan[j].ids| ensures plan[j].ids[i] in s1.recorded {
      NonFailedBatchIsRecorded(plan, rec0, acc1, j);
    }
    RescanPushesNothing(plan, s1.recorded, acc2);
  }

  /** One more chunk handled by the loop extends the fold by one step. */
  lemma ScanFiresStep(plan: seq<PlannedBatch>, rec0: set<int>, outcomes: seq<Outcome>, j: nat, o: Outcome)
    requires j < |plan| && |outcomes| == j
    ensures ScanFires(plan[..j + 1], rec0, Accepted(outcomes + [o]))
      == FireStep(ScanFires(plan[..j], rec0, Accepted(outcomes)), plan[j], o == Queued)
  {
    AcceptedPrefix(outcomes, o);
    assert plan[..j + 1][..j] == plan[..j];
  }

  /** A step of the scan does not look at what was pushed or decided before. */
  lemma FireStepShift(s: FireScan, pre: seq<Entry<HandlerEvent>>, preO: seq<Outcome>, b: PlannedBatch, acc: bool)
    ensures var t := FireStep(s, b, acc);
      FireStep(FireScan(pre + s.pushed, s.recorded, preO + s.outcomes), b, acc)
        == FireScan(pre + t.pushed, t.recorded, preO + t.outcomes)
  {
    assert pre + s.pushed + [Entry(b.org, FireEvent(Unqueued(b.ids, s.recorded)))] == pre + (s.pushed + [Entry(b.org, FireEvent(Unqueued(b.ids, s.recorded)))]);
  }

  /** Scanning two plans one after the other is scanning them joined, from the record the first left. */
  lemma {:induction false} ScanFiresAppend(p1: seq<PlannedBatch>, p2: seq<PlannedBatch>, rec0: set<int>, a1: seq<bool>, a2: seq<bool>)
    requires |a1| == |p1| && |a2| == |p2|
    ensures var s1 := ScanFires(p1, rec0, a1);
      var s2 := ScanFires(p2, s1.recorded, a2);
      ScanFires(p1 + p2, rec0, a1 + a2) == FireScan(s1.pushed + s2.pushed, s2.recorded, s1.outcomes + s2.outcomes)
    decreases |p2|
  {
    var s1 := ScanFires(p1, rec0, a1);
    if p2 == [] {
      assert p1 + p2 == p1 && a1 + a2 == a1;
    } else {
      var n := |p2| - 1;
      ScanFiresAppend(p1, p2[..n], rec0, a1, a2[..n]);
      var p, a := p1 + p2, a1 + a2;
      assert p[..|p1| + n] == p1 + p2[..n] && p[|p1| + n] == p2[n];
      assert a[..|a1| + n] == a1 + a2[..n] && a[|a1| + n] == a2[n];
      assert ScanFires(p, rec0, a) == FireStep(ScanFires(p1 + p2[..n], rec0, a1 + a2[..n]), p2[n], a2[n]);
      FireStepShift(ScanFires(p2[..n], s1.recorded, a2[..n]), s1.pushed, s1.outcomes, p2[n], a2[n]);
    }
  }

  /**
   * The inner loop of `check_campaigns_task`, for one event: its fire ids in
   * chunks of 500, each filtered against the record and pushed when anything
   * is left.
   */
  method QueueEventFires(handler: TaskQueue<HandlerEvent>, record: QueueRecord<int>, ev: int, org: int, ids: seq<int>)
    returns (outcomes: seq<Outcome>)
    modifies handler, record
    ensures Replays(EventBatches(ev, org, ids), old(record.queued), old(handler.pending), outcomes, handler.pending, record.queued)
    ensures handler.busy == old(handler.busy) && handler.completed == old(handler.completed)
  {
    ghost var batches := EventBatches(ev, org, ids);
    ghost var rec0, pending0 := record.queued, handler.pending;
    outcomes := [];
    var chunks := Chunks(ids, FireBatchSize);
    assert batches[..0] == [];
    for c := 0 to |chunks|
      invariant Replays(batches[..c], rec0, pending0, outcomes, handler.pending, record.queued)
      invariant handler.busy == old(handler.busy) && handler.completed == old(handler.completed)
    {
      assert batches[c] == PlannedBatch(ev, org, chunks[c]);
      ghost var pending1, recorded1 := handler.pending, record.queued;
      var o := QueueFireBatch(handler, record, org, chunks[c]);
      ReplaysStep(batches, c, rec0, pending0, outcomes, pending1, recorded1, o, handler.pending, record.queued);
      outcomes := outcomes + [o];
    }
    assert batches[..|chunks|] == batches;
  }

  /**
   * What one chunk does to the queue and the record: with nothing left to
   * push it is skipped; otherwise the rest is pushed and recorded, or the push
   * fails and nothing changes.
   */
  predicate FireMove(org: int, ids: seq<int>, pending: seq<Entry<HandlerEvent>>, recorded: set<int>,
                     o: Outcome, pending2: seq<Entry<HandlerEvent>>, recorded2: set<int>)
  {
    var newIds := Unqueued(ids, recorded);
    if newIds == [] then o == Skipped && pending2 == pending && recorded2 == recorded
    else if o == Queued then pending2 == pending + [Entry(org, FireEvent(newIds))] && recorded2 == recorded + IdSet(newIds)
    else o == Failed && pending2 == pending && recorded2 == recorded
  }

  /** The body of the inner loop for one chunk: push what is not recorded yet, if anything, and record it on success. */
  method QueueFireBatch(handler: TaskQueue<HandlerEvent>, record: QueueRecord<int>, org: int, chunk: seq<int>)
    returns (o: Outcome)
    modifies handler, record
    ensures FireMove(org, chunk, old(handler.pending), old(record.queued), o, handler.pending, record.queued)
    ensures handler.busy == old(handler.busy) && handler.completed == old(handler.completed)
  {
    var newIds := record.FilterUnqueued(chunk);
    if newIds == [] {
      o := Skipped;
    } else {
      var ok := handler.Push(org, FireEvent(newIds));
      if ok {
        record.SetQueued(IdSet(newIds));
        o := Queued;
      } else {
        o := Failed;
      }
    }
  }

  /** One more chunk handled as `FireStep` says extends the replay by one outcome. */
  lemma ReplaysStep(plan: seq<PlannedBatch>, j: nat, rec0: set<int>, pending0: seq<Entry<HandlerEvent>>,
                    outcomes: seq<Outcome>, pending: seq<Entry<HandlerEvent>>, recorded: set<int>,
                    o: Outcome, pending2: seq<Entry<HandlerEvent>>, recorded2: set<int>)
    requires j < |plan| && Replays(plan[..j], rec0, pending0, outcomes, pending, recorded)
    requires FireMove(plan[j].org, plan[j].ids, pending, recorded, o, pending2, recorded2)
    ensures Replays(plan[..j + 1], rec0, pending0, outcomes + [o], pending2, recorded2)
  {
    ScanFiresStep(plan, rec0, outcomes, j, o);
    AcceptedPrefix(outcomes, o);
  }

  /** The chunks of the first e + 1 events are those of the first e, then those of event e. */
  lemma PlanOfStep(order: seq<int>, rows: seq<FireRow>, flows: map<int, FlowRow>, e: nat)
    requires FlowsKnown(rows, flows) && Visitable(rows, order) && e < |order|
    ensures Visitable(rows, order[..e]) && Visitable(rows, order[..e + 1])
    ensures PlanOf(order[..e + 1], rows, flows)
      == PlanOf(order[..e], rows, flows) + EventBatches(order[e], EventOrg(rows, flows, order[e]), EventIds(rows, order[e]))
  {
    assert order[..e + 1][..e] == order[..e] && order[..e + 1][e] == order[e];
    assert forall k :: 0 <= k <= e ==> order[..e + 1][k] == order[k];
  }

  /**
   * The queue and the record are what replaying `outcomes` through the scan
   * of `plan` gives, from `pending0` and `rec0`.
   */
  ghost predicate Replays(plan: seq<PlannedBatch>, rec0: set<int>, pending0: seq<Entry<HandlerEvent>>,
                          outcomes: seq<Outcome>, pending: seq<Entry<HandlerEvent>>, recorded: set<int>)
  {
    && |outcomes| == |plan|
    && var s := ScanFires(plan, rec0, Accepted(outcomes));
    && outcomes == s.outcomes && pending == pending0 + s.pushed && recorded == s.recorded
  }

  /** Replaying two plans one after the other is replaying them joined. */
  lemma ReplaysAppend(plan1: seq<PlannedBatch>, plan2: seq<PlannedBatch>, rec0: set<int>, pending0: seq<Entry<HandlerEvent>>,
                      o1: seq<Outcome>, p1: seq<Entry<HandlerEvent>>, r1: set<int>,
                      o2: seq<Outcome>, p2: seq<Entry<HandlerEvent>>, r2: set<int>)
    requires Replays(plan1, rec0, pending0, o1, p1, r1) && Replays(plan2, r1, p1, o2, p2, r2)
    ensures Replays(plan1 + plan2, rec0, pending0, o1 + o2, p2, r2)
  {
    ScanFiresAppend(plan1, plan2, rec0, Accepted(o1), Accepted(o2));
    AcceptedAppend(o1, o2);
  }

  /** One event's inner loop, appended to the outer loop's fold. */
  lemma PlanScanStep(order: seq<int>, rows: seq<FireRow>, flows: map<int, FlowRow>, e: nat, rec0: set<int>,
                     pending0: seq<Entry<HandlerEvent>>, outcomes: seq<Outcome>, p1: seq<Entry<HandlerEvent>>, r1: set<int>,
                     more: seq<Outcome>, p2: seq<Entry<HandlerEvent>>, r2: set<int>)
    requires FlowsKnown(rows, flows) && Visitable(rows, order) && e < |order|
    requires Visitable(rows, order[..e]) && Replays(PlanOf(order[..e], rows, flows), rec0, pending0, outcomes, p1, r1)
    requires Replays(EventBatches(order[e], EventOrg(rows, flows, order[e]), EventIds(rows, order[e])), r1, p1, more, p2, r2)
    ensures Visitable(rows, order[..e + 1])
    ensures Replays(PlanOf(order[..e + 1], rows, flows), rec0, pending0, outcomes + more, p2, r2)
  {
    PlanOfStep(order, rows, flows, e);
    ReplaysAppend(PlanOf(order[..e], rows, flows), EventBatches(order[e], EventOrg(rows, flows, order[e]), EventIds(rows, order[e])),
                  rec0, pending0, outcomes, p1, r1, more, p2, r2);
  }

  /** The outer loop of `check_campaigns_task`, over the grouped events in order. */
  method QueueCampaignFires(handler: TaskQueue<HandlerEvent>, record: QueueRecord<int>, rows: seq<FireRow>,
                            flows: map<int, FlowRow>, order: seq<int>, fireIds: map<int, seq<int>>, eventFlow: map<int, int>)
    returns (outcomes: seq<Outcome>)
    requires FlowsKnown(rows, flows)
    requires order == EventOrder(rows) && eventFlow == EventFlows(rows)
    requires forall ev :: ev in fireIds <==> ev in order
    requires forall ev :: ev in fireIds ==> fireIds[ev] == EventIds(rows, ev)
    modifies handler, record
    ensures |outcomes| == |CampaignPlan(rows, flows)|
    ensures var s := ScanFires(CampaignPlan(rows, flows), old(record.queued), Accepted(outcomes));
      && outcomes == s.outcomes
      && handler.pending == old(handler.pending) + s.pushed
      && record.queued == s.recorded
    ensures handler.busy == old(handler.busy) && handler.completed == old(handler.completed)
  {
    ghost var rec0, pending0 := record.queued, handler.pending;
    outcomes := [];
    assert Visitable(rows, order);
    assert Visitable(rows, order[..0]);
    for e := 0 to |order|
      invariant Visitable(rows, order[..e])
      invariant Replays(PlanOf(order[..e], rows, flows), rec0, pending0, outcomes, handler.pending, record.queued)
      invariant handler.busy == old(handler.busy) && handler.completed == old(handler.completed)
    {
      var ev := order[e];
      EventFlowKnown(rows, flows, ev);
      var org := flows[eventFlow[ev]].org;
      assert org == EventOrg(rows, flows, ev);
      assert ev in fireIds && fireIds[ev] == EventIds(rows, ev);
      ghost var p1, r1 := handler.pending, record.queued;
      var more := QueueEventFires(handler, record, ev, org, fireIds[ev]);
      PlanScanStep(order, rows, flows, e, rec0, pending0, outcomes, p1, r1, more, handler.pending, record.queued);
      outcomes := outcomes + more;
    }
    assert order[..|order|] == order;
  }

  /**
   * `check_campaigns_task`. Returns what happened to each chunk of the plan;
   * replaying those outcomes through `ScanFires` gives exactly the tasks
   * pushed and the new record.
   */
  method CheckCampaigns(db: Database, handler: TaskQueue<HandlerEvent>, record: QueueRecord<int>, now: int)
    returns (outcomes: seq<Outcome>)
    modifies handler, record
    ensures var rows := UnfiredFires(db.fires, db.events, db.flows, now);
      && FlowsKnown(rows, db.flows)
      && |outcomes| == |CampaignPlan(rows, db.flows)|
      && var s := ScanFires(CampaignPlan(rows, db.flows), old(record.queued), Accepted(outcomes));
      && outcomes == s.outcomes
      && handler.pending == old(handler.pending) + s.pushed
      && record.queued == s.recorded
    ensures handler.busy == old(handler.busy) && handler.completed == old(handler.completed)
  {
    var rows := UnfiredFires(db.fires, db.events, db.flows, now);
    UnfiredFiresAreTheDueFires(db.fires, db.events, db.flows, now);
    var order, fireIds, eventFlow := GroupFiresByEvent(rows);
    outcomes := QueueCampaignFires(handler, record, rows, db.flows, order, fireIds, eventFlow);
  }
}

/**
 * The first half of `check_campaigns_task`: the due, unfired event fires are
 * selected and grouped by campaign event, remembering each event's flow.
 * Python's `defaultdict` keeps its keys in insertion order, so the order in
 * which the events are later visited is the order of their first fire in the
 * selection; the model keeps that order as an explicit sequence.
 */
module CampaignGrouping {
  import opened Collections
  import opened Models

  /** A fire as the scan loads it: `values("id", "event_id", "event__flow_id")`. */
  datatype FireRow = FireRow(id: int, event: int, flow: int)

  /** `fired=None, scheduled__lte=now, event__flow__flow_server_enabled=False`. */
  predicate Due(events: map<int, EventRow>, flows: map<int, FlowRow>, now: int, f: EventFire)
  {
    && f.fired == None && f.scheduled <= now
    && f.event in events && events[f.event].flow in flows
    && !flows[events[f.event].flow].flowServerEnabled
  }

  function AsFireRow(events: map<int, EventRow>, f: EventFire): FireRow
    requires f.event in events
  {
    FireRow(f.id, f.event, events[f.event].flow)
  }

  /** The selected fires, in table order. */
  function UnfiredFires(fires: seq<EventFire>, events: map<int, EventRow>, flows: map<int, FlowRow>, now: int): seq<FireRow>
  {
    var due := Filter(fires, f => Due(events, flows, now, f));
    seq(|due|, k requires 0 <= k < |due| => AsFireRow(events, due[k]))
  }

  /** The row is what the scan loads of some due fire of the table. */
  predicate LoadedFromDueFire(row: FireRow, fires: seq<EventFire>, events: map<int, EventRow>, flows: map<int, FlowRow>, now: int)
  {
    exists i :: 0 <= i < |fires| && Due(events, flows, now, fires[i]) && fires[i].event in events
      && row == AsFireRow(events, fires[i])
  }

  /** Every row's flow exists. */
  predicate FlowsKnown(rows: seq<FireRow>, flows: map<int, FlowRow>)
  {
    forall k :: 0 <= k < |rows| ==> rows[k].flow in flows
  }

  /** Two rows of one event carry the same flow. */
  predicate ConsistentFlows(rows: seq<FireRow>)
  {
    forall a, b :: 0 <= a < |rows| && 0 <= b < |rows| && rows[a].event == rows[b].event ==> rows[a].flow == rows[b].flow
  }

  /**
   * The scan sees exactly the due fires: each row comes from an unfired fire
   * scheduled by now whose event's flow is not flow-server enabled, and every
   * such fire is loaded. Every row's flow exists, and the rows of one event
   * agree on its flow.
   */
  lemma UnfiredFiresAreTheDueFires(fires: seq<EventFire>, events: map<int, EventRow>, flows: map<int, FlowRow>, now: int)
    ensures var rows := UnfiredFires(fires, events, flows, now);
      && (forall k :: 0 <= k < |rows| ==> LoadedFromDueFire(rows[k], fires, events, flows, now))
      && (forall i :: 0 <= i < |fires| && Due(events, flows, now, fires[i]) ==> AsFireRow(events, fires[i]) in rows)
      && FlowsKnown(rows, flows)
      && ConsistentFlows(rows)
  {
    var due := Filter(fires, f => Due(events, flows, now, f));
    var rows := UnfiredFires(fires, events, flows, now);
    forall k | 0 <= k < |rows| ensures LoadedFromDueFire(rows[k], fires, events, flows, now) {
      var i :| 0 <= i < |fires| && fires[i] == due[k];
      assert Due(events, flows, now, fires[i]) && rows[k] == AsFireRow(events, fires[i]);
    }
    forall i | 0 <= i < |fires| && Due(events, flows, now, fires[i]) ensures AsFireRow(events, fires[i]) in rows {
      var k :| 0 <= k < |due| && due[k] == fires[i];
      assert rows[k] == AsFireRow(events, fires[i]);
    }
  }

  /** Fire ids are primary keys, so no two rows share an id. */
  lemma UnfiredFiresDistinct(fires: seq<EventFire>, events: map<int, EventRow>, flows: map<int, FlowRow>, now: int)
    requires DistinctFireIds(fires)
    ensures var rows := UnfiredFires(fires, events, flows, now);
      forall a, b :: 0 <= a < b < |rows| ==> rows[a].id != rows[b].id
  {
    var due := Filter(fires, f => Due(events, flows, now, f));
    assert Distinct(fires) by {
      forall i, j | 0 <= i < j < |fires| ensures fires[i] != fires[j] {
        assert fires[i].id != fires[j].id;
      }
    }
    FilterDistinct(fires, f => Due(events, flows, now, f));
    var rows := UnfiredFires(fires, events, flows, now);
    forall a, b | 0 <= a < b < |rows| ensures rows[a].id != rows[b].id {
      assert due[a] != due[b];
      var i :| 0 <= i < |fires| && fires[i] == due[a];
      var j :| 0 <= j < |fires| && fires[j] == due[b];
      assert i != j;
      assert fires[i].id != fires[j].id by {
        if i < j { assert fires[i].id != fires[j].id; } else { assert fires[j].id != fires[i].id; }
      }
      assert rows[a].id == due[a].id && rows[b].id == due[b].id;
    }
  }

  /** The events in the order their first fire appears. */
  function EventOrder(rows: seq<FireRow>): (order: seq<int>)
    ensures forall ev :: ev in order <==> exists k :: 0 <= k < |rows| && rows[k].event == ev
    decreases |rows|
  {
    if rows == [] then []
    else
      var n := |rows| - 1;
      var order := EventOrder(rows[..n]);
      assert forall k :: 0 <= k < n ==> rows[..n][k] == rows[k];
      if rows[n].event in order then order else order + [rows[n].event]
  }

  /** The ids of the fires of one event, in selection order. */
  function EventIds(rows: seq<FireRow>, ev: int): (ids: seq<int>)
    decreases |rows|
  {
    if rows == [] then []
    else
      var n := |rows| - 1;
      EventIds(rows[..n], ev) + if rows[n].event == ev then [rows[n].id] else []
  }

  /** `event_flow_map`: each event's flow, as its last fire in the selection says. */
  function EventFlows(rows: seq<FireRow>): (m: map<int, int>)
    ensures forall ev :: ev in m <==> ev in EventOrder(rows)
    decreases |rows|
  {
    if rows == [] then map[]
    else
      var n := |rows| - 1;
      EventFlows(rows[..n])[rows[n].event := rows[n].flow]
  }

  /** Some row of that event carries that id. */
  predicate IdOfEvent(rows: seq<FireRow>, ev: int, x: int)
  {
    exists k :: 0 <= k < |rows| && rows[k].event == ev && rows[k].id == x
  }

  /** An id is in an event's list exactly when a fire of that event has it. */
  lemma {:induction false} EventIdsMembers(rows: seq<FireRow>, ev: int, x: int)
    ensures x in EventIds(rows, ev) <==> IdOfEvent(rows, ev, x)
    decreases |rows|
  {
    if rows != [] {
      var n := |rows| - 1;
      EventIdsMembers(rows[..n], ev, x);
      if IdOfEvent(rows[..n], ev, x) {
        var k :| 0 <= k < n && rows[..n][k].event == ev && rows[..n][k].id == x;
        assert rows[k] == rows[..n][k];
      }
      if IdOfEvent(rows, ev, x) && !(rows[n].event == ev && rows[n].id == x) {
        var k :| 0 <= k < |rows| && rows[k].event == ev && rows[k].id == x;
        assert k < n && rows[..n][k] == rows[k];
      }
    }
  }

  /** An event has fires in its list exactly when it is one of the events visited. */
  lemma {:induction false} EventIdsNonEmpty(rows: seq<FireRow>, ev: int)
    ensures EventIds(rows, ev) != [] <==> ev in EventOrder(rows)
    decreases |rows|
  {
    if rows != [] {
      EventIdsNonEmpty(rows[..|rows| - 1], ev);
    }
  }

  /** Each event is visited once. */
  lemma {:induction false} EventOrderDistinct(rows: seq<FireRow>)
    ensures Distinct(EventOrder(rows))
    decreases |rows|
  {
    if rows != [] {
      var n := |rows| - 1;
      EventOrderDistinct(rows[..n]);
      var order := EventOrder(rows[..n]);
      if rows[n].event !in order {
        var r := order + [rows[n].event];
        forall i, j | 0 <= i < j < |r| ensures r[i] != r[j] {
          if j < |order| {
            assert r[i] == order[i] && r[j] == order[j];
          } else {
            assert r[i] == order[i];
          }
        }
      }
    }
  }

  /** With unique fire ids, a selected fire lands in its own event's list and in no other. */
  lemma FireInExactlyItsEventsList(rows: seq<FireRow>, k: nat, ev: int)
    requires k < |rows|
    requires forall a, b :: 0 <= a < b < |rows| ==> rows[a].id != rows[b].id
    ensures rows[k].id in EventIds(rows, ev) <==> ev == rows[k].event
  {
    EventIdsMembers(rows, ev, rows[k].id);
    if IdOfEvent(rows, ev, rows[k].id) {
      var j :| 0 <= j < |rows| && rows[j].event == ev && rows[j].id == rows[k].id;
      assert j == k;
    }
  }

  /** When the rows of an event agree on its flow, `event_flow_map` maps the event to it. */
  lemma {:induction false} EventFlowIsTheEventsFlow(rows: seq<FireRow>, k: nat)
    requires k < |rows| && ConsistentFlows(rows)
    ensures rows[k].event in EventFlows(rows) && EventFlows(rows)[rows[k].event] == rows[k].flow
    decreases |rows|
  {
    var n := |rows| - 1;
    if k < n && rows[n].event != rows[k].event {
      assert ConsistentFlows(rows[..n]) by {
        forall a, b | 0 <= a < n && 0 <= b < n && rows[..n][a].event == rows[..n][b].event
          ensures rows[..n][a].flow == rows[..n][b].flow
        {
          assert rows[..n][a] == rows[a] && rows[..n][b] == rows[b];
        }
      }
      assert rows[..n][k] == rows[k];
      EventFlowIsTheEventsFlow(rows[..n], k);
    }
  }

  /** Every flow of `event_flow_map` is the flow of one of the rows. */
  lemma {:induction false} EventFlowKnown(rows: seq<FireRow>, flows: map<int, FlowRow>, ev: int)
    requires FlowsKnown(rows, flows) && ev in EventFlows(rows)
    ensures EventFlows(rows)[ev] in flows
    decreases |rows|
  {
    var n := |rows| - 1;
    if rows[n].event != ev {
      assert FlowsKnown(rows[..n], flows) by {
        forall k | 0 <= k < n ensures rows[..n][k].flow in flows {
          assert rows[..n][k] == rows[k];
        }
      }
      EventFlowKnown(rows[..n], flows, ev);
    }
  }

  /**
   * The grouping loop of `check_campaigns_task`: `fire_ids_by_event_id` and
   * `event_flow_map`, with the keys of the first in insertion order.
   */
  method GroupFiresByEvent(rows: seq<FireRow>) returns (order: seq<int>, fireIds: map<int, seq<int>>, eventFlow: map<int, int>)
    ensures order == EventOrder(rows)
    ensures forall ev :: ev in fireIds <==> ev in order
    ensures forall ev :: ev in fireIds ==> fireIds[ev] == EventIds(rows, ev)
    ensures eventFlow == EventFlows(rows)
  {
    order, fireIds, eventFlow := [], map[], map[];
    for i := 0 to |rows|
      invariant order == EventOrder(rows[..i])
      invariant forall ev :: ev in fireIds <==> ev in order
      invariant forall ev :: ev in fireIds ==> fireIds[ev] == EventIds(rows[..i], ev)
      invariant eventFlow == EventFlows(rows[..i])
    {
      var fire := rows[i];
      assert rows[..i + 1][..i] == rows[..i];
      EventIdsNonEmpty(rows[..i], fire.event);
      eventFlow := eventFlow[fire.event := fire.flow];
      if fire.event in fireIds {
        fireIds := fireIds[fire.event := fireIds[fire.event] + [fire.id]];
      } else {
        order := order + [fire.event];
        fireIds := fireIds[fire.event := [fire.id]];
      }
    }
    assert rows[..|rows|] == rows;
  }
}

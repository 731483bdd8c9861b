/**
 * The expiry helpers of the flows tasks: `check_flows_task` exits the runs
 * whose expiry has passed, `interrupt_flow_runs_task` exits the unfinished
 * runs of a flow, and `update_run_expirations_task` recomputes the expiry of
 * a flow's active runs from the arrival time of their last path step before
 * forcing an expiry check.
 *
 * `FlowRun.bulk_exit` and `FlowRun.update_expiration` are given the contracts
 * their callers rely on: the first marks each selected active run inactive
 * with the given exit type, the second sets the expiry to the point in time
 * plus the flow's expiry period, which is a parameter here.
 */
module FlowExpiry {
  import opened Collections
  import opened Models

  /** `is_active=True, expires_on__lte=now, org__flow_server_enabled=False`. */
  predicate Expirable(orgs: map<int, OrgRow>, now: int, r: Run)
  {
    && r.isActive
    && r.expiresOn.Some? && r.expiresOn.value <= now
    && r.org in orgs && !orgs[r.org].flowServerEnabled
  }

  /** The sort key of `order_by("expires_on")`. */
  function ExpiryKey(r: Run): int
  {
    if r.expiresOn.Some? then r.expiresOn.value else 0
  }

  /** The rows the query matches, in table order. */
  function DueRuns(runs: seq<Run>, orgs: map<int, OrgRow>, now: int): (rs: seq<Run>)
    ensures forall k :: 0 <= k < |rs| ==> rs[k] in runs && Expirable(orgs, now, rs[k])
    ensures forall i :: 0 <= i < |runs| && Expirable(orgs, now, runs[i]) ==> runs[i] in rs
  {
    Filter(runs, r => Expirable(orgs, now, r))
  }

  /** The runs `check_flows_task` expires, earliest expiry first: each due run as often as the table holds it. */
  function ExpiredRuns(runs: seq<Run>, orgs: map<int, OrgRow>, now: int): (due: seq<Run>)
    ensures SortedBy(due, ExpiryKey)
    ensures forall k :: 0 <= k < |due| ==> due[k] in runs && Expirable(orgs, now, due[k])
    ensures forall i :: 0 <= i < |runs| && Expirable(orgs, now, runs[i]) ==> runs[i] in due
    ensures multiset(due) == multiset(DueRuns(runs, orgs, now))
  {
    var matching := DueRuns(runs, orgs, now);
    var due := SortBy(matching, ExpiryKey);
    SameMembers(due, matching);
    forall k | 0 <= k < |due| ensures due[k] in runs && Expirable(orgs, now, due[k]) {
      assert due[k] in matching;
      var j :| 0 <= j < |matching| && matching[j] == due[k];
    }
    due
  }

  /** `is_active=True, exit_type=None, flow_id=flow_id`. */
  predicate Interruptible(flowId: int, r: Run)
  {
    r.isActive && r.exitType == None && r.flow == flowId
  }

  /** The runs `interrupt_flow_runs_task` exits, in table order. */
  function InterruptibleRuns(runs: seq<Run>, flowId: int): (rs: seq<Run>)
    ensures forall k :: 0 <= k < |rs| ==> rs[k] in runs && Interruptible(flowId, rs[k])
    ensures forall i :: 0 <= i < |runs| && Interruptible(flowId, runs[i]) ==> runs[i] in rs
  {
    Filter(runs, r => Interruptible(flowId, r))
  }

  function Ids(runs: seq<Run>): (ids: seq<int>)
    ensures |ids| == |runs| && forall k :: 0 <= k < |runs| ==> ids[k] == runs[k].id
  {
    seq(|runs|, k requires 0 <= k < |runs| => runs[k].id)
  }

  /**
   * `FlowRun.bulk_exit(runs, exit_type)`: every active run with one of the
   * ids becomes inactive with that exit type; nothing else about it changes,
   * and every other run is left as it was.
   */
  function ExitRuns(runs: seq<Run>, ids: set<int>, t: ExitType): (r: seq<Run>)
    ensures |r| == |runs|
    ensures forall i :: 0 <= i < |runs| ==> (r[i].isActive <==> runs[i].isActive && runs[i].id !in ids)
    ensures forall i :: 0 <= i < |runs| && runs[i].isActive && runs[i].id in ids ==> r[i].exitType == Some(t)
    ensures forall i :: 0 <= i < |runs| ==> r[i].(isActive := runs[i].isActive, exitType := runs[i].exitType) == runs[i]
    ensures forall i :: 0 <= i < |runs| && !(runs[i].isActive && runs[i].id in ids) ==> r[i] == runs[i]
  {
    seq(|runs|, i requires 0 <= i < |runs| =>
      if runs[i].isActive && runs[i].id in ids then runs[i].(isActive := false, exitType := Some(t)) else runs[i])
  }

  /** Exiting the same runs again changes nothing: exited runs are no longer active. */
  lemma ExitRunsIdempotent(runs: seq<Run>, ids: set<int>, t: ExitType, u: ExitType)
    ensures ExitRuns(ExitRuns(runs, ids, t), ids, u) == ExitRuns(runs, ids, t)
  {
    var once := ExitRuns(runs, ids, t);
    var twice := ExitRuns(once, ids, u);
    forall i | 0 <= i < |runs| ensures twice[i] == once[i] {
      assert !(once[i].isActive && once[i].id in ids) by {
        assert once[i].id == runs[i].id;
      }
    }
  }

  /** After `check_flows_task` no run of the table is due for expiry any more. */
  lemma CheckFlowsLeavesNoneDue(runs: seq<Run>, orgs: map<int, OrgRow>, now: int)
    ensures var after := ExitRuns(runs, IdSet(Ids(ExpiredRuns(runs, orgs, now))), Expired);
      forall i :: 0 <= i < |after| ==> !Expirable(orgs, now, after[i])
  {
    var due := ExpiredRuns(runs, orgs, now);
    var ids := IdSet(Ids(due));
    var after := ExitRuns(runs, ids, Expired);
    forall i | 0 <= i < |after| ensures !Expirable(orgs, now, after[i]) {
      if Expirable(orgs, now, runs[i]) {
        assert runs[i] in due;
        var k :| 0 <= k < |due| && due[k] == runs[i];
        assert Ids(due)[k] == runs[i].id;
        assert runs[i].id in ids;
      } else {
        assert after[i].(isActive := runs[i].isActive, exitType := runs[i].exitType) == runs[i];
      }
    }
  }

  /**
   * `check_flows_task` exits as Expired exactly the runs that were due, and no
   * other run changes; a run that was not due keeps running.
   */
  lemma CheckFlowsExitsExactlyTheDueRuns(runs: seq<Run>, orgs: map<int, OrgRow>, now: int, i: nat)
    requires DistinctRunIds(runs) && i < |runs|
    ensures var after := ExitRuns(runs, IdSet(Ids(ExpiredRuns(runs, orgs, now))), Expired);
      && (Expirable(orgs, now, runs[i]) ==> !after[i].isActive && after[i].exitType == Some(Expired))
      && (!Expirable(orgs, now, runs[i]) ==> after[i] == runs[i])
  {
    var due := ExpiredRuns(runs, orgs, now);
    var ids := IdSet(Ids(due));
    if Expirable(orgs, now, runs[i]) {
      var k :| 0 <= k < |due| && due[k] == runs[i];
      assert Ids(due)[k] == runs[i].id;
    } else {
      assert runs[i].id !in ids by {
        forall k | 0 <= k < |due| ensures due[k].id != runs[i].id {
          var j :| 0 <= j < |runs| && runs[j] == due[k];
          assert j != i;
          if j < i {
            assert runs[j].id != runs[i].id;
          } else {
            assert runs[i].id != runs[j].id;
          }
        }
      }
    }
  }

  /**
   * `interrupt_flow_runs_task` exits as Interrupted every active run of the
   * flow that had not exited, and leaves every other run, of this flow or
   * another, as it was.
   */
  lemma InterruptExitsOnlyTheFlowsRuns(runs: seq<Run>, flowId: int, i: nat)
    requires DistinctRunIds(runs) && i < |runs|
    ensures var after := ExitRuns(runs, IdSet(Ids(InterruptibleRuns(runs, flowId))), Interrupted);
      && (Interruptible(flowId, runs[i]) ==> !after[i].isActive && after[i].exitType == Some(Interrupted))
      && (!Interruptible(flowId, runs[i]) ==> after[i] == runs[i])
  {
    var sel := InterruptibleRuns(runs, flowId);
    var ids := IdSet(Ids(sel));
    if Interruptible(flowId, runs[i]) {
      var k :| 0 <= k < |sel| && sel[k] == runs[i];
      assert Ids(sel)[k] == runs[i].id;
    } else {
      assert runs[i].id !in ids by {
        forall k | 0 <= k < |sel| ensures sel[k].id != runs[i].id {
          var j :| 0 <= j < |runs| && runs[j] == sel[k];
          assert j != i;
          if j < i {
            assert runs[j].id != runs[i].id;
          } else {
            assert runs[i].id != runs[j].id;
          }
        }
      }
    }
  }

  /** `run.path[-1]["arrived_on"]`. */
  function LastArrival(path: seq<PathStep>): int
    requires path != []
  {
    path[|path| - 1].arrivedOn
  }

  /** The runs whose expiry `update_run_expirations_task` recomputes. */
  predicate Reexpirable(flowId: int, r: Run)
  {
    r.flow == flowId && r.isActive && r.path != []
  }

  /**
   * The table after `update_run_expirations_task`'s loop: the active runs of
   * the flow that have a path expire `period` after their last arrival; no
   * other run and no other column changes.
   */
  function Reexpire(runs: seq<Run>, flowId: int, period: int): (r: seq<Run>)
    ensures |r| == |runs|
    ensures forall i :: 0 <= i < |runs| ==> r[i].(expiresOn := runs[i].expiresOn) == runs[i]
    ensures forall i :: 0 <= i < |runs| && Reexpirable(flowId, runs[i]) ==>
      r[i].expiresOn == Some(LastArrival(runs[i].path) + period)
    ensures forall i :: 0 <= i < |runs| && !Reexpirable(flowId, runs[i]) ==> r[i] == runs[i]
  {
    seq(|runs|, i requires 0 <= i < |runs| =>
      if Reexpirable(flowId, runs[i]) then runs[i].(expiresOn := Some(LastArrival(runs[i].path) + period)) else runs[i])
  }

  /** Recomputing twice gives the same table: the path the expiry is read from is not touched. */
  lemma ReexpireIdempotent(runs: seq<Run>, flowId: int, period: int)
    ensures Reexpire(Reexpire(runs, flowId, period), flowId, period) == Reexpire(runs, flowId, period)
  {
    var once := Reexpire(runs, flowId, period);
    var twice := Reexpire(once, flowId, period);
    forall i | 0 <= i < |runs| ensures twice[i] == once[i] {
      assert once[i].(expiresOn := runs[i].expiresOn) == runs[i];
    }
  }

  /**
   * A run recomputed to expire after `now` survives the forced check that
   * follows; one recomputed to expire at or before `now` is expired by it
   * (when its org is not flow-server enabled).
   */
  lemma ReexpiredRunFate(runs: seq<Run>, orgs: map<int, OrgRow>, flowId: int, period: int, now: int, i: nat)
    requires DistinctRunIds(runs) && i < |runs| && Reexpirable(flowId, runs[i])
    requires runs[i].org in orgs && !orgs[runs[i].org].flowServerEnabled
    ensures var moved := Reexpire(runs, flowId, period);
      var after := ExitRuns(moved, IdSet(Ids(ExpiredRuns(moved, orgs, now))), Expired);
      after[i].isActive <==> LastArrival(runs[i].path) + period > now
  {
    var moved := Reexpire(runs, flowId, period);
    assert DistinctRunIds(moved) by {
      forall a, b | 0 <= a < b < |moved| ensures moved[a].id != moved[b].id {
        assert moved[a].(expiresOn := runs[a].expiresOn) == runs[a];
        assert moved[b].(expiresOn := runs[b].expiresOn) == runs[b];
      }
    }
    assert moved[i].(expiresOn := runs[i].expiresOn) == runs[i];
    CheckFlowsExitsExactlyTheDueRuns(moved, orgs, now, i);
  }

  /** The table after `i` iterations of `update_run_expirations_task`'s loop: those runs recomputed, the rest as they were. */
  ghost predicate ReexpiredUpTo(runs0: seq<Run>, flowId: int, period: int, i: nat, runs: seq<Run>)
  {
    i <= |runs0| && runs == Reexpire(runs0, flowId, period)[..i] + runs0[i..]
  }

  /** `run.update_expiration(last_arrived_on)` on the run at index `i`. */
  function SetExpiration(runs: seq<Run>, i: nat, period: int): (r: seq<Run>)
    requires i < |runs| && runs[i].path != []
    ensures |r| == |runs| && r[i].expiresOn == Some(LastArrival(runs[i].path) + period)
    ensures r[i].(expiresOn := runs[i].expiresOn) == runs[i]
    ensures forall k :: 0 <= k < |runs| && k != i ==> r[k] == runs[k]
  {
    runs[i := runs[i].(expiresOn := Some(LastArrival(runs[i].path) + period))]
  }

  /** One iteration of the loop: the run at `i` is still untouched, and recomputing it (or not) moves the table on by one. */
  lemma ReexpireStep(runs0: seq<Run>, flowId: int, period: int, i: nat, runs: seq<Run>)
    requires ReexpiredUpTo(runs0, flowId, period, i, runs) && i < |runs0|
    ensures |runs| == |runs0| && runs[i] == runs0[i]
    ensures Reexpirable(flowId, runs[i]) ==> ReexpiredUpTo(runs0, flowId, period, i + 1, SetExpiration(runs, i, period))
    ensures !Reexpirable(flowId, runs[i]) ==> ReexpiredUpTo(runs0, flowId, period, i + 1, runs)
  {
    var moved := Reexpire(runs0, flowId, period);
    assert runs[i] == runs0[i];
    var next := if Reexpirable(flowId, runs0[i]) then SetExpiration(runs, i, period) else runs;
    var want := moved[..i + 1] + runs0[i + 1..];
    assert |next| == |want|;
    forall k | 0 <= k < |next| ensures next[k] == want[k] {
      if k == i {
        assert !Reexpirable(flowId, runs0[i]) ==> moved[i] == runs0[i];
      }
    }
    assert next == want;
  }

  /** After the last iteration the table is the recomputed one. */
  lemma ReexpireDone(runs0: seq<Run>, flowId: int, period: int, runs: seq<Run>)
    requires ReexpiredUpTo(runs0, flowId, period, |runs0|, runs)
    ensures runs == Reexpire(runs0, flowId, period)
  {
    assert runs0[|runs0|..] == [];
  }

  /** `FlowRun.update_expiration`: saves the new expiry of one run. */
  method UpdateExpiration(db: Database, i: nat, period: int)
    requires i < |db.runs| && db.runs[i].path != []
    modifies db`runs
    ensures db.runs == SetExpiration(old(db.runs), i, period)
  {
    db.runs := SetExpiration(db.runs, i, period);
  }

  /** `FlowRun.bulk_exit`: applies the exit to the database's run table. */
  method BulkExit(db: Database, ids: seq<int>, t: ExitType)
    modifies db
    ensures db.runs == ExitRuns(old(db.runs), IdSet(ids), t)
    ensures db.sessions == old(db.sessions) && db.fires == old(db.fires)
    ensures db.orgs == old(db.orgs) && db.flows == old(db.flows) && db.broadcasts == old(db.broadcasts)
    ensures db.msgs == old(db.msgs) && db.flowStarts == old(db.flowStarts) && db.events == old(db.events)
  {
    db.runs := ExitRuns(db.runs, IdSet(ids), t);
  }

  /** `check_flows_task`: returns the ids it expired, earliest expiry first. */
  method CheckFlows(db: Database, now: int) returns (expired: seq<int>)
    modifies db
    ensures expired == Ids(ExpiredRuns(old(db.runs), old(db.orgs), now))
    ensures db.runs == ExitRuns(old(db.runs), IdSet(expired), Expired)
    ensures db.sessions == old(db.sessions) && db.fires == old(db.fires)
    ensures db.orgs == old(db.orgs) && db.flows == old(db.flows) && db.broadcasts == old(db.broadcasts)
    ensures db.msgs == old(db.msgs) && db.flowStarts == old(db.flowStarts) && db.events == old(db.events)
  {
    expired := Ids(ExpiredRuns(db.runs, db.orgs, now));
    BulkExit(db, expired, Expired);
  }

  /** `interrupt_flow_runs_task`: returns the ids it interrupted, in table order. */
  method InterruptFlowRuns(db: Database, flowId: int) returns (interrupted: seq<int>)
    modifies db
    ensures interrupted == Ids(InterruptibleRuns(old(db.runs), flowId))
    ensures db.runs == ExitRuns(old(db.runs), IdSet(interrupted), Interrupted)
    ensures db.sessions == old(db.sessions) && db.fires == old(db.fires)
    ensures db.orgs == old(db.orgs) && db.flows == old(db.flows) && db.broadcasts == old(db.broadcasts)
    ensures db.msgs == old(db.msgs) && db.flowStarts == old(db.flowStarts) && db.events == old(db.events)
  {
    interrupted := Ids(InterruptibleRuns(db.runs, flowId));
    BulkExit(db, interrupted, Interrupted);
  }

  /**
   * The loop of `update_run_expirations_task`: recomputes the expiry of each
   * active run of the flow that has a path, one run at a time.
   */
  method ReexpireRuns(db: Database, flowId: int, period: int)
    modifies db`runs
    ensures db.runs == Reexpire(old(db.runs), flowId, period)
  {
    ghost var runs0 := db.runs;
    var i := 0;
    while i < |db.runs|
      invariant ReexpiredUpTo(runs0, flowId, period, i, db.runs) && |db.runs| == |runs0|
    {
      ReexpireStep(runs0, flowId, period, i, db.runs);
      var run := db.runs[i];
      if run.flow == flowId && run.isActive && run.path != [] {
        UpdateExpiration(db, i, period);
      }
      i := i + 1;
    }
    ReexpireDone(runs0, flowId, period, db.runs);
  }

  /**
   * `update_run_expirations_task`: recomputes the expiries of the flow's
   * runs, then runs the expiry check at `now`.
   */
  method UpdateRunExpirations(db: Database, flowId: int, period: int, now: int) returns (expired: seq<int>)
    modifies db
    ensures var moved := Reexpire(old(db.runs), flowId, period);
      && expired == Ids(ExpiredRuns(moved, old(db.orgs), now))
      && db.runs == ExitRuns(moved, IdSet(expired), Expired)
    ensures db.sessions == old(db.sessions) && db.fires == old(db.fires)
    ensures db.orgs == old(db.orgs) && db.flows == old(db.flows) && db.broadcasts == old(db.broadcasts)
    ensures db.msgs == old(db.msgs) && db.flowStarts == old(db.flowStarts) && db.events == old(db.events)
  {
    ReexpireRuns(db, flowId, period);
    expired := CheckFlows(db, now);
  }
}

/**
 * `check_flow_timeouts_task`: finds the active runs whose timeout has passed
 * and pushes one TIMEOUT_EVENT per run to the handler queue of the run's org,
 * skipping runs whose fingerprint `"<id>:<epoch of timeout_on>"` is already in
 * the `flow_timeouts` record, recording a fingerprint only once its push has
 * succeeded, and carrying on past a push that fails.
 *
 * The scan is specified by a left fold, `ScanTimeouts`, over the overdue runs
 * in query order; which pushes the broker accepts is a parameter of the fold,
 * so every lemma below holds whatever the broker does.
 */
module FlowTimeouts {
  import opened Collections
  import opened Fingerprints
  import opened Models
  import opened Queues

  /** A run as the scan loads it: `.only("id", "org", "timeout_on")`. */
  datatype TimeoutRow = TimeoutRow(id: int, org: int, timeoutOn: int)

  /** The scan's query: active, `timeout_on <= now`, and the org is not flow-server enabled. */
  predicate TimesOut(orgs: map<int, OrgRow>, now: int, r: Run)
  {
    && r.isActive
    && r.timeoutOn.Some? && r.timeoutOn.value <= now
    && r.org in orgs && !orgs[r.org].flowServerEnabled
  }

  function AsTimeoutRow(r: Run): TimeoutRow
    requires r.timeoutOn.Some?
  {
    TimeoutRow(r.id, r.org, r.timeoutOn.value)
  }

  /** The row is what the scan loads of the run. */
  predicate Describes(row: TimeoutRow, r: Run)
  {
    row.id == r.id && row.org == r.org && r.timeoutOn == Some(row.timeoutOn)
  }

  /** The runs the scan loads, in table order. */
  function TimedOutRuns(runs: seq<Run>, orgs: map<int, OrgRow>, now: int): seq<Run>
  {
    Filter(runs, r => TimesOut(orgs, now, r))
  }

  /** The row describes some run of the table that has timed out. */
  predicate LoadedFromOverdueRun(row: TimeoutRow, runs: seq<Run>, orgs: map<int, OrgRow>, now: int)
  {
    exists i :: 0 <= i < |runs| && TimesOut(orgs, now, runs[i]) && Describes(row, runs[i])
  }

  /** The overdue runs, in table order. */
  function OverdueRuns(runs: seq<Run>, orgs: map<int, OrgRow>, now: int): seq<TimeoutRow>
  {
    var due := TimedOutRuns(runs, orgs, now);
    seq(|due|, k requires 0 <= k < |due| => AsTimeoutRow(due[k]))
  }

  /**
   * The scan sees exactly the overdue runs: every row it loads describes an
   * active run of a non-flow-server org whose timeout has passed, and every
   * such run is loaded.
   */
  lemma OverdueRunsAreTheTimedOutRuns(runs: seq<Run>, orgs: map<int, OrgRow>, now: int)
    ensures forall k :: 0 <= k < |OverdueRuns(runs, orgs, now)| ==>
      LoadedFromOverdueRun(OverdueRuns(runs, orgs, now)[k], runs, orgs, now)
    ensures forall i :: 0 <= i < |runs| && TimesOut(orgs, now, runs[i]) ==> AsTimeoutRow(runs[i]) in OverdueRuns(runs, orgs, now)
  {
    var due := TimedOutRuns(runs, orgs, now);
    var rows := OverdueRuns(runs, orgs, now);
    forall k | 0 <= k < |rows| ensures LoadedFromOverdueRun(rows[k], runs, orgs, now) {
      var i :| 0 <= i < |runs| && runs[i] == due[k];
      assert TimesOut(orgs, now, runs[i]) && Describes(rows[k], runs[i]);
    }
    forall i | 0 <= i < |runs| && TimesOut(orgs, now, runs[i]) ensures AsTimeoutRow(runs[i]) in rows {
      var k :| 0 <= k < |due| && due[k] == runs[i];
      assert rows[k] == AsTimeoutRow(runs[i]);
    }
  }

  predicate DistinctRowIds(rows: seq<TimeoutRow>)
  {
    forall i, j :: 0 <= i < j < |rows| ==> rows[i].id != rows[j].id
  }

  /** Run ids are primary keys, so the scan never sees two rows of one run. */
  lemma OverdueRunsDistinct(runs: seq<Run>, orgs: map<int, OrgRow>, now: int)
    requires DistinctRunIds(runs)
    ensures DistinctRowIds(OverdueRuns(runs, orgs, now))
  {
    var due := TimedOutRuns(runs, orgs, now);
    assert Distinct(runs) by {
      forall i, j | 0 <= i < j < |runs| ensures runs[i] != runs[j] {
        assert runs[i].id != runs[j].id;
      }
    }
    FilterDistinct(runs, r => TimesOut(orgs, now, r));
    var rows := OverdueRuns(runs, orgs, now);
    forall a, b | 0 <= a < b < |rows| ensures rows[a].id != rows[b].id {
      assert due[a] != due[b];
      var i :| 0 <= i < |runs| && runs[i] == due[a];
      var j :| 0 <= j < |runs| && runs[j] == due[b];
      assert i != j;
      assert runs[i].id != runs[j].id by {
        if i < j { assert runs[i].id != runs[j].id; } else { assert runs[j].id != runs[i].id; }
      }
      assert rows[a].id == due[a].id && rows[b].id == due[b].id;
    }
  }

  /** `"%d:%d" % (r.id, datetime_to_epoch(r.timeout_on))`. */
  function RowFingerprint(r: TimeoutRow): string
  {
    Fingerprint(r.id, r.timeoutOn)
  }

  function TimeoutTask(r: TimeoutRow): Entry<HandlerEvent>
  {
    Entry(r.org, TimeoutEvent(r.id, r.timeoutOn))
  }

  /** The handler-queue entries for the rows pushed, in push order. */
  function TimeoutTasks(rows: seq<TimeoutRow>): (tasks: seq<Entry<HandlerEvent>>)
    ensures |tasks| == |rows|
    ensures forall i :: 0 <= i < |rows| ==> tasks[i] == TimeoutTask(rows[i])
  {
    seq(|rows|, i requires 0 <= i < |rows| => TimeoutTask(rows[i]))
  }

  lemma TimeoutTasksAppend(rows: seq<TimeoutRow>, r: TimeoutRow)
    ensures TimeoutTasks(rows + [r]) == TimeoutTasks(rows) + [TimeoutTask(r)]
  {
    assert TimeoutTasks(rows + [r]) == TimeoutTasks(rows) + [TimeoutTask(r)];
  }

  /** The state of a scan: the rows pushed, the record, and what happened to each row. */
  datatype TimeoutScan = TimeoutScan(pushed: seq<TimeoutRow>, recorded: set<string>, outcomes: seq<Outcome>)

  /** One iteration of the loop: skip a recorded run, else push it and record it if the push succeeds. */
  function TimeoutStep(s: TimeoutScan, row: TimeoutRow, accepted: bool): TimeoutScan
  {
    var fp := RowFingerprint(row);
    if fp in s.recorded then s.(outcomes := s.outcomes + [Skipped])
    else if accepted then TimeoutScan(s.pushed + [row], s.recorded + {fp}, s.outcomes + [Queued])
    else s.(outcomes := s.outcomes + [Failed])
  }

  /**
   * The scan of `rows` starting from the record `rec0`, when the broker would
   * accept the push of row i exactly when `accepts[i]`.
   */
  function ScanTimeouts(rows: seq<TimeoutRow>, rec0: set<string>, accepts: seq<bool>): (s: TimeoutScan)
    requires |accepts| == |rows|
    ensures |s.outcomes| == |rows|
    decreases |rows|
  {
    if rows == [] then TimeoutScan([], rec0, [])
    else
      var n := |rows| - 1;
      TimeoutStep(ScanTimeouts(rows[..n], rec0, accepts[..n]), rows[n], accepts[n])
  }

  function PushedFingerprints(pushed: seq<TimeoutRow>): set<string>
  {
    set r | r in pushed :: RowFingerprint(r)
  }

  /**
   * The record grows by exactly the fingerprints of the runs pushed; every run
   * pushed was in the scan with a fingerprint not recorded before, was pushed
   * because its outcome is Queued, and no fingerprint is pushed twice.
   */
  lemma ScanRecordsExactlyWhatItPushes(rows: seq<TimeoutRow>, rec0: set<string>, accepts: seq<bool>)
    requires |accepts| == |rows|
    ensures var s := ScanTimeouts(rows, rec0, accepts);
      && s.recorded == rec0 + PushedFingerprints(s.pushed)
      && (forall r :: r in s.pushed ==> RowFingerprint(r) !in rec0)
      && (forall r :: r in s.pushed ==> exists i :: 0 <= i < |rows| && rows[i] == r && s.outcomes[i] == Queued)
      && (forall i, j :: 0 <= i < j < |s.pushed| ==> RowFingerprint(s.pushed[i]) != RowFingerprint(s.pushed[j]))
  {
    ScanRecorded(rows, rec0, accepts);
    ScanPushedQueued(rows, rec0, accepts);
    ScanPushedOnce(rows, rec0, accepts);
  }

  /** The record grows by exactly the fingerprints pushed, none of them recorded before. */
  lemma {:induction false} ScanRecorded(rows: seq<TimeoutRow>, rec0: set<string>, accepts: seq<bool>)
    requires |accepts| == |rows|
    ensures var s := ScanTimeouts(rows, rec0, accepts);
      && s.recorded == rec0 + PushedFingerprints(s.pushed)
      && (forall r :: r in s.pushed ==> RowFingerprint(r) !in rec0)
    decreases |rows|
  {
    if rows != [] {
      var n := |rows| - 1;
      var prev := ScanTimeouts(rows[..n], rec0, accepts[..n]);
      ScanRecorded(rows[..n], rec0, accepts[..n]);
      var s := ScanTimeouts(rows, rec0, accepts);
      assert s == TimeoutStep(prev, rows[n], accepts[n]);
      if s.pushed != prev.pushed {
        assert s.pushed == prev.pushed + [rows[n]];
        assert PushedFingerprints(s.pushed) == PushedFingerprints(prev.pushed) + {RowFingerprint(rows[n])};
      }
    }
  }

  /** Some row of the scan is `r` and its outcome is Queued. */
  predicate QueuedRow(rows: seq<TimeoutRow>, outcomes: seq<Outcome>, r: TimeoutRow)
  {
    exists i :: 0 <= i < |rows| && i < |outcomes| && rows[i] == r && outcomes[i] == Queued
  }

  /** Every run pushed is a run of the scan whose outcome is Queued. */
  lemma {:induction false} ScanPushedQueued(rows: seq<TimeoutRow>, rec0: set<string>, accepts: seq<bool>)
    requires |accepts| == |rows|
    ensures forall r :: r in ScanTimeouts(rows, rec0, accepts).pushed ==> QueuedRow(rows, ScanTimeouts(rows, rec0, accepts).outcomes, r)
    decreases |rows|
  {
    if rows != [] {
      var n := |rows| - 1;
      var prev := ScanTimeouts(rows[..n], rec0, accepts[..n]);
      ScanPushedQueued(rows[..n], rec0, accepts[..n]);
      var s := ScanTimeouts(rows, rec0, accepts);
      assert s == TimeoutStep(prev, rows[n], accepts[n]);
      assert s.outcomes[..n] == prev.outcomes;
      forall r | r in s.pushed ensures QueuedRow(rows, s.outcomes, r) {
        if r in prev.pushed {
          var i :| 0 <= i < n && rows[..n][i] == r && prev.outcomes[i] == Queued;
          assert rows[i] == r && s.outcomes[i] == Queued;
        } else {
          assert rows[n] == r && s.outcomes[n] == Queued;
        }
      }
    }
  }

  /** No fingerprint is pushed twice. */
  lemma {:induction false} ScanPushedOnce(rows: seq<TimeoutRow>, rec0: set<string>, accepts: seq<bool>)
    requires |accepts| == |rows|
    ensures var s := ScanTimeouts(rows, rec0, accepts);
      forall i, j :: 0 <= i < j < |s.pushed| ==> RowFingerprint(s.pushed[i]) != RowFingerprint(s.pushed[j])
    decreases |rows|
  {
    if rows != [] {
      var n := |rows| - 1;
      var prev := ScanTimeouts(rows[..n], rec0, accepts[..n]);
      ScanPushedOnce(rows[..n], rec0, accepts[..n]);
      ScanRecorded(rows[..n], rec0, accepts[..n]);
      var s := ScanTimeouts(rows, rec0, accepts);
      assert s == TimeoutStep(prev, rows[n], accepts[n]);
      if s.pushed != prev.pushed {
        var fp := RowFingerprint(rows[n]);
        assert s.pushed == prev.pushed + [rows[n]];
        forall i | 0 <= i < |prev.pushed| ensures RowFingerprint(prev.pushed[i]) != fp {
          assert prev.pushed[i] in prev.pushed;
        }
      }
    }
  }

  /** Once computed, the outcome of a row is never revisited, and the record only grows. */
  lemma {:induction false} ScanPrefix(rows: seq<TimeoutRow>, rec0: set<string>, accepts: seq<bool>, k: nat)
    requires |accepts| == |rows| && k <= |rows|
    ensures var s, t := ScanTimeouts(rows, rec0, accepts), ScanTimeouts(rows[..k], rec0, accepts[..k]);
      s.outcomes[..k] == t.outcomes && t.recorded <= s.recorded
    decreases |rows|
  {
    if k < |rows| {
      var n := |rows| - 1;
      assert rows[..n][..k] == rows[..k] && accepts[..n][..k] == accepts[..k];
      ScanPrefix(rows[..n], rec0, accepts[..n], k);
    } else {
      assert rows[..k] == rows && accepts[..k] == accepts;
    }
  }

  /** The outcome of row i is decided by the record as the loop reaches it. */
  lemma ScanOutcomeAt(rows: seq<TimeoutRow>, rec0: set<string>, accepts: seq<bool>, i: nat)
    requires |accepts| == |rows| && i < |rows|
    ensures var before := ScanTimeouts(rows[..i], rec0, accepts[..i]);
      && ScanTimeouts(rows, rec0, accepts).outcomes[i] == TimeoutStep(before, rows[i], accepts[i]).outcomes[i]
      && TimeoutStep(before, rows[i], accepts[i]).recorded <= ScanTimeouts(rows, rec0, accepts).recorded
  {
    ScanPrefix(rows, rec0, accepts, i + 1);
    assert rows[..i + 1][..i] == rows[..i] && accepts[..i + 1][..i] == accepts[..i];
  }

  /** A run whose fingerprint is already recorded is skipped, whatever the broker does. */
  lemma RecordedRunIsSkipped(rows: seq<TimeoutRow>, rec0: set<string>, accepts: seq<bool>, i: nat)
    requires |accepts| == |rows| && i < |rows|
    requires RowFingerprint(rows[i]) in rec0
    ensures ScanTimeouts(rows, rec0, accepts).outcomes[i] == Skipped
  {
    ScanOutcomeAt(rows, rec0, accepts, i);
    ScanRecordsExactlyWhatItPushes(rows[..i], rec0, accepts[..i]);
  }

  /** Every run that was not a failed push ends up recorded. */
  lemma NonFailedRunIsRecorded(rows: seq<TimeoutRow>, rec0: set<string>, accepts: seq<bool>, i: nat)
    requires |accepts| == |rows| && i < |rows|
    requires ScanTimeouts(rows, rec0, accepts).outcomes[i] != Failed
    ensures RowFingerprint(rows[i]) in ScanTimeouts(rows, rec0, accepts).recorded
  {
    ScanOutcomeAt(rows, rec0, accepts, i);
  }

  /**
   * Rescanning runs that are all recorded (their `timeout_on` unchanged since
   * they were queued) pushes nothing and leaves the record as it was.
   */
  lemma {:induction false} RescanPushesNothing(rows: seq<TimeoutRow>, rec0: set<string>, accepts: seq<bool>)
    requires |accepts| == |rows|
    requires forall r :: r in rows ==> RowFingerprint(r) in rec0
    ensures var s := ScanTimeouts(rows, rec0, accepts);
      && s.pushed == [] && s.recorded == rec0
      && forall i :: 0 <= i < |rows| ==> s.outcomes[i] == Skipped
    decreases |rows|
  {
    if rows != [] {
      var n := |rows| - 1;
      assert forall r :: r in rows[..n] ==> r in rows;
      RescanPushesNothing(rows[..n], rec0, accepts[..n]);
      assert rows[n] in rows;
    }
  }

  /**
   * Running the scan twice over the same runs: every run the first scan
   * queued or found recorded is skipped by the second; if no push of the first
   * scan failed, the second pushes nothing at all.
   */
  lemma SecondScanSkipsWhatTheFirstHandled(rows: seq<TimeoutRow>, rec0: set<string>, acc1: seq<bool>, acc2: seq<bool>)
    requires |acc1| == |rows| && |acc2| == |rows|
    ensures var s1 := ScanTimeouts(rows, rec0, acc1);
      var s2 := ScanTimeouts(rows, s1.recorded, acc2);
      && (forall i :: 0 <= i < |rows| && s1.outcomes[i] != Failed ==> s2.outcomes[i] == Skipped)
      && ((forall i :: 0 <= i < |rows| ==> s1.outcomes[i] != Failed) ==> s2.pushed == [] && s2.recorded == s1.recorded)
  {
    var s1 := ScanTimeouts(rows, rec0, acc1);
    forall i | 0 <= i < |rows| && s1.outcomes[i] != Failed
      ensures ScanTimeouts(rows, s1.recorded, acc2).outcomes[i] == Skipped
    {
      NonFailedRunIsRecorded(rows, rec0, acc1, i);
      RecordedRunIsSkipped(rows, s1.recorded, acc2, i);
    }
    if forall i :: 0 <= i < |rows| ==> s1.outcomes[i] != Failed {
      forall r | r in rows ensures RowFingerprint(r) in s1.recorded {
        var i :| 0 <= i < |rows| && rows[i] == r;
        NonFailedRunIsRecorded(rows, rec0, acc1, i);
      }
      RescanPushesNothing(rows, s1.recorded, acc2);
    }
  }

  /**
   * Partial-failure isolation: a run whose fingerprint is not yet recorded is
   * queued exactly when its own push succeeds, whatever happened to the
   * pushes of the other runs.
   */
  lemma FreshRunQueuedIffPushAccepted(rows: seq<TimeoutRow>, rec0: set<string>, accepts: seq<bool>, i: nat)
    requires |accepts| == |rows| && i < |rows|
    requires DistinctRowIds(rows)
    requires RowFingerprint(rows[i]) !in rec0
    ensures ScanTimeouts(rows, rec0, accepts).outcomes[i] == if accepts[i] then Queued else Failed
  {
    var before := ScanTimeouts(rows[..i], rec0, accepts[..i]);
    ScanOutcomeAt(rows, rec0, accepts, i);
    ScanRecordsExactlyWhatItPushes(rows[..i], rec0, accepts[..i]);
    forall r | r in before.pushed ensures RowFingerprint(r) != RowFingerprint(rows[i]) {
      var j :| 0 <= j < i && rows[..i][j] == r && before.outcomes[j] == Queued;
      assert r.id != rows[i].id;
      if RowFingerprint(r) == RowFingerprint(rows[i]) {
        FingerprintInjective(r.id, r.timeoutOn, rows[i].id, rows[i].timeoutOn);
      }
    }
  }

  /** A run whose push failed is neither recorded nor pushed, so the next scan tries it again. */
  lemma FailedRunStaysUnrecorded(rows: seq<TimeoutRow>, rec0: set<string>, accepts: seq<bool>, i: nat)
    requires |accepts| == |rows| && i < |rows|
    requires DistinctRowIds(rows)
    requires ScanTimeouts(rows, rec0, accepts).outcomes[i] == Failed
    ensures RowFingerprint(rows[i]) !in ScanTimeouts(rows, rec0, accepts).recorded
    ensures rows[i] !in ScanTimeouts(rows, rec0, accepts).pushed
  {
    var s := ScanTimeouts(rows, rec0, accepts);
    if RowFingerprint(rows[i]) in rec0 {
      RecordedRunIsSkipped(rows, rec0, accepts, i);
    }
    ScanRecordsExactlyWhatItPushes(rows, rec0, accepts);
    forall r | r in s.pushed ensures RowFingerprint(r) != RowFingerprint(rows[i]) {
      var j :| 0 <= j < |rows| && rows[j] == r && s.outcomes[j] == Queued;
      assert j != i;
      assert r.id != rows[i].id by {
        if j < i { assert rows[j].id != rows[i].id; } else { assert rows[i].id != rows[j].id; }
      }
      if RowFingerprint(r) == RowFingerprint(rows[i]) {
        FingerprintInjective(r.id, r.timeoutOn, rows[i].id, rows[i].timeoutOn);
      }
    }
  }

  /**
   * A run whose `timeout_on` moved after it was queued has a new fingerprint,
   * so the next scan pushes it again (if that push succeeds).
   */
  lemma RescheduledRunIsQueuedAgain(rows: seq<TimeoutRow>, rec0: set<string>, acc1: seq<bool>, i: nat, t: int, acc2: seq<bool>)
    requires |acc1| == |rows| && |acc2| == |rows| && i < |rows|
    requires DistinctRowIds(rows)
    requires t != rows[i].timeoutOn
    requires Fingerprint(rows[i].id, t) !in rec0
    ensures var s1 := ScanTimeouts(rows, rec0, acc1);
      var rows2 := rows[i := rows[i].(timeoutOn := t)];
      ScanTimeouts(rows2, s1.recorded, acc2).outcomes[i] == if acc2[i] then Queued else Failed
  {
    var s1 := ScanTimeouts(rows, rec0, acc1);
    var moved := rows[i].(timeoutOn := t);
    var rows2 := rows[i := moved];
    ScanRecordsExactlyWhatItPushes(rows, rec0, acc1);
    forall r | r in s1.pushed ensures RowFingerprint(r) != RowFingerprint(moved) {
      var j :| 0 <= j < |rows| && rows[j] == r && s1.outcomes[j] == Queued;
      if j == i {
        assert r.timeoutOn != moved.timeoutOn;
      } else if j < i {
        assert rows[j].id != rows[i].id;
      } else {
        assert rows[i].id != rows[j].id;
      }
      if RowFingerprint(r) == RowFingerprint(moved) {
        FingerprintInjective(r.id, r.timeoutOn, moved.id, moved.timeoutOn);
      }
    }
    assert DistinctRowIds(rows2) by {
      forall a, b | 0 <= a < b < |rows2| ensures rows2[a].id != rows2[b].id {
        assert rows2[a].id == rows[a].id && rows2[b].id == rows[b].id;
      }
    }
    FreshRunQueuedIffPushAccepted(rows2, s1.recorded, acc2, i);
  }

  /**
   * The queue and the record are what replaying `outcomes` through the scan
   * of `rows` gives, from `pending0` and `rec0`.
   */
  ghost predicate TimeoutReplays(rows: seq<TimeoutRow>, rec0: set<string>, pending0: seq<Entry<HandlerEvent>>,
                                 outcomes: seq<Outcome>, pending: seq<Entry<HandlerEvent>>, recorded: set<string>)
  {
    && |outcomes| == |rows|
    && var s := ScanTimeouts(rows, rec0, Accepted(outcomes));
    && outcomes == s.outcomes && pending == pending0 + TimeoutTasks(s.pushed) && recorded == s.recorded
  }

  /**
   * What one iteration does to the queue and the record: a recorded run is
   * skipped; otherwise it is queued and recorded, or its push fails and
   * nothing changes.
   */
  predicate TimeoutMove(row: TimeoutRow, pending: seq<Entry<HandlerEvent>>, recorded: set<string>,
                        o: Outcome, pending2: seq<Entry<HandlerEvent>>, recorded2: set<string>)
  {
    var fp := RowFingerprint(row);
    if fp in recorded then o == Skipped && pending2 == pending && recorded2 == recorded
    else if o == Queued then pending2 == pending + [TimeoutTask(row)] && recorded2 == recorded + {fp}
    else o == Failed && pending2 == pending && recorded2 == recorded
  }

  /** One more iteration of the loop, handled as `TimeoutStep` says, extends the replay by one outcome. */
  lemma ReplayStep(rows: seq<TimeoutRow>, i: nat, rec0: set<string>, pending0: seq<Entry<HandlerEvent>>,
                   outcomes: seq<Outcome>, pending: seq<Entry<HandlerEvent>>, recorded: set<string>,
                   o: Outcome, pending2: seq<Entry<HandlerEvent>>, recorded2: set<string>)
    requires i < |rows| && TimeoutReplays(rows[..i], rec0, pending0, outcomes, pending, recorded)
    requires TimeoutMove(rows[i], pending, recorded, o, pending2, recorded2)
    ensures TimeoutReplays(rows[..i + 1], rec0, pending0, outcomes + [o], pending2, recorded2)
  {
    AcceptedPrefix(outcomes, o);
    assert rows[..i + 1][..i] == rows[..i];
    var s := ScanTimeouts(rows[..i], rec0, Accepted(outcomes));
    if o == Queued {
      TimeoutTasksAppend(s.pushed, rows[i]);
    }
  }

  /** The body of the loop for one run: skip it if its fingerprint is recorded, else push it and record it on success. */
  method QueueTimeout(handler: TaskQueue<HandlerEvent>, record: QueueRecord<string>, row: TimeoutRow)
    returns (o: Outcome)
    modifies handler, record
    ensures TimeoutMove(row, old(handler.pending), old(record.queued), o, handler.pending, record.queued)
    ensures handler.busy == old(handler.busy) && handler.completed == old(handler.completed)
  {
    var fp := Fingerprint(row.id, row.timeoutOn);
    var queued := record.IsQueued(fp);
    if queued {
      o := Skipped;
    } else {
      var ok := handler.Push(row.org, TimeoutEvent(row.id, row.timeoutOn));
      if ok {
        record.SetQueued({fp});
        o := Queued;
      } else {
        o := Failed;
      }
    }
  }

  /**
   * `check_flow_timeouts_task`. Returns what happened to each overdue run;
   * replaying those outcomes through `ScanTimeouts` gives exactly the tasks
   * pushed and the new record.
   */
  method CheckFlowTimeouts(db: Database, handler: TaskQueue<HandlerEvent>, record: QueueRecord<string>, now: int)
    returns (outcomes: seq<Outcome>)
    modifies handler, record
    ensures |outcomes| == |OverdueRuns(db.runs, db.orgs, now)|
    ensures var rows := OverdueRuns(db.runs, db.orgs, now);
      var s := ScanTimeouts(rows, old(record.queued), Accepted(outcomes));
      && outcomes == s.outcomes
      && handler.pending == old(handler.pending) + TimeoutTasks(s.pushed)
      && record.queued == s.recorded
    ensures handler.busy == old(handler.busy) && handler.completed == old(handler.completed)
  {
    var rows := OverdueRuns(db.runs, db.orgs, now);
    ghost var rec0, pending0 := record.queued, handler.pending;
    outcomes := [];
    var i := 0;
    while i < |rows|
      invariant 0 <= i <= |rows|
      invariant TimeoutReplays(rows[..i], rec0, pending0, outcomes, handler.pending, record.queued)
      invariant handler.busy == old(handler.busy) && handler.completed == old(handler.completed)
    {
      ghost var pending1, recorded1 := handler.pending, record.queued;
      var o := QueueTimeout(handler, record, rows[i]);
      ReplayStep(rows, i, rec0, pending0, outcomes, pending1, recorded1, o, handler.pending, record.queued);
      outcomes := outcomes + [o];
      i := i + 1;
    }
    assert rows[..i] == rows;
  }
}

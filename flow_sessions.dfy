/**
 * `trim_flow_sessions`: deletes the flow sessions that ended on or before a
 * threshold, at most 1000 per iteration, first detaching the runs that still
 * point at them (their `session_id` becomes NULL; the runs themselves are
 * kept), and counts what it deleted. The threshold (now minus
 * `FLOW_SESSION_TRIM_DAYS`) is a parameter.
 */
module FlowSessions {
  import opened Collections
  import opened Models

  /** The `[:1000]` slice of each iteration's query. */
  const TrimBatchSize: nat := 1000

  /** `ended_on__lte=threshold`: a session that has not ended is never selected. */
  predicate Ended(threshold: int, s: Session)
  {
    s.endedOn.Some? && s.endedOn.value <= threshold
  }

  /** Some session of the table with this id has ended. */
  predicate IsEndedId(sessions: seq<Session>, threshold: int, id: int)
  {
    exists i :: 0 <= i < |sessions| && Ended(threshold, sessions[i]) && sessions[i].id == id
  }

  /** The ids of the ended sessions, in table order. */
  function EndedIds(sessions: seq<Session>, threshold: int): (ids: seq<int>)
    ensures forall k :: 0 <= k < |ids| ==> IsEndedId(sessions, threshold, ids[k])
    ensures forall i :: 0 <= i < |sessions| && Ended(threshold, sessions[i]) ==> sessions[i].id in ids
    decreases |sessions|
  {
    if sessions == [] then []
    else
      var rest := EndedIds(sessions[1..], threshold);
      var ids := (if Ended(threshold, sessions[0]) then [sessions[0].id] else []) + rest;
      assert forall k :: 0 <= k < |ids| ==> IsEndedId(sessions, threshold, ids[k]) by {
        forall k | 0 <= k < |ids| ensures IsEndedId(sessions, threshold, ids[k]) {
          if Ended(threshold, sessions[0]) && k == 0 {
            assert Ended(threshold, sessions[0]) && sessions[0].id == ids[k];
          } else {
            var k' := if Ended(threshold, sessions[0]) then k - 1 else k;
            assert ids[k] == rest[k'];
            var j :| 0 <= j < |sessions| - 1 && Ended(threshold, sessions[1..][j]) && sessions[1..][j].id == rest[k'];
            assert sessions[j + 1] == sessions[1..][j];
          }
        }
      }
      assert forall i :: 0 <= i < |sessions| && Ended(threshold, sessions[i]) ==> sessions[i].id in ids by {
        forall i | 0 <= i < |sessions| && Ended(threshold, sessions[i]) ensures sessions[i].id in ids {
          if i > 0 {
            assert sessions[1..][i - 1] == sessions[i];
          }
        }
      }
      ids
  }

  /** The ids of the sessions of one iteration: the first 1000 ended ones. */
  function TrimBatch(sessions: seq<Session>, threshold: int): (ids: seq<int>)
    ensures |ids| <= TrimBatchSize
    ensures forall k :: 0 <= k < |ids| ==> IsEndedId(sessions, threshold, ids[k])
    ensures ids == [] <==> forall i :: 0 <= i < |sessions| ==> !Ended(threshold, sessions[i])
    ensures |ids| <= |EndedIds(sessions, threshold)| && ids == EndedIds(sessions, threshold)[..|ids|]
    ensures |ids| < TrimBatchSize ==> ids == EndedIds(sessions, threshold)
  {
    var ended := EndedIds(sessions, threshold);
    assert ended != [] ==> IsEndedId(sessions, threshold, ended[0]);
    if |ended| <= TrimBatchSize then ended else ended[..TrimBatchSize]
  }

  function SessionIds(sessions: seq<Session>): set<int>
  {
    set s | s in sessions :: s.id
  }

  /** The ids of every session of the table that had ended by the threshold. */
  function EndedIdSet(sessions: seq<Session>, threshold: int): set<int>
  {
    set s | s in sessions && Ended(threshold, s) :: s.id
  }

  /** `FlowSession.objects.filter(id__in=ids).delete()`: the table without those sessions, order kept. */
  function Without(sessions: seq<Session>, ids: set<int>): (r: seq<Session>)
    ensures |r| <= |sessions|
    ensures forall i :: 0 <= i < |r| ==> r[i] in sessions && r[i].id !in ids
    ensures forall i :: 0 <= i < |sessions| && sessions[i].id !in ids ==> sessions[i] in r
  {
    Filter(sessions, (s: Session) => s.id !in ids)
  }

  /**
   * `FlowRun.objects.filter(session_id__in=ids).update(session_id=None)`:
   * every run is kept, and only the session of a run pointing at one of the
   * sessions is cleared.
   */
  function Detach(runs: seq<Run>, ids: set<int>): (r: seq<Run>)
    ensures |r| == |runs|
    ensures forall i :: 0 <= i < |runs| ==> r[i].(sessionId := runs[i].sessionId) == runs[i]
    ensures forall i :: 0 <= i < |runs| ==>
      (r[i].sessionId == None <==> runs[i].sessionId == None || runs[i].sessionId.value in ids)
    ensures forall i :: 0 <= i < |runs| && r[i].sessionId != None ==> r[i].sessionId == runs[i].sessionId
  {
    seq(|runs|, i requires 0 <= i < |runs| =>
      if runs[i].sessionId.Some? && runs[i].sessionId.value in ids then runs[i].(sessionId := None) else runs[i])
  }

  lemma {:induction false} WithoutNothing(sessions: seq<Session>)
    ensures Without(sessions, {}) == sessions
    decreases |sessions|
  {
    if sessions != [] {
      WithoutNothing(sessions[1..]);
      assert sessions == [sessions[0]] + sessions[1..];
    }
  }

  /** Deleting in two rounds deletes the union. */
  lemma {:induction false} WithoutTwice(sessions: seq<Session>, a: set<int>, b: set<int>)
    ensures Without(Without(sessions, a), b) == Without(sessions, a + b)
    decreases |sessions|
  {
    if sessions != [] {
      WithoutTwice(sessions[1..], a, b);
      var s := sessions[0];
      var rest := Without(sessions[1..], a);
      if s.id !in a {
        assert Without(sessions, a) == [s] + rest;
        assert ([s] + rest)[1..] == rest;
      } else {
        assert Without(sessions, a) == rest;
      }
    }
  }

  /** Detaching in two rounds detaches from the union. */
  lemma DetachTwice(runs: seq<Run>, a: set<int>, b: set<int>)
    ensures Detach(Detach(runs, a), b) == Detach(runs, a + b)
  {
    var l, r := Detach(Detach(runs, a), b), Detach(runs, a + b);
    forall i | 0 <= i < |runs| ensures l[i] == r[i] {
      assert l[i].(sessionId := runs[i].sessionId) == runs[i];
    }
  }

  /** An id no session carries changes nothing in a deletion. */
  lemma {:induction false} WithoutAbsent(sessions: seq<Session>, ids: set<int>, x: int)
    requires x !in SessionIds(sessions)
    ensures Without(sessions, ids) == Without(sessions, ids - {x})
    decreases |sessions|
  {
    if sessions != [] {
      assert SessionIds(sessions[1..]) <= SessionIds(sessions) by {
        forall y | y in SessionIds(sessions[1..]) ensures y in SessionIds(sessions) {
          var s :| s in sessions[1..] && s.id == y;
          assert s in sessions;
        }
      }
      assert sessions[0] in sessions;
      WithoutAbsent(sessions[1..], ids, x);
    }
  }

  /** With unique ids, the rest of the table has unique ids, none of them the first session's. */
  lemma DistinctUncons(sessions: seq<Session>)
    requires DistinctSessionIds(sessions) && sessions != []
    ensures DistinctSessionIds(sessions[1..])
    ensures sessions[0].id !in SessionIds(sessions[1..])
    ensures SessionIds(sessions) == SessionIds(sessions[1..]) + {sessions[0].id}
  {
    var s, tail := sessions[0], sessions[1..];
    forall i, j | 0 <= i < j < |tail| ensures tail[i].id != tail[j].id {
      assert tail[i] == sessions[i + 1] && tail[j] == sessions[j + 1];
    }
    forall t | t in tail ensures t.id != s.id {
      var j :| 0 <= j < |tail| && tail[j] == t;
      assert t == sessions[j + 1];
    }
    assert sessions == [s] + tail;
  }

  /** With unique ids, deleting a set of present ids removes exactly that many sessions. */
  lemma {:induction false} WithoutCount(sessions: seq<Session>, ids: set<int>)
    requires DistinctSessionIds(sessions)
    requires ids <= SessionIds(sessions)
    ensures |Without(sessions, ids)| == |sessions| - |ids|
    decreases |sessions|
  {
    if sessions == [] {
      assert ids == {};
    } else {
      var s, tail := sessions[0], sessions[1..];
      DistinctUncons(sessions);
      if s.id in ids {
        WithoutAbsent(tail, ids, s.id);
        WithoutCount(tail, ids - {s.id});
        assert Without(sessions, ids) == Without(tail, ids);
      } else {
        WithoutCount(tail, ids);
        assert Without(sessions, ids) == [s] + Without(tail, ids);
      }
    }
  }

  /** Deleting keeps the remaining ids unique. */
  lemma {:induction false} WithoutDistinct(sessions: seq<Session>, ids: set<int>)
    requires DistinctSessionIds(sessions)
    ensures DistinctSessionIds(Without(sessions, ids))
    decreases |sessions|
  {
    if sessions != [] {
      var s, tail := sessions[0], sessions[1..];
      assert DistinctSessionIds(tail) by {
        forall i, j | 0 <= i < j < |tail| ensures tail[i].id != tail[j].id {
          assert tail[i] == sessions[i + 1] && tail[j] == sessions[j + 1];
        }
      }
      WithoutDistinct(tail, ids);
      var rest := Without(tail, ids);
      forall k | 0 <= k < |rest| ensures rest[k].id != s.id {
        var j :| 0 <= j < |tail| && tail[j] == rest[k];
        assert tail[j] == sessions[j + 1];
      }
      if s.id !in ids {
        var r := Without(sessions, ids);
        assert r == [s] + rest;
        forall i, j | 0 <= i < j < |r| ensures r[i].id != r[j].id {
          assert r[j] == rest[j - 1];
          if i > 0 {
            assert r[i] == rest[i - 1];
          }
        }
      }
    }
  }

  /** With unique session ids, the ids of one iteration are unique too. */
  lemma {:induction false} EndedIdsDistinct(sessions: seq<Session>, threshold: int)
    requires DistinctSessionIds(sessions)
    ensures Distinct(EndedIds(sessions, threshold))
    decreases |sessions|
  {
    if sessions != [] {
      var tail := sessions[1..];
      assert DistinctSessionIds(tail) by {
        forall i, j | 0 <= i < j < |tail| ensures tail[i].id != tail[j].id {
          assert tail[i] == sessions[i + 1] && tail[j] == sessions[j + 1];
        }
      }
      EndedIdsDistinct(tail, threshold);
      var rest := EndedIds(tail, threshold);
      forall k | 0 <= k < |rest| ensures rest[k] != sessions[0].id {
        var j :| 0 <= j < |tail| && Ended(threshold, tail[j]) && tail[j].id == rest[k];
        assert tail[j] == sessions[j + 1];
      }
    }
  }

  lemma TrimBatchDistinct(sessions: seq<Session>, threshold: int)
    requires DistinctSessionIds(sessions)
    ensures Distinct(TrimBatch(sessions, threshold))
    ensures |set id | id in TrimBatch(sessions, threshold)| == |TrimBatch(sessions, threshold)|
  {
    EndedIdsDistinct(sessions, threshold);
    var ids := TrimBatch(sessions, threshold);
    assert Distinct(ids);
    DistinctCard(ids);
  }

  /** A session that had not ended, and whose id no ended session shares, survives the trim. */
  lemma UnendedSessionSurvives(sessions: seq<Session>, threshold: int, i: nat)
    requires DistinctSessionIds(sessions)
    requires i < |sessions| && !Ended(threshold, sessions[i])
    ensures sessions[i] in Without(sessions, EndedIdSet(sessions, threshold))
  {
    forall s | s in sessions && Ended(threshold, s) ensures s.id != sessions[i].id {
      var j :| 0 <= j < |sessions| && sessions[j] == s;
      assert j != i;
      if j < i {
        assert sessions[j].id != sessions[i].id;
      } else {
        assert sessions[i].id != sessions[j].id;
      }
    }
  }

  /** An iteration selects ended sessions that are still in the table. */
  lemma TrimBatchWithin(sessions0: seq<Session>, deleted: set<int>, threshold: int)
    ensures var cur := Without(sessions0, deleted);
      var batch := set id | id in TrimBatch(cur, threshold);
      batch <= SessionIds(cur) && batch <= EndedIdSet(sessions0, threshold)
  {
    var cur := Without(sessions0, deleted);
    var ids := TrimBatch(cur, threshold);
    forall id | id in ids ensures id in SessionIds(cur) && id in EndedIdSet(sessions0, threshold) {
      var k :| 0 <= k < |ids| && ids[k] == id;
      assert IsEndedId(cur, threshold, ids[k]);
      var j :| 0 <= j < |cur| && Ended(threshold, cur[j]) && cur[j].id == id;
      assert cur[j] in cur && cur[j] in sessions0;
    }
  }

  /**
   * The loop's state after deleting the ids `deleted`: the sessions and runs
   * are the original ones with those ids deleted and detached, only ended
   * sessions were deleted, and the count is the number of sessions gone.
   */
  ghost predicate Trimmed(sessions0: seq<Session>, runs0: seq<Run>, threshold: int, deleted: set<int>,
                          sessions: seq<Session>, runs: seq<Run>, numDeleted: int)
  {
    && sessions == Without(sessions0, deleted)
    && runs == Detach(runs0, deleted)
    && deleted <= EndedIdSet(sessions0, threshold)
    && DistinctSessionIds(sessions)
    && numDeleted == |sessions0| - |sessions|
  }

  /** One iteration of the loop, in terms of what was deleted before it. */
  lemma TrimStep(sessions0: seq<Session>, runs0: seq<Run>, threshold: int, deleted: set<int>,
                 sessions: seq<Session>, runs: seq<Run>, numDeleted: int)
    requires Trimmed(sessions0, runs0, threshold, deleted, sessions, runs, numDeleted)
    ensures var ids := TrimBatch(sessions, threshold);
      var batch := set id | id in ids;
      Trimmed(sessions0, runs0, threshold, deleted + batch, Without(sessions, batch), Detach(runs, batch), numDeleted + |ids|)
  {
    var ids := TrimBatch(sessions, threshold);
    var batch := set id | id in ids;
    TrimBatchDistinct(sessions, threshold);
    TrimBatchWithin(sessions0, deleted, threshold);
    WithoutCount(sessions, batch);
    WithoutDistinct(sessions, batch);
    WithoutTwice(sessions0, deleted, batch);
    DetachTwice(runs0, deleted, batch);
  }

  /** When no ended session is left, every ended session's id was deleted. */
  lemma EverythingEndedIsDeleted(sessions0: seq<Session>, deleted: set<int>, threshold: int)
    requires deleted <= EndedIdSet(sessions0, threshold)
    requires forall i :: 0 <= i < |Without(sessions0, deleted)| ==> !Ended(threshold, Without(sessions0, deleted)[i])
    ensures deleted == EndedIdSet(sessions0, threshold)
  {
    var cur := Without(sessions0, deleted);
    forall s | s in sessions0 && Ended(threshold, s) ensures s.id in deleted {
      var i :| 0 <= i < |sessions0| && sessions0[i] == s;
      assert s !in cur by {
        forall k | 0 <= k < |cur| ensures cur[k] != s {
          assert !Ended(threshold, cur[k]);
        }
      }
    }
  }

  /** One iteration's writes: detaches the runs from the sessions, then deletes the sessions. */
  method DeleteSessions(db: Database, ids: set<int>)
    modifies db
    ensures db.sessions == Without(old(db.sessions), ids) && db.runs == Detach(old(db.runs), ids)
    ensures db.orgs == old(db.orgs) && db.flows == old(db.flows) && db.broadcasts == old(db.broadcasts)
    ensures db.msgs == old(db.msgs) && db.flowStarts == old(db.flowStarts)
    ensures db.events == old(db.events) && db.fires == old(db.fires)
  {
    db.runs := Detach(db.runs, ids);
    db.sessions := Without(db.sessions, ids);
  }

  /**
   * `trim_flow_sessions`. Deletes every session that had ended by the
   * threshold and no other, in iterations of at most 1000; the runs that
   * pointed at a deleted session are kept with their session cleared; the
   * count returned is the number of sessions deleted.
   */
  method TrimFlowSessions(db: Database, threshold: int) returns (numDeleted: nat)
    requires DistinctSessionIds(db.sessions)
    modifies db
    ensures db.sessions == Without(old(db.sessions), EndedIdSet(old(db.sessions), threshold))
    ensures forall i :: 0 <= i < |db.sessions| ==> !Ended(threshold, db.sessions[i])
    ensures db.runs == Detach(old(db.runs), EndedIdSet(old(db.sessions), threshold))
    ensures numDeleted == |old(db.sessions)| - |db.sessions|
    ensures db.orgs == old(db.orgs) && db.flows == old(db.flows) && db.broadcasts == old(db.broadcasts)
    ensures db.msgs == old(db.msgs) && db.flowStarts == old(db.flowStarts)
    ensures db.events == old(db.events) && db.fires == old(db.fires)
  {
    ghost var sessions0, runs0 := db.sessions, db.runs;
    ghost var deleted: set<int> := {};
    WithoutNothing(sessions0);
    numDeleted := 0;
    while true
      invariant Trimmed(sessions0, runs0, threshold, deleted, db.sessions, db.runs, numDeleted)
      invariant db.orgs == old(db.orgs) && db.flows == old(db.flows) && db.broadcasts == old(db.broadcasts)
      invariant db.msgs == old(db.msgs) && db.flowStarts == old(db.flowStarts)
      invariant db.events == old(db.events) && db.fires == old(db.fires)
      decreases |db.sessions|
    {
      var sessionIds := TrimBatch(db.sessions, threshold);
      if sessionIds == [] {
        break;
      }
      var batch := set id | id in sessionIds;
      TrimStep(sessions0, runs0, threshold, deleted, db.sessions, db.runs, numDeleted);
      DeleteSessions(db, batch);
      numDeleted := numDeleted + |sessionIds|;
      deleted := deleted + batch;
    }
    EverythingEndedIsDeleted(sessions0, deleted, threshold);
    assert deleted == EndedIdSet(sessions0, threshold);
  }
}

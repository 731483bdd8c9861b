/**
 * `trim_event_fires_task`: selects at most 100000 event fires to delete —
 * first the unfired fires of inactive events, then, while there is room, the
 * fires that fired before the retention boundary, oldest first — and deletes
 * them in batches of 100.
 */
module CampaignTrim {
  import opened Collections
  import opened Models

  /** `EVENT_FIRES_TO_TRIM`. */
  const EventFiresToTrim: nat := 100000

  /** The chunk size of the delete loop. */
  const DeleteBatchSize: nat := 100

  /** `fired=None, event__is_active=False`. */
  predicate OfInactiveEvent(events: map<int, EventRow>, f: EventFire)
  {
    f.fired == None && f.event in events && !events[f.event].isActive
  }

  /** `fired__lt=boundary`: a fire that has fired, before the boundary. */
  predicate FiredBefore(boundary: int, f: EventFire)
  {
    f.fired.Some? && f.fired.value < boundary
  }

  /** The sort key of `order_by("fired")`, for fires that have fired. */
  function FiredOn(f: EventFire): int
  {
    if f.fired.Some? then f.fired.value else 0
  }

  /** The slice `[:n]` of a query. */
  function Take<T>(s: seq<T>, n: nat): (r: seq<T>)
    ensures |r| == if n < |s| then n else |s|
    ensures r == s[..|r|]
  {
    if n < |s| then s[..n] else s
  }

  /** The unfired fires of inactive events, in table order. */
  function InactiveFires(fires: seq<EventFire>, events: map<int, EventRow>): seq<EventFire>
  {
    Filter(fires, f => OfInactiveEvent(events, f))
  }

  /** `fired__lt=boundary`: the fires that fired before the boundary, in table order. */
  function FiredFires(fires: seq<EventFire>, boundary: int): seq<EventFire>
  {
    Filter(fires, f => FiredBefore(boundary, f))
  }

  /** The fires that fired before the boundary, earliest first. */
  function OldFires(fires: seq<EventFire>, boundary: int): (r: seq<EventFire>)
    ensures |r| == |FiredFires(fires, boundary)|
  {
    SortBy(FiredFires(fires, boundary), FiredOn)
  }

  /** Every fire the task may delete: unfired of an inactive event, or fired before the boundary. */
  function Candidates(fires: seq<EventFire>, events: map<int, EventRow>, boundary: int): seq<EventFire>
  {
    Filter(fires, f => OfInactiveEvent(events, f) || FiredBefore(boundary, f))
  }

  /** No fire is both unfired and fired, so the candidates split into the two queries. */
  lemma {:induction false} CandidateCount(fires: seq<EventFire>, events: map<int, EventRow>, boundary: int)
    ensures |Candidates(fires, events, boundary)| == |InactiveFires(fires, events)| + |FiredFires(fires, boundary)|
    decreases |fires|
  {
    if fires != [] {
      CandidateCount(fires[1..], events, boundary);
      assert !(OfInactiveEvent(events, fires[0]) && FiredBefore(boundary, fires[0]));
    }
  }

  /** The fires the task selects, in the order their ids are collected. */
  function TrimSelection(fires: seq<EventFire>, events: map<int, EventRow>, boundary: int): (sel: seq<EventFire>)
  {
    var first := Take(InactiveFires(fires, events), EventFiresToTrim);
    if |first| < EventFiresToTrim then first + Take(OldFires(fires, boundary), EventFiresToTrim - |first|)
    else first
  }

  /** `values_list("id", flat=True)`. */
  function IdsOf(fs: seq<EventFire>): (ids: seq<int>)
    ensures |ids| == |fs|
    ensures forall i :: 0 <= i < |fs| ==> ids[i] == fs[i].id
  {
    seq(|fs|, i requires 0 <= i < |fs| => fs[i].id)
  }

  /**
   * `trim_ids`: one id per selected fire, and as many as the quota allows:
   * every candidate when there are fewer than `EVENT_FIRES_TO_TRIM`, and
   * exactly `EVENT_FIRES_TO_TRIM` otherwise.
   */
  function TrimIds(fires: seq<EventFire>, events: map<int, EventRow>, boundary: int): (ids: seq<int>)
    ensures |ids| == |TrimSelection(fires, events, boundary)| <= EventFiresToTrim
    ensures var total := |Candidates(fires, events, boundary)|;
      |ids| == if total < EventFiresToTrim then total else EventFiresToTrim
  {
    CandidateCount(fires, events, boundary);
    IdsOf(TrimSelection(fires, events, boundary))
  }

  /** Every fire of the sorted list is a fire of the table that fired before the boundary. */
  lemma OldFireIsOld(fires: seq<EventFire>, boundary: int, q: nat)
    requires q < |OldFires(fires, boundary)|
    ensures OldFires(fires, boundary)[q] in fires && FiredBefore(boundary, OldFires(fires, boundary)[q])
  {
    var fired := FiredFires(fires, boundary);
    var sorted := OldFires(fires, boundary);
    assert sorted[q] in multiset(sorted);
    assert sorted[q] in multiset(fired);
    var p :| 0 <= p < |fired| && fired[p] == sorted[q];
  }

  /** Every fire that fired before the boundary is in the sorted list. */
  lemma OldFireIsListed(fires: seq<EventFire>, boundary: int, i: nat) returns (p: nat)
    requires i < |fires| && FiredBefore(boundary, fires[i])
    ensures p < |OldFires(fires, boundary)| && OldFires(fires, boundary)[p] == fires[i]
  {
    var fired := FiredFires(fires, boundary);
    var sorted := OldFires(fires, boundary);
    assert fires[i] in fired;
    assert fires[i] in multiset(fired);
    assert fires[i] in multiset(sorted);
    p :| 0 <= p < |sorted| && sorted[p] == fires[i];
  }

  /**
   * Only fires that may go are selected: each is a fire of the table that is
   * either an unfired fire of an inactive event or a fire that fired before
   * the boundary. A pending fire of an active event, and a fire that fired
   * recently, are never deleted.
   */
  lemma SelectedFiresAreTrimmable(fires: seq<EventFire>, events: map<int, EventRow>, boundary: int)
    ensures var sel := TrimSelection(fires, events, boundary);
      forall k :: 0 <= k < |sel| ==> sel[k] in fires && (OfInactiveEvent(events, sel[k]) || FiredBefore(boundary, sel[k]))
  {
    var sel := TrimSelection(fires, events, boundary);
    var first := Take(InactiveFires(fires, events), EventFiresToTrim);
    forall k | 0 <= k < |sel| ensures sel[k] in fires && (OfInactiveEvent(events, sel[k]) || FiredBefore(boundary, sel[k])) {
      if k >= |first| {
        OldFireIsOld(fires, boundary, k - |first|);
      } else {
        assert sel[k] == InactiveFires(fires, events)[k];
      }
    }
  }

  /**
   * The unfired fires of inactive events go first: when there are at least
   * `EVENT_FIRES_TO_TRIM` of them, the selection is the first of them and
   * nothing else; otherwise every one of them is selected.
   */
  lemma InactiveFiresGoFirst(fires: seq<EventFire>, events: map<int, EventRow>, boundary: int)
    ensures var sel := TrimSelection(fires, events, boundary);
      var inactive := InactiveFires(fires, events);
      && (|inactive| >= EventFiresToTrim ==> sel == inactive[..EventFiresToTrim])
      && (|inactive| < EventFiresToTrim ==> forall i :: 0 <= i < |fires| && OfInactiveEvent(events, fires[i]) ==> fires[i] in sel)
  {
    var sel := TrimSelection(fires, events, boundary);
    var inactive := InactiveFires(fires, events);
    if |inactive| < EventFiresToTrim {
      assert sel == inactive + Take(OldFires(fires, boundary), EventFiresToTrim - |inactive|);
      forall i | 0 <= i < |fires| && OfInactiveEvent(events, fires[i]) ensures fires[i] in sel {
        assert fires[i] in inactive;
      }
    }
  }

  /**
   * The fired fires go oldest first: a fire that fired before the boundary
   * and was left out fired no earlier than any fired fire that was selected.
   */
  lemma OldestFiredFirst(fires: seq<EventFire>, events: map<int, EventRow>, boundary: int, i: nat)
    requires i < |fires| && FiredBefore(boundary, fires[i])
    requires fires[i] !in TrimSelection(fires, events, boundary)
    ensures var sel := TrimSelection(fires, events, boundary);
      forall k :: 0 <= k < |sel| && sel[k].fired.Some? ==> sel[k].fired.value <= fires[i].fired.value
  {
    var first := Take(InactiveFires(fires, events), EventFiresToTrim);
    var sorted := OldFires(fires, boundary);
    var p := OldFireIsListed(fires, boundary, i);
    TakenInactiveAreUnfired(fires, events);
    if |first| < EventFiresToTrim {
      UnfiredThenOldestFirst(first, sorted, EventFiresToTrim - |first|, p);
    }
  }

  /** The unfired fires of inactive events the task selects have not fired. */
  lemma TakenInactiveAreUnfired(fires: seq<EventFire>, events: map<int, EventRow>)
    ensures var first := Take(InactiveFires(fires, events), EventFiresToTrim);
      forall k :: 0 <= k < |first| ==> first[k].fired == None
  {
    var first := Take(InactiveFires(fires, events), EventFiresToTrim);
    forall k | 0 <= k < |first| ensures first[k].fired == None {
      assert first[k] == InactiveFires(fires, events)[k];
    }
  }

  /**
   * Unfired fires followed by a prefix of fires sorted by firing time: a
   * sorted fire left out of the prefix fired no earlier than any fired fire
   * that was taken.
   */
  lemma UnfiredThenOldestFirst(first: seq<EventFire>, sorted: seq<EventFire>, n: nat, p: nat)
    requires forall k :: 0 <= k < |first| ==> first[k].fired == None
    requires SortedBy(sorted, FiredOn) && p < |sorted| && sorted[p].fired.Some?
    requires sorted[p] !in first + Take(sorted, n)
    ensures var sel := first + Take(sorted, n);
      forall k :: 0 <= k < |sel| && sel[k].fired.Some? ==> sel[k].fired.value <= sorted[p].fired.value
  {
    var rest := Take(sorted, n);
    var sel := first + rest;
    assert forall q :: 0 <= q < |rest| ==> sel[|first| + q] == sorted[q];
    assert p >= |rest|;
    assert forall k :: 0 <= k < |first| ==> sel[k] == first[k];
    forall k | 0 <= k < |sel| ensures sel[k].fired.Some? ==> sel[k].fired.value <= sorted[p].fired.value {
      if k >= |first| {
        assert sel[k] == sorted[k - |first|];
      }
    }
  }

  /** With room for every candidate, the selection is all inactive fires followed by all old ones. */
  lemma FewCandidatesSelection(fires: seq<EventFire>, events: map<int, EventRow>, boundary: int)
    requires |Candidates(fires, events, boundary)| <= EventFiresToTrim
    ensures TrimSelection(fires, events, boundary) == InactiveFires(fires, events) + OldFires(fires, boundary)
  {
    var inactive := InactiveFires(fires, events);
    var sorted := OldFires(fires, boundary);
    CandidateCount(fires, events, boundary);
    if |inactive| < EventFiresToTrim {
      assert Take(sorted, EventFiresToTrim - |inactive|) == sorted;
    } else {
      assert sorted == [];
      assert Take(inactive, EventFiresToTrim) == inactive;
    }
  }

  /**
   * When there are no more candidates than `EVENT_FIRES_TO_TRIM`, every
   * unfired fire of an inactive event and every fire fired before the
   * boundary is selected.
   */
  lemma FewCandidatesAllSelected(fires: seq<EventFire>, events: map<int, EventRow>, boundary: int)
    requires |Candidates(fires, events, boundary)| <= EventFiresToTrim
    ensures var sel := TrimSelection(fires, events, boundary);
      forall i :: 0 <= i < |fires| && (OfInactiveEvent(events, fires[i]) || FiredBefore(boundary, fires[i])) ==> fires[i] in sel
  {
    var sel := TrimSelection(fires, events, boundary);
    var inactive := InactiveFires(fires, events);
    var fired := FiredFires(fires, boundary);
    var sorted := OldFires(fires, boundary);
    FewCandidatesSelection(fires, events, boundary);
    forall i | 0 <= i < |fires| && (OfInactiveEvent(events, fires[i]) || FiredBefore(boundary, fires[i])) ensures fires[i] in sel {
      if OfInactiveEvent(events, fires[i]) {
        assert fires[i] in inactive;
      } else {
        assert fires[i] in fired;
        assert fires[i] in multiset(sorted);
      }
    }
  }

  /**
   * With unique fire ids, a fire that is neither an unfired fire of an
   * inactive event nor one fired before the boundary survives the trim.
   */
  lemma TrimKeepsOtherFires(fires: seq<EventFire>, events: map<int, EventRow>, boundary: int, i: nat)
    requires DistinctFireIds(fires) && i < |fires|
    requires !OfInactiveEvent(events, fires[i]) && !FiredBefore(boundary, fires[i])
    ensures fires[i] in WithoutFires(fires, IdSet(TrimIds(fires, events, boundary)))
  {
    var sel := TrimSelection(fires, events, boundary);
    var ids := TrimIds(fires, events, boundary);
    SelectedFiresAreTrimmable(fires, events, boundary);
    forall k | 0 <= k < |sel| ensures sel[k].id != fires[i].id {
      var j :| 0 <= j < |fires| && fires[j] == sel[k];
      if j < i {
        assert fires[j].id != fires[i].id;
      } else if i < j {
        assert fires[i].id != fires[j].id;
      }
    }
    assert fires[i].id !in IdSet(ids);
  }

  /** The table without the fires whose id is in `ids`. */
  function WithoutFires(fires: seq<EventFire>, ids: set<int>): (r: seq<EventFire>)
    ensures forall i :: 0 <= i < |r| ==> r[i] in fires && r[i].id !in ids
    ensures forall i :: 0 <= i < |fires| && fires[i].id !in ids ==> fires[i] in r
  {
    Filter(fires, (f: EventFire) => f.id !in ids)
  }

  lemma {:induction false} WithoutNoFires(fires: seq<EventFire>)
    ensures WithoutFires(fires, {}) == fires
    decreases |fires|
  {
    if fires != [] {
      WithoutNoFires(fires[1..]);
      assert fires == [fires[0]] + fires[1..];
    }
  }

  /** Deleting in two rounds deletes the union. */
  lemma {:induction false} WithoutFiresTwice(fires: seq<EventFire>, a: set<int>, b: set<int>)
    ensures WithoutFires(WithoutFires(fires, a), b) == WithoutFires(fires, a + b)
    decreases |fires|
  {
    if fires != [] {
      WithoutFiresTwice(fires[1..], a, b);
      var f := fires[0];
      var rest := WithoutFires(fires[1..], a);
      if f.id !in a {
        assert WithoutFires(fires, a) == [f] + rest;
        assert ([f] + rest)[1..] == rest;
      } else {
        assert WithoutFires(fires, a) == rest;
      }
    }
  }

  /** The delete loop has covered the first b chunks. */
  lemma DeleteStep(ids: seq<int>, b: nat)
    requires b < |Chunks(ids, DeleteBatchSize)|
    ensures var cs := Chunks(ids, DeleteBatchSize);
      IdSet(Flatten(cs[..b + 1])) == IdSet(Flatten(cs[..b])) + IdSet(cs[b])
  {
    var cs := Chunks(ids, DeleteBatchSize);
    assert cs[..b + 1] == cs[..b] + [cs[b]];
    FlattenAppend(cs[..b], [cs[b]]);
    assert Flatten([cs[b]]) == cs[b] + Flatten([]);
  }

  /**
   * `trim_event_fires_task`. Returns the selected ids; the table loses
   * exactly the fires carrying one of them, in deletes of at most 100 ids,
   * and no other table changes.
   */
  method TrimEventFires(db: Database, boundary: int) returns (trimIds: seq<int>)
    modifies db
    ensures trimIds == TrimIds(old(db.fires), old(db.events), boundary)
    ensures db.fires == WithoutFires(old(db.fires), IdSet(trimIds))
    ensures db.orgs == old(db.orgs) && db.flows == old(db.flows) && db.broadcasts == old(db.broadcasts)
    ensures db.msgs == old(db.msgs) && db.flowStarts == old(db.flowStarts)
    ensures db.events == old(db.events) && db.runs == old(db.runs) && db.sessions == old(db.sessions)
  {
    ghost var fires0 := db.fires;
    trimIds := TrimIds(db.fires, db.events, boundary);
    var batches := Chunks(trimIds, DeleteBatchSize);
    WithoutNoFires(fires0);
    assert IdSet(Flatten(batches[..0])) == {};
    for b := 0 to |batches|
      invariant db.fires == WithoutFires(fires0, IdSet(Flatten(batches[..b])))
      invariant db.orgs == old(db.orgs) && db.flows == old(db.flows) && db.broadcasts == old(db.broadcasts)
      invariant db.msgs == old(db.msgs) && db.flowStarts == old(db.flowStarts)
      invariant db.events == old(db.events) && db.runs == old(db.runs) && db.sessions == old(db.sessions)
    {
      var batch := IdSet(batches[b]);
      DeleteStep(trimIds, b);
      WithoutFiresTwice(fires0, IdSet(Flatten(batches[..b])), batch);
      db.fires := WithoutFires(db.fires, batch);
    }
    assert batches[..|batches|] == batches;
  }
}

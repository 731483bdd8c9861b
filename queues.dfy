/**
 * The shared Redis structures the tasks use, as far as the tasks rely on them:
 * the per-org task queues of `temba.utils.queues` (`push_task`, `start_task`,
 * `complete_task`) and the `QueueRecord` of `temba.utils.cache`, a set of
 * keys recording what has already been queued.
 */
module Queues {
  import opened Collections

  /** A queued task: the org whose partition it belongs to, and its payload. */
  datatype Entry<P> = Entry(org: int, payload: P)

  /** What a scan did with one item: found it already queued, queued it, or failed to push it. */
  datatype Outcome = Skipped | Queued | Failed

  /** Whether each push succeeded, read off the outcomes of a scan. */
  function Accepted(outcomes: seq<Outcome>): (acc: seq<bool>)
    ensures |acc| == |outcomes|
    ensures forall i :: 0 <= i < |outcomes| ==> (acc[i] <==> outcomes[i] == Queued)
  {
    seq(|outcomes|, i requires 0 <= i < |outcomes| => outcomes[i] == Queued)
  }

  lemma AcceptedPrefix(outcomes: seq<Outcome>, o: Outcome)
    ensures Accepted(outcomes + [o])[..|outcomes|] == Accepted(outcomes)
    ensures Accepted(outcomes + [o])[|outcomes|] == (o == Queued)
  {
    assert Accepted(outcomes + [o])[..|outcomes|] == Accepted(outcomes);
  }

  lemma AcceptedAppend(o1: seq<Outcome>, o2: seq<Outcome>)
    ensures Accepted(o1 + o2) == Accepted(o1) + Accepted(o2)
  {
    assert Accepted(o1 + o2) == Accepted(o1) + Accepted(o2);
  }

  /** A named queue of tasks, partitioned by org. */
  class TaskQueue<P> {
    var pending: seq<Entry<P>>
    /** The orgs whose tasks have been started and not yet completed. */
    var busy: multiset<int>
    /** Every `complete_task` call, in order. */
    var completed: seq<int>

    /**
     * `push_task`: the broker may refuse the push (Redis unreachable, say);
     * when it accepts, the task joins the end of the queue.
     */
    method Push(org: int, payload: P) returns (ok: bool)
      modifies this
      ensures pending == if ok then old(pending) + [Entry(org, payload)] else old(pending)
      ensures busy == old(busy) && completed == old(completed)
    {
      ok := *;
      if ok {
        pending := pending + [Entry(org, payload)];
      }
    }

    /**
     * `start_task`: takes the oldest pending task and marks its org busy, or
     * gives no task when nothing is pending.
     */
    method Start() returns (org: int, task: Option<P>)
      modifies this
      ensures old(pending) == [] ==> task == None && pending == old(pending) && busy == old(busy)
      ensures old(pending) != [] ==>
        && org == old(pending)[0].org
        && task == Some(old(pending)[0].payload)
        && pending == old(pending)[1..]
        && busy == old(busy) + multiset{org}
      ensures completed == old(completed)
    {
      if pending == [] {
        org, task := 0, None;
      } else {
        org, task := pending[0].org, Some(pending[0].payload);
        pending := pending[1..];
        busy := busy + multiset{org};
      }
    }

    /** `complete_task`: releases the org's partition. */
    method Complete(org: int)
      modifies this
      ensures busy == old(busy) - multiset{org}
      ensures completed == old(completed) + [org]
      ensures pending == old(pending)
    {
      busy := busy - multiset{org};
      completed := completed + [org];
    }
  }

  /** The keys of `ks` not yet in `queued`, in their original order. */
  function Unqueued<K(==)>(ks: seq<K>, queued: set<K>): seq<K>
    decreases |ks|
  {
    if ks == [] then [] else (if ks[0] in queued then [] else [ks[0]]) + Unqueued(ks[1..], queued)
  }

  /** The keys left are keys of `ks` not in `queued`, and every such key is left. */
  lemma {:induction false} UnqueuedMembers<K>(ks: seq<K>, queued: set<K>)
    ensures var r := Unqueued(ks, queued);
      && |r| <= |ks|
      && (forall i :: 0 <= i < |r| ==> r[i] in ks && r[i] !in queued)
      && (forall i :: 0 <= i < |ks| && ks[i] !in queued ==> ks[i] in r)
    decreases |ks|
  {
    if ks != [] {
      UnqueuedMembers(ks[1..], queued);
      var rest := Unqueued(ks[1..], queued);
      var r := Unqueued(ks, queued);
      forall i | 0 <= i < |r| ensures r[i] in ks && r[i] !in queued {
        if ks[0] !in queued && i > 0 {
          assert r[i] == rest[i - 1];
        }
      }
      forall i | 0 <= i < |ks| && ks[i] !in queued ensures ks[i] in r {
        if i > 0 {
          assert ks[i] == ks[1..][i - 1];
        }
      }
    }
  }

  /** Nothing is left exactly when every key is already queued. */
  lemma UnqueuedEmpty<K>(ks: seq<K>, queued: set<K>)
    ensures Unqueued(ks, queued) == [] <==> forall i :: 0 <= i < |ks| ==> ks[i] in queued
  {
    UnqueuedMembers(ks, queued);
  }

  /** Only whether the keys themselves are queued matters. */
  lemma {:induction false} UnqueuedAgree<K>(ks: seq<K>, a: set<K>, b: set<K>)
    requires forall i :: 0 <= i < |ks| ==> (ks[i] in a <==> ks[i] in b)
    ensures Unqueued(ks, a) == Unqueued(ks, b)
    decreases |ks|
  {
    if ks != [] {
      assert forall i :: 0 <= i < |ks| - 1 ==> ks[1..][i] == ks[i + 1];
      UnqueuedAgree(ks[1..], a, b);
    }
  }

  /** `QueueRecord`: the keys of items already queued. */
  class QueueRecord<K(==)> {
    var queued: set<K>

    method IsQueued(k: K) returns (b: bool)
      ensures b <==> k in queued
    {
      b := k in queued;
    }

    /** `filter_unqueued`: the items not yet recorded. */
    method FilterUnqueued(ks: seq<K>) returns (r: seq<K>)
      ensures r == Unqueued(ks, queued)
    {
      r := Unqueued(ks, queued);
    }

    /** `set_queued`: records the items. */
    method SetQueued(ks: set<K>)
      modifies this
      ensures queued == old(queued) + ks
    {
      queued := queued + ks;
    }
  }
}

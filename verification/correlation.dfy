/** The controller peer (client-python-A/a_client.py): the pending table keyed
    by req_id, the message handler that fills it, the register / publish /
    wait / retry loop of send_point_and_wait, and the run_algorithm workflow.

    The transport becomes the append-only log `published`. A blocking wait
    becomes a batch of inbound messages that the network loop delivers (through
    the real handler) while the caller waits; the wait succeeds exactly when the
    caller's slot has been filled once the batch is delivered. */
module Correlation {
  import opened Wire

  /** req_id -> result slot. `None` means no reply yet. The source keeps a
      threading.Event beside the slot; it is set exactly when the slot is
      filled, so the slot alone carries it. */
  type Table = map<string, Option<Value>>

  /** A message the network loop hands to `on_message`. */
  datatype Inbound = Inbound(topic: string, body: Body)

  /** Which branch of `on_message` a message takes. */
  datatype Route =
    | Malformed                            // json.loads failed: logged and dropped
    | Raised                               // the handler itself raised (non-object document, unhashable req_id)
    | StartRequested                       // run_algorithm is started on a new thread
    | MissingReqId                         // result without a truthy req_id: dropped
    | UnknownReqId                         // result for an id not in the table: dropped
    | ReplyFor(reqId: string, reply: Value)  // result stored in the slot of reqId
    | SettingObserved                      // configuration update, only logged
    | Ignored

  /** What `send_point_and_wait` ends with: None when not connected, the stored
      result, or TimeoutError after `attempts` publishes. */
  datatype Outcome =
    | NotConnected
    | Replied(result: Value)
    | TimedOut(reqId: string, attempts: nat)

  /** Every filled slot holds a result message that echoes its own key. */
  predicate Correlated(t: Table)
  {
    forall k :: k in t && t[k].Some? ==> IsResultFor(t[k].value, k)
  }

  /** The result branch of `on_message`, once topic and type have matched. */
  function ReplyRoute(t: Table, doc: map<string, Value>): Route
  {
    var rid := Lookup(doc, "req_id");
    if !Truthy(rid) then MissingReqId
    else if rid.Arr? || rid.Obj? then Raised
    else if rid.Str? && rid.s in t then ReplyFor(rid.s, Obj(doc))
    else UnknownReqId
  }

  /** The branch chain of `on_message`, in the source's order. */
  function Classify(dep: string, t: Table, m: Inbound): Route
  {
    match m.body
    case Empty => Malformed
    case Undecodable => Malformed
    case Decoded(data) =>
      if m.topic == TopicCtrlStart(dep) && !data.Obj? then Raised
      else if m.topic == TopicCtrlStart(dep) && TypeIs(data, "start") then StartRequested
      else if m.topic == TopicResult(dep) && !data.Obj? then Raised
      else if m.topic == TopicResult(dep) && TypeIs(data, "result_feature_set") then ReplyRoute(t, data.fields)
      else if m.topic == TopicSetting(dep) then SettingObserved
      else Ignored
  }

  /** The effect of one inbound message on the pending table. */
  function Deliver(dep: string, t: Table, m: Inbound): (r: Table)
    ensures r.Keys == t.Keys
    ensures Correlated(t) ==> Correlated(r)
  {
    match Classify(dep, t, m)
    case ReplyFor(id, reply) => t[id := Some(reply)]
    case _ => t
  }

  /** The four conditions under which `on_message` stores a result. */
  predicate IsCorrelatedReply(dep: string, t: Table, m: Inbound)
  {
    && m.topic == TopicResult(dep)
    && m.body.Decoded?
    && TypeIs(m.body.doc, "result_feature_set")
    && Lookup(m.body.doc.fields, "req_id").Str?
    && Lookup(m.body.doc.fields, "req_id").s != ""
    && Lookup(m.body.doc.fields, "req_id").s in t
  }

  /** A result is stored exactly when all four conditions hold; any other
      message, an undecodable one included, leaves the table as it was. A
      stored result overwrites whatever the slot held before. */
  lemma StoresOnlyCorrelatedReplies(dep: string, t: Table, m: Inbound)
    ensures IsCorrelatedReply(dep, t, m) ==>
      Deliver(dep, t, m) == t[Lookup(m.body.doc.fields, "req_id").s := Some(m.body.doc)]
    ensures !IsCorrelatedReply(dep, t, m) ==> Deliver(dep, t, m) == t
  {
    assert TopicCtrlStart(dep) != TopicResult(dep) by {
      assert |TopicCtrlStart(dep)| != |TopicResult(dep)|;
    }
    assert TopicSetting(dep) != TopicResult(dep) by {
      assert |TopicSetting(dep)| != |TopicResult(dep)|;
    }
  }

  /** A reply for an id that is no longer pending (a late duplicate, or one
      after a timeout) changes nothing. */
  lemma LateReplyIsDropped(dep: string, t: Table, id: string, reply: Value)
    requires id !in t && Echoes(reply, id)
    ensures Deliver(dep, t, Inbound(TopicResult(dep), Decoded(reply))) == t
  {
    StoresOnlyCorrelatedReplies(dep, t, Inbound(TopicResult(dep), Decoded(reply)));
  }

  /** Delivering the same message twice has the effect of delivering it once. */
  lemma {:induction false} RedeliveryIsHarmless(dep: string, t: Table, m: Inbound)
    ensures Deliver(dep, Deliver(dep, t, m), m) == Deliver(dep, t, m)
  {
    StoresOnlyCorrelatedReplies(dep, t, m);
    StoresOnlyCorrelatedReplies(dep, Deliver(dep, t, m), m);
  }

  /** The messages that arrive during attempt `k`; none when the oracle is silent. */
  function Part<T>(s: seq<seq<T>>, k: nat): seq<T>
  {
    if k < |s| then s[k] else []
  }

  /** The effect of a sequence of inbound messages, delivered in order. */
  function DeliverAll(dep: string, t: Table, ms: seq<Inbound>): (r: Table)
    ensures r.Keys == t.Keys
    ensures Correlated(t) ==> Correlated(r)
    decreases |ms|
  {
    if ms == [] then t else Deliver(dep, DeliverAll(dep, t, ms[..|ms| - 1]), ms[|ms| - 1])
  }

  function Max(a: nat, b: int): nat
  {
    if a >= b then a else b
  }

  /** The state of one `send_point_and_wait` call after it returns. */
  datatype Exchange = Exchange(outcome: Outcome, table: Table, publishes: nat)

  /** The retry loop from attempt `done` on, over table `t` that already holds
      the slot of `id`: each attempt publishes once and then lets the batch of
      that attempt arrive; a filled slot ends the loop with the result, and
      after `retries + 1` attempts the slot is removed and the call times out. */
  function Await(dep: string, t: Table, id: string, batches: seq<seq<Inbound>>, retries: int, done: nat): (x: Exchange)
    requires id in t
    ensures x.table.Keys == t.Keys - {id}
    ensures x.outcome.Replied? ==> done < x.publishes <= retries + 1
    ensures x.outcome.TimedOut? ==> x.outcome == TimedOut(id, x.publishes) && x.publishes == Max(done, retries + 1)
    ensures !x.outcome.NotConnected?
    decreases retries + 1 - done
  {
    if done > retries then Exchange(TimedOut(id, done), t - {id}, done)
    else
      var t' := DeliverAll(dep, t, Part(batches, done));
      if t'[id].Some? then Exchange(Replied(t'[id].value), t' - {id}, done + 1)
      else Await(dep, t', id, batches, retries, done + 1)
  }

  /** The result handed back is the reply that echoes the caller's own id, and
      the table keeps pairing every filled slot with its own id. */
  lemma {:induction false} AwaitReturnsOwnReply(dep: string, t: Table, id: string, batches: seq<seq<Inbound>>, retries: int, done: nat)
    requires id in t && Correlated(t)
    ensures var x := Await(dep, t, id, batches, retries, done);
      Correlated(x.table) && (x.outcome.Replied? ==> IsResultFor(x.outcome.result, id))
    decreases retries + 1 - done
  {
    if done <= retries {
      var t' := DeliverAll(dep, t, Part(batches, done));
      if t'[id].None? {
        AwaitReturnsOwnReply(dep, t', id, batches, retries, done + 1);
      }
    }
  }

  /** An executor that never answers: every one of the `retries + 1` attempts
      publishes, then the call times out and the slot is gone. */
  lemma {:induction false} SilenceTimesOut(dep: string, t: Table, id: string, retries: int, done: nat)
    requires id in t && t[id] == None
    ensures Await(dep, t, id, [], retries, done) == Exchange(TimedOut(id, Max(done, retries + 1)), t - {id}, Max(done, retries + 1))
    decreases retries + 1 - done
  {
    if done <= retries {
      assert DeliverAll(dep, t, Part([], done)) == t;
      SilenceTimesOut(dep, t, id, retries, done + 1);
    }
  }

  /** One attempt of the retry loop: deliver the attempt's batch, then stop
      with the reply if the slot was filled, or go on to the next attempt. */
  lemma AwaitStep(dep: string, t: Table, id: string, batches: seq<seq<Inbound>>, retries: int, done: nat)
    requires id in t && done <= retries
    ensures var t' := DeliverAll(dep, t, Part(batches, done));
      Await(dep, t, id, batches, retries, done) ==
        if t'[id].Some? then Exchange(Replied(t'[id].value), t' - {id}, done + 1)
        else Await(dep, t', id, batches, retries, done + 1)
  {
  }

  /** One connected `send_point_and_wait` for `id` over table `t`: register
      an empty slot, then run the retry loop from the first attempt. The call
      settles (the reply that echoes `id`, or a timeout after exactly
      `retries + 1` publishes), hands the slot back, and leaves every other
      slot paired with its own id. */
  function Call(dep: string, t: Table, id: string, batches: seq<seq<Inbound>>, retries: int): (x: Exchange)
    requires id !in t && Correlated(t)
    ensures Settled(x.outcome, id, retries) && !x.outcome.NotConnected?
    ensures x.outcome.TimedOut? ==> x.publishes == Max(0, retries + 1)
    ensures Correlated(x.table) && x.table.Keys == t.Keys
  {
    AwaitReturnsOwnReply(dep, t[id := None], id, batches, retries, 0);
    Await(dep, t[id := None], id, batches, retries, 0)
  }

  /** Two attempts go unanswered and the third is answered: the caller gets
      exactly that reply after three publishes, and the table is as before
      the call. */
  lemma IdempotentRetry(dep: string, t: Table, id: string, reply: Value)
    requires id !in t && IsResultFor(reply, id) && id != ""
    ensures Await(dep, t[id := None], id, [[], [], [Inbound(TopicResult(dep), Decoded(reply))]], 2, 0)
            == Exchange(Replied(reply), t, 3)
  {
    var t0 := t[id := None];
    var m := Inbound(TopicResult(dep), Decoded(reply));
    var batches := [[], [], [m]];
    assert DeliverAll(dep, t0, Part(batches, 0)) == t0;
    assert DeliverAll(dep, t0, Part(batches, 1)) == t0;
    assert [m][..0] == [];
    assert DeliverAll(dep, t0, Part(batches, 2)) == Deliver(dep, t0, m);
    StoresOnlyCorrelatedReplies(dep, t0, m);
    assert IsCorrelatedReply(dep, t0, m);
    var t1 := t0[id := Some(reply)];
    assert Deliver(dep, t0, m) == t1;
    assert t1 - {id} == t;
  }

  /** `m` is a result for request `id` on the result topic. */
  predicate CarriesReply(dep: string, m: Inbound, id: string)
  {
    m.topic == TopicResult(dep) && m.body.Decoded? && IsResultFor(m.body.doc, id)
  }

  /** A result for `id` arrives during one of the attempts `from` to `to`. */
  predicate ReplyArrives(dep: string, batches: seq<seq<Inbound>>, id: string, from: nat, to: int)
  {
    exists k: nat, m :: from <= k <= to && m in Part(batches, k) && CarriesReply(dep, m, id)
  }

  /** After a run of messages the slot of a pending non-empty `id` is filled
      exactly when it was filled before or one of the messages is a result
      for `id`. */
  lemma {:induction false} SlotFilledAfter(dep: string, t: Table, ms: seq<Inbound>, id: string)
    requires id in t && id != ""
    ensures DeliverAll(dep, t, ms)[id].Some? <==> t[id].Some? || exists m :: m in ms && CarriesReply(dep, m, id)
    decreases |ms|
  {
    if ms != [] {
      var n := |ms| - 1;
      var t0 := DeliverAll(dep, t, ms[..n]);
      SlotFilledAfter(dep, t, ms[..n], id);
      StoresOnlyCorrelatedReplies(dep, t0, ms[n]);
      assert ms == ms[..n] + [ms[n]];
      if CarriesReply(dep, ms[n], id) {
        assert IsCorrelatedReply(dep, t0, ms[n]);
      } else {
        assert DeliverAll(dep, t, ms)[id] == t0[id];
        assert (exists m :: m in ms && CarriesReply(dep, m, id)) == (exists m :: m in ms[..n] && CarriesReply(dep, m, id));
      }
    }
  }

  /** A result for `id` that arrives during attempt `k` ends the wait with a
      reply, after at most `k + 1` publishes. */
  lemma {:induction false} ReplyEndsTheWait(dep: string, t: Table, id: string, batches: seq<seq<Inbound>>, retries: int,
                                            done: nat, k: nat, m: Inbound)
    requires id in t && id != "" && done <= k <= retries
    requires m in Part(batches, k) && CarriesReply(dep, m, id)
    ensures var x := Await(dep, t, id, batches, retries, done);
      x.outcome.Replied? && x.publishes <= k + 1
    decreases k - done
  {
    var t' := DeliverAll(dep, t, Part(batches, done));
    if k == done {
      SlotFilledAfter(dep, t, Part(batches, done), id);
    } else if t'[id].None? {
      ReplyEndsTheWait(dep, t', id, batches, retries, done + 1, k, m);
    }
  }

  /** Starting from an empty slot, the wait ends with a reply exactly when a
      result for `id` arrives during one of the remaining attempts; otherwise
      it times out. */
  lemma {:induction false} AwaitRepliesIffReplyArrives(dep: string, t: Table, id: string, batches: seq<seq<Inbound>>,
                                                       retries: int, done: nat)
    requires id in t && t[id] == None && id != ""
    ensures Await(dep, t, id, batches, retries, done).outcome.Replied? <==> ReplyArrives(dep, batches, id, done, retries)
    decreases retries + 1 - done
  {
    if done <= retries {
      var t' := DeliverAll(dep, t, Part(batches, done));
      SlotFilledAfter(dep, t, Part(batches, done), id);
      if t'[id].Some? {
        var m :| m in Part(batches, done) && CarriesReply(dep, m, id);
        assert done <= done <= retries;
      } else {
        AwaitRepliesIffReplyArrives(dep, t', id, batches, retries, done + 1);
        if ReplyArrives(dep, batches, id, done, retries) {
          var k: nat, m :| done <= k <= retries && m in Part(batches, k) && CarriesReply(dep, m, id);
          assert k != done;
        }
      }
    }
  }

  /** A connected call returns a reply exactly when a result for its id
      arrives during one of its `retries + 1` attempts, and times out
      otherwise. */
  lemma CallRepliesIffReplyArrives(dep: string, t: Table, id: string, batches: seq<seq<Inbound>>, retries: int)
    requires id !in t && Correlated(t) && id != ""
    ensures var o := Call(dep, t, id, batches, retries).outcome;
      && (o.Replied? <==> ReplyArrives(dep, batches, id, 0, retries))
      && (o.TimedOut? <==> !ReplyArrives(dep, batches, id, 0, retries))
  {
    AwaitRepliesIffReplyArrives(dep, t[id := None], id, batches, retries, 0);
  }

  /** The slot of `id`, empty before a run of messages, is filled afterwards
      only with the document of one of those messages that is a result for
      `id`. */
  lemma {:induction false} FilledSlotHoldsArrival(dep: string, t: Table, ms: seq<Inbound>, id: string)
    requires id in t && t[id] == None
    ensures var r := DeliverAll(dep, t, ms);
      r[id].Some? ==> exists m :: m in ms && CarriesReply(dep, m, id) && r[id].value == m.body.doc
    decreases |ms|
  {
    if ms != [] {
      var n := |ms| - 1;
      var t0 := DeliverAll(dep, t, ms[..n]);
      var r := DeliverAll(dep, t, ms);
      FilledSlotHoldsArrival(dep, t, ms[..n], id);
      StoresOnlyCorrelatedReplies(dep, t0, ms[n]);
      assert ms == ms[..n] + [ms[n]];
      if IsCorrelatedReply(dep, t0, ms[n]) && Lookup(ms[n].body.doc.fields, "req_id").s == id {
        assert r[id].value == ms[n].body.doc && CarriesReply(dep, ms[n], id);
      } else if r[id].Some? {
        assert r[id] == t0[id];
        var m :| m in ms[..n] && CarriesReply(dep, m, id) && t0[id].value == m.body.doc;
        assert m in ms;
      }
    }
  }

  /** The result a wait returns is the document of a result for `id` that
      arrived during one of its attempts. */
  lemma {:induction false} ReplyIsAnArrival(dep: string, t: Table, id: string, batches: seq<seq<Inbound>>, retries: int,
                                            done: nat)
    requires id in t && t[id] == None
    ensures var x := Await(dep, t, id, batches, retries, done);
      x.outcome.Replied? ==>
        exists k: nat, m :: done <= k <= retries && m in Part(batches, k) && CarriesReply(dep, m, id)
                            && x.outcome.result == m.body.doc
    decreases retries + 1 - done
  {
    if done <= retries {
      var t' := DeliverAll(dep, t, Part(batches, done));
      FilledSlotHoldsArrival(dep, t, Part(batches, done), id);
      if t'[id].Some? {
        var m :| m in Part(batches, done) && CarriesReply(dep, m, id) && t'[id].value == m.body.doc;
        assert done <= done <= retries;
      } else {
        ReplyIsAnArrival(dep, t', id, batches, retries, done + 1);
      }
    }
  }

  /** Every result for `id` that arrives has a `features` field `len()` can
      take (or none at all). */
  ghost predicate ArrivalsSized(dep: string, batches: seq<seq<Inbound>>, id: string)
  {
    forall k: nat, m :: m in Part(batches, k) && CarriesReply(dep, m, id) ==> FeaturesSized(m.body.doc)
  }

  /** A call whose arriving results all have a sized `features` field never
      makes `run_algorithm` raise. */
  lemma SizedArrivalsDoNotAbort(dep: string, t: Table, id: string, batches: seq<seq<Inbound>>, retries: int)
    requires id !in t && Correlated(t) && ArrivalsSized(dep, batches, id)
    ensures !Aborts(Call(dep, t, id, batches, retries).outcome)
  {
    ReplyIsAnArrival(dep, t[id := None], id, batches, retries, 0);
  }

  /** The table call `i` of a run starts from: `t` for the first call, and
      the table the previous call left for the others. */
  function Before(t: Table, xs: seq<Exchange>, i: nat): Table
    requires i <= |xs|
  {
    if i == 0 then t else xs[i - 1].table
  }

  /** The table a run of calls leaves. */
  function After(t: Table, xs: seq<Exchange>): Table
  {
    Before(t, xs, |xs|)
  }

  /** `xs` are the first calls of a workflow that starts from table `t`:
      call i sends `ids[i]` with 2 retries, sees the arrivals `replies[i]`,
      and starts from the table the previous call left, whatever that call
      ended with. */
  predicate IsWorkflow(dep: string, t: Table, ids: seq<string>, replies: seq<seq<seq<Inbound>>>, xs: seq<Exchange>)
  {
    && |xs| <= |ids|
    && forall i {:trigger Before(t, xs, i)} :: 0 <= i < |xs| ==>
      && Correlated(Before(t, xs, i)) && ids[i] !in Before(t, xs, i)
      && xs[i] == Call(dep, Before(t, xs, i), ids[i], Part(replies, i), 2)
  }

  /** The next call extends a workflow. */
  lemma WorkflowExtends(dep: string, t: Table, ids: seq<string>, replies: seq<seq<seq<Inbound>>>, xs: seq<Exchange>,
                         x: Exchange)
    requires IsWorkflow(dep, t, ids, replies, xs) && |xs| < |ids|
    requires Correlated(Before(t, xs, |xs|)) && ids[|xs|] !in Before(t, xs, |xs|)
    requires x == Call(dep, Before(t, xs, |xs|), ids[|xs|], Part(replies, |xs|), 2)
    ensures IsWorkflow(dep, t, ids, replies, xs + [x])
  {
    var ys := xs + [x];
    forall i | 0 <= i < |ys|
      ensures && Correlated(Before(t, ys, i)) && ids[i] !in Before(t, ys, i)
              && ys[i] == Call(dep, Before(t, ys, i), ids[i], Part(replies, i), 2)
    {
      assert Before(t, ys, i) == Before(t, xs, i);
      if i < |xs| {
        assert ys[i] == xs[i];
      }
    }
  }

  /** The next call extends a workflow, its outcomes and the table it leaves. */
  lemma WorkflowStep(dep: string, t: Table, ids: seq<string>, replies: seq<seq<seq<Inbound>>>, xs: seq<Exchange>, x: Exchange)
    requires IsWorkflow(dep, t, ids, replies, xs) && |xs| < |ids|
    requires Correlated(After(t, xs)) && ids[|xs|] !in After(t, xs)
    requires x == Call(dep, After(t, xs), ids[|xs|], Part(replies, |xs|), 2)
    ensures IsWorkflow(dep, t, ids, replies, xs + [x])
    ensures Outcomes(xs + [x]) == Outcomes(xs) + [x.outcome]
    ensures After(t, xs + [x]) == x.table
  {
    WorkflowExtends(dep, t, ids, replies, xs, x);
    OutcomesAppend(xs, x);
  }

  /** Every prefix of a workflow is a workflow: the calls made so far do not
      depend on the ones still to come. */
  lemma WorkflowPrefix(dep: string, t: Table, ids: seq<string>, replies: seq<seq<seq<Inbound>>>, xs: seq<Exchange>,
                       n: nat)
    requires IsWorkflow(dep, t, ids, replies, xs) && n <= |xs|
    ensures IsWorkflow(dep, t, ids, replies, xs[..n])
  {
    forall i | 0 <= i < n
      ensures Before(t, xs[..n], i) == Before(t, xs, i)
    {
    }
  }

  /** A workflow is determined by its start: two runs of the same length are
      the same run. */
  lemma {:induction false} WorkflowIsUnique(dep: string, t: Table, ids: seq<string>, replies: seq<seq<seq<Inbound>>>,
                                           xs: seq<Exchange>, ys: seq<Exchange>)
    requires IsWorkflow(dep, t, ids, replies, xs) && IsWorkflow(dep, t, ids, replies, ys) && |xs| == |ys|
    ensures xs == ys
    decreases |xs|
  {
    if xs != [] {
      var n := |xs| - 1;
      WorkflowPrefix(dep, t, ids, replies, xs, n);
      WorkflowPrefix(dep, t, ids, replies, ys, n);
      WorkflowIsUnique(dep, t, ids, replies, xs[..n], ys[..n]);
      assert Before(t, xs, n) == Before(t, ys, n) by {
        if n > 0 {
          assert xs[n - 1] == xs[..n][n - 1] && ys[n - 1] == ys[..n][n - 1];
        }
      }
      assert xs == xs[..n] + [xs[n]] && ys == ys[..n] + [ys[n]];
    }
  }

  /** `o` is how a connected call for `id` with 2 retries ends when the
      arrivals during its attempts are `batches`: settled for `id`, and a
      reply exactly when a result for `id` arrives. */
  predicate Answers(dep: string, o: Outcome, id: string, batches: seq<seq<Inbound>>)
  {
    && Settled(o, id, 2) && !o.NotConnected?
    && (o.Replied? <==> ReplyArrives(dep, batches, id, 0, 2))
  }

  lemma CallAnswers(dep: string, t: Table, id: string, batches: seq<seq<Inbound>>)
    requires id !in t && Correlated(t) && id != ""
    ensures Answers(dep, Call(dep, t, id, batches, 2).outcome, id, batches)
  {
    CallRepliesIffReplyArrives(dep, t, id, batches, 2);
  }

  /** Every call of a workflow settles for its own request, and it replies
      exactly when a result for that request arrives during its attempts. */
  lemma WorkflowOutcomes(dep: string, t: Table, ids: seq<string>, replies: seq<seq<seq<Inbound>>>, xs: seq<Exchange>, j: nat)
    requires IsWorkflow(dep, t, ids, replies, xs) && j < |xs| && ids[j] != ""
    ensures Answers(dep, xs[j].outcome, ids[j], Part(replies, j))
  {
    CallAnswers(dep, Before(t, xs, j), ids[j], Part(replies, j));
  }

  /** The outcomes of a run of calls, in order. */
  function Outcomes(xs: seq<Exchange>): (os: seq<Outcome>)
    ensures |os| == |xs|
  {
    if xs == [] then [] else Outcomes(xs[..|xs| - 1]) + [xs[|xs| - 1].outcome]
  }

  lemma OutcomesAt(xs: seq<Exchange>, j: nat)
    requires j < |xs|
    ensures Outcomes(xs)[j] == xs[j].outcome
  {
    if j < |xs| - 1 {
      OutcomesAt(xs[..|xs| - 1], j);
    }
  }

  lemma OutcomesAppend(xs: seq<Exchange>, x: Exchange)
    ensures Outcomes(xs + [x]) == Outcomes(xs) + [x.outcome]
  {
    assert (xs + [x])[..|xs|] == xs;
  }

  /** The commands published by a run of calls: call j publishes the command
      for `points[j]` with `ids[j]` once per attempt. */
  function CommandLog(dep: string, points: seq<(real, real)>, ids: seq<string>, now: int, xs: seq<Exchange>): seq<Publish>
    requires |xs| <= |points| && |xs| <= |ids|
  {
    if xs == [] then []
    else
      var n := |xs| - 1;
      CommandLog(dep, points, ids, now, xs[..n]) + Copies(CommandPublish(dep, points[n].0, points[n].1, now, ids[n]), xs[n].publishes)
  }

  lemma CommandLogAppend(dep: string, points: seq<(real, real)>, ids: seq<string>, now: int, xs: seq<Exchange>, x: Exchange)
    requires |xs| < |points| && |xs| < |ids|
    ensures CommandLog(dep, points, ids, now, xs + [x])
         == CommandLog(dep, points, ids, now, xs) + Copies(CommandPublish(dep, points[|xs|].0, points[|xs|].1, now, ids[|xs|]), x.publishes)
  {
    assert (xs + [x])[..|xs|] == xs;
  }

  /** The commands of a run leave the presence trace alone. */
  lemma {:induction false} CommandLogKeepsTrace(dep: string, log: seq<Publish>, points: seq<(real, real)>, ids: seq<string>, now: int, xs: seq<Exchange>)
    requires |xs| <= |points| && |xs| <= |ids|
    ensures StatusTrace(dep, log + CommandLog(dep, points, ids, now, xs)) == StatusTrace(dep, log)
    decreases |xs|
  {
    if xs == [] {
      assert log + [] == log;
    } else {
      var n := |xs| - 1;
      var front := log + CommandLog(dep, points, ids, now, xs[..n]);
      var c := Copies(CommandPublish(dep, points[n].0, points[n].1, now, ids[n]), xs[n].publishes);
      CommandLogKeepsTrace(dep, log, points, ids, now, xs[..n]);
      assert CommandLog(dep, points, ids, now, xs) == CommandLog(dep, points, ids, now, xs[..n]) + c;
      assert log + CommandLog(dep, points, ids, now, xs) == front + c;
      CommandsKeepTrace(dep, front, points[n].0, points[n].1, now, ids[n], xs[n].publishes);
    }
  }

  /** The command `send_point_and_wait` publishes for point (x, y). */
  function MovePointCommand(x: real, y: real, now: int, reqId: string): Value
  {
    Obj(map[
      "type" := Str("move_point"),
      "point" := Obj(map["x" := Num(x), "y" := Num(y)]),
      "ts" := Num(now as real),
      "sender" := Str("A"),
      "req_id" := Str(reqId)])
  }

  function CommandPublish(dep: string, x: real, y: real, now: int, reqId: string): Publish
  {
    Publish(TopicCmdPoint(dep), MovePointCommand(x, y, now, reqId), 1, false)
  }

  /** Any number of copies of a command leave the presence trace alone. */
  lemma CommandsKeepTrace(dep: string, log: seq<Publish>, x: real, y: real, now: int, reqId: string, n: nat)
    ensures StatusTrace(dep, log + Copies(CommandPublish(dep, x, y, now, reqId), n)) == StatusTrace(dep, log)
  {
    assert |TopicCmdPoint(dep)| != |TopicStatus(dep)|;
    CopiesHaveNoStatus(dep, log, CommandPublish(dep, x, y, now, reqId), n);
  }

  /** The text of the TimeoutError raised after the last attempt. */
  function TimeoutMessage(reqId: string, retries: int): string
  {
    "req_id=" + reqId + " 在 " + IntToString(retries + 1) + " 次嘗試後仍未收到結果"
  }

  /** The points run_algorithm sends, in order. */
  const DemoPoints: seq<(real, real)> := [(10.0, 5.0), (12.3, -7.5), (0.0, 0.0), (-5.2, 8.1)]

  /** A point counts as successful when the call returned a truthy result. */
  predicate Succeeded(o: Outcome)
  {
    o.Replied? && Truthy(o.result)
  }

  function CountSucceeded(os: seq<Outcome>): (n: nat)
    ensures n <= |os|
  {
    if os == [] then 0
    else CountSucceeded(os[..|os| - 1]) + (if Succeeded(os[|os| - 1]) then 1 else 0)
  }

  lemma CountSucceededAppend(os: seq<Outcome>, o: Outcome)
    ensures CountSucceeded(os + [o]) == CountSucceeded(os) + (if Succeeded(o) then 1 else 0)
  {
    assert (os + [o])[..|os|] == os;
  }

  function CountReplied(os: seq<Outcome>): (n: nat)
    ensures n <= |os|
  {
    if os == [] then 0
    else CountReplied(os[..|os| - 1]) + (if os[|os| - 1].Replied? then 1 else 0)
  }

  /** The `summary` object of the END message. */
  datatype Summary = Summary(total: nat, successful: nat, failed: int)

  function Summarize(os: seq<Outcome>): (s: Summary)
    ensures s.total == |os| && s.successful == CountSucceeded(os) && s.failed == s.total - s.successful
    ensures 0 <= s.failed <= s.total
  {
    Summary(|os|, CountSucceeded(os), |os| - CountSucceeded(os))
  }

  /** `len(features)` after `features = result.get("features", [])` on a
      truthy result: Python's `len` takes a string, a list or a dict, and
      raises TypeError on None, a number or a bool. */
  predicate FeaturesSized(result: Value)
  {
    result.Obj? && ("features" in result.fields ==> Sized(result.fields["features"]))
  }

  predicate Sized(v: Value)
  {
    v.Str? || v.Arr? || v.Obj?
  }

  /** The point's outcome makes the loop of `run_algorithm` raise: a truthy
      result whose features cannot be counted. The TypeError is not caught by
      `except TimeoutError`, so it ends `run_algorithm`. */
  predicate Aborts(o: Outcome)
  {
    Succeeded(o) && !FeaturesSized(o.result)
  }

  /** The loop raised at the last point it sent. */
  predicate Aborted(os: seq<Outcome>)
  {
    os != [] && Aborts(os[|os| - 1])
  }

  /** No point before the last one sent made the loop raise. */
  predicate PassedBeforeLast(os: seq<Outcome>)
  {
    forall j :: 0 <= j < |os| - 1 ==> !Aborts(os[j])
  }

  /** The outcomes of the loop over `n` points: it goes on past every point
      that does not raise, and stops early only at one that does. */
  predicate RanUntilAbort(os: seq<Outcome>, n: nat)
  {
    |os| <= n && PassedBeforeLast(os) && (|os| < n ==> Aborted(os))
  }

  /** A point that did not raise lets the loop go on to the next one. */
  lemma PassedExtends(os: seq<Outcome>, o: Outcome)
    requires PassedBeforeLast(os) && !Aborted(os)
    ensures PassedBeforeLast(os + [o])
  {
    forall j | 0 <= j < |os + [o]| - 1
      ensures !Aborts((os + [o])[j])
    {
      assert (os + [o])[j] == os[j];
    }
  }

  /** A run that was never connected gets no result, so it never raises and
      goes through every point. */
  lemma DisconnectedRunCompletes(os: seq<Outcome>, ids: seq<string>, n: nat)
    requires RanUntilAbort(os, n) && SettledRun(os, ids, 2, false)
    ensures |os| == n && !Aborted(os)
  {
    if os != [] {
      assert os[|os| - 1] == NotConnected;
    }
  }

  /** A workflow whose every arriving result has a sized `features` field
      goes through all `n` points without raising. */
  lemma SizedRunCompletes(dep: string, t: Table, ids: seq<string>, replies: seq<seq<seq<Inbound>>>, xs: seq<Exchange>,
                          n: nat)
    requires IsWorkflow(dep, t, ids, replies, xs) && RanUntilAbort(Outcomes(xs), n) && n <= |ids|
    requires forall j :: 0 <= j < n ==> ArrivalsSized(dep, Part(replies, j), ids[j])
    ensures |xs| == n && !Aborted(Outcomes(xs))
  {
    if xs != [] {
      var j := |xs| - 1;
      assert Before(t, xs, j) == Before(t, xs, j);
      SizedArrivalsDoNotAbort(dep, Before(t, xs, j), ids[j], Part(replies, j), 2);
      OutcomesAt(xs, j);
    }
  }

  /** The loop of `run_algorithm` goes through all `n` points without
      raising when the client was not connected, and when every result that
      arrives for a point has a sized `features` field. */
  lemma LoopCompletes(dep: string, t: Table, ids: seq<string>, replies: seq<seq<seq<Inbound>>>, xs: seq<Exchange>,
                      os: seq<Outcome>, connected: bool, n: nat)
    requires RanUntilAbort(os, n) && SettledRun(os, ids, 2, connected) && n <= |ids|
    requires connected ==> IsWorkflow(dep, t, ids, replies, xs) && os == Outcomes(xs)
    ensures !connected ==> |os| == n && !Aborted(os)
    ensures connected && (forall j :: 0 <= j < n ==> ArrivalsSized(dep, Part(replies, j), ids[j]))
      ==> |os| == n && !Aborted(os)
  {
    if !connected {
      DisconnectedRunCompletes(os, ids, n);
    } else if forall j :: 0 <= j < n ==> ArrivalsSized(dep, Part(replies, j), ids[j]) {
      SizedRunCompletes(dep, t, ids, replies, xs, n);
    }
  }

  /** What one call of the workflow may end with for request `id`: the reply
      that echoes `id`, or a timeout after exactly `retries + 1` publishes. */
  predicate Settled(o: Outcome, id: string, retries: int)
  {
    && (o.Replied? ==> IsResultFor(o.result, id))
    && (o.TimedOut? ==> o == TimedOut(id, Max(0, retries + 1)))
  }

  /** The outcomes of a run so far: each one settled for its own request, and
      every one of them NotConnected when the client was not connected. */
  predicate SettledRun(os: seq<Outcome>, ids: seq<string>, retries: int, connected: bool)
  {
    |os| <= |ids| &&
    forall j :: 0 <= j < |os| ==> Settled(os[j], ids[j], retries) && (connected || os[j] == NotConnected)
  }

  /** Recording the outcome of the next request keeps the run settled. */
  lemma SettledRunExtends(os: seq<Outcome>, ids: seq<string>, retries: int, connected: bool, o: Outcome)
    requires SettledRun(os, ids, retries, connected) && |os| < |ids|
    requires Settled(o, ids[|os|], retries) && (connected || o == NotConnected)
    ensures SettledRun(os + [o], ids, retries, connected)
  {
    var os' := os + [o];
    forall j | 0 <= j < |os'|
      ensures Settled(os'[j], ids[j], retries) && (connected || os'[j] == NotConnected)
    {
      if j < |os| {
        assert os'[j] == os[j];
      }
    }
  }

  /** A reply that echoes its request always counts as a success, so the
      success count is the number of points that got a reply. */
  lemma {:induction false} RepliesAreSuccesses(os: seq<Outcome>, ids: seq<string>, retries: int, connected: bool)
    requires SettledRun(os, ids, retries, connected)
    ensures CountSucceeded(os) == CountReplied(os)
  {
    if os != [] {
      var n := |os| - 1;
      assert SettledRun(os[..n], ids, retries, connected);
      RepliesAreSuccesses(os[..n], ids, retries, connected);
      if os[n].Replied? {
        assert IsResultFor(os[n].result, ids[n]);
        assert "type" in os[n].result.fields;
      }
    }
  }

  /** Three points A, B, C where results arrive for A and C but never for
      B: B times out after 3 attempts, C is still called and answered, and
      the summary is 2 successful, 1 failed, 3 in all. */
  lemma PartialFailureSummary(dep: string, t: Table, ids: seq<string>, replies: seq<seq<seq<Inbound>>>, xs: seq<Exchange>)
    requires IsWorkflow(dep, t, ids, replies, xs) && |xs| == 3
    requires ids[0] != "" && ids[1] != "" && ids[2] != ""
    requires ReplyArrives(dep, Part(replies, 0), ids[0], 0, 2)
    requires !ReplyArrives(dep, Part(replies, 1), ids[1], 0, 2)
    requires ReplyArrives(dep, Part(replies, 2), ids[2], 0, 2)
    ensures xs[1].outcome == TimedOut(ids[1], 3) && xs[2].outcome.Replied?
    ensures Summarize(Outcomes(xs)) == Summary(3, 2, 1)
  {
    WorkflowOutcomes(dep, t, ids, replies, xs, 0);
    WorkflowOutcomes(dep, t, ids, replies, xs, 1);
    WorkflowOutcomes(dep, t, ids, replies, xs, 2);
    var os := [xs[0].outcome, xs[1].outcome, xs[2].outcome];
    OutcomesAt(xs, 0);
    OutcomesAt(xs, 1);
    OutcomesAt(xs, 2);
    assert Outcomes(xs) == os;
    assert "type" in os[0].result.fields && "type" in os[2].result.fields;
    assert os[..2][..1] == [os[0]];
    assert [os[0]][..0] == [];
    assert CountSucceeded([os[0]]) == 1;
    assert CountSucceeded(os[..2]) == 1;
  }

  /** The END message with the run's summary. */
  function EndPayload(s: Summary, now: int): Value
  {
    Obj(map[
      "type" := Str("end"),
      "ts" := Num(now as real),
      "sender" := Str("A"),
      "summary" := Obj(map[
        "total_points" := Num(s.total as real),
        "successful_points" := Num(s.successful as real),
        "failed_points" := Num(s.failed as real)])])
  }

  /** The controller client (`MQTTClient`). */
  class Client {
    const deployment: string
    var connected: bool
    var pending: Table
    var published: seq<Publish>

    ghost predicate Valid()
      reads this
    {
      Correlated(pending)
    }

    constructor (deployment: string)
      ensures this.deployment == deployment
      ensures !connected && pending == map[] && published == [] && Valid()
    {
      this.deployment := deployment;
      connected := false;
      pending := map[];
      published := [];
    }

    /** `on_connect`: on success, mark connected and publish the retained
        presence `{online: true, state: idle}`. Subscriptions are the transport's. */
    method OnConnect(rc: int, now: int)
      modifies this
      ensures pending == old(pending)
      ensures rc == 0 ==>
        connected && published == old(published) + [Presence(deployment, true, "A", now, "idle")]
      ensures rc != 0 ==> connected == old(connected) && published == old(published)
    {
      if rc == 0 {
        connected := true;
        published := published + [Presence(deployment, true, "A", now, "idle")];
      }
    }

    /** `on_disconnect`. */
    method OnDisconnect()
      modifies this
      ensures !connected && pending == old(pending) && published == old(published)
    {
      connected := false;
    }

    /** `disconnect`: when connected, publish the retained presence
        `{online: false, state: disconnected}` before closing. */
    method Disconnect(now: int)
      modifies this
      ensures pending == old(pending) && connected == old(connected)
      ensures old(connected) ==>
        published == old(published) + [Presence(deployment, false, "A", now, "disconnected")]
      ensures !old(connected) ==> published == old(published)
    {
      if connected {
        published := published + [Presence(deployment, false, "A", now, "disconnected")];
      }
    }

    /** `on_message`: route one message; only a correlated result changes the table. */
    method OnMessage(m: Inbound) returns (route: Route)
      modifies this
      ensures route == Classify(deployment, old(pending), m)
      ensures pending == Deliver(deployment, old(pending), m)
      ensures connected == old(connected) && published == old(published)
    {
      route := Classify(deployment, pending, m);
      if route.ReplyFor? {
        pending := pending[route.reqId := Some(route.reply)];
      }
    }

    /** The network loop handing `ms` to `on_message` one by one while the
        caller waits. */
    method Dispatch(ms: seq<Inbound>)
      modifies this
      ensures pending == DeliverAll(deployment, old(pending), ms)
      ensures connected == old(connected) && published == old(published)
    {
      var i := 0;
      while i < |ms|
        invariant 0 <= i <= |ms|
        invariant pending == DeliverAll(deployment, old(pending), ms[..i])
        invariant connected == old(connected) && published == old(published)
      {
        var _ := OnMessage(ms[i]);
        assert ms[..i + 1][..i] == ms[..i];
        i := i + 1;
      }
      assert ms[..i] == ms;
    }

    /** `send_point_and_wait`: register a fresh req_id with an empty slot,
        then publish the same command up to `retries + 1` times, each followed
        by a wait whose arrivals are `batches[k]`. `reqId` is the uuid4 oracle:
        non-empty and not already pending. */
    method SendPointAndWait(x: real, y: real, retries: int, reqId: string, now: int, batches: seq<seq<Inbound>>)
      returns (outcome: Outcome)
      requires Valid()
      requires reqId != "" && reqId !in pending
      modifies this
      ensures Valid() && connected == old(connected)
      ensures !old(connected) ==> outcome == NotConnected && pending == old(pending) && published == old(published)
      ensures old(connected) ==>
        var ex := Call(deployment, old(pending), reqId, batches, retries);
        && outcome == ex.outcome
        && pending == ex.table
        && published == old(published) + Copies(CommandPublish(deployment, x, y, now, reqId), ex.publishes)
    {
      if !connected {
        return NotConnected;
      }
      var cmd := CommandPublish(deployment, x, y, now, reqId);
      ghost var goal := Await(deployment, pending[reqId := None], reqId, batches, retries, 0);
      assert goal == Call(deployment, pending, reqId, batches, retries);
      pending := pending[reqId := None];
      var attempt: nat := 0;
      while attempt <= retries
        invariant reqId in pending && pending[reqId] == None
        invariant connected == old(connected)
        invariant Await(deployment, pending, reqId, batches, retries, attempt) == goal
        invariant published == old(published) + Copies(cmd, attempt)
        decreases retries + 1 - attempt
      {
        var batch := Part(batches, attempt);
        AwaitStep(deployment, pending, reqId, batches, retries, attempt);
        OneMoreCopy(old(published), cmd, attempt);
        attempt := attempt + 1;
        published := published + [cmd];
        Dispatch(batch);
        if pending[reqId].Some? {
          outcome := Replied(pending[reqId].value);
          pending := pending - {reqId};
          return;
        }
      }
      outcome := TimedOut(reqId, attempt);
      pending := pending - {reqId};
    }

    /** The outcomes so far are those of the workflow `run` that started from
        table `t0` and left the table pending now (connected), or all
        NotConnected with no call made (not connected). */
    ghost predicate Tracks(t0: Table, ids: seq<string>, replies: seq<seq<seq<Inbound>>>, run: seq<Exchange>,
                           outcomes: seq<Outcome>)
      reads this
    {
      if connected then
        IsWorkflow(deployment, t0, ids, replies, run) && outcomes == Outcomes(run) && pending == After(t0, run)
      else
        run == [] && pending == t0 && SettledRun(outcomes, ids, 2, false)
    }

    /** One pass of the loop of `run_algorithm`: send point i (timeout 8 s,
        2 retries) as request `ids[i]`, extending the workflow and the log
        that held `log0` before the loop. */
    method SendNext(points: seq<(real, real)>, now: int, ids: seq<string>, replies: seq<seq<seq<Inbound>>>, i: nat,
                    ghost t0: Table, ghost log0: seq<Publish>, ghost run: seq<Exchange>, ghost outcomes: seq<Outcome>)
      returns (o: Outcome, ghost run': seq<Exchange>)
      requires Valid() && i == |outcomes| < |points| && |points| == |ids|
      requires ids[i] != "" && ids[i] !in pending
      requires Tracks(t0, ids, replies, run, outcomes) && SettledRun(outcomes, ids, 2, connected)
      requires published == log0 + CommandLog(deployment, points, ids, now, run)
      modifies this
      ensures Valid() && pending.Keys == old(pending).Keys && connected == old(connected)
      ensures Tracks(t0, ids, replies, run', outcomes + [o])
      ensures Settled(o, ids[i], 2) && SettledRun(outcomes + [o], ids, 2, connected)
      ensures published == log0 + CommandLog(deployment, points, ids, now, run')
    {
      ghost var before := pending;
      o := SendPointAndWait(points[i].0, points[i].1, 2, ids[i], now, Part(replies, i));
      run' := run;
      if connected {
        assert |run| == i;
        ghost var x := Call(deployment, before, ids[i], Part(replies, i), 2);
        WorkflowStep(deployment, t0, ids, replies, run, x);
        CommandLogAppend(deployment, points, ids, now, run, x);
        run' := run + [x];
      }
      SettledRunExtends(outcomes, ids, 2, connected, o);
    }

    /** The loop of `run_algorithm`: send every point in turn and carry on
        past a timeout, until a result whose features cannot be counted
        raises (`aborted`). `run` is the workflow of calls the points went
        through (none when not connected). */
    method SendDemoPoints(points: seq<(real, real)>, now: int, ids: seq<string>, replies: seq<seq<seq<Inbound>>>)
      returns (outcomes: seq<Outcome>, successful: nat, aborted: bool, ghost run: seq<Exchange>)
      requires Valid()
      requires |ids| == |points|
      requires forall i :: 0 <= i < |ids| ==> ids[i] != "" && ids[i] !in pending
      modifies this
      ensures Valid() && pending.Keys == old(pending).Keys && connected == old(connected)
      ensures RanUntilAbort(outcomes, |points|) && aborted == Aborted(outcomes)
      ensures Tracks(old(pending), ids, replies, run, outcomes)
      ensures SettledRun(outcomes, ids, 2, old(connected))
      ensures successful == CountSucceeded(outcomes)
      ensures published == old(published) + CommandLog(deployment, points, ids, now, run)
    {
      outcomes, successful, aborted, run := [], 0, false, [];
      var i := 0;
      assert old(published) + [] == published;
      while i < |points| && !aborted
        invariant 0 <= i <= |points| && |outcomes| == i
        invariant PassedBeforeLast(outcomes) && aborted == Aborted(outcomes)
        invariant Valid() && pending.Keys == old(pending).Keys && connected == old(connected)
        invariant Tracks(old(pending), ids, replies, run, outcomes)
        invariant SettledRun(outcomes, ids, 2, old(connected))
        invariant successful == CountSucceeded(outcomes)
        invariant published == old(published) + CommandLog(deployment, points, ids, now, run)
      {
        var o;
        o, run := SendNext(points, now, ids, replies, i, old(pending), old(published), run, outcomes);
        if Succeeded(o) {
          successful := successful + 1;
        }
        CountSucceededAppend(outcomes, o);
        PassedExtends(outcomes, o);
        outcomes := outcomes + [o];
        aborted := Aborts(o);
        i := i + 1;
      }
    }

    /** The end of `run_algorithm`: publish the END message with the summary,
        then the retained presence `completed`. */
    method PublishEnd(s: Summary, now: int)
      modifies this
      ensures pending == old(pending) && connected == old(connected)
      ensures published == old(published)
        + [Publish(TopicCtrlEnd(deployment), EndPayload(s, now), 1, false), Presence(deployment, true, "A", now, "completed")]
      ensures StatusTrace(deployment, published) == StatusTrace(deployment, old(published)) + ["completed"]
    {
      var endMsg := Publish(TopicCtrlEnd(deployment), EndPayload(s, now), 1, false);
      assert |endMsg.topic| != |TopicStatus(deployment)|;
      OtherTopicKeepsTrace(deployment, published, endMsg);
      published := published + [endMsg];
      PresenceExtendsTrace(deployment, published, true, "A", now, "completed");
      published := published + [Presence(deployment, true, "A", now, "completed")];
    }

    /** `run_algorithm`: publish presence `running`, send the demo points in
        turn, then publish the END summary and presence `completed`. A result
        whose features cannot be counted raises out of the loop and ends the
        run before END (`summary` is None). `ids` are the uuid4 draws and
        `replies[i]` the arrivals during point i's attempts; `run` is the
        workflow of calls the points went through (none when not
        connected). */
    method RunAlgorithm(now: int, ids: seq<string>, replies: seq<seq<seq<Inbound>>>)
      returns (outcomes: seq<Outcome>, summary: Option<Summary>, ghost run: seq<Exchange>)
      requires Valid()
      requires |ids| == |DemoPoints|
      requires forall i :: 0 <= i < |ids| ==> ids[i] != "" && ids[i] !in pending
      modifies this
      ensures Valid() && pending.Keys == old(pending).Keys && connected == old(connected)
      ensures RanUntilAbort(outcomes, |DemoPoints|) && (summary.None? <==> Aborted(outcomes))
      ensures old(connected) ==>
        && IsWorkflow(deployment, old(pending), ids, replies, run)
        && outcomes == Outcomes(run) && pending == After(old(pending), run)
      ensures old(connected) && (forall j :: 0 <= j < |DemoPoints| ==> ArrivalsSized(deployment, Part(replies, j), ids[j]))
        ==> |outcomes| == |DemoPoints| && summary.Some?
      ensures !old(connected) ==> run == [] && pending == old(pending) && |outcomes| == |DemoPoints| && summary.Some?
      ensures SettledRun(outcomes, ids, 2, old(connected))
      ensures summary.Some? ==> summary.value == Summarize(outcomes) && summary.value.successful == CountReplied(outcomes)
      ensures published == old(published) + [Presence(deployment, true, "A", now, "running")]
        + CommandLog(deployment, DemoPoints, ids, now, run)
        + (if summary.Some? then
             [Publish(TopicCtrlEnd(deployment), EndPayload(summary.value, now), 1, false),
              Presence(deployment, true, "A", now, "completed")]
           else [])
      ensures StatusTrace(deployment, published) == StatusTrace(deployment, old(published))
        + (if summary.Some? then ["running", "completed"] else ["running"])
    {
      var running := Presence(deployment, true, "A", now, "running");
      published := published + [running];
      var successful, aborted;
      outcomes, successful, aborted, run := SendDemoPoints(DemoPoints, now, ids, replies);
      ghost var cmds := CommandLog(deployment, DemoPoints, ids, now, run);
      assert published == old(published) + [running] + cmds;
      LoopCompletes(deployment, old(pending), ids, replies, run, outcomes, old(connected), |DemoPoints|);
      RepliesAreSuccesses(outcomes, ids, 2, old(connected));
      CommandLogKeepsTrace(deployment, old(published) + [running], DemoPoints, ids, now, run);
      PresenceExtendsTrace(deployment, old(published), true, "A", now, "running");
      if aborted {
        summary := None;
        assert published == old(published) + [running] + cmds + [];
      } else {
        var s := Summary(|DemoPoints|, successful, |DemoPoints| - successful);
        summary := Some(s);
        PublishEnd(s, now);
        assert StatusTrace(deployment, published) == StatusTrace(deployment, old(published)) + ["running"] + ["completed"];
      }
    }
  }
}

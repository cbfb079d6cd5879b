/** How the three programs read one another's messages: the controller's
    command as the executor parses it, the executor's replies as the
    controller's handler treats them, and both as the monitor displays them. */
module Interop {
  import opened Wire
  import Correlation
  import Executor
  import Monitor

  /** The controller's move_point command reaches the executor as exactly the
      point it was sent for, with its req_id. */
  lemma CommandReachesExecutor(dep: string, x: real, y: real, now: int, id: string)
    ensures Executor.Route(dep, TopicCmdPoint(dep), Decoded(Correlation.MovePointCommand(x, y, now, id)))
            == Executor.MovePoint(Executor.Command(x, y, Some(id)))
  {
    var doc := Correlation.MovePointCommand(x, y, now, id);
    assert Executor.TypeText(doc) == Executor.Text("move_point");
    assert Executor.Coordinate(doc, "x") == Some(x) && Executor.Coordinate(doc, "y") == Some(y);
  }

  /** The executor's result for a command that carried the pending req_id
      fills exactly that slot of the controller's table. */
  lemma ResultFillsTheWait(dep: string, t: Correlation.Table, cmd: Executor.Command, values: seq<real>, now: int)
    requires cmd.reqId.Some? && cmd.reqId.value != "" && cmd.reqId.value in t
    ensures var reply := Executor.ResultMessage(cmd, values, now);
      Correlation.Deliver(dep, t, Correlation.Inbound(TopicResult(dep), Decoded(reply)))
        == t[cmd.reqId.value := Some(reply)]
  {
    var reply := Executor.ResultMessage(cmd, values, now);
    var m := Correlation.Inbound(TopicResult(dep), Decoded(reply));
    assert Correlation.IsCorrelatedReply(dep, t, m);
    Correlation.StoresOnlyCorrelatedReplies(dep, t, m);
  }

  /** The executor's result always lists its features, so the controller
      can count them: when every result for `id` that arrives during a call
      was built by the executor, none of them makes `run_algorithm` raise. */
  lemma ExecutorArrivalsAreSized(dep: string, batches: seq<seq<Correlation.Inbound>>, id: string,
                                 answers: seq<(Executor.Command, seq<real>, int)>)
    requires forall k: nat, m :: m in Correlation.Part(batches, k) && Correlation.CarriesReply(dep, m, id) ==>
      exists i :: 0 <= i < |answers| && m.body.doc == Executor.ResultMessage(answers[i].0, answers[i].1, answers[i].2)
    ensures Correlation.ArrivalsSized(dep, batches, id)
  {
    forall k: nat, m | m in Correlation.Part(batches, k) && Correlation.CarriesReply(dep, m, id)
      ensures Correlation.FeaturesSized(m.body.doc)
    {
      var i :| 0 <= i < |answers| && m.body.doc == Executor.ResultMessage(answers[i].0, answers[i].1, answers[i].2);
      assert "features" in m.body.doc.fields;
    }
  }

  /** The executor's error reply is not a result, so the controller's table
      is left as it was and the waiting call goes on to its next attempt. */
  lemma ErrorLeavesTheWait(dep: string, t: Correlation.Table, cmd: Executor.Command, message: string, now: int)
    ensures Correlation.Deliver(dep, t, Correlation.Inbound(TopicResult(dep), Decoded(Executor.ErrorMessage(cmd, message, now)))) == t
  {
    var m := Correlation.Inbound(TopicResult(dep), Decoded(Executor.ErrorMessage(cmd, message, now)));
    assert !Correlation.IsCorrelatedReply(dep, t, m);
    Correlation.StoresOnlyCorrelatedReplies(dep, t, m);
  }

  /** One full exchange: the command the controller sends is parsed by the
      executor, whose result for it resolves the controller's wait with a
      reply that echoes the request and carries the same point. */
  lemma RoundTrip(dep: string, t: Correlation.Table, x: real, y: real, now: int, id: string, values: seq<real>, later: int)
    requires id != "" && id in t
    ensures var h := Executor.Route(dep, TopicCmdPoint(dep), Decoded(Correlation.MovePointCommand(x, y, now, id)));
      && h.MovePoint?
      && var reply := Executor.ResultMessage(h.cmd, values, later);
      && Correlation.Deliver(dep, t, Correlation.Inbound(TopicResult(dep), Decoded(reply))) == t[id := Some(reply)]
      && IsResultFor(reply, id)
      && Lookup(reply.fields, "point") == Obj(map["x" := Num(x), "y" := Num(y)])
  {
    CommandReachesExecutor(dep, x, y, now, id);
    ResultFillsTheWait(dep, t, Executor.Command(x, y, Some(id)), values, later);
  }

  /** The executor's START message makes the controller start its workflow. */
  lemma StartStartsTheRun(dep: string, t: Correlation.Table, now: int, guid8: string)
    ensures Correlation.Classify(dep, t, Correlation.Inbound(TopicCtrlStart(dep), Decoded(Executor.StartMessage(dep, now, guid8))))
            == Correlation.StartRequested
  {
  }

  /** The monitor shows a result by its point, although it also carries values. */
  lemma MonitorShowsResultPoint(show: Value -> string, cmd: Executor.Command, values: seq<real>, now: int)
    ensures Monitor.FormatContent(show, Executor.ResultMessage(cmd, values, now).fields)
            == Some("(" + show(Num(cmd.x)) + ", " + show(Num(cmd.y)) + ")")
  {
    var r := Executor.ResultMessage(cmd, values, now);
    assert "point" in r.fields && r.fields["point"] == Executor.Point(cmd);
  }

  /** The monitor shows the controller's END summary as successful/total. */
  lemma MonitorShowsEndSummary(show: Value -> string, s: Correlation.Summary, now: int)
    ensures Monitor.FormatContent(show, Correlation.EndPayload(s, now).fields)
            == Some("完成 " + show(Num(s.successful as real)) + "/" + show(Num(s.total as real)))
  {
    var fields := Correlation.EndPayload(s, now).fields;
    assert Monitor.KindOf(fields) == Monitor.SummaryKind;
  }

  /** The job id the monitor shows is cut to 8 characters; for a deployment
      id of three characters that is "job-", the id and '-', so the GUID part
      is never displayed. */
  lemma MonitorCutsJobId(show: Value -> string, dep: string, now: int, guid8: string)
    requires |dep| == 3
    ensures Monitor.FormatContent(show, Executor.StartMessage(dep, now, guid8).fields)
            == Some("作業ID: " + "job-" + dep + "-" + "...")
  {
    var fields := Executor.StartMessage(dep, now, guid8).fields;
    var job := "job-" + dep + "-" + guid8;
    assert Monitor.KindOf(fields) == Monitor.JobKind;
    Monitor.JobDisplay(show, fields, job);
    var head := "job-" + dep + "-";
    assert |head| == 8 && job == head + guid8 && job[..8] == head;
    assert (if |job| <= 8 then job else job[..8]) == head;
    assert "作業ID: " + head + "..." == "作業ID: " + "job-" + dep + "-" + "...";
  }
}

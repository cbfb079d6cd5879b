/** The executor peer (client-csharp-B/Program.cs): the routing of the message
    handler, the parsing of a move_point command, the idempotency cache keyed
    by req_id with its cap of 100 entries, the error reply, and the END
    clean-up.

    The simulated movement, the vibration analysis and the feature generator
    are replaced by two oracles per command: the eight feature values, and
    whether (and where) the processing throws. */
module Executor {
  import opened Wire

  /** At most this many results stay cached. */
  const Capacity: nat := 100

  /** The eight feature names every result carries, in order. */
  const FeatureNames: seq<string> := [
    "Time_skewness_y", "Time_kurtosis_y", "Time_rms_y", "Time_crestfactor_y",
    "Powerspectrum_skewness_y", "Powerspectrum_kurtosis_y",
    "Powerspectrum_rms_y", "Powerspectrum_crestfactor_y"]

  /** What `JsonElement.GetString()` gives: the text of a JSON string, null for
      a JSON null, and an exception for any other kind of value. */
  datatype StringRead = Throws | NullText | Text(s: string)

  function ReadString(v: Value): (r: StringRead)
    ensures r.Text? <==> v.Str?
    ensures r.NullText? <==> v.Null?
  {
    match v
    case Str(s) => Text(s)
    case Null => NullText
    case _ => Throws
  }

  /** `GetProperty(name)`: None when it throws, that is when the element is
      not an object or the property is missing. */
  function Property(v: Value, name: string): (r: Option<Value>)
    ensures r.Some? <==> v.Obj? && name in v.fields
  {
    if v.Obj? && name in v.fields then Some(v.fields[name]) else None
  }

  /** `root.GetProperty("type").GetString()`. */
  function TypeText(root: Value): StringRead
  {
    match Property(root, "type")
    case None => Throws
    case Some(t) => ReadString(t)
  }

  /** A move_point command as the executor reads it; `reqId` is None when the
      command carries no req_id or a JSON null. */
  datatype Command = Command(x: real, y: real, reqId: Option<string>)

  /** A number property of `point`, read with `GetDouble()`. */
  function Coordinate(root: Value, axis: string): Option<real>
  {
    match Property(root, "point")
    case None => None
    case Some(p) =>
      match Property(p, axis)
      case Some(Num(n)) => Some(n)
      case _ => None
  }

  /** An optional string property read with `TryGetProperty` and `GetString()`:
      the outer None means the read throws, `Some(None)` a null. */
  function OptionalText(root: Value, name: string): Option<Option<string>>
    requires root.Obj?
  {
    if name !in root.fields then Some(None)
    else match ReadString(root.fields[name])
      case Throws => None
      case NullText => Some(None)
      case Text(s) => Some(Some(s))
  }

  /** The reads at the top of `HandleMovePointCommand`, all of which happen
      before its try block: None when any of them throws. The sender is read
      (and may throw) but is not used afterwards. */
  function ParseCommand(root: Value): (r: Option<Command>)
    ensures r.Some? ==> root.Obj? && Coordinate(root, "x") == Some(r.value.x) && Coordinate(root, "y") == Some(r.value.y)
    ensures r.Some? ==> (r.value.reqId.Some? <==> Lookup(root.fields, "req_id").Str?)
    ensures r.Some? && r.value.reqId.Some? ==> Lookup(root.fields, "req_id") == Str(r.value.reqId.value)
    ensures r.None? <==>
      || Coordinate(root, "x").None? || Coordinate(root, "y").None?
      || OptionalText(root, "req_id").None? || OptionalText(root, "sender").None?
  {
    var x, y := Coordinate(root, "x"), Coordinate(root, "y");
    if x.None? || y.None? then None
    else
      assert root.Obj?;
      var reqId, sender := OptionalText(root, "req_id"), OptionalText(root, "sender");
      if reqId.None? || sender.None? then None
      else Some(Command(x.value, y.value, reqId.value))
  }

  /** What the message handler does with one message. */
  datatype Handling =
    | Failed               // an exception reached the handler's catch: logged, nothing else
    | MovePoint(cmd: Command)
    | End
    | Ignored

  /** The condition chain of `ApplicationMessageReceivedAsync`, in the
      source's order: `&&` evaluates the type only on the matching topic, and
      a payload that is not JSON (an empty one included) makes the parse
      throw. */
  function Route(dep: string, topic: string, body: Body): Handling
  {
    match body
    case Empty => Failed
    case Undecodable => Failed
    case Decoded(root) =>
      if topic == TopicCmdPoint(dep) && TypeText(root).Throws? then Failed
      else if topic == TopicCmdPoint(dep) && TypeText(root) == Text("move_point") then
        match ParseCommand(root)
        case None => Failed
        case Some(cmd) => MovePoint(cmd)
      else if topic == TopicCtrlEnd(dep) && TypeText(root).Throws? then Failed
      else if topic == TopicCtrlEnd(dep) && TypeText(root) == Text("end") then End
      else Ignored
  }

  /** Only a decodable move_point on the command topic is handled, and only an
      `end` on the end topic cleans up; every other message is dropped. */
  lemma RouteActsOnlyOnItsTopics(dep: string, topic: string, body: Body)
    ensures Route(dep, topic, body).MovePoint? <==>
      && topic == TopicCmdPoint(dep) && body.Decoded?
      && TypeText(body.doc) == Text("move_point") && ParseCommand(body.doc).Some?
    ensures Route(dep, topic, body).MovePoint? ==> Route(dep, topic, body).cmd == ParseCommand(body.doc).value
    ensures Route(dep, topic, body).End? <==>
      topic == TopicCtrlEnd(dep) && body.Decoded? && TypeText(body.doc) == Text("end")
  {
    assert TopicCmdPoint(dep) != TopicCtrlEnd(dep) by {
      assert |TopicCmdPoint(dep)| != |TopicCtrlEnd(dep)|;
    }
  }

  /** The req_id a reply carries: the command's, or JSON null. */
  function ReqIdValue(reqId: Option<string>): (v: Value)
    ensures reqId.Some? <==> v.Str?
  {
    match reqId
    case Some(s) => Str(s)
    case None => Null
  }

  function Point(cmd: Command): Value
  {
    Obj(map["x" := Num(cmd.x), "y" := Num(cmd.y)])
  }

  /** The result object built for a command; it echoes the command's req_id. */
  function ResultMessage(cmd: Command, values: seq<real>, now: int): (r: Value)
    ensures TypeIs(r, "result_feature_set")
    ensures Lookup(r.fields, "req_id") == ReqIdValue(cmd.reqId)
    ensures Lookup(r.fields, "point") == Point(cmd)
    ensures cmd.reqId.Some? ==> IsResultFor(r, cmd.reqId.value)
  {
    Obj(map[
      "type" := Str("result_feature_set"),
      "features" := Arr(seq(|FeatureNames|, i requires 0 <= i < |FeatureNames| => Str(FeatureNames[i]))),
      "values" := Arr(seq(|values|, i requires 0 <= i < |values| => Num(values[i]))),
      "point" := Point(cmd),
      "ts" := Num(now as real),
      "sender" := Str("B"),
      "req_id" := ReqIdValue(cmd.reqId),
      "analysis_info" := Obj(map[
        "duration_ms" := Num(200.0),
        "sampling_rate" := Num(1000.0),
        "data_points" := Num(200.0),
        "algorithm_version" := Str("v2.1.0")])])
  }

  /** The error object published when processing throws; it echoes the
      command's req_id but is not a measurement result. */
  function ErrorMessage(cmd: Command, message: string, now: int): (r: Value)
    ensures TypeIs(r, "result_error") && !TypeIs(r, "result_feature_set")
    ensures Lookup(r.fields, "req_id") == ReqIdValue(cmd.reqId)
    ensures Lookup(r.fields, "error") == Str(message)
  {
    Obj(map[
      "type" := Str("result_error"),
      "error" := Str(message),
      "point" := Point(cmd),
      "ts" := Num(now as real),
      "sender" := Str("B"),
      "req_id" := ReqIdValue(cmd.reqId)])
  }

  function ResultPublish(dep: string, v: Value): Publish
  {
    Publish(TopicResult(dep), v, 1, false)
  }

  /** Whether the work in the try block throws, and where: while moving or
      measuring (before the result is cached), or while publishing the
      result (after it is cached). */
  datatype Fault =
    | Runs
    | ThrowsWhileMeasuring(message: string)
    | ThrowsWhilePublishing(message: string)

  /** A req_id the cache is consulted for: present and not empty
      (`!string.IsNullOrEmpty(reqId)`). */
  predicate Keyed(cmd: Command)
  {
    cmd.reqId.Some? && cmd.reqId.value != ""
  }

  /** The cache after the cap is enforced on `full`: unchanged while it holds
      at most `Capacity` entries, otherwise one existing entry removed. Which
      one is `Keys.First()`, whose order the dictionary does not specify. */
  ghost predicate Evicted(full: map<string, Value>, after: map<string, Value>)
  {
    if |full| <= Capacity then after == full
    else exists victim :: victim in full && after == full - {victim}
  }

  /** Storing one entry into a cache within the cap and then enforcing the cap
      keeps the cache within the cap; every entry left is the stored one or an
      old one, unchanged, and at most one key is lost, exactly one when the
      cache was full. */
  lemma {:induction false} StoreKeepsCapacity(cache: map<string, Value>, key: string, r: Value, after: map<string, Value>)
    requires |cache| <= Capacity && Evicted(cache[key := r], after)
    ensures |after| <= Capacity
    ensures forall k :: k in after ==> k in cache[key := r] && after[k] == cache[key := r][k]
    ensures |(cache.Keys + {key}) - after.Keys| <= 1
    ensures key !in cache && |cache| == Capacity ==> |after| == Capacity
  {
    var full := cache[key := r];
    assert full.Keys == cache.Keys + {key};
    if key in cache {
      assert full.Keys == cache.Keys;
    } else {
      assert |full.Keys| == |cache.Keys| + 1;
    }
    if |full| > Capacity {
      var victim :| victim in full && after == full - {victim};
      assert after.Keys == full.Keys - {victim};
      assert full.Keys - after.Keys == {victim};
    } else {
      assert full.Keys - after.Keys == {};
    }
  }

  /** Every cached value is the result for its own key, and no key is empty. */
  ghost predicate WellKeyed(cache: map<string, Value>)
  {
    forall k :: k in cache ==> k != "" && IsResultFor(cache[k], k)
  }

  /** Storing the result for a non-empty key and enforcing the cap keeps every
      entry paired with its own key. */
  lemma StoreKeepsPairing(cache: map<string, Value>, key: string, r: Value, after: map<string, Value>)
    requires WellKeyed(cache) && key != "" && IsResultFor(r, key)
    requires Evicted(cache[key := r], after)
    ensures WellKeyed(after)
  {
    var full := cache[key := r];
    assert WellKeyed(full);
    if |full| > Capacity {
      var victim :| victim in full && after == full - {victim};
    }
  }

  /** The executor client. */
  /** What handling move_point `cmd` does to the cache and the log, from
      `cache0` and `log0`: a cached key republishes its cached result and
      changes nothing else; otherwise one reply is published (the result, or
      the error message when the fault says so) and, unless the measurement
      threw or the command has no key, the result is stored under its key
      with the oldest entries evicted beyond the cap. */
  ghost predicate MovePointEffect(dep: string, cmd: Command, fault: Fault, values: seq<real>, now: int,
                                  cache0: map<string, Value>, log0: seq<Publish>,
                                  cache: map<string, Value>, log: seq<Publish>)
  {
    && (Keyed(cmd) && cmd.reqId.value in cache0 ==>
          cache == cache0 && log == log0 + [ResultPublish(dep, cache0[cmd.reqId.value])])
    && (!(Keyed(cmd) && cmd.reqId.value in cache0) ==>
          && (fault.ThrowsWhileMeasuring? || !Keyed(cmd) ==> cache == cache0)
          && (!fault.ThrowsWhileMeasuring? && Keyed(cmd) ==>
                Evicted(cache0[cmd.reqId.value := ResultMessage(cmd, values, now)], cache))
          && (fault.Runs? ==> log == log0 + [ResultPublish(dep, ResultMessage(cmd, values, now))])
          && (!fault.Runs? ==> log == log0 + [ResultPublish(dep, ErrorMessage(cmd, fault.message, now))]))
  }

  class Executor {
    const deployment: string
    var cache: map<string, Value>
    var published: seq<Publish>

    /** Within the cap, and every entry is the result for its own non-empty key. */
    ghost predicate Valid()
      reads this
    {
      |cache| <= Capacity && WellKeyed(cache)
    }

    constructor (deployment: string)
      ensures this.deployment == deployment && cache == map[] && published == [] && Valid()
    {
      this.deployment := deployment;
      cache := map[];
      published := [];
    }

    /** The connected handler: the retained presence `ready` (with a version
        field), the retained setting, and the START carrying the job id made
        from the first 8 characters of a fresh GUID (`guid8`). */
    method OnConnected(now: int, guid8: string)
      modifies this
      ensures cache == old(cache)
      ensures published == old(published) + [
        Publish(TopicStatus(deployment), ReadyStatus(now), 1, true),
        Publish(TopicSetting(deployment), SettingMessage(now), 2, true),
        Publish(TopicCtrlStart(deployment), StartMessage(deployment, now, guid8), 1, false)]
    {
      published := published + [
        Publish(TopicStatus(deployment), ReadyStatus(now), 1, true),
        Publish(TopicSetting(deployment), SettingMessage(now), 2, true),
        Publish(TopicCtrlStart(deployment), StartMessage(deployment, now, guid8), 1, false)];
    }

    /** `HandleMovePointCommand` once the command has been read: a cached
        req_id gets the cached result republished and nothing else happens;
        otherwise the result is cached under a non-empty req_id (then the cap
        is enforced) and published, and a throw publishes the error reply
        instead. */
    method HandleMovePoint(cmd: Command, fault: Fault, values: seq<real>, now: int)
      requires Valid()
      modifies this
      ensures Valid()
      ensures MovePointEffect(deployment, cmd, fault, values, now, old(cache), old(published), cache, published)
    {
      if Keyed(cmd) && cmd.reqId.value in cache {
        published := published + [ResultPublish(deployment, cache[cmd.reqId.value])];
        return;
      }
      if fault.ThrowsWhileMeasuring? {
        published := published + [ResultPublish(deployment, ErrorMessage(cmd, fault.message, now))];
        return;
      }
      var result := ResultMessage(cmd, values, now);
      if Keyed(cmd) {
        ghost var before := cache;
        var key := cmd.reqId.value;
        cache := cache[key := result];
        if |cache| > Capacity {
          assert key in cache;
          var oldest :| oldest in cache;
          cache := cache - {oldest};
          assert Evicted(before[key := result], cache);
        }
        StoreKeepsCapacity(before, key, result, cache);
        StoreKeepsPairing(before, key, result, cache);
      }
      if fault.ThrowsWhilePublishing? {
        published := published + [ResultPublish(deployment, ErrorMessage(cmd, fault.message, now))];
      } else {
        published := published + [ResultPublish(deployment, result)];
      }
    }

    /** `ApplicationMessageReceivedAsync`: route the message; a move_point is
        handled as above, an END publishes the retained presence `completed`
        and then empties the cache, and everything else changes nothing. */
    method OnMessage(topic: string, body: Body, fault: Fault, values: seq<real>, now: int) returns (h: Handling)
      requires Valid()
      modifies this
      ensures Valid()
      ensures h == Route(deployment, topic, body)
      ensures h.End? ==>
        cache == map[] && published == old(published) + [Presence(deployment, true, "B", now, "completed")]
      ensures h.Failed? || h.Ignored? ==> cache == old(cache) && published == old(published)
      ensures h.MovePoint? ==> MovePointEffect(deployment, h.cmd, fault, values, now, old(cache), old(published), cache, published)
    {
      h := Route(deployment, topic, body);
      match h
      case MovePoint(cmd) =>
        HandleMovePoint(cmd, fault, values, now);
      case End =>
        published := published + [Presence(deployment, true, "B", now, "completed")];
        cache := map[];
      case _ =>
    }
  }

  /** The retained presence published on connect. */
  function ReadyStatus(now: int): Value
  {
    Obj(map[
      "online" := Bool(true), "sender" := Str("B"), "ts" := Num(now as real),
      "state" := Str("ready"), "version" := Str("1.0.0")])
  }

  /** The retained initial setting published on connect. */
  function SettingMessage(now: int): Value
  {
    Obj(map[
      "type" := Str("setting"),
      "parameters" := Obj(map[
        "start_x" := Num(0.0), "start_y" := Num(0.0),
        "x_min" := Num(-50.0), "x_max" := Num(50.0),
        "y_min" := Num(-50.0), "y_max" := Num(50.0),
        "sig_x_min" := Num(0.1), "sig_y_min" := Num(0.1),
        "analysis_mode" := Str("full_spectrum"),
        "sampling_rate" := Num(1000.0)]),
      "ts" := Num(now as real),
      "sender" := Str("B"),
      "version" := Str("2025.09.10-01")])
  }

  /** The START message; its job id is `job-{ID}-` and 8 GUID characters. */
  function StartMessage(dep: string, now: int, guid8: string): (r: Value)
    ensures TypeIs(r, "start")
  {
    Obj(map[
      "type" := Str("start"),
      "ts" := Num(now as real),
      "sender" := Str("B"),
      "job_id" := Str("job-" + dep + "-" + guid8),
      "message" := Str("設備就緒，可開始測量")])
  }
}

/** The vocabulary both peers share: decoded JSON documents, message bodies,
    the topic space of one deployment, and the publish log that stands in for
    the broker. */
module Wire {

  datatype Option<+T> = None | Some(value: T)

  /** A decoded JSON document. Numbers are kept as reals; their text form and
      floating-point rounding are not modelled. */
  datatype Value =
    | Null
    | Bool(b: bool)
    | Num(n: real)
    | Str(s: string)
    | Arr(items: seq<Value>)
    | Obj(fields: map<string, Value>)

  /** A payload as a handler sees it: zero bytes, a JSON document, or bytes that
      are not UTF-8 JSON. */
  datatype Body = Empty | Decoded(doc: Value) | Undecodable

  /** Python's `dict.get(key)`: a missing key and a JSON null both read as None. */
  function Lookup(fields: map<string, Value>, key: string): Value
  {
    if key in fields then fields[key] else Null
  }

  /** Python's truth value of a decoded document. */
  predicate Truthy(v: Value)
  {
    match v
    case Null => false
    case Bool(b) => b
    case Num(n) => n != 0.0
    case Str(s) => s != ""
    case Arr(items) => items != []
    case Obj(fields) => fields != map[]
  }

  /** The document is an object whose "type" field is the string `t`. */
  predicate TypeIs(v: Value, t: string)
  {
    v.Obj? && Lookup(v.fields, "type") == Str(t)
  }

  /** The document is an object whose "req_id" field is the string `id`. */
  predicate Echoes(v: Value, id: string)
  {
    v.Obj? && Lookup(v.fields, "req_id") == Str(id)
  }

  /** A measurement result for request `id`: type "result_feature_set" and
      req_id echoing `id`. */
  predicate IsResultFor(v: Value, id: string)
  {
    TypeIs(v, "result_feature_set") && Echoes(v, id)
  }

  // The topic space of deployment `dep` ("v1/{ID}/...").
  function TopicCtrlStart(dep: string): string { "v1/" + dep + "/ctrl/start" }
  function TopicCtrlEnd(dep: string): string { "v1/" + dep + "/ctrl/end" }
  function TopicCmdPoint(dep: string): string { "v1/" + dep + "/cmd/point" }
  function TopicResult(dep: string): string { "v1/" + dep + "/telemetry/result" }
  function TopicSetting(dep: string): string { "v1/" + dep + "/config/setting" }
  function TopicStatus(dep: string): string { "v1/" + dep + "/status" }

  /** One call of the transport's publish, appended to a peer's log. */
  datatype Publish = Publish(topic: string, payload: Value, qos: nat, retain: bool)

  /** The retained presence snapshot `{online, sender, ts, state}`. */
  function StatusPayload(online: bool, sender: string, now: int, state: string): Value
  {
    Obj(map["online" := Bool(online), "sender" := Str(sender), "ts" := Num(now as real), "state" := Str(state)])
  }

  /** A retained presence update of `sender`. */
  function Presence(dep: string, online: bool, sender: string, now: int, state: string): Publish
  {
    Publish(TopicStatus(dep), StatusPayload(online, sender, now, state), 1, true)
  }

  /** The presence states published on the status topic, in publishing order. */
  function StatusTrace(dep: string, log: seq<Publish>): seq<string>
  {
    if log == [] then []
    else
      var p := log[0];
      var here :=
        if p.topic == TopicStatus(dep) && p.payload.Obj? && Lookup(p.payload.fields, "state").Str?
        then [Lookup(p.payload.fields, "state").s] else [];
      here + StatusTrace(dep, log[1..])
  }

  lemma {:induction false} StatusTraceAppend(dep: string, a: seq<Publish>, b: seq<Publish>)
    ensures StatusTrace(dep, a + b) == StatusTrace(dep, a) + StatusTrace(dep, b)
  {
    if a == [] {
      assert a + b == b;
    } else {
      assert (a + b)[0] == a[0];
      assert (a + b)[1..] == a[1..] + b;
      StatusTraceAppend(dep, a[1..], b);
    }
  }

  /** A retained presence update adds its state to the end of the trace. */
  lemma PresenceExtendsTrace(dep: string, log: seq<Publish>, online: bool, sender: string, now: int, state: string)
    ensures StatusTrace(dep, log + [Presence(dep, online, sender, now, state)]) == StatusTrace(dep, log) + [state]
  {
    var p := Presence(dep, online, sender, now, state);
    assert [p][1..] == [];
    assert StatusTrace(dep, [p]) == [state];
    StatusTraceAppend(dep, log, [p]);
  }

  /** A publish on any other topic leaves the trace as it was. */
  lemma OtherTopicKeepsTrace(dep: string, log: seq<Publish>, p: Publish)
    requires p.topic != TopicStatus(dep)
    ensures StatusTrace(dep, log + [p]) == StatusTrace(dep, log)
  {
    assert [p][1..] == [];
    StatusTraceAppend(dep, log, [p]);
  }

  /** `n` identical publishes of `p`. */
  function Copies(p: Publish, n: nat): (r: seq<Publish>)
    ensures |r| == n && forall i :: 0 <= i < n ==> r[i] == p
  {
    if n == 0 then [] else Copies(p, n - 1) + [p]
  }

  /** One more publish of `p` after `n` copies makes `n + 1` copies. */
  lemma OneMoreCopy(log: seq<Publish>, p: Publish, n: nat)
    ensures log + Copies(p, n) + [p] == log + Copies(p, n + 1)
  {
  }

  /** Publishing on any topic other than the status topic leaves the presence trace alone. */
  lemma {:induction false} CopiesHaveNoStatus(dep: string, log: seq<Publish>, p: Publish, n: nat)
    requires p.topic != TopicStatus(dep)
    ensures StatusTrace(dep, log + Copies(p, n)) == StatusTrace(dep, log)
  {
    if n > 0 {
      CopiesHaveNoStatus(dep, log, p, n - 1);
      assert log + Copies(p, n) == (log + Copies(p, n - 1)) + [p];
      OtherTopicKeepsTrace(dep, log + Copies(p, n - 1), p);
    } else {
      assert log + Copies(p, n) == log;
    }
  }

  function DigitChar(d: nat): (c: char)
    requires d < 10
    ensures '0' <= c <= '9'
  {
    ('0' as int + d) as char
  }

  predicate IsDigits(s: string)
  {
    forall i :: 0 <= i < |s| ==> '0' <= s[i] <= '9'
  }

  /** The value of a decimal digit string. */
  function DigitsValue(s: string): nat
    requires IsDigits(s)
  {
    if s == [] then 0 else DigitsValue(s[..|s| - 1]) * 10 + (s[|s| - 1] as int - '0' as int)
  }

  /** Python's `str(n)` for a natural number: decimal digits without a leading zero. */
  function NatToString(n: nat): (s: string)
    ensures s != [] && IsDigits(s)
    ensures s[0] == '0' ==> n == 0
  {
    if n < 10 then [DigitChar(n)] else NatToString(n / 10) + [DigitChar(n % 10)]
  }

  /** Python's `str(i)` for an integer. */
  function IntToString(i: int): (s: string)
    ensures s != []
  {
    if i < 0 then "-" + NatToString(-i) else NatToString(i)
  }

  lemma {:induction false} NatToStringRoundTrip(n: nat)
    ensures DigitsValue(NatToString(n)) == n
  {
    if n >= 10 {
      NatToStringRoundTrip(n / 10);
      var s := NatToString(n);
      assert s[..|s| - 1] == NatToString(n / 10);
    }
  }
}

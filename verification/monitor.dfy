/** The monitoring tool (client-python-A/monitor.py): the one-line display of
    every message it sees, and the per-topic record of the latest message.

    Python's `str()` of a decoded value is a parameter `show`; the clock
    column and the printing itself are left to the caller. Every place where
    the source raises inside `on_message` (a document that is not an object,
    a field of the wrong kind, a format spec applied to None or a container)
    ends in the handler's generic error branch, which records nothing. */
module Monitor {
  import opened Wire

  /** The text of the topic column: what follows the last '/', as
      `topic.split('/')[-1]` gives. */
  function LastSegment(topic: string): (r: string)
    ensures |r| <= |topic|
  {
    if topic == [] || topic[|topic| - 1] == '/' then []
    else LastSegment(topic[..|topic| - 1]) + [topic[|topic| - 1]]
  }

  /** The segment is a slash-free suffix of the topic, and it is either the
      whole topic or preceded by a '/'. */
  lemma {:induction false} SegmentIsLastPart(topic: string)
    ensures var r := LastSegment(topic);
      && r == topic[|topic| - |r|..]
      && '/' !in r
      && (r == topic || topic[|topic| - |r| - 1] == '/')
  {
    if topic != [] && topic[|topic| - 1] != '/' {
      var init := topic[..|topic| - 1];
      SegmentIsLastPart(init);
      var r0 := LastSegment(init);
      assert topic[|topic| - |r0| - 1..] == init[|init| - |r0|..] + [topic[|topic| - 1]];
      if r0 != init {
        assert topic[|topic| - |r0| - 2] == init[|init| - |r0| - 1];
      }
    }
  }

  /** A topic is the text before its last segment, a '/', and that segment. */
  lemma {:induction false} SegmentAfterLastSlash(prefix: string, seg: string)
    requires '/' !in seg
    ensures LastSegment(prefix + "/" + seg) == seg
    decreases |seg|
  {
    var t := prefix + "/" + seg;
    if seg != [] {
      var n := |seg| - 1;
      assert t[..|t| - 1] == prefix + "/" + seg[..n];
      assert t[|t| - 1] == seg[n];
      SegmentAfterLastSlash(prefix, seg[..n]);
    }
  }

  /** `str.replace('\n', ' ').replace('\t', ' ')`. */
  function Flatten(s: string): (r: string)
    ensures |r| == |s|
  {
    if s == [] then []
    else Flatten(s[..|s| - 1]) + [if s[|s| - 1] == '\n' || s[|s| - 1] == '\t' then ' ' else s[|s| - 1]]
  }

  /** Each newline and tab becomes a space; every other character stays. */
  lemma {:induction false} FlattenReplaces(s: string)
    ensures forall i :: 0 <= i < |s| ==> Flatten(s)[i] == (if s[i] == '\n' || s[i] == '\t' then ' ' else s[i])
  {
    if s != [] {
      FlattenReplaces(s[..|s| - 1]);
    }
  }

  /** At most 50 characters are kept; a longer text is cut to 50 and marked "...". */
  function Truncate(s: string): (r: string)
    ensures |s| <= 50 ==> r == s
    ensures |s| > 50 ==> |r| == 53 && r[..50] == s[..50] && r[50..] == "..."
  {
    if |s| > 50 then s[..50] + "..." else s
  }

  /** The fallback display: `str(data)` on one line, at most 53 characters,
      unchanged when it fits in 50. */
  function Fallback(show: Value -> string, data: Value): string
  {
    Truncate(Flatten(show(data)))
  }

  lemma FallbackIsOneShortLine(show: Value -> string, data: Value)
    ensures var r := Fallback(show, data);
      && |r| <= 53
      && '\n' !in r && '\t' !in r
      && (|show(data)| <= 50 ==> r == Flatten(show(data)))
      && (|show(data)| > 50 ==> |r| == 53 && r[..50] == Flatten(show(data))[..50] && r[50..] == "...")
  {
    var f := Flatten(show(data));
    var r := Fallback(show, data);
    FlattenReplaces(show(data));
    if |f| > 50 {
      assert r == f[..50] + "...";
    }
    forall i | 0 <= i < |r|
      ensures r[i] != '\n' && r[i] != '\t'
    {
      if i < |f| && i < 50 {
        assert r[i] == f[i];
      }
    }
  }

  /** An f-string field `{v}` of an optional lookup: the string itself for a
      string value, `str()` of any other value, or the default when the key
      is missing. */
  function FieldText(show: Value -> string, fields: map<string, Value>, key: string, default: string): string
  {
    if key !in fields then default
    else if fields[key].Str? then fields[key].s
    else show(fields[key])
  }

  /** Python's `len()` of a value: a string's characters, a list's items, an
      object's keys; None for the kinds `len()` rejects. */
  function Len(v: Value): (n: Option<nat>)
    ensures n.Some? <==> v.Str? || v.Arr? || v.Obj?
  {
    match v
    case Str(s) => Some(|s|)
    case Arr(items) => Some(|items|)
    case Obj(fields) => Some(|fields|)
    case _ => None
  }

  /** `v[:8]` shown as text: the first 8 characters of a string, or `str()`
      of the first 8 items of a list; None where slicing raises. */
  function FirstEight(show: Value -> string, v: Value): (r: Option<string>)
    ensures v.Str? ==> r == Some(if |v.s| <= 8 then v.s else v.s[..8])
    ensures r.Some? <==> v.Str? || v.Arr?
  {
    match v
    case Str(s) => Some(if |s| <= 8 then s else s[..8])
    case Arr(items) => Some(show(Arr(if |items| <= 8 then items else items[..8])))
    case _ => None
  }

  /** Which of the recognised fields decides the display. */
  datatype ContentKind = PointKind | ValuesKind | OnlineKind | JobKind | ParametersKind | SummaryKind | OtherKind

  /** The first recognised key present, in the order `_format_content` tests them. */
  function KindOf(fields: map<string, Value>): ContentKind
  {
    if "point" in fields then PointKind
    else if "values" in fields then ValuesKind
    else if "online" in fields then OnlineKind
    else if "job_id" in fields then JobKind
    else if "parameters" in fields then ParametersKind
    else if "summary" in fields then SummaryKind
    else OtherKind
  }

  /** `_format_content` on a decoded object; None where it raises. */
  function FormatContent(show: Value -> string, fields: map<string, Value>): (r: Option<string>)
    ensures KindOf(fields) == OtherKind ==> r == Some(Fallback(show, Obj(fields)))
    ensures KindOf(fields) == ParametersKind ==> r == Some("系統配置")
    ensures KindOf(fields) == PointKind ==> (r.Some? <==> fields["point"].Obj?)
    ensures KindOf(fields) == SummaryKind ==> (r.Some? <==> fields["summary"].Obj?)
    ensures KindOf(fields) == ValuesKind ==> (r.Some? <==> Len(fields["values"]).Some?)
    ensures KindOf(fields) == JobKind ==> (r.Some? <==> FirstEight(show, fields["job_id"]).Some?)
    ensures KindOf(fields) == OnlineKind ==> r.Some?
  {
    match KindOf(fields)
    case PointKind =>
      var point := fields["point"];
      if point.Obj? then
        Some("(" + FieldText(show, point.fields, "x", "?") + ", " + FieldText(show, point.fields, "y", "?") + ")")
      else None
    case ValuesKind =>
      var n := Len(fields["values"]);
      if n.Some? then Some(NatToString(n.value) + "個特徵值") else None
    case OnlineKind =>
      var status := if Truthy(fields["online"]) then "上線" else "離線";
      Some(status + " [" + FieldText(show, fields, "state", "") + "]")
    case JobKind =>
      var head := FirstEight(show, fields["job_id"]);
      if head.Some? then Some("作業ID: " + head.value + "...") else None
    case ParametersKind => Some("系統配置")
    case SummaryKind =>
      var summary := fields["summary"];
      if summary.Obj? then
        Some("完成 " + FieldText(show, summary.fields, "successful_points", "?") + "/"
                      + FieldText(show, summary.fields, "total_points", "?"))
      else None
    case OtherKind => Some(Fallback(show, Obj(fields)))
  }

  /** A presence message is shown as 上線 or 離線 by its flag, then its state in brackets. */
  lemma PresenceDisplay(show: Value -> string, fields: map<string, Value>)
    requires "online" in fields && "point" !in fields && "values" !in fields
    ensures FormatContent(show, fields) ==
      Some((if Truthy(fields["online"]) then "上線" else "離線") + " [" + FieldText(show, fields, "state", "") + "]")
  {
  }

  /** A start message shows the first 8 characters of its job id. */
  lemma JobDisplay(show: Value -> string, fields: map<string, Value>, job: string)
    requires KindOf(fields) == JobKind && fields["job_id"] == Str(job)
    ensures FormatContent(show, fields) == Some("作業ID: " + (if |job| <= 8 then job else job[..8]) + "...")
  {
  }

  /** `{v:<w}`: text padded with spaces on the right to at least `w` characters. */
  function PadRight(s: string, w: nat): (r: string)
    ensures |r| == if |s| < w then w else |s|
  {
    if |s| < w then s + seq(w - |s|, _ => ' ') else s
  }

  /** Padding keeps the text in front and adds only spaces. */
  lemma PadRightKeepsText(s: string, w: nat)
    ensures var r := PadRight(s, w);
      r[..|s|] == s && forall i :: |s| <= i < |r| ==> r[i] == ' '
  {
  }

  /** A value in a `{v:<w}` column: strings and numbers are padded; a bool
      formats as the integer it is; None and containers raise. */
  function Column(show: Value -> string, v: Value, w: nat): (r: Option<string>)
    ensures r.Some? <==> v.Str? || v.Num? || v.Bool?
    ensures v.Str? ==> r == Some(PadRight(v.s, w))
  {
    match v
    case Str(s) => Some(PadRight(s, w))
    case Num(_) => Some(PadRight(show(v), w))
    case Bool(b) => Some(PadRight(if b then "1" else "0", w))
    case _ => None
  }

  /** What `on_message` prints for one message. */
  datatype Display =
    | Line(topic: string, sender: string, kind: string, content: string)  // the four columns after the clock
    | RawLine(topic: string)   // the payload is not JSON: shown raw, with the full topic
    | ParseError               // any other exception: an error line

  /** The latest message of a topic. */
  datatype Record = Record(at: int, data: Value, qos: nat, retained: bool)

  /** The display of a decoded document `data` on `topic`; None where the
      source raises before or while printing. */
  function Show(show: Value -> string, topic: string, data: Value): (r: Option<Display>)
    ensures r.Some? ==> data.Obj? && r.value.Line? && r.value.topic == PadRight(LastSegment(topic), 25)
    ensures data.Obj? && "sender" !in data.fields && "type" !in data.fields && KindOf(data.fields) == OtherKind ==>
      r == Some(Line(PadRight(LastSegment(topic), 25), PadRight("?", 8), PadRight("unknown", 15), Fallback(show, data)))
  {
    if !data.Obj? then None
    else
      var sender := if "sender" in data.fields then data.fields["sender"] else Str("?");
      var kind := if "type" in data.fields then data.fields["type"] else Str("unknown");
      var content := FormatContent(show, data.fields);
      var senderCol := Column(show, sender, 8);
      var kindCol := Column(show, kind, 15);
      if content.None? || senderCol.None? || kindCol.None? then None
      else Some(Line(PadRight(LastSegment(topic), 25), senderCol.value, kindCol.value, content.value))
  }

  /** The document `on_message` works on: an empty payload reads as `{}`. */
  function DataOf(body: Body): Option<Value>
  {
    match body
    case Empty => Some(Obj(map[]))
    case Decoded(doc) => Some(doc)
    case Undecodable => None
  }

  /** The monitor (`MQTTMonitor`). */
  class MessageMonitor {
    var messageCount: nat
    var lastMessages: map<string, Record>

    constructor ()
      ensures messageCount == 0 && lastMessages == map[]
    {
      messageCount := 0;
      lastMessages := map[];
    }

    /** `on_message`: count the message, display it, and remember it as the
        latest of its topic when it was displayed in full. */
    method OnMessage(show: Value -> string, topic: string, body: Body, qos: nat, retain: bool, now: int)
      returns (display: Display)
      modifies this
      ensures messageCount == old(messageCount) + 1
      ensures body.Undecodable? ==> display == RawLine(topic) && lastMessages == old(lastMessages)
      ensures DataOf(body).Some? ==>
        var shown := Show(show, topic, DataOf(body).value);
        && (shown.Some? ==>
              display == shown.value
              && lastMessages == old(lastMessages)[topic := Record(now, DataOf(body).value, qos, retain)])
        && (shown.None? ==> display == ParseError && lastMessages == old(lastMessages))
    {
      messageCount := messageCount + 1;
      var data := DataOf(body);
      if data.None? {
        return RawLine(topic);
      }
      var shown := Show(show, topic, data.value);
      if shown.None? {
        return ParseError;
      }
      display := shown.value;
      lastMessages := lastMessages[topic := Record(now, data.value, qos, retain)];
    }
  }

  /** The record of a topic after a run of displayed messages is the last one
      received on that topic; other topics keep theirs. */
  function Remember(last: map<string, Record>, arrivals: seq<(string, Record)>): map<string, Record>
    decreases |arrivals|
  {
    if arrivals == [] then last
    else Remember(last[arrivals[0].0 := arrivals[0].1], arrivals[1..])
  }

  /** No arrival in `arrivals` is on `topic`. */
  predicate Untouched(arrivals: seq<(string, Record)>, topic: string)
  {
    forall j :: 0 <= j < |arrivals| ==> arrivals[j].0 != topic
  }

  /** Latest wins: a topic's record is that of its last arrival, a topic with
      no arrival keeps its earlier record, and no other topic appears. */
  lemma {:induction false} RememberKeepsLatest(last: map<string, Record>, arrivals: seq<(string, Record)>)
    ensures var r := Remember(last, arrivals);
      && r.Keys == last.Keys + (set k | 0 <= k < |arrivals| :: arrivals[k].0)
      && (forall k :: 0 <= k < |arrivals| && Untouched(arrivals[k + 1..], arrivals[k].0) ==> r[arrivals[k].0] == arrivals[k].1)
      && (forall t :: t in last && Untouched(arrivals, t) ==> r[t] == last[t])
    decreases |arrivals|
  {
    if arrivals != [] {
      var next := last[arrivals[0].0 := arrivals[0].1];
      var rest := arrivals[1..];
      RememberKeepsLatest(next, rest);
      var r := Remember(last, arrivals);
      assert (set k | 0 <= k < |arrivals| :: arrivals[k].0) == {arrivals[0].0} + (set k | 0 <= k < |rest| :: rest[k].0) by {
        forall k | 0 <= k < |arrivals|
          ensures arrivals[k].0 in {arrivals[0].0} + (set k | 0 <= k < |rest| :: rest[k].0)
        {
          if k > 0 {
            assert rest[k - 1] == arrivals[k];
          }
        }
        forall k | 0 <= k < |rest|
          ensures rest[k].0 in (set k | 0 <= k < |arrivals| :: arrivals[k].0)
        {
          assert rest[k] == arrivals[k + 1];
        }
      }
      forall k | 0 <= k < |arrivals| && Untouched(arrivals[k + 1..], arrivals[k].0)
        ensures r[arrivals[k].0] == arrivals[k].1
      {
        if k > 0 {
          assert rest[k - 1..][1..] == arrivals[k + 1..];
        } else {
          assert rest == arrivals[k + 1..];
        }
      }
      forall t | t in last && Untouched(arrivals, t)
        ensures r[t] == last[t]
      {
        assert Untouched(rest, t) by {
          forall j | 0 <= j < |rest| ensures rest[j].0 != t {
            assert rest[j] == arrivals[j + 1];
          }
        }
      }
    }
  }
}

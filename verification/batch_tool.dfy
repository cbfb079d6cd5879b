/** The batch mode of the controller's command-line tool
    (client-python-A/a_tool.py): reading a point file, parsing its lines,
    sending every point through the controller client, tallying one entry per
    point, and the sample point file the tool can generate.

    Python's `float()` on a field is a parameter `float` (None where it raises
    ValueError), so the parse is exact for any reading of numerals. Files are
    text: opening, reading and writing them is left to the caller. */
module BatchTool {
  import opened Wire
  import opened Correlation

  /** The characters Python's `str.strip()` removes. */
  predicate IsSpace(c: char)
  {
    || c == ' ' || ('\U{9}' <= c <= '\U{D}') || ('\U{1C}' <= c <= '\U{1F}')
    || c == '\U{85}' || c == '\U{A0}' || c == '\U{1680}' || ('\U{2000}' <= c <= '\U{200A}')
    || c == '\U{2028}' || c == '\U{2029}' || c == '\U{202F}' || c == '\U{205F}' || c == '\U{3000}'
  }

  /** `s` without its trailing whitespace. */
  function StripRight(s: string): string
  {
    if s != [] && IsSpace(s[|s| - 1]) then StripRight(s[..|s| - 1]) else s
  }

  /** `s` without its leading whitespace. */
  function StripLeft(s: string): string
  {
    if s != [] && IsSpace(s[0]) then StripLeft(s[1..]) else s
  }

  /** `str.strip()`. */
  function Strip(s: string): string
  {
    StripLeft(StripRight(s))
  }

  /** Right-stripping keeps a prefix that does not end in whitespace, and
      everything it cuts off is whitespace. */
  lemma {:induction false} StripRightCuts(s: string)
    ensures var r := StripRight(s);
      && |r| <= |s| && r == s[..|r|]
      && (r == [] || !IsSpace(r[|r| - 1]))
      && forall k :: |r| <= k < |s| ==> IsSpace(s[k])
  {
    if s != [] && IsSpace(s[|s| - 1]) {
      StripRightCuts(s[..|s| - 1]);
    }
  }

  /** Left-stripping keeps a suffix that does not start with whitespace, and
      everything it cuts off is whitespace. */
  lemma {:induction false} StripLeftCuts(s: string)
    ensures var r := StripLeft(s);
      && |r| <= |s| && r == s[|s| - |r|..]
      && (r == [] || !IsSpace(r[0]))
      && forall k :: 0 <= k < |s| - |r| ==> IsSpace(s[k])
  {
    if s != [] && IsSpace(s[0]) {
      var t := s[1..];
      StripLeftCuts(t);
      var r := StripLeft(t);
      assert t[|t| - |r|..] == s[|s| - |r|..];
      forall k | 0 <= k < |s| - |r|
        ensures IsSpace(s[k])
      {
        if k > 0 {
          assert s[k] == t[k - 1];
        }
      }
    }
  }

  /** `r` sits at offset `i` of `s`, and everything around it is whitespace. */
  predicate Surrounds(s: string, r: string, i: int)
  {
    && 0 <= i <= |s| - |r| && r == s[i..i + |r|]
    && (forall k :: 0 <= k < i ==> IsSpace(s[k]))
    && (forall k :: i + |r| <= k < |s| ==> IsSpace(s[k]))
  }

  /** Stripping removes exactly the surrounding whitespace: what is left sits
      inside `s`, starts and ends with a non-space, and everything cut off on
      either side is whitespace. */
  lemma StripIsExact(s: string)
    ensures var r := Strip(s);
      && (r == [] || (!IsSpace(r[0]) && !IsSpace(r[|r| - 1])))
      && exists i :: Surrounds(s, r, i)
  {
    var right := StripRight(s);
    var r := StripLeft(right);
    StripRightCuts(s);
    StripLeftCuts(right);
    var i := |right| - |r|;
    assert r == s[i..i + |r|];
    if r != [] {
      assert r[|r| - 1] == right[|right| - 1];
    }
    assert Surrounds(s, r, i);
  }

  /** A line that neither starts nor ends with whitespace strips to itself. */
  lemma StripTrimmed(s: string)
    requires s == [] || (!IsSpace(s[0]) && !IsSpace(s[|s| - 1]))
    ensures Strip(s) == s
  {
  }

  /** `str.split(sep)`: the fields between separators; one field more than
      there are separators, the empty string giving one empty field. */
  function Split(s: string, sep: char): (parts: seq<string>)
    ensures |parts| >= 1
    decreases |s|
  {
    if s == [] then [[]]
    else if s[0] == sep then [[]] + Split(s[1..], sep)
    else
      var rest := Split(s[1..], sep);
      [[s[0]] + rest[0]] + rest[1..]
  }

  /** `sep.join(parts)`. */
  function Join(parts: seq<string>, sep: char): string
  {
    if parts == [] then []
    else if |parts| == 1 then parts[0]
    else parts[0] + [sep] + Join(parts[1..], sep)
  }

  /** Joining fields whose first one starts with `c`. */
  lemma JoinFront(c: char, rest: seq<string>, sep: char)
    requires rest != []
    ensures Join([[c] + rest[0]] + rest[1..], sep) == [c] + Join(rest, sep)
  {
    var parts := [[c] + rest[0]] + rest[1..];
    if |rest| > 1 {
      assert parts[1..] == rest[1..];
    }
  }

  /** Splitting and joining back with the same separator gives the line again. */
  lemma {:induction false} JoinSplit(s: string, sep: char)
    ensures Join(Split(s, sep), sep) == s
    decreases |s|
  {
    if s != [] {
      JoinSplit(s[1..], sep);
      var rest := Split(s[1..], sep);
      if s[0] == sep {
        assert Split(s, sep)[1..] == rest;
      } else {
        JoinFront(s[0], rest, sep);
        assert [s[0]] + s[1..] == s;
      }
    }
  }

  /** Splitting text without the separator gives the text as its one field. */
  lemma {:induction false} SplitWithout(a: string, sep: char)
    requires sep !in a
    ensures Split(a, sep) == [a]
    decreases |a|
  {
    if a != [] {
      SplitWithout(a[1..], sep);
      assert [a[0]] + a[1..] == a;
    }
  }

  /** Splitting `a` + sep + `b`, neither holding the separator, gives `a` and `b`. */
  lemma {:induction false} SplitPair(a: string, b: string, sep: char)
    requires sep !in a && sep !in b
    ensures Split(a + [sep] + b, sep) == [a, b]
    decreases |a|
  {
    var s := a + [sep] + b;
    if a == [] {
      assert s[1..] == b;
      SplitWithout(b, sep);
    } else {
      assert s[1..] == a[1..] + [sep] + b;
      SplitPair(a[1..], b, sep);
      assert [a[0]] + a[1..] == a;
    }
  }

  /** No field of a split holds the separator. */
  lemma {:induction false} FieldsLackSeparator(s: string, sep: char)
    ensures forall k :: 0 <= k < |Split(s, sep)| ==> sep !in Split(s, sep)[k]
    decreases |s|
  {
    if s != [] {
      FieldsLackSeparator(s[1..], sep);
    }
  }

  /** A line with exactly the two fields `a` and `b`. */
  predicate PointText(line: string, a: string, b: string)
  {
    line == a + "," + b && ',' !in a && ',' !in b
  }

  /** What one line of the point file gives. */
  datatype LineVerdict =
    | Skipped                 // blank, or a comment starting with '#'
    | Parsed(x: real, y: real)
    | BadFormat(text: string) // ValueError: the stripped line is reported

  /** One line of the parse loop: strip, then read what is left. */
  function ParseLine(raw: string, float: string -> Option<real>): LineVerdict
  {
    ParseStripped(Strip(raw), float)
  }

  /** A stripped line: blank and comment lines are skipped, anything else must
      be exactly two comma-separated fields that both read as numbers. */
  function ParseStripped(line: string, float: string -> Option<real>): (v: LineVerdict)
    ensures v.BadFormat? ==> v.text == line
    ensures v.Skipped? <==> line == [] || line[0] == '#'
  {
    if line == [] || line[0] == '#' then Skipped
    else
      var fields := Split(line, ',');
      if |fields| == 2 && float(fields[0]).Some? && float(fields[1]).Some?
      then Parsed(float(fields[0]).value, float(fields[1]).value)
      else BadFormat(line)
  }

  /** A line that is neither blank nor a comment is read as a point exactly
      when it is two comma-free fields joined by one comma and both fields
      read as numbers; the point is then those two numbers. */
  lemma ParsedIsTwoNumbers(line: string, float: string -> Option<real>)
    requires line != [] && line[0] != '#'
    ensures ParseStripped(line, float).Parsed? <==>
      exists a, b :: PointText(line, a, b) && float(a).Some? && float(b).Some?
    ensures forall a, b :: PointText(line, a, b) && float(a).Some? && float(b).Some? ==>
      ParseStripped(line, float) == Parsed(float(a).value, float(b).value)
  {
    forall a, b | PointText(line, a, b) && float(a).Some? && float(b).Some?
      ensures ParseStripped(line, float) == Parsed(float(a).value, float(b).value)
    {
      SplitPair(a, b, ',');
    }
    var fields := Split(line, ',');
    if ParseStripped(line, float).Parsed? {
      JoinSplit(line, ',');
      FieldsLackSeparator(line, ',');
      assert [fields[0], fields[1]][1..] == [fields[1]];
      assert PointText(line, fields[0], fields[1]);
    }
  }

  /** A format warning: the 1-based line number and the stripped line. */
  datatype Warning = Warning(line: nat, text: string)

  datatype ScanResult = ScanResult(points: seq<(real, real)>, warnings: seq<Warning>)

  /** The verdict of every line, in file order. */
  function Verdicts(lines: seq<string>, float: string -> Option<real>): (vs: seq<LineVerdict>)
    ensures |vs| == |lines|
  {
    if lines == [] then [] else Verdicts(lines[..|lines| - 1], float) + [ParseLine(lines[|lines| - 1], float)]
  }

  /** The points and warnings of the lines with verdicts `vs`, the first of
      them being line `first` of the file: the points in file order, and a
      warning for every malformed line citing its 1-based number. */
  function Collect(vs: seq<LineVerdict>, first: nat): ScanResult
  {
    if vs == [] then ScanResult([], []) else Add(vs[0], first, Collect(vs[1..], first + 1))
  }

  /** Line number `line` with verdict `v`, in front of the result `rest` of
      the lines after it. */
  function Add(v: LineVerdict, line: nat, rest: ScanResult): ScanResult
  {
    match v
    case Skipped => rest
    case Parsed(x, y) => ScanResult([(x, y)] + rest.points, rest.warnings)
    case BadFormat(text) => ScanResult(rest.points, [Warning(line, text)] + rest.warnings)
  }

  /** Collecting from position `k` on: the verdict at `k`, then the rest. */
  lemma CollectFrom(vs: seq<LineVerdict>, k: nat, first: nat)
    requires k < |vs|
    ensures Collect(vs[k..], first) == Add(vs[k], first, Collect(vs[k + 1..], first + 1))
  {
    assert vs[k..][1..] == vs[k + 1..];
  }

  /** The parse of a whole file, numbered from line 1. */
  function Scan(lines: seq<string>, float: string -> Option<real>): ScanResult
  {
    Collect(Verdicts(lines, float), 1)
  }

  /** The warnings `ws` of lines `vs` starting at line `first` each cite a
      malformed line by its number, in increasing line order. */
  predicate CitesLines(vs: seq<LineVerdict>, first: nat, ws: seq<Warning>)
  {
    && (forall j :: 0 <= j < |ws| ==>
          first <= ws[j].line < first + |vs| && vs[ws[j].line - first] == BadFormat(ws[j].text))
    && (forall j, k :: 0 <= j < k < |ws| ==> ws[j].line < ws[k].line)
  }

  /** Every warning cites the number of a malformed line, and the warnings
      come in increasing line order. */
  lemma {:induction false} WarningsCiteTheirLines(vs: seq<LineVerdict>, first: nat)
    ensures CitesLines(vs, first, Collect(vs, first).warnings)
  {
    if vs != [] {
      WarningsCiteTheirLines(vs[1..], first + 1);
      var rest := Collect(vs[1..], first + 1).warnings;
      var ws := Collect(vs, first).warnings;
      forall j | 0 <= j < |rest|
        ensures vs[rest[j].line - first] == BadFormat(rest[j].text)
      {
        assert vs[rest[j].line - first] == vs[1..][rest[j].line - (first + 1)];
      }
      if vs[0].BadFormat? {
        assert ws == [Warning(first, vs[0].text)] + rest;
      } else {
        assert ws == rest;
      }
    }
  }

  /** Collecting two runs of verdicts one after the other: the points of the
      first come first and keep their order, and the warnings of the second
      go on with the line numbers where the first left off. */
  lemma {:induction false} CollectAppend(a: seq<LineVerdict>, b: seq<LineVerdict>, first: nat)
    ensures Collect(a + b, first) ==
      ScanResult(Collect(a, first).points + Collect(b, first + |a|).points,
                 Collect(a, first).warnings + Collect(b, first + |a|).warnings)
    decreases |a|
  {
    if a == [] {
      assert a + b == b;
    } else {
      assert (a + b)[0] == a[0];
      assert (a + b)[1..] == a[1..] + b;
      CollectAppend(a[1..], b, first + 1);
    }
  }

  /** The verdict of line `i` is the parse of that line alone. */
  lemma {:induction false} VerdictAt(lines: seq<string>, float: string -> Option<real>, i: nat)
    requires i < |lines|
    ensures Verdicts(lines, float)[i] == ParseLine(lines[i], float)
  {
    if i < |lines| - 1 {
      VerdictAt(lines[..|lines| - 1], float, i);
    }
  }

  /** The verdicts of two pieces of a file are those of each piece, in order. */
  lemma {:induction false} VerdictsAppend(a: seq<string>, b: seq<string>, float: string -> Option<real>)
    ensures Verdicts(a + b, float) == Verdicts(a, float) + Verdicts(b, float)
    decreases |b|
  {
    if b == [] {
      assert a + b == a;
    } else {
      var n := |b| - 1;
      assert (a + b)[..|a + b| - 1] == a + b[..n];
      VerdictsAppend(a, b[..n], float);
    }
  }

  /** Parsing two pieces of a file one after the other: the points of the
      first piece come first and keep their order, and the warnings of the
      second piece cite line numbers counted from the start of the file. */
  lemma ScanAppend(a: seq<string>, b: seq<string>, float: string -> Option<real>)
    ensures Scan(a + b, float) ==
      ScanResult(Scan(a, float).points + Collect(Verdicts(b, float), |a| + 1).points,
                 Scan(a, float).warnings + Collect(Verdicts(b, float), |a| + 1).warnings)
  {
    VerdictsAppend(a, b, float);
    CollectAppend(Verdicts(a, float), Verdicts(b, float), 1);
  }

  /** Reading one more line: a skipped line adds nothing, a parsed line adds
      its point at the end, and a malformed line adds a warning citing it. */
  lemma ScanOneMore(lines: seq<string>, i: nat, float: string -> Option<real>)
    requires i < |lines|
    ensures var before, after := Scan(lines[..i], float), Scan(lines[..i + 1], float);
      match ParseLine(lines[i], float)
      case Skipped => after == before
      case Parsed(x, y) => after == ScanResult(before.points + [(x, y)], before.warnings)
      case BadFormat(text) => after == ScanResult(before.points, before.warnings + [Warning(i + 1, text)])
  {
    var v := ParseLine(lines[i], float);
    assert lines[..i + 1][..i] == lines[..i];
    assert Verdicts(lines[..i + 1], float) == Verdicts(lines[..i], float) + [v];
    CollectAppend(Verdicts(lines[..i], float), [v], 1);
  }

  /** The parse loop of `run_batch_mode`. */
  method ParsePoints(lines: seq<string>, float: string -> Option<real>) returns (points: seq<(real, real)>, warnings: seq<Warning>)
    ensures ScanResult(points, warnings) == Scan(lines, float)
  {
    points, warnings := [], [];
    var i := 0;
    while i < |lines|
      invariant 0 <= i <= |lines|
      invariant ScanResult(points, warnings) == Scan(lines[..i], float)
    {
      ScanOneMore(lines, i, float);
      match ParseLine(lines[i], float) {
        case Skipped =>
        case Parsed(x, y) =>
          points := points + [(x, y)];
        case BadFormat(text) =>
          warnings := warnings + [Warning(i + 1, text)];
      }
      i := i + 1;
    }
    assert lines[..i] == lines;
  }

  /** How one point of the batch ended: the result, 'timeout' (the call
      returned nothing), or 'error' with the text of the exception. */
  datatype Status = Success(result: Value) | Timeout | Error(message: string)

  datatype Entry = Entry(x: real, y: real, status: Status)

  /** The entry the batch loop records for point `p` once the call ended with `o`. */
  function EntryFor(p: (real, real), o: Outcome): Entry
  {
    match o
    case NotConnected => Entry(p.0, p.1, Timeout)
    case Replied(r) => Entry(p.0, p.1, if Truthy(r) then Success(r) else Timeout)
    case TimedOut(id, _) => Entry(p.0, p.1, Error(TimeoutMessage(id, 2)))
  }

  /** The entry for point `p`, sent as request `id`: connected, it holds the
      reply to `id` or the timeout error for `id`; never connected, it is a
      'timeout'. */
  predicate Fits(e: Entry, p: (real, real), id: string, connected: bool)
  {
    && e.x == p.0 && e.y == p.1
    && (connected ==>
          (e.status.Success? && IsResultFor(e.status.result, id)) || e.status == Error(TimeoutMessage(id, 2)))
    && (!connected ==> e.status == Timeout)
  }

  /** The number of 'success' entries. */
  function CountSuccess(es: seq<Entry>): (n: nat)
    ensures n <= |es|
  {
    if es == [] then 0
    else CountSuccess(es[..|es| - 1]) + (if es[|es| - 1].status.Success? then 1 else 0)
  }

  /** What `run_batch_mode` ends with. */
  datatype BatchReport =
    | NoValidPoints(warnings: seq<Warning>)
    | ConnectFailed(warnings: seq<Warning>)
    | Completed(warnings: seq<Warning>, entries: seq<Entry>, summary: Summary, log: seq<Publish>)

  /** A stored result is an object with a "type" field, so it is truthy. */
  lemma ResultIsTruthy(v: Value, id: string)
    requires IsResultFor(v, id)
    ensures Truthy(v)
  {
    assert "type" in v.fields;
  }

  /** The entry recorded for a call that ended as `Call` says (connected) or
      with NotConnected (never connected) fits its point and request. */
  lemma EntryFits(p: (real, real), id: string, connected: bool, o: Outcome, called: Outcome)
    requires Settled(called, id, 2) && !called.NotConnected?
    requires connected ==> o == called
    requires !connected ==> o == NotConnected
    ensures Fits(EntryFor(p, o), p, id, connected)
  {
    if o.Replied? {
      ResultIsTruthy(o.result, id);
    }
  }

  lemma CountSuccessAppend(es: seq<Entry>, e: Entry)
    ensures CountSuccess(es + [e]) == CountSuccess(es) + (if e.status.Success? then 1 else 0)
  {
    assert (es + [e])[..|es|] == es;
  }

  /** Every entry so far fits its point and request. */
  predicate AllFit(entries: seq<Entry>, points: seq<(real, real)>, ids: seq<string>, connected: bool)
  {
    |entries| <= |points| && |entries| <= |ids| &&
    forall i :: 0 <= i < |entries| ==> Fits(entries[i], points[i], ids[i], connected)
  }

  /** How the send of point i ends: the call for `ids[i]` from an empty
      table with 2 retries and the arrivals `replies[i]` when connected,
      NotConnected otherwise. */
  function Sent(dep: string, ids: seq<string>, replies: seq<seq<seq<Inbound>>>, i: nat, connected: bool): Outcome
    requires i < |ids|
  {
    if connected then Call(dep, map[], ids[i], Part(replies, i), 2).outcome else NotConnected
  }

  /** The calls of the first `n` points of a batch, each from an empty table. */
  function BatchCalls(dep: string, ids: seq<string>, replies: seq<seq<seq<Inbound>>>, n: nat): (xs: seq<Exchange>)
    requires n <= |ids|
    ensures |xs| == n
  {
    if n == 0 then [] else BatchCalls(dep, ids, replies, n - 1) + [Call(dep, map[], ids[n - 1], Part(replies, n - 1), 2)]
  }

  /** A call from an empty table leaves it empty. */
  lemma CallFromEmpty(dep: string, id: string, batches: seq<seq<Inbound>>)
    ensures Call(dep, map[], id, batches, 2).table == map[]
  {
    var u := Call(dep, map[], id, batches, 2).table;
    assert forall k :: k !in u;
  }

  lemma BatchStep(dep: string, ids: seq<string>, replies: seq<seq<seq<Inbound>>>, xs: seq<Exchange>)
    requires IsWorkflow(dep, map[], ids, replies, xs) && After(map[], xs) == map[] && |xs| < |ids|
    ensures var x := Call(dep, map[], ids[|xs|], Part(replies, |xs|), 2);
      IsWorkflow(dep, map[], ids, replies, xs + [x]) && After(map[], xs + [x]) == map[]
  {
    var x := Call(dep, map[], ids[|xs|], Part(replies, |xs|), 2);
    CallFromEmpty(dep, ids[|xs|], Part(replies, |xs|));
    WorkflowStep(dep, map[], ids, replies, xs, x);
  }

  /** The batch calls are a workflow from the empty table: each call leaves
      the table empty for the next one. */
  lemma {:induction false} BatchCallsFormWorkflow(dep: string, ids: seq<string>, replies: seq<seq<seq<Inbound>>>, n: nat)
    requires n <= |ids|
    ensures IsWorkflow(dep, map[], ids, replies, BatchCalls(dep, ids, replies, n))
    ensures After(map[], BatchCalls(dep, ids, replies, n)) == map[]
  {
    if n > 0 {
      var xs := BatchCalls(dep, ids, replies, n - 1);
      BatchCallsFormWorkflow(dep, ids, replies, n - 1);
      BatchStep(dep, ids, replies, xs);
      assert BatchCalls(dep, ids, replies, n) == xs + [Call(dep, map[], ids[n - 1], Part(replies, n - 1), 2)];
    }
  }

  /** Connected, entry i is a success exactly when a result for `ids[i]`
      arrives during its attempts, and otherwise the timeout error for
      `ids[i]`. */
  lemma EntrySucceedsIffReplyArrives(dep: string, p: (real, real), ids: seq<string>, replies: seq<seq<seq<Inbound>>>, i: nat)
    requires i < |ids| && ids[i] != ""
    ensures var e := EntryFor(p, Sent(dep, ids, replies, i, true));
      && (e.status.Success? <==> ReplyArrives(dep, Part(replies, i), ids[i], 0, 2))
      && (!e.status.Success? ==> e.status == Error(TimeoutMessage(ids[i], 2)))
  {
    var o := Call(dep, map[], ids[i], Part(replies, i), 2).outcome;
    CallAnswers(dep, map[], ids[i], Part(replies, i));
    if o.Replied? {
      ResultIsTruthy(o.result, ids[i]);
    }
  }

  /** Every entry so far is the one recorded for its point's send. */
  predicate Recorded(dep: string, entries: seq<Entry>, points: seq<(real, real)>, ids: seq<string>,
                     replies: seq<seq<seq<Inbound>>>, connected: bool)
  {
    |entries| <= |points| && |entries| <= |ids| &&
    forall i :: 0 <= i < |entries| ==> entries[i] == EntryFor(points[i], Sent(dep, ids, replies, i, connected))
  }

  /** Every recorded entry fits its point and request. */
  lemma RecordedFits(dep: string, entries: seq<Entry>, points: seq<(real, real)>, ids: seq<string>,
                     replies: seq<seq<seq<Inbound>>>, connected: bool)
    requires Recorded(dep, entries, points, ids, replies, connected)
    requires forall i :: 0 <= i < |ids| ==> ids[i] != ""
    ensures AllFit(entries, points, ids, connected)
  {
    forall i | 0 <= i < |entries|
      ensures Fits(entries[i], points[i], ids[i], connected)
    {
      var called := Call(dep, map[], ids[i], Part(replies, i), 2).outcome;
      EntryFits(points[i], ids[i], connected, Sent(dep, ids, replies, i, connected), called);
    }
  }

  lemma RecordedExtend(dep: string, entries: seq<Entry>, points: seq<(real, real)>, ids: seq<string>,
                       replies: seq<seq<seq<Inbound>>>, connected: bool, e: Entry)
    requires Recorded(dep, entries, points, ids, replies, connected) && |entries| < |points| && |entries| < |ids|
    requires e == EntryFor(points[|entries|], Sent(dep, ids, replies, |entries|, connected))
    ensures Recorded(dep, entries + [e], points, ids, replies, connected)
  {
    var es := entries + [e];
    forall i | 0 <= i < |es|
      ensures es[i] == EntryFor(points[i], Sent(dep, ids, replies, i, connected))
    {
      if i < |entries| {
        assert es[i] == entries[i];
      }
    }
  }

  /** The commands the first `n` sends of a batch publish: none when not
      connected. */
  function BatchLog(dep: string, points: seq<(real, real)>, ids: seq<string>, replies: seq<seq<seq<Inbound>>>,
                    now: int, connected: bool, n: nat): seq<Publish>
    requires n <= |points| && n <= |ids|
  {
    if connected then CommandLog(dep, points, ids, now, BatchCalls(dep, ids, replies, n)) else []
  }

  /** The commands of a batch leave the presence trace unchanged. */
  lemma BatchLogKeepsTrace(dep: string, log: seq<Publish>, points: seq<(real, real)>, ids: seq<string>,
                           replies: seq<seq<seq<Inbound>>>, now: int, connected: bool)
    requires |points| <= |ids|
    ensures StatusTrace(dep, log + BatchLog(dep, points, ids, replies, now, connected, |points|)) == StatusTrace(dep, log)
  {
    if connected {
      CommandLogKeepsTrace(dep, log, points, ids, now, BatchCalls(dep, ids, replies, |points|));
    } else {
      assert log + [] == log;
    }
  }

  /** One pass of the sending loop of `run_batch_mode`: send point i with 2
      retries and make its entry, extending the log that held `log0` before
      the loop. */
  method SendOne(client: Client, points: seq<(real, real)>, ids: seq<string>, replies: seq<seq<seq<Inbound>>>, now: int,
                 i: nat, ghost log0: seq<Publish>)
    returns (e: Entry)
    requires client.Valid() && client.pending == map[]
    requires i < |points| <= |ids| && ids[i] != ""
    requires client.published == log0 + BatchLog(client.deployment, points, ids, replies, now, client.connected, i)
    modifies client
    ensures client.Valid() && client.pending == map[] && client.connected == old(client.connected)
    ensures e == EntryFor(points[i], Sent(client.deployment, ids, replies, i, client.connected))
    ensures Fits(e, points[i], ids[i], client.connected)
    ensures client.published == log0 + BatchLog(client.deployment, points, ids, replies, now, client.connected, i + 1)
  {
    var o := client.SendPointAndWait(points[i].0, points[i].1, 2, ids[i], now, Part(replies, i));
    ghost var ex := Call(client.deployment, map[], ids[i], Part(replies, i), 2);
    if client.connected {
      CommandLogAppend(client.deployment, points, ids, now, BatchCalls(client.deployment, ids, replies, i), ex);
      CallFromEmpty(client.deployment, ids[i], Part(replies, i));
    }
    e := EntryFor(points[i], o);
    EntryFits(points[i], ids[i], client.connected, o, ex.outcome);
  }

  /** The sending loop of `run_batch_mode`: one call per point, each with 2
      retries, and one entry per point whatever the call ended with. */
  method SendPoints(client: Client, points: seq<(real, real)>, ids: seq<string>, replies: seq<seq<seq<Inbound>>>, now: int)
    returns (entries: seq<Entry>, successful: nat)
    requires client.Valid() && client.pending == map[]
    requires |points| <= |ids| && forall i :: 0 <= i < |ids| ==> ids[i] != ""
    modifies client
    ensures client.Valid() && client.pending == map[] && client.connected == old(client.connected)
    ensures |entries| == |points|
    ensures Recorded(client.deployment, entries, points, ids, replies, old(client.connected))
    ensures AllFit(entries, points, ids, old(client.connected))
    ensures successful == CountSuccess(entries)
    ensures client.published == old(client.published)
      + BatchLog(client.deployment, points, ids, replies, now, old(client.connected), |points|)
    ensures StatusTrace(client.deployment, client.published) == StatusTrace(client.deployment, old(client.published))
  {
    entries, successful := [], 0;
    var i := 0;
    assert old(client.published) + [] == client.published;
    while i < |points|
      invariant 0 <= i <= |points| && |entries| == i
      invariant client.Valid() && client.pending == map[] && client.connected == old(client.connected)
      invariant Recorded(client.deployment, entries, points, ids, replies, old(client.connected))
      invariant successful == CountSuccess(entries)
      invariant client.published == old(client.published)
        + BatchLog(client.deployment, points, ids, replies, now, old(client.connected), i)
    {
      var e := SendOne(client, points, ids, replies, now, i, old(client.published));
      RecordedExtend(client.deployment, entries, points, ids, replies, client.connected, e);
      CountSuccessAppend(entries, e);
      if e.status.Success? {
        successful := successful + 1;
      }
      entries := entries + [e];
      i := i + 1;
    }
    RecordedFits(client.deployment, entries, points, ids, replies, old(client.connected));
    BatchLogKeepsTrace(client.deployment, old(client.published), points, ids, replies, now, old(client.connected));
  }

  /** A session that connects, sends a batch and disconnects publishes the
      presence states `idle` then `disconnected`, in that order. */
  lemma SessionTrace(dep: string, points: seq<(real, real)>, ids: seq<string>, replies: seq<seq<seq<Inbound>>>, now: int)
    requires |points| <= |ids|
    ensures StatusTrace(dep, [Presence(dep, true, "A", now, "idle")]
                             + BatchLog(dep, points, ids, replies, now, true, |points|)
                             + [Presence(dep, false, "A", now, "disconnected")])
            == ["idle", "disconnected"]
  {
    var idle := Presence(dep, true, "A", now, "idle");
    var cmds := BatchLog(dep, points, ids, replies, now, true, |points|);
    CommandLogKeepsTrace(dep, [idle], points, ids, now, BatchCalls(dep, ids, replies, |points|));
    assert [] + [idle] == [idle];
    PresenceExtendsTrace(dep, [], true, "A", now, "idle");
    PresenceExtendsTrace(dep, [idle] + cmds, false, "A", now, "disconnected");
  }

  /** The connected part of `run_batch_mode`: a fresh client gets
      `on_connect` with code `rc`, sends every point in turn (2 retries),
      disconnects and tallies the entries. */
  method RunSession(dep: string, points: seq<(real, real)>, rc: int, ids: seq<string>, replies: seq<seq<seq<Inbound>>>,
                    now: int)
    returns (entries: seq<Entry>, summary: Summary, log: seq<Publish>)
    requires |points| <= |ids|
    requires forall i :: 0 <= i < |ids| ==> ids[i] != ""
    ensures |entries| == |points|
    ensures Recorded(dep, entries, points, ids, replies, rc == 0)
    ensures AllFit(entries, points, ids, rc == 0)
    ensures summary == Summary(|points|, CountSuccess(entries), |points| - CountSuccess(entries))
    ensures log == (if rc == 0 then
                      [Presence(dep, true, "A", now, "idle")]
                      + BatchLog(dep, points, ids, replies, now, true, |points|)
                      + [Presence(dep, false, "A", now, "disconnected")]
                    else [])
    ensures StatusTrace(dep, log) == (if rc == 0 then ["idle", "disconnected"] else [])
  {
    var client := new Client(dep);
    client.OnConnect(rc, now);
    ghost var start := client.published;
    var successful;
    entries, successful := SendPoints(client, points, ids, replies, now);
    ghost var sent := client.published;
    client.Disconnect(now);
    summary := Summary(|points|, successful, |points| - successful);
    log := client.published;
    if rc == 0 {
      ghost var idle := Presence(dep, true, "A", now, "idle");
      ghost var cmds := BatchLog(dep, points, ids, replies, now, true, |points|);
      assert start == [idle] && sent == [idle] + cmds;
      SessionTrace(dep, points, ids, replies, now);
    } else {
      assert sent == [] + [];
    }
  }

  /** `run_batch_mode`: parse the file, stop when there is no point or the
      connection cannot be opened, otherwise send every point in turn (2
      retries) and record one entry per point, then disconnect and tally.
      `connectOk` is whether opening the connection succeeded, `rc` the code
      `on_connect` then gets, `ids` the uuid4 draws and `replies[i]` the
      arrivals during point i's attempts. */
  method RunBatchMode(lines: seq<string>, float: string -> Option<real>, dep: string, connectOk: bool, rc: int,
                      ids: seq<string>, replies: seq<seq<seq<Inbound>>>, now: int)
    returns (report: BatchReport)
    requires |Scan(lines, float).points| <= |ids|
    requires forall i :: 0 <= i < |ids| ==> ids[i] != ""
    ensures var scan := Scan(lines, float);
      && (scan.points == [] ==> report == NoValidPoints(scan.warnings))
      && (scan.points != [] && !connectOk ==> report == ConnectFailed(scan.warnings))
      && (scan.points != [] && connectOk ==> report.Completed? && report.warnings == scan.warnings)
    ensures report.Completed? ==>
      var scan := Scan(lines, float);
      && |report.entries| == |scan.points|
      && Recorded(dep, report.entries, scan.points, ids, replies, rc == 0)
      && AllFit(report.entries, scan.points, ids, rc == 0)
      && report.summary == Summary(|scan.points|, CountSuccess(report.entries), |scan.points| - CountSuccess(report.entries))
      && report.log == (if rc == 0 then
           [Presence(dep, true, "A", now, "idle")]
           + BatchLog(dep, scan.points, ids, replies, now, true, |scan.points|)
           + [Presence(dep, false, "A", now, "disconnected")]
         else [])
      && StatusTrace(dep, report.log) == (if rc == 0 then ["idle", "disconnected"] else [])
  {
    var points, warnings := ParsePoints(lines, float);
    if points == [] {
      return NoValidPoints(warnings);
    }
    if !connectOk {
      return ConnectFailed(warnings);
    }
    var entries, summary, log := RunSession(dep, points, rc, ids, replies, now);
    report := Completed(warnings, entries, summary, log);
  }

  /** `readlines()` on text whose line endings are already '\n': every line
      keeps its '\n', and a last line without one is kept as it is. */
  function ReadLines(text: string): (ls: seq<string>)
    ensures text == [] <==> ls == []
    decreases |text|
  {
    if text == [] then []
    else if text[0] == '\n' then ["\n"] + ReadLines(text[1..])
    else
      var rest := ReadLines(text[1..]);
      if rest == [] then [[text[0]]] else [[text[0]] + rest[0]] + rest[1..]
  }

  /** A line without a newline followed by '\n' is read back as one line. */
  lemma {:induction false} ReadLinesOfLine(a: string, rest: string)
    requires '\n' !in a
    ensures ReadLines(a + "\n" + rest) == [a + "\n"] + ReadLines(rest)
    decreases |a|
  {
    if a == [] {
      assert a + "\n" + rest == ['\n'] + rest;
    } else {
      assert (a + "\n" + rest)[1..] == a[1..] + "\n" + rest;
      ReadLinesOfLine(a[1..], rest);
      assert [a[0]] + (a[1..] + "\n") == a + "\n";
    }
  }

  /** The file `generate_sample_points` writes ('\n'.join(lines) + '\n') is
      read back as the same lines, each with its '\n'. */
  lemma {:induction false} ReadBackWritten(ls: seq<string>)
    requires ls != []
    requires forall i :: 0 <= i < |ls| ==> '\n' !in ls[i]
    ensures var r := ReadLines(Join(ls, '\n') + "\n");
      |r| == |ls| && forall i :: 0 <= i < |ls| ==> r[i] == ls[i] + "\n"
  {
    if |ls| == 1 {
      ReadLinesOfLine(ls[0], []);
      assert ls[0] + "\n" + [] == Join(ls, '\n') + "\n";
    } else {
      ReadBackWritten(ls[1..]);
      assert Join(ls, '\n') + "\n" == ls[0] + "\n" + (Join(ls[1..], '\n') + "\n");
      ReadLinesOfLine(ls[0], Join(ls[1..], '\n') + "\n");
    }
  }

  /** The lines `generate_sample_points` writes. */
  const SampleLines: seq<string> := [
    "# MQTT Gear Server 範例點位文件",
    "# 格式: x,y (每行一個點位)",
    "# 井字形掃描模式",
    "0,0",
    "10,0",
    "20,0",
    "0,10",
    "10,10",
    "20,10",
    "0,20",
    "10,20",
    "20,20",
    "# 對角線",
    "5,5",
    "15,15",
    "-5,-5",
    "-10,-10"]

  /** The text of the generated file. */
  function SampleText(): string
  {
    Join(SampleLines, '\n') + "\n"
  }

  /** The 13 points of the sample file, in the order listed. */
  const SamplePoints: seq<(real, real)> := [
    (0.0, 0.0), (10.0, 0.0), (20.0, 0.0),
    (0.0, 10.0), (10.0, 10.0), (20.0, 10.0),
    (0.0, 20.0), (10.0, 20.0), (20.0, 20.0),
    (5.0, 5.0), (15.0, 15.0), (-5.0, -5.0), (-10.0, -10.0)]

  /** Reading the numerals of the sample file the way Python's float() does. */
  predicate ReadsSampleNumerals(float: string -> Option<real>)
  {
    && float("0") == Some(0.0) && float("5") == Some(5.0) && float("10") == Some(10.0)
    && float("15") == Some(15.0) && float("20") == Some(20.0)
    && float("-5") == Some(-5.0) && float("-10") == Some(-10.0)
  }

  /** A trimmed line with a '\n' after it strips back to the line. */
  lemma StripNewline(l: string)
    requires l == [] || (!IsSpace(l[0]) && !IsSpace(l[|l| - 1]))
    ensures Strip(l + "\n") == l
  {
    assert (l + "\n")[..|l|] == l;
    assert StripRight(l + "\n") == StripRight(l) == l;
  }

  /** Lines that strip to the same text get the same verdicts. */
  lemma {:induction false} VerdictsSeeStrippedLines(a: seq<string>, b: seq<string>, float: string -> Option<real>)
    requires |a| == |b| && forall i :: 0 <= i < |a| ==> Strip(a[i]) == Strip(b[i])
    ensures Verdicts(a, float) == Verdicts(b, float)
    decreases |a|
  {
    if a != [] {
      var n := |a| - 1;
      VerdictsSeeStrippedLines(a[..n], b[..n], float);
      assert ParseLine(a[n], float) == ParseLine(b[n], float);
    }
  }

  /** Two files whose lines strip to the same text parse the same. */
  lemma ScanSeesStrippedLines(a: seq<string>, b: seq<string>, float: string -> Option<real>)
    requires |a| == |b| && forall i :: 0 <= i < |a| ==> Strip(a[i]) == Strip(b[i])
    ensures Scan(a, float) == Scan(b, float)
  {
    VerdictsSeeStrippedLines(a, b, float);
  }

  /** A line with no newline in it that neither starts nor ends with a blank. */
  predicate Trimmed(l: string)
  {
    l != [] && '\n' !in l && !IsSpace(l[0]) && !IsSpace(l[|l| - 1])
  }

  /** Every line of the sample file is trimmed. */
  lemma SampleLinesTrimmed()
    ensures SampleLines != []
    ensures forall i :: 0 <= i < |SampleLines| ==> Trimmed(SampleLines[i])
  {
    forall i | 0 <= i < |SampleLines|
      ensures Trimmed(SampleLines[i])
    {
      if i < 3 || i == 12 { CommentTrimmed(i); } else { PointLineTrimmed(i); }
    }
  }

  lemma {:induction false} CommentTrimmed(i: nat)
    requires i < 3 || i == 12
    ensures Trimmed(SampleLines[i])
  {
  }

  lemma {:induction false} PointLineTrimmed(i: nat)
    requires 3 <= i < |SampleLines| && i != 12
    ensures Trimmed(SampleLines[i])
  {
  }

  /** Lines written the way `generate_sample_points` writes them, none holding
      a newline or starting or ending with a blank, are read back by batch
      mode exactly as the lines themselves would be. */
  lemma {:induction false} WrittenLinesScan(ls: seq<string>, float: string -> Option<real>)
    requires ls != [] && forall i :: 0 <= i < |ls| ==> Trimmed(ls[i])
    ensures Scan(ReadLines(Join(ls, '\n') + "\n"), float) == Scan(ls, float)
  {
    ReadBackWritten(ls);
    var lines := ReadLines(Join(ls, '\n') + "\n");
    forall i | 0 <= i < |lines|
      ensures Strip(lines[i]) == Strip(ls[i])
    {
      StripNewline(ls[i]);
      StripTrimmed(ls[i]);
    }
    ScanSeesStrippedLines(lines, ls, float);
  }

  /** The generated file parses to exactly its 13 points, in the order
      listed, with its four comment lines skipped and no warning. */
  lemma SampleFileParses(float: string -> Option<real>)
    requires ReadsSampleNumerals(float)
    ensures Scan(ReadLines(SampleText()), float) == ScanResult(SamplePoints, [])
  {
    SampleLinesTrimmed();
    WrittenLinesScan(SampleLines, float);
    SampleScan(float);
  }

  /** A comment line of the sample file is skipped. */
  lemma CommentLine(c: string, float: string -> Option<real>)
    requires c != [] && c[0] == '#' && !IsSpace(c[|c| - 1])
    ensures ParseLine(c, float) == Skipped
  {
    StripTrimmed(c);
  }

  /** A line "a,b" whose two fields read as numbers gives that point. */
  lemma NumberPair(a: string, b: string, float: string -> Option<real>)
    requires a != [] && a[0] != '#' && !IsSpace(a[0]) && b != [] && !IsSpace(b[|b| - 1])
    requires ',' !in a && ',' !in b && float(a).Some? && float(b).Some?
    ensures ParseLine(a + "," + b, float) == Parsed(float(a).value, float(b).value)
  {
    var line := a + "," + b;
    assert line[0] == a[0] && line[|line| - 1] == b[|b| - 1];
    StripTrimmed(line);
    SplitPair(a, b, ',');
  }

  /** The verdict of every line of the sample file. */
  const SampleVerdicts: seq<LineVerdict> := [
    Skipped, Skipped, Skipped,
    Parsed(0.0, 0.0), Parsed(10.0, 0.0), Parsed(20.0, 0.0),
    Parsed(0.0, 10.0), Parsed(10.0, 10.0), Parsed(20.0, 10.0),
    Parsed(0.0, 20.0), Parsed(10.0, 20.0), Parsed(20.0, 20.0),
    Skipped,
    Parsed(5.0, 5.0), Parsed(15.0, 15.0), Parsed(-5.0, -5.0), Parsed(-10.0, -10.0)]

  /** The verdict of each line of the sample file. */
  lemma {:induction false} SampleVerdict(i: nat, float: string -> Option<real>)
    requires ReadsSampleNumerals(float) && i < |SampleLines|
    ensures ParseLine(SampleLines[i], float) == SampleVerdicts[i]
  {
    if i < 3 || i == 12 { SampleComment(i, float); }
    else if i < 6 { SampleRowOne(i, float); }
    else if i < 9 { SampleRowTwo(i, float); }
    else if i < 12 { SampleRowThree(i, float); }
    else { SampleDiagonal(i, float); }
  }

  lemma {:induction false} SampleComment(i: nat, float: string -> Option<real>)
    requires i < 3 || i == 12
    ensures ParseLine(SampleLines[i], float) == SampleVerdicts[i]
  {
    CommentLine(SampleLines[i], float);
  }

  lemma {:induction false} SampleRowOne(i: nat, float: string -> Option<real>)
    requires ReadsSampleNumerals(float) && 3 <= i < 6
    ensures ParseLine(SampleLines[i], float) == SampleVerdicts[i]
  {
    if i == 3 { NumberPair("0", "0", float); assert SampleLines[i] == "0" + "," + "0"; }
    else if i == 4 { NumberPair("10", "0", float); assert SampleLines[i] == "10" + "," + "0"; }
    else { NumberPair("20", "0", float); assert SampleLines[i] == "20" + "," + "0"; }
  }

  lemma {:induction false} SampleRowTwo(i: nat, float: string -> Option<real>)
    requires ReadsSampleNumerals(float) && 6 <= i < 9
    ensures ParseLine(SampleLines[i], float) == SampleVerdicts[i]
  {
    if i == 6 { NumberPair("0", "10", float); assert SampleLines[i] == "0" + "," + "10"; }
    else if i == 7 { NumberPair("10", "10", float); assert SampleLines[i] == "10" + "," + "10"; }
    else { NumberPair("20", "10", float); assert SampleLines[i] == "20" + "," + "10"; }
  }

  lemma {:induction false} SampleRowThree(i: nat, float: string -> Option<real>)
    requires ReadsSampleNumerals(float) && 9 <= i < 12
    ensures ParseLine(SampleLines[i], float) == SampleVerdicts[i]
  {
    if i == 9 { NumberPair("0", "20", float); assert SampleLines[i] == "0" + "," + "20"; }
    else if i == 10 { NumberPair("10", "20", float); assert SampleLines[i] == "10" + "," + "20"; }
    else { NumberPair("20", "20", float); assert SampleLines[i] == "20" + "," + "20"; }
  }

  lemma {:induction false} SampleDiagonal(i: nat, float: string -> Option<real>)
    requires ReadsSampleNumerals(float) && 13 <= i < |SampleLines|
    ensures ParseLine(SampleLines[i], float) == SampleVerdicts[i]
  {
    if i == 13 { NumberPair("5", "5", float); assert SampleLines[i] == "5" + "," + "5"; }
    else if i == 14 { NumberPair("15", "15", float); assert SampleLines[i] == "15" + "," + "15"; }
    else if i == 15 { NumberPair("-5", "-5", float); assert SampleLines[i] == "-5" + "," + "-5"; }
    else { NumberPair("-10", "-10", float); assert SampleLines[i] == "-10" + "," + "-10"; }
  }

  lemma SampleLinesVerdicts(float: string -> Option<real>)
    requires ReadsSampleNumerals(float)
    ensures Verdicts(SampleLines, float) == SampleVerdicts[..|SampleLines|]
  {
    var vs := Verdicts(SampleLines, float);
    forall i | 0 <= i < |vs|
      ensures vs[i] == SampleVerdicts[i]
    {
      VerdictAt(SampleLines, float, i);
      SampleVerdict(i, float);
    }
  }

  /** How many points the sample file lists before each of its lines. */
  const PointsBefore: seq<nat> := [0, 0, 0, 0, 1, 2, 3, 4, 5, 6, 7, 8, 9, 9, 10, 11, 12, 13]

  lemma {:induction false} SampleTally(i: nat)
    requires i < |SampleVerdicts|
    ensures !SampleVerdicts[i].BadFormat?
    ensures SampleVerdicts[i].Skipped? ==> PointsBefore[i + 1] == PointsBefore[i]
    ensures SampleVerdicts[i].Parsed? ==>
      PointsBefore[i + 1] == PointsBefore[i] + 1 < |SamplePoints| + 1 &&
      SamplePoints[PointsBefore[i]] == (SampleVerdicts[i].x, SampleVerdicts[i].y)
  {
  }

  lemma {:induction false} SampleStep(i: nat)
    requires i < |SampleVerdicts|
    requires Collect(SampleVerdicts[..i], 1) == ScanResult(SamplePoints[..PointsBefore[i]], [])
    ensures Collect(SampleVerdicts[..i + 1], 1) == ScanResult(SamplePoints[..PointsBefore[i + 1]], [])
  {
    var sv := SampleVerdicts;
    SampleTally(i);
    CollectAppend(sv[..i], [sv[i]], 1);
    assert sv[..i] + [sv[i]] == sv[..i + 1];
    if sv[i].Parsed? {
      assert SamplePoints[..PointsBefore[i]] + [SamplePoints[PointsBefore[i]]] == SamplePoints[..PointsBefore[i + 1]];
    }
  }

  /** The first `n` lines of the sample file give the points listed in them. */
  lemma {:induction false} SamplePrefix(n: nat)
    requires n <= |SampleVerdicts|
    ensures Collect(SampleVerdicts[..n], 1) == ScanResult(SamplePoints[..PointsBefore[n]], [])
  {
    if n > 0 {
      SamplePrefix(n - 1);
      SampleStep(n - 1);
    }
  }

  lemma SampleScan(float: string -> Option<real>)
    requires ReadsSampleNumerals(float)
    ensures Scan(SampleLines, float) == ScanResult(SamplePoints, [])
  {
    SampleLinesVerdicts(float);
    SamplePrefix(|SampleLines|);
    assert SamplePoints[..PointsBefore[|SampleLines|]] == SamplePoints;
  }
}

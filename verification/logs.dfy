/** The log readers of the plotting scripts.

    `LogReader` reads a file of JSON lines (the tracing subscriber's JSON
    output): every line json.loads accepts is a log, the first log's
    `timestamp` fixes the time origin, and the queries select a node's logs
    by `fields.node` and report times in seconds from that origin.

    `LogPlotter` reads the plain text format instead: a regular expression
    picks the timestamp, module, node and `input=[...]` list out of a line,
    and `filter_logs` groups the parsed entries by (node, key).

    `datetime.fromisoformat`, `float` and the regular expression engine are
    foreign code: they are parameters here (`Clock`, `FloatText`, `Pattern`).
 */
module Logs {
  import opened Wrappers
  import opened Json
  import Py

  /** `datetime.fromisoformat` followed by a reading in seconds on a fixed
      axis; None where Python raises ValueError. */
  type Clock = string -> Option<real>

  const EmptyLog := "IndexError: list index out of range"
  const BadIsoFormat := "ValueError: Invalid isoformat string"
  const IsoNotString := "TypeError: fromisoformat: argument must be str"
  const LoadsNotString := "TypeError: the JSON object must be str, bytes or bytearray"

  // ---------------------------------------------------------------------
  // LogReader.read
  // ---------------------------------------------------------------------

  /** `json.loads` on one string: the project's parser with a given
      spelling of numbers.  The readers take it as a parameter so that their
      properties hold for any parser. */
  type Loads = string -> Result<Value>

  function JsonLoads(t: NumberText): Loads {
    s => Load(s, t)
  }

  /** What one line contributes: its document when json.loads accepts it,
      nothing when it raises JSONDecodeError. */
  function DecodeLine(line: string, loads: Loads): (r: seq<Value>)
    ensures |r| <= 1
    ensures r != [] <==> loads(line).Ok?
    ensures r != [] ==> r[0] == loads(line).value
  {
    match loads(line)
    case Ok(v) => [v]
    case Err(_) => []
  }

  /** The documents of all decodable lines, in file order. */
  function Decoded(lines: seq<string>, loads: Loads): (logs: seq<Value>)
    ensures |logs| <= |lines|
  {
    if lines == [] then [] else DecodeLine(lines[0], loads) + Decoded(lines[1..], loads)
  }

  /** Skipping is line by line: the documents of two stretches of a file
      are those of the first followed by those of the second. */
  lemma {:induction false} DecodedAppend(a: seq<string>, b: seq<string>, loads: Loads)
    ensures Decoded(a + b, loads) == Decoded(a, loads) + Decoded(b, loads)
    decreases |a|
  {
    if a != [] {
      assert (a + b)[1..] == a[1..] + b;
      assert (a + b)[0] == a[0];
      DecodedAppend(a[1..], b, loads);
    } else {
      assert a + b == b;
    }
  }

  /** A line json.loads rejects adds nothing; a line it accepts adds its
      document. */
  lemma DecodedSingle(line: string, loads: Loads)
    ensures Decoded([line], loads) == (if loads(line).Ok? then [loads(line).value] else [])
  {
    assert [line][1..] == [];
  }

  /** The instant in a log's `timestamp` field. */
  function Stamp(log: Value, clock: Clock): (r: Result<real>)
    ensures r.Ok? <==> (Py.Lookup(log, "timestamp").Ok? && Py.Lookup(log, "timestamp").value.Str? &&
      clock(Py.Lookup(log, "timestamp").value.s).Some?)
    ensures r.Ok? ==> clock(Py.Lookup(log, "timestamp").value.s) == Some(r.value)
  {
    var ts :- Py.Lookup(log, "timestamp");
    if !ts.Str? then Err(IsoNotString)
    else match clock(ts.s)
      case None => Err(BadIsoFormat)
      case Some(x) => Ok(x)
  }

  /** A reader after `read`: the logs and the time origin it set. */
  datatype Reader = Reader(logs: seq<Value>, start: real)

  /** `read`: the decodable lines in order, the origin taken from the
      first.  With no decodable line `logs[0]` raises IndexError. */
  function Read(lines: seq<string>, loads: Loads, clock: Clock): (r: Result<Reader>)
    ensures Decoded(lines, loads) == [] ==> r == Err(EmptyLog)
    ensures r.Ok? <==> Decoded(lines, loads) != [] && Stamp(Decoded(lines, loads)[0], clock).Ok?
    ensures r.Ok? ==> r.value.logs == Decoded(lines, loads) && Stamp(r.value.logs[0], clock) == Ok(r.value.start)
  {
    var logs := Decoded(lines, loads);
    if logs == [] then Err(EmptyLog)
    else
      var start :- Stamp(logs[0], clock);
      Ok(Reader(logs, start))
  }

  // ---------------------------------------------------------------------
  // LogReader.read_by_node
  // ---------------------------------------------------------------------

  /** `log["fields"]["node"]`. */
  function NodeOf(log: Value): Result<Value>
  {
    var fields :- Py.Lookup(log, "fields");
    Py.Lookup(fields, "node")
  }

  /** The logs whose `tag` is `want`, in order; the first log whose tag
      raises stops the selection with that exception. */
  function Select(logs: seq<Value>, tag: Value -> Result<Value>, want: Value): (r: Result<seq<Value>>)
    ensures r.Ok? ==> |r.value| <= |logs|
  {
    if logs == [] then Ok([])
    else
      var here :- tag(logs[0]);
      var rest :- Select(logs[1..], tag, want);
      Ok((if here == want then [logs[0]] else []) + rest)
  }

  /** The logs whose `fields.node` equals `node`. */
  function ByNode(logs: seq<Value>, node: string): (r: Result<seq<Value>>)
    ensures r.Ok? ==> |r.value| <= |logs|
  {
    Select(logs, NodeOf, Str(node))
  }

  /** Selection raises exactly when some log's tag does. */
  lemma {:induction false} SelectFails(logs: seq<Value>, tag: Value -> Result<Value>, want: Value)
    ensures Select(logs, tag, want).Ok? <==> forall i :: 0 <= i < |logs| ==> tag(logs[i]).Ok?
    decreases |logs|
  {
    if logs != [] {
      SelectFails(logs[1..], tag, want);
      assert forall i :: 1 <= i < |logs| ==> logs[i] == logs[1..][i - 1];
    }
  }

  /** The selected logs are exactly the logs tagged `want`. */
  lemma {:induction false} SelectMembers(logs: seq<Value>, tag: Value -> Result<Value>, want: Value)
    requires Select(logs, tag, want).Ok?
    ensures forall x :: x in Select(logs, tag, want).value ==> x in logs && tag(x) == Ok(want)
    ensures forall i :: 0 <= i < |logs| && tag(logs[i]) == Ok(want) ==> logs[i] in Select(logs, tag, want).value
    decreases |logs|
  {
    if logs != [] {
      SelectMembers(logs[1..], tag, want);
      assert forall i :: 1 <= i < |logs| ==> logs[i] == logs[1..][i - 1];
    }
  }

  /** Selection keeps order: the selection from a concatenation is the
      selections from each part, concatenated. */
  lemma {:induction false} SelectAppend(a: seq<Value>, b: seq<Value>, tag: Value -> Result<Value>, want: Value)
    requires Select(a, tag, want).Ok? && Select(b, tag, want).Ok?
    ensures Select(a + b, tag, want) == Ok(Select(a, tag, want).value + Select(b, tag, want).value)
    decreases |a|
  {
    if a != [] {
      SelectAppend(a[1..], b, tag, want);
      SelectCons(a, b, tag, want);
    } else {
      assert a + b == b;
      assert [] + Select(b, tag, want).value == Select(b, tag, want).value;
    }
  }

  /** The step of `SelectAppend`: peel the first log off `a`. */
  lemma SelectCons(a: seq<Value>, b: seq<Value>, tag: Value -> Result<Value>, want: Value)
    requires a != [] && Select(a, tag, want).Ok? && Select(b, tag, want).Ok?
    requires Select(a[1..] + b, tag, want) == Ok(Select(a[1..], tag, want).value + Select(b, tag, want).value)
    ensures Select(a + b, tag, want) == Ok(Select(a, tag, want).value + Select(b, tag, want).value)
  {
    TailOfAppend(a, b);
    var head := if tag(a[0]).value == want then [a[0]] else [];
    SelectUnfold(a, tag, want);
    SelectUnfold(a + b, tag, want);
    Associative(head, Select(a[1..], tag, want).value, Select(b, tag, want).value);
  }

  /** One step of `Select` on a non-empty list. */
  lemma SelectUnfold(l: seq<Value>, tag: Value -> Result<Value>, want: Value)
    requires l != [] && tag(l[0]).Ok? && Select(l[1..], tag, want).Ok?
    ensures Select(l, tag, want) == Ok((if tag(l[0]).value == want then [l[0]] else []) + Select(l[1..], tag, want).value)
  {
  }

  lemma TailOfAppend<T>(a: seq<T>, b: seq<T>)
    requires a != []
    ensures (a + b)[1..] == a[1..] + b && (a + b)[0] == a[0]
  {
  }

  lemma Associative<T>(h: seq<T>, x: seq<T>, y: seq<T>)
    ensures h + (x + y) == (h + x) + y
  {
  }

  /** `read_by_node` raises exactly when some log lacks `fields.node`,
      keeps exactly the node's logs, and keeps them in order. */
  lemma ByNodeSpec(a: seq<Value>, b: seq<Value>, node: string)
    ensures ByNode(a, node).Ok? <==> forall i :: 0 <= i < |a| ==> NodeOf(a[i]).Ok?
    ensures ByNode(a, node).Ok? ==>
      (forall x :: x in ByNode(a, node).value ==> x in a && NodeOf(x) == Ok(Str(node))) &&
      (forall i :: 0 <= i < |a| && NodeOf(a[i]) == Ok(Str(node)) ==> a[i] in ByNode(a, node).value)
    ensures ByNode(a, node).Ok? && ByNode(b, node).Ok? ==> ByNode(a + b, node) == Ok(ByNode(a, node).value + ByNode(b, node).value)
  {
    SelectFails(a, NodeOf, Str(node));
    if ByNode(a, node).Ok? {
      SelectMembers(a, NodeOf, Str(node));
      if ByNode(b, node).Ok? {
        SelectAppend(a, b, NodeOf, Str(node));
      }
    }
  }

  /** A first log of the node heads the node's logs. */
  lemma ByNodeHead(logs: seq<Value>, node: string)
    requires ByNode(logs, node).Ok? && logs != [] && NodeOf(logs[0]) == Ok(Str(node))
    ensures ByNode(logs, node).value != [] && ByNode(logs, node).value[0] == logs[0]
  {
  }

  /** `read_by_node`. */
  function ReadByNode(lines: seq<string>, loads: Loads, clock: Clock, node: string): (r: Result<seq<Value>>)
    ensures r.Ok? ==> Read(lines, loads, clock).Ok? && Ok(r.value) == ByNode(Decoded(lines, loads), node)
    ensures Read(lines, loads, clock).Ok? ==> r == ByNode(Decoded(lines, loads), node)
  {
    var rd :- Read(lines, loads, clock);
    ByNode(rd.logs, node)
  }

  // ---------------------------------------------------------------------
  // read_timestamps_by_keys, read_timestamp_value, read_usage_intervals
  // ---------------------------------------------------------------------

  /** `all(key in log["fields"] for key in keys)`: true for no keys without
      looking at the log; `in` on a dict is key membership. */
  function HasKeys(log: Value, keys: seq<string>): (b: Result<bool>)
    ensures keys == [] ==> b == Ok(true)
    ensures b == Ok(true) && keys != [] ==> (Py.Lookup(log, "fields").Ok? &&
      forall k :: k in keys ==> Py.Contains(Py.Lookup(log, "fields").value, k) == Ok(true))
    decreases |keys|
  {
    if keys == [] then Ok(true)
    else
      var fields :- Py.Lookup(log, "fields");
      var here :- Py.Contains(fields, keys[0]);
      if !here then Ok(false) else HasKeys(log, keys[1..])
  }

  /** The logs for which `HasKeys` holds, in order. */
  function WithKeys(logs: seq<Value>, keys: seq<string>): (r: Result<seq<Value>>)
    ensures keys == [] ==> r == Ok(logs)
    ensures r.Ok? ==> |r.value| <= |logs| && forall x :: x in r.value ==> x in logs && HasKeys(x, keys) == Ok(true)
  {
    if logs == [] then Ok([])
    else
      var here :- HasKeys(logs[0], keys);
      var rest :- WithKeys(logs[1..], keys);
      assert keys == [] ==> [logs[0]] + logs[1..] == logs;
      Ok((if here then [logs[0]] else []) + rest)
  }

  /** Each log's time in seconds after `start`, in order. */
  function Relative(logs: seq<Value>, start: real, clock: Clock): (r: Result<seq<real>>)
    ensures r.Ok? <==> forall i :: 0 <= i < |logs| ==> Stamp(logs[i], clock).Ok?
    ensures r.Ok? ==> (|r.value| == |logs| &&
      forall i :: 0 <= i < |logs| ==> Stamp(logs[i], clock) == Ok(start + r.value[i]))
  {
    if logs == [] then Ok([])
    else
      var here := Stamp(logs[0], clock);
      var rest := Relative(logs[1..], start, clock);
      RelativeShift(logs, clock);
      if here.Err? then Err(here.error)
      else if rest.Err? then Err(rest.error)
      else Ok([here.value - start] + rest.value)
  }

  /** Log i + 1 is log i of the tail. */
  lemma RelativeShift(logs: seq<Value>, clock: Clock)
    requires logs != []
    ensures forall i :: 1 <= i < |logs| ==> Stamp(logs[i], clock) == Stamp(logs[1..][i - 1], clock)
  {
    assert forall i :: 1 <= i < |logs| ==> logs[i] == logs[1..][i - 1];
  }

  /** The timestamps of a reader's `node` logs that carry every key. */
  function NodeStamps(rd: Reader, clock: Clock, node: string, keys: seq<string>): (r: Result<seq<real>>)
  {
    var nodeLogs :- ByNode(rd.logs, node);
    var chosen :- WithKeys(nodeLogs, keys);
    Relative(chosen, rd.start, clock)
  }

  /** `read_timestamps_by_keys`. */
  function TimestampsByKeys(lines: seq<string>, loads: Loads, clock: Clock, node: string, keys: seq<string>): (r: Result<seq<real>>)
    ensures r.Ok? ==> Read(lines, loads, clock).Ok? && r == NodeStamps(Read(lines, loads, clock).value, clock, node, keys)
  {
    var rd :- Read(lines, loads, clock);
    NodeStamps(rd, clock, node, keys)
  }

  /** With no keys every log of the node gets a timestamp. */
  lemma NoKeysKeepsAll(lines: seq<string>, loads: Loads, clock: Clock, node: string)
    ensures var r := TimestampsByKeys(lines, loads, clock, node, []);
      r.Ok? ==> ReadByNode(lines, loads, clock, node).Ok? && |r.value| == |ReadByNode(lines, loads, clock, node).value|
  {
  }

  /** A first log with the keys heads the logs with the keys. */
  lemma WithKeysHead(logs: seq<Value>, keys: seq<string>)
    requires WithKeys(logs, keys).Ok? && logs != [] && HasKeys(logs[0], keys) == Ok(true)
    ensures WithKeys(logs, keys).value != [] && WithKeys(logs, keys).value[0] == logs[0]
  {
  }

  /** Times count from the first log: in a reader as `read` leaves it, when
      the first log belongs to the node and carries the keys, its timestamp
      is 0. */
  lemma FirstLogAtZero(rd: Reader, clock: Clock, node: string, keys: seq<string>)
    requires rd.logs != [] && Stamp(rd.logs[0], clock) == Ok(rd.start)
    requires NodeStamps(rd, clock, node, keys).Ok?
    requires NodeOf(rd.logs[0]) == Ok(Str(node)) && HasKeys(rd.logs[0], keys) == Ok(true)
    ensures NodeStamps(rd, clock, node, keys).value != []
    ensures NodeStamps(rd, clock, node, keys).value[0] == 0.0
  {
    NodeStampsParts(rd, clock, node, keys);
    var nodeLogs := ByNode(rd.logs, node).value;
    ByNodeHead(rd.logs, node);
    WithKeysHead(nodeLogs, keys);
    RelativeHead(WithKeys(nodeLogs, keys).value, rd.start, clock);
  }

  /** The log that fixed the origin is at 0 seconds. */
  lemma RelativeHead(logs: seq<Value>, start: real, clock: Clock)
    requires Relative(logs, start, clock).Ok? && logs != [] && Stamp(logs[0], clock) == Ok(start)
    ensures Relative(logs, start, clock).value != [] && Relative(logs, start, clock).value[0] == 0.0
  {
  }

  lemma NodeStampsParts(rd: Reader, clock: Clock, node: string, keys: seq<string>)
    requires NodeStamps(rd, clock, node, keys).Ok?
    ensures ByNode(rd.logs, node).Ok? && WithKeys(ByNode(rd.logs, node).value, keys).Ok?
    ensures NodeStamps(rd, clock, node, keys) == Relative(WithKeys(ByNode(rd.logs, node).value, keys).value, rd.start, clock)
  {
  }

  /** The values json.loads makes of a key's field in each log, in order;
      a field that is not JSON text is skipped, one that is not a string
      raises TypeError. */
  function Values(logs: seq<Value>, key: string, loads: Loads): (r: Result<seq<Value>>)
    ensures r.Ok? ==> |r.value| + Undecodable(logs, key, loads) == |logs|
  {
    if logs == [] then Ok([])
    else
      var fields :- Py.Lookup(logs[0], "fields");
      var text :- Py.Lookup(fields, key);
      if !text.Str? then Err(LoadsNotString)
      else
        var rest :- Values(logs[1..], key, loads);
        Ok(DecodeLine(text.s, loads) + rest)
  }

  /** How many logs have a string field `key` that json.loads rejects. */
  function Undecodable(logs: seq<Value>, key: string, loads: Loads): nat {
    if logs == [] then 0
    else
      var field := NodeField(logs[0], key);
      (if field.Some? && field.value.Str? && loads(field.value.s).Err? then 1 else 0) + Undecodable(logs[1..], key, loads)
  }

  /** `log["fields"][key]` when both lookups succeed. */
  function NodeField(log: Value, key: string): (r: Option<Value>)
    ensures r.Some? <==> Py.Lookup(log, "fields").Ok? && Py.Lookup(Py.Lookup(log, "fields").value, key).Ok?
  {
    match Py.Lookup(log, "fields")
    case Err(_) => None
    case Ok(fields) => if Py.Lookup(fields, key).Ok? then Some(Py.Lookup(fields, key).value) else None
  }

  /** `read_timestamp_value`: the timestamps of the node's logs that carry
      `key`, and the decodable values of that key.  The timestamps keep
      every such log while the values skip the undecodable ones, so the two
      lists have the same length exactly when every value decodes. */
  function TimestampValue(lines: seq<string>, loads: Loads, clock: Clock, node: string, key: string): (r: Result<(seq<real>, seq<Value>)>)
    ensures r.Ok? ==> TimestampsByKeys(lines, loads, clock, node, [key]) == Ok(r.value.0)
    ensures r.Ok? ==> ReadByNode(lines, loads, clock, node).Ok? && WithKeys(ReadByNode(lines, loads, clock, node).value, [key]).Ok?
    ensures r.Ok? ==> |r.value.1| + Undecodable(WithKeys(ReadByNode(lines, loads, clock, node).value, [key]).value, key, loads) == |r.value.0|
  {
    var rd :- Read(lines, loads, clock);
    var nodeLogs :- ByNode(rd.logs, node);
    var chosen :- WithKeys(nodeLogs, [key]);
    var stamps :- Relative(chosen, rd.start, clock);
    var values :- Values(chosen, key, loads);
    Ok((stamps, values))
  }

  /** `read_usage_intervals`: the `begin` and the `end` timestamps, each
      list on its own. */
  function UsageIntervals(lines: seq<string>, loads: Loads, clock: Clock, node: string): (r: Result<(seq<real>, seq<real>)>)
    ensures r.Ok? <==> TimestampsByKeys(lines, loads, clock, node, ["begin"]).Ok? && TimestampsByKeys(lines, loads, clock, node, ["end"]).Ok?
    ensures r.Ok? ==> r.value == (TimestampsByKeys(lines, loads, clock, node, ["begin"]).value, TimestampsByKeys(lines, loads, clock, node, ["end"]).value)
  {
    var begin :- TimestampsByKeys(lines, loads, clock, node, ["begin"]);
    var end :- TimestampsByKeys(lines, loads, clock, node, ["end"]);
    Ok((begin, end))
  }

  /** A reader holding one log of the node: one timestamp, 0, when the log
      carries the keys, none when it does not. */
  lemma SingleLog(log: Value, start: real, clock: Clock, node: string, keys: seq<string>)
    requires Stamp(log, clock) == Ok(start) && NodeOf(log) == Ok(Str(node)) && HasKeys(log, keys).Ok?
    ensures NodeStamps(Reader([log], start), clock, node, keys) == Ok(if HasKeys(log, keys).value then [0.0] else [])
  {
    SelectSingle(log, NodeOf, Str(node));
    WithKeysSingle(log, keys);
    RelativeSingle(log, start, clock);
    assert Relative([], start, clock) == Ok([]);
  }

  lemma SelectSingle(log: Value, tag: Value -> Result<Value>, want: Value)
    requires tag(log) == Ok(want)
    ensures Select([log], tag, want) == Ok([log])
  {
    assert [log][1..] == [] && [log][0] == log;
    assert Select([], tag, want) == Ok([]);
    assert [log] + [] == [log];
  }

  lemma WithKeysSingle(log: Value, keys: seq<string>)
    requires HasKeys(log, keys).Ok?
    ensures WithKeys([log], keys) == Ok(if HasKeys(log, keys).value then [log] else [])
  {
    assert [log][1..] == [];
  }

  lemma RelativeSingle(log: Value, start: real, clock: Clock)
    requires Stamp(log, clock) == Ok(start)
    ensures Relative([log], start, clock) == Ok([0.0])
  {
    assert [log][1..] == [] && [log][0] == log;
    assert Relative([], start, clock) == Ok([]);
    assert [start - start] + [] == [0.0];
  }

  /** The log of `UnpairedInterval`. */
  function BeginOnly(ts: string): Value {
    Obj([Member("timestamp", Str(ts)), Member("fields", Obj([Member("node", Str("n")), Member("begin", Str("1"))]))])
  }

  lemma BeginOnlyFields(ts: string, clock: Clock, start: real)
    requires clock(ts) == Some(start)
    ensures Stamp(BeginOnly(ts), clock) == Ok(start) && NodeOf(BeginOnly(ts)) == Ok(Str("n"))
    ensures HasKeys(BeginOnly(ts), ["begin"]) == Ok(true) && HasKeys(BeginOnly(ts), ["end"]) == Ok(false)
  {
    var log := BeginOnly(ts);
    var fields := Obj([Member("node", Str("n")), Member("begin", Str("1"))]);
    assert log.members[..1] == [Member("timestamp", Str(ts))];
    assert fields.members[..1] == [Member("node", Str("n"))];
    assert fields.members[..1][..0] == [];
    assert Py.Lookup(log, "fields") == Ok(fields);
    assert Get(log.members, "timestamp") == Get(log.members[..1], "timestamp") == Some(Str(ts));
    assert Get(fields.members, "end").None?;
    assert Get(fields.members, "begin").Some?;
    assert ["begin"][1..] == [];
  }

  /** Nothing pairs a begin with an end: a reader whose one log of the node
      has `begin` but no `end` yields one begin time and no end time. */
  lemma UnpairedInterval(clock: Clock, ts: string, start: real)
    requires clock(ts) == Some(start)
    ensures NodeStamps(Reader([BeginOnly(ts)], start), clock, "n", ["begin"]) == Ok([0.0])
    ensures NodeStamps(Reader([BeginOnly(ts)], start), clock, "n", ["end"]) == Ok([])
  {
    BeginOnlyFields(ts, clock, start);
    SingleLog(BeginOnly(ts), start, clock, "n", ["begin"]);
    SingleLog(BeginOnly(ts), start, clock, "n", ["end"]);
  }

  // ---------------------------------------------------------------------
  // LogPlotter
  // ---------------------------------------------------------------------

  /** The groups of a match: `current` is matched when present. */
  datatype Groups = Groups(timestamp: string, modulePath: string, node: string, input: string, current: Option<string>)

  /** `pattern.search(line)`: the groups of the first match, if any. */
  type Pattern = string -> Option<Groups>

  /** Python's `float(x)`: None where it raises ValueError. */
  type FloatText = string -> Option<real>

  /** A parsed log line; `current` has no place in it. */
  datatype Entry = Entry(timestamp: real, modulePath: string, node: string, input: seq<real>)

  /** Every occurrence of `c` in `s` replaced by `repl`. */
  function ReplaceChar(s: string, c: char, repl: string): (r: string)
    ensures c !in s ==> r == s
  {
    if s == [] then [] else (if s[0] == c then repl else [s[0]]) + ReplaceChar(s[1..], c, repl)
  }

  /** A timestamp whose one `Z` closes it reads as the same instant at
      offset +00:00. */
  lemma {:induction false} ZuluOffset(p: string)
    requires 'Z' !in p
    ensures ReplaceChar(p + "Z", 'Z', "+00:00") == p + "+00:00"
    decreases |p|
  {
    if p == [] {
      assert "Z"[1..] == [];
    } else {
      assert (p + "Z")[1..] == p[1..] + "Z";
      ZuluOffset(p[1..]);
      assert p == [p[0]] + p[1..];
    }
  }

  /** `[float(x) for x in parts]`. */
  function Floats(parts: seq<string>, toFloat: FloatText): (r: Result<seq<real>>)
    ensures r.Ok? <==> forall i :: 0 <= i < |parts| ==> toFloat(parts[i]).Some?
    ensures r.Ok? ==> |r.value| == |parts| && forall i :: 0 <= i < |parts| ==> toFloat(parts[i]) == Some(r.value[i])
  {
    if parts == [] then Ok([])
    else
      var here := toFloat(parts[0]);
      if here.None? then Err("ValueError: could not convert string to float: '" + parts[0] + "'")
      else
        var rest :- Floats(parts[1..], toFloat);
        assert forall i :: 1 <= i < |parts| ==> parts[i] == parts[1..][i - 1];
        Ok([here.value] + rest)
  }

  /** The entry built from a match: the timestamp with `Z` read as
      +00:00, the module and node as matched, `input` split on commas and
      each piece converted. */
  function EntryOf(g: Groups, clock: Clock, toFloat: FloatText): (r: Result<Entry>)
    ensures r.Ok? ==> r.value.modulePath == g.modulePath && r.value.node == g.node
    ensures r.Ok? ==> clock(ReplaceChar(g.timestamp, 'Z', "+00:00")) == Some(r.value.timestamp)
    ensures r.Ok? ==> Floats(Py.Split(g.input, ','), toFloat) == Ok(r.value.input)
    ensures r.Ok? <==> clock(ReplaceChar(g.timestamp, 'Z', "+00:00")).Some? && Floats(Py.Split(g.input, ','), toFloat).Ok?
  {
    var when := clock(ReplaceChar(g.timestamp, 'Z', "+00:00"));
    if when.None? then Err(BadIsoFormat)
    else
      var input :- Floats(Py.Split(g.input, ','), toFloat);
      Ok(Entry(when.value, g.modulePath, g.node, input))
  }

  /** The optional `current` group never reaches the entry. */
  lemma CurrentDropped(g: Groups, c: Option<string>, clock: Clock, toFloat: FloatText)
    ensures EntryOf(g.(current := c), clock, toFloat) == EntryOf(g, clock, toFloat)
  {
  }

  /** `parse_logs`: the entries of the matching lines appended to those the
      plotter already holds, in file order; lines that do not match are
      ignored.  An exception stops the scan with the entries appended so
      far kept. */
  function ParseLogs(held: seq<Entry>, lines: seq<string>, pattern: Pattern, clock: Clock, toFloat: FloatText): (r: (seq<Entry>, Option<string>))
    ensures held <= r.0 && |r.0| <= |held| + |lines|
    ensures (forall i :: 0 <= i < |lines| ==> pattern(lines[i]).None?) ==> r == (held, None)
    decreases |lines|
  {
    if lines == [] then (held, None)
    else match pattern(lines[0])
      case None => ParseLogs(held, lines[1..], pattern, clock, toFloat)
      case Some(g) =>
        match EntryOf(g, clock, toFloat)
        case Err(e) => (held, Some(e))
        case Ok(entry) =>
          var r := ParseLogs(held + [entry], lines[1..], pattern, clock, toFloat);
          assert held <= held + [entry];
          r
  }

  /** Without an error every matching line adds exactly its entry: parsing
      two stretches is parsing the first, then the second. */
  lemma {:induction false} ParseLogsAppend(held: seq<Entry>, a: seq<string>, b: seq<string>, pattern: Pattern, clock: Clock, toFloat: FloatText)
    requires ParseLogs(held, a, pattern, clock, toFloat).1.None?
    ensures ParseLogs(held, a + b, pattern, clock, toFloat) == ParseLogs(ParseLogs(held, a, pattern, clock, toFloat).0, b, pattern, clock, toFloat)
    decreases |a|
  {
    if a == [] {
      assert a + b == b;
    } else {
      assert (a + b)[1..] == a[1..] + b;
      assert (a + b)[0] == a[0];
      match pattern(a[0])
      case None =>
        ParseLogsAppend(held, a[1..], b, pattern, clock, toFloat);
      case Some(g) =>
        ParseLogsAppend(held + [EntryOf(g, clock, toFloat).value], a[1..], b, pattern, clock, toFloat);
    }
  }

  /** One line adds its entry when it matches and converts, nothing when
      it does not match. */
  lemma ParseOneLine(held: seq<Entry>, line: string, pattern: Pattern, clock: Clock, toFloat: FloatText)
    ensures pattern(line).None? ==> ParseLogs(held, [line], pattern, clock, toFloat) == (held, None)
    ensures pattern(line).Some? && EntryOf(pattern(line).value, clock, toFloat).Ok? ==>
      ParseLogs(held, [line], pattern, clock, toFloat) == (held + [EntryOf(pattern(line).value, clock, toFloat).value], None)
  {
    assert [line][1..] == [];
  }

  /** The values a parsed entry holds under the dict keys the plotter
      builds. */
  datatype FieldValue = Time(t: real) | Text(s: string) | Numbers(xs: seq<real>)

  /** `log[key]` for a parsed entry; None where `key in log` is false. */
  function EntryField(e: Entry, key: string): (r: Option<FieldValue>)
    ensures r.Some? <==> key in {"timestamp", "module", "node", "input"}
  {
    if key == "timestamp" then Some(Time(e.timestamp))
    else if key == "module" then Some(Text(e.modulePath))
    else if key == "node" then Some(Text(e.node))
    else if key == "input" then Some(Numbers(e.input))
    else None
  }

  /** The entries of `node` that have `key`, in order. */
  function Pick(logs: seq<Entry>, node: string, key: string): (r: seq<Entry>)
    ensures |r| <= |logs|
    ensures forall e :: e in r <==> e in logs && e.node == node && EntryField(e, key).Some?
  {
    if logs == [] then []
    else (if logs[0].node == node && EntryField(logs[0], key).Some? then [logs[0]] else []) + Pick(logs[1..], node, key)
  }

  /** Picking keeps order across a concatenation. */
  lemma {:induction false} PickAppend(a: seq<Entry>, b: seq<Entry>, node: string, key: string)
    ensures Pick(a + b, node, key) == Pick(a, node, key) + Pick(b, node, key)
    decreases |a|
  {
    if a != [] {
      assert (a + b)[1..] == a[1..] + b;
      assert (a + b)[0] == a[0];
      PickAppend(a[1..], b, node, key);
    } else {
      assert a + b == b;
    }
  }

  function Times(logs: seq<Entry>): (r: seq<real>)
    ensures |r| == |logs| && forall i :: 0 <= i < |logs| ==> r[i] == logs[i].timestamp
  {
    seq(|logs|, i requires 0 <= i < |logs| => logs[i].timestamp)
  }

  function FieldValues(logs: seq<Entry>, key: string): (r: seq<FieldValue>)
    requires forall i :: 0 <= i < |logs| ==> EntryField(logs[i], key).Some?
    ensures |r| == |logs| && forall i :: 0 <= i < |logs| ==> Some(r[i]) == EntryField(logs[i], key)
  {
    seq(|logs|, i requires 0 <= i < |logs| => EntryField(logs[i], key).value)
  }

  /** `filter_logs`: for each (node, key) pair with at least one entry of
      that node having that key, the entries' timestamps and values in log
      order; pairs with no such entry are left out. */
  function FilterLogs(logs: seq<Entry>, pairs: seq<(string, string)>): (r: map<(string, string), (seq<real>, seq<FieldValue>)>)
    ensures forall p :: p in r <==> p in pairs && Pick(logs, p.0, p.1) != []
    ensures forall p :: p in r ==> r[p].0 == Times(Pick(logs, p.0, p.1)) && r[p].1 == FieldValues(Pick(logs, p.0, p.1), p.1)
    decreases |pairs|
  {
    if pairs == [] then map[]
    else
      var m := FilterLogs(logs, pairs[..|pairs| - 1]);
      var (node, key) := pairs[|pairs| - 1];
      var chosen := Pick(logs, node, key);
      assert pairs == pairs[..|pairs| - 1] + [(node, key)];
      if chosen == [] then m
      else m[(node, key) := (Times(chosen), FieldValues(chosen, key))]
  }

  /** Every matching entry is kept for a requested pair. */
  lemma FilterKeeps(logs: seq<Entry>, pairs: seq<(string, string)>, i: nat, node: string, key: string)
    requires i < |logs| && (node, key) in pairs && logs[i].node == node && key in {"timestamp", "module", "node", "input"}
    ensures (node, key) in FilterLogs(logs, pairs)
    ensures logs[i].timestamp in FilterLogs(logs, pairs)[(node, key)].0
  {
    var chosen := Pick(logs, node, key);
    assert logs[i] in chosen;
    var k :| 0 <= k < |chosen| && chosen[k] == logs[i];
    assert Times(chosen)[k] == logs[i].timestamp;
  }
}

/** What a StatsD server reads from the sink: the name, value and unit of every metric, for every command of a run. */
module StatsDReading {
  import opened Wrappers
  import opened Sequences
  import opened StatsDPacking
  import opened StatsDSink

  // ---------------------------------------------------------------------------------------------
  // Reading a metric line
  // ---------------------------------------------------------------------------------------------

  datatype Reading = Reading(name: string, value: string, unit: string)

  /** The last place of a character, or -1. */
  function LastAt(s: string, c: char): (i: int)
    ensures -1 <= i < |s|
  {
    if s == "" then -1 else if s[|s| - 1] == c then |s| - 1 else LastAt(s[..|s| - 1], c)
  }

  /** A line is a name, a colon, a value, a bar and a unit. */
  function ReadLine(line: string): Option<Reading> {
    if line == "" || line[|line| - 1] != '\n' then None
    else
      var text := line[..|line| - 1];
      var bar := LastAt(text, '|');
      if bar < 0 then None
      else
        var colon := LastAt(text[..bar], ':');
        if colon < 0 then None else Some(Reading(text[..colon], text[colon + 1..bar], text[bar + 1..]))
  }

  function ReadAll(lines: seq<string>): seq<Option<Reading>> {
    seq(|lines|, i requires 0 <= i < |lines| => ReadLine(lines[i]))
  }

  lemma {:induction false} LastOfTwo(a: string, c: char, b: string)
    requires c !in b
    ensures LastAt(a + [c] + b, c) == |a|
  {
    var s := a + [c] + b;
    if b == "" {
      assert s == a + [c];
    } else {
      assert s[..|s| - 1] == a + [c] + b[..|b| - 1];
      LastOfTwo(a, c, b[..|b| - 1]);
    }
  }

  /** A text that can stand between a colon and a bar. */
  predicate Plain(text: string) { '\n' !in text && ':' !in text && '|' !in text }

  lemma LineRead(name: string, value: string, unit: string)
    requires Plain(value) && Plain(unit)
    ensures ReadLine(name + ":" + (value + ("|" + unit + "\n"))) == Some(Reading(name, value, unit))
  {
    var line := name + ":" + (value + ("|" + unit + "\n"));
    var head := name + ":" + value;
    var text := head + "|" + unit;
    assert line == text + "\n";
    assert line[..|line| - 1] == text;
    LastOfTwo(head, '|', unit);
    assert text[..|head|] == head;
    LastOfTwo(name, ':', value);
    assert text[..|name|] == name && text[|name| + 1..|head|] == value && text[|head| + 1..] == unit;
  }

  // ---------------------------------------------------------------------------------------------
  // What should be read
  // ---------------------------------------------------------------------------------------------

  predicate AllEmpty(parts: seq<string>) { parts == [] || (parts[0] == "" && AllEmpty(parts[1..])) }

  /** The non-empty parts, sanitized, with dots between them. */
  function NameOf(o: Options, parts: seq<string>): string {
    if parts == [] then ""
    else if parts[0] == "" then NameOf(o, parts[1..])
    else if AllEmpty(parts[1..]) then o.sanitize(parts[0])
    else o.sanitize(parts[0]) + "." + NameOf(o, parts[1..])
  }

  /** A metric for the event in general and one for the job, as the options say. */
  function TwoLevels(o: Options, job: string, event: string, suffix: string, value: string, unit: string)
    : seq<Reading>
  {
    (if o.skipTopLevel then [] else [Reading(NameOf(o, [o.prefix, event, suffix]), value, unit)]) +
    (if o.skipNested then [] else [Reading(NameOf(o, [o.prefix, job, event, suffix]), value, unit)])
  }

  /** Events count one, timings are in milliseconds, gauges are gauges, and a completion is a timing of the job. */
  function Meant(o: Options, cmd: Cmd): seq<Reading> {
    match cmd
    case Event(job, event) => TwoLevels(o, job, event, "", "1", "c")
    case EventErr(job, event) => TwoLevels(o, job, event, "error", "1", "c")
    case Timing(job, event, text) => TwoLevels(o, job, event, "", text, "ms")
    case Gauge(job, event, text) => TwoLevels(o, job, event, "", text, "g")
    case Complete(job, status, text) => [Reading(NameOf(o, [o.prefix, job, status]), text, "ms")]
    case FlushTick => []
    case Drain => []
    case Stop => []
  }

  /** A metric longer than a datagram is not sent. */
  predicate FitsDatagram(r: Reading) { |r.name| + |r.value| + |r.unit| + 3 <= 1440 }

  function Fitting(rs: seq<Reading>): seq<Option<Reading>> {
    if rs == [] then []
    else
      var n := |rs| - 1;
      Fitting(rs[..n]) + (if FitsDatagram(rs[n]) then [Some(rs[n])] else [])
  }

  /** Running until a stop; a drain lasts until the channel is found empty, and nothing stops it. */
  function ModeAfter(inputs: seq<Input>): Mode {
    if inputs == [] then Running
    else
      var before, i := ModeAfter(inputs[..|inputs| - 1]), inputs[|inputs| - 1];
      if before == Running && i == Take(Drain) then Draining
      else if before == Running && i == Take(Stop) then Stopped
      else if before == Draining && i.Empty? then Running
      else before
  }

  /** The readings of all commands taken before the stop, in order. */
  function MeantBy(o: Options, inputs: seq<Input>): seq<Option<Reading>> {
    if inputs == [] then []
    else
      var n := |inputs| - 1;
      MeantBy(o, inputs[..n]) +
      (if ModeAfter(inputs[..n]) == Stopped || inputs[n].Empty? then [] else Fitting(Meant(o, inputs[n].cmd)))
  }

  // ---------------------------------------------------------------------------------------------
  // Names
  // ---------------------------------------------------------------------------------------------

  lemma {:induction false} KeptFront(sanitize: string -> string, keys: seq<string>)
    requires keys != []
    ensures Kept(sanitize, keys) == (if keys[0] != "" then [sanitize(keys[0])] else []) + Kept(sanitize, keys[1..])
  {
    var n := |keys| - 1;
    if n == 0 {
      assert keys[..0] == [] && keys[1..] == [];
    } else {
      KeptFront(sanitize, keys[..n]);
      assert keys[..n][1..] == keys[1..][..n - 1] && keys[1..][n - 1] == keys[n];
    }
  }

  lemma {:induction false} KeptEmpty(sanitize: string -> string, keys: seq<string>)
    ensures Kept(sanitize, keys) == [] <==> AllEmpty(keys)
  {
    if keys != [] {
      KeptEmpty(sanitize, keys[1..]);
      KeptFront(sanitize, keys);
    }
  }

  lemma DottedFront(first: string, rest: seq<string>)
    ensures Dotted([first] + rest) == if rest == [] then first else first + "." + Dotted(rest)
  {
    if rest == [] {
      assert [first] + rest == [first];
    } else {
      assert ([first] + rest)[1..] == rest;
    }
  }

  lemma {:induction false} NameIs(o: Options, keys: seq<string>)
    ensures Dotted(Kept(o.sanitize, keys)) == NameOf(o, keys)
  {
    if keys != [] {
      NameIs(o, keys[1..]);
      KeptFront(o.sanitize, keys);
      KeptEmpty(o.sanitize, keys[1..]);
      var rest := Kept(o.sanitize, keys[1..]);
      if keys[0] == "" {
        assert [] + rest == rest;
      } else {
        DottedFront(o.sanitize(keys[0]), rest);
      }
    }
  }

  lemma {:induction false} NameSkips(o: Options, front: seq<string>, rest: seq<string>)
    ensures NameOf(o, front + [""] + rest) == NameOf(o, front + rest)
    ensures AllEmpty(front + [""] + rest) <==> AllEmpty(front + rest)
  {
    var all, most := front + [""] + rest, front + rest;
    if front == [] {
      assert all[1..] == rest && most == rest;
    } else {
      NameSkips(o, front[1..], rest);
      assert all[1..] == front[1..] + [""] + rest && most[1..] == front[1..] + rest;
    }
  }

  lemma SkipEmpty(o: Options, a: string, b: string, c: string)
    ensures NameOf(o, [a, "", b, c]) == NameOf(o, [a, b, c]) && NameOf(o, [a, b, "", c]) == NameOf(o, [a, b, c])
  {
    NameSkips(o, [a], [b, c]);
    NameSkips(o, [a, b], [c]);
    assert [a] + [""] + [b, c] == [a, "", b, c] && [a] + [b, c] == [a, b, c];
    assert [a, b] + [""] + [c] == [a, b, "", c] && [a, b] + [c] == [a, b, c];
  }

  // ---------------------------------------------------------------------------------------------
  // One command
  // ---------------------------------------------------------------------------------------------

  function LineOf(r: Reading): string { r.name + ":" + (r.value + ("|" + r.unit + "\n")) }

  function LinesOf(rs: seq<Reading>): seq<string> {
    seq(|rs|, i requires 0 <= i < |rs| => LineOf(rs[i]))
  }

  lemma PrefixIs(o: Options, key: Key)
    ensures Prefix(o, key) == NameOf(o, [o.prefix, key.job, key.event, key.suffix]) + ":"
  {
    NameIs(o, [o.prefix, key.job, key.event, key.suffix]);
  }

  lemma TailIs(value: string, unit: string, tail: string)
    requires tail == "|" + unit + "\n"
    ensures value + tail == value + ("|" + unit + "\n")
  {
  }

  lemma BothAreLevels(o: Options, job: string, event: string, suffix: string, value: string, unit: string)
    ensures Both(o, job, event, suffix, value + ("|" + unit + "\n"))
         == LinesOf(TwoLevels(o, job, event, suffix, value, unit))
  {
    PrefixIs(o, Key("", event, suffix));
    PrefixIs(o, Key(job, event, suffix));
    SkipEmpty(o, o.prefix, event, suffix);
  }

  /** The metrics of a command are the lines of its readings. */
  lemma MetricsMeant(o: Options, cmd: Cmd)
    ensures Metrics(o, cmd) == LinesOf(Meant(o, cmd))
  {
    assert "1" + ("|" + "c" + "\n") == "1|c\n" && "|" + "ms" + "\n" == "|ms\n" && "|" + "g" + "\n" == "|g\n";
    match cmd
    case Event(job, event) => BothAreLevels(o, job, event, "", "1", "c");
    case EventErr(job, event) => BothAreLevels(o, job, event, "error", "1", "c");
    case Timing(job, event, text) => BothAreLevels(o, job, event, "", text, "ms");
    case Gauge(job, event, text) => BothAreLevels(o, job, event, "", text, "g");
    case Complete(job, status, text) =>
      PrefixIs(o, Key(job, "", status));
      SkipEmpty(o, o.prefix, job, status);
    case _ =>
  }

  predicate PlainText(cmd: Cmd) { (cmd.Timing? || cmd.Gauge? || cmd.Complete?) ==> Plain(cmd.text) }

  lemma MeantIsPlain(o: Options, cmd: Cmd)
    requires PlainText(cmd)
    ensures forall i :: 0 <= i < |Meant(o, cmd)| ==> Plain(Meant(o, cmd)[i].value) && Plain(Meant(o, cmd)[i].unit)
  {
  }

  lemma ReadPlus(a: seq<string>, b: seq<string>)
    ensures ReadAll(a + b) == ReadAll(a) + ReadAll(b)
  {
  }

  lemma {:induction false} SendableRead(rs: seq<Reading>)
    requires forall i :: 0 <= i < |rs| ==> Plain(rs[i].value) && Plain(rs[i].unit)
    ensures ReadAll(Sendable(LinesOf(rs))) == Fitting(rs)
  {
    if rs != [] {
      var n := |rs| - 1;
      SendableRead(rs[..n]);
      var lines := LinesOf(rs);
      assert lines[..n] == LinesOf(rs[..n]) && lines[n] == LineOf(rs[n]);
      LineRead(rs[n].name, rs[n].value, rs[n].unit);
      ReadPlus(Sendable(lines[..n]), if Accepted(lines[n]) then [lines[n]] else []);
      assert ReadAll([lines[n]]) == [ReadLine(lines[n])];
    }
  }

  // ---------------------------------------------------------------------------------------------
  // Whole runs
  // ---------------------------------------------------------------------------------------------

  lemma {:induction false} ModeIs(o: Options, inputs: seq<Input>)
    ensures RunSink(o, inputs).mode == ModeAfter(inputs)
  {
    if inputs != [] {
      ModeIs(o, inputs[..|inputs| - 1]);
    }
  }

  ghost predicate AllPlain(inputs: seq<Input>) {
    forall i :: 0 <= i < |inputs| && inputs[i].Take? ==> PlainText(inputs[i].cmd)
  }

  lemma {:induction false} DueRead(o: Options, inputs: seq<Input>)
    requires AllPlain(inputs)
    ensures ReadAll(Due(o, inputs)) == MeantBy(o, inputs)
  {
    if inputs != [] {
      var n := |inputs| - 1;
      DueRead(o, inputs[..n]);
      ModeIs(o, inputs[..n]);
      if ModeAfter(inputs[..n]) == Stopped || inputs[n].Empty? {
        assert Due(o, inputs) == Due(o, inputs[..n]);
      } else {
        var cmd := inputs[n].cmd;
        MetricsMeant(o, cmd);
        MeantIsPlain(o, cmd);
        SendableRead(Meant(o, cmd));
        ReadPlus(Due(o, inputs[..n]), Sendable(Metrics(o, cmd)));
      }
    }
  }

  /** Over every run, a server that reads the datagrams line by line reads for each command, in order, the metrics that
      are meant: the unit of its kind, its value, and the name made of prefix, job, event and suffix. Only what is still
      in the buffer has not been read. */
  lemma DeliveredReadings(o: Options, inputs: seq<Input>)
    requires Clean(o) && AllPlain(inputs)
    ensures var p := RunSink(o, inputs).packer; ReadAll(Received(p.sent) + Lines(p.pending)) == MeantBy(o, inputs)
  {
    Delivered(o, inputs);
    DueRead(o, inputs);
  }

  /** A tick while running, like the end of a drain, leaves nothing unsent. */
  lemma TickDelivers(o: Options, inputs: seq<Input>)
    requires Clean(o) && AllPlain(inputs)
    requires ModeAfter(inputs) == Running
    ensures var s := RunSink(o, inputs + [Take(FlushTick)]);
      s.mode == Running && s.packer.pending == "" && ReadAll(Received(s.packer.sent)) == MeantBy(o, inputs)
  {
    var all := inputs + [Take(FlushTick)];
    assert all[..|inputs|] == inputs;
    ModeIs(o, inputs);
    DeliveredReadings(o, all);
    var p := RunSink(o, all).packer;
    assert Received(p.sent) + Lines(p.pending) == Received(p.sent);
    assert Fitting(Meant(o, FlushTick)) == [];
  }

  /** While draining, ticks, stops and further drains are dropped. */
  lemma DrainDrops(o: Options, inputs: seq<Input>, cmd: Cmd)
    requires ModeAfter(inputs) == Draining && (cmd == FlushTick || cmd == Stop || cmd == Drain)
    ensures RunSink(o, inputs + [Take(cmd)]) == RunSink(o, inputs)
  {
    assert (inputs + [Take(cmd)])[..|inputs|] == inputs;
    ModeIs(o, inputs);
  }
}

/** The StatsD sink: turning health events into metric lines, and the loop that packs and sends them. */
module StatsDSink {
  import opened StatsDPacking
  import opened Sequences

  // ---------------------------------------------------------------------------------------------
  // Metric names
  // ---------------------------------------------------------------------------------------------

  datatype Options = Options(prefix: string, sanitize: string -> string, skipNested: bool, skipTopLevel: bool)

  predicate Allowed(c: char) {
    'A' <= c <= 'Z' || 'a' <= c <= 'z' || '0' <= c <= '9' || c == '_' || c == '.' || c == '-'
  }

  /** The default sanitizer. */
  method SanitizeKey(s: string) returns (r: string)
    ensures r == Sanitized(s)
    ensures |r| == |s| && forall i :: 0 <= i < |s| ==>
      r[i] == if || 'A' <= s[i] <= 'Z' || 'a' <= s[i] <= 'z' || '0' <= s[i] <= '9'
                 || s[i] == '_' || s[i] == '.' || s[i] == '-'
              then s[i] else '$'
  {
    r := "";
    for i := 0 to |s|
      invariant |r| == i && forall j :: 0 <= j < i ==> r[j] == Sanitized(s)[j]
    {
      r := r + (if Allowed(s[i]) then [s[i]] else "$");
    }
  }

  function Sanitized(s: string): (r: string)
    ensures |r| == |s|
    ensures forall i :: 0 <= i < |r| ==> (Allowed(r[i]) || r[i] == '$') && (Allowed(s[i]) ==> r[i] == s[i])
  {
    seq(|s|, i requires 0 <= i < |s| => if Allowed(s[i]) then s[i] else '$')
  }

  /** The sanitized keys that are not empty. */
  function Kept(sanitize: string -> string, keys: seq<string>): seq<string> {
    if keys == [] then []
    else
      var n := |keys| - 1;
      Kept(sanitize, keys[..n]) + (if keys[n] != "" then [sanitize(keys[n])] else [])
  }

  function Dotted(parts: seq<string>): string {
    if parts == [] then "" else Join(parts, '.')
  }

  lemma {:induction false} DottedOne(parts: seq<string>, part: string)
    ensures Dotted(parts + [part]) == (if parts == [] then part else Dotted(parts) + "." + part)
  {
    if parts == [] {
      assert parts + [part] == [part];
    } else {
      DottedOne(parts[1..], part);
      assert (parts + [part])[1..] == parts[1..] + [part];
    }
  }

  /** The keys' names joined with dots, the empty keys left out. */
  method WriteSanitizedKeys(sanitize: string -> string, keys: seq<string>) returns (name: string)
    ensures name == Dotted(Kept(sanitize, keys))
  {
    var needDot := false;
    name := "";
    for i := 0 to |keys|
      invariant name == Dotted(Kept(sanitize, keys[..i]))
      invariant needDot == (Kept(sanitize, keys[..i]) != [])
    {
      ghost var before := Kept(sanitize, keys[..i]);
      assert keys[..i + 1][..i] == keys[..i];
      if keys[i] != "" {
        DottedOne(before, sanitize(keys[i]));
        assert Kept(sanitize, keys[..i + 1]) == before + [sanitize(keys[i])];
        if needDot {
          name := name + ".";
        }
        name := name + sanitize(keys[i]);
        needDot := true;
      } else {
        assert Kept(sanitize, keys[..i + 1]) == before;
      }
    }
    assert keys[..|keys|] == keys;
  }

  datatype Key = Key(job: string, event: string, suffix: string)

  function Prefix(o: Options, key: Key): string {
    Dotted(Kept(o.sanitize, [o.prefix, key.job, key.event, key.suffix])) + ":"
  }

  // ---------------------------------------------------------------------------------------------
  // Commands and the metrics they make
  // ---------------------------------------------------------------------------------------------

  /** A number is given as the text it is printed as. */
  datatype Cmd =
    | Event(job: string, event: string)
    | EventErr(job: string, event: string)
    | Timing(job: string, event: string, text: string)
    | Gauge(job: string, event: string, text: string)
    | Complete(job: string, status: string, text: string)
    | FlushTick
    | Drain
    | Stop

  function Both(o: Options, job: string, event: string, suffix: string, tail: string): seq<string> {
    (if o.skipTopLevel then [] else [Prefix(o, Key("", event, suffix)) + tail]) +
    (if o.skipNested then [] else [Prefix(o, Key(job, event, suffix)) + tail])
  }

  /** The metrics of a command, from the options and the command alone. */
  function Metrics(o: Options, cmd: Cmd): seq<string> {
    match cmd
    case Event(job, event) => Both(o, job, event, "", "1|c\n")
    case EventErr(job, event) => Both(o, job, event, "error", "1|c\n")
    case Timing(job, event, text) => Both(o, job, event, "", text + "|ms\n")
    case Gauge(job, event, text) => Both(o, job, event, "", text + "|g\n")
    case Complete(job, status, text) => [Prefix(o, Key(job, "", status)) + (text + "|ms\n")]
    case _ => []
  }

  function WriteAll(p: Packer, metrics: seq<string>): Packer {
    if metrics == [] then p else Write(WriteAll(p, metrics[..|metrics| - 1]), metrics[|metrics| - 1])
  }

  datatype Mode = Running | Draining | Stopped

  /** What the loop sees: a command, or while draining a channel found empty. */
  datatype Input = Take(cmd: Cmd) | Empty

  datatype SinkState = SinkState(packer: Packer, mode: Mode)

  function StepSink(o: Options, s: SinkState, i: Input): SinkState {
    match s.mode
    case Stopped => s
    case Draining =>
      if i.Empty? then SinkState(Flush(s.packer), Running)
      else SinkState(WriteAll(s.packer, Metrics(o, i.cmd)), Draining)
    case Running =>
      if i.Empty? then s
      else match i.cmd
        case Drain => s.(mode := Draining)
        case Stop => s.(mode := Stopped)
        case FlushTick => s.(packer := Flush(s.packer))
        case _ => s.(packer := WriteAll(s.packer, Metrics(o, i.cmd)))
  }

  function RunSink(o: Options, inputs: seq<Input>): SinkState {
    if inputs == [] then SinkState(EMPTY, Running)
    else StepSink(o, RunSink(o, inputs[..|inputs| - 1]), inputs[|inputs| - 1])
  }

  // ---------------------------------------------------------------------------------------------
  // The sink object
  // ---------------------------------------------------------------------------------------------

  class Buffer {
    var data: string

    constructor (text: string)
      ensures data == text
    {
      data := text;
    }
  }

  /** A reusable buffer that starts with the name of its key. */
  datatype PrefixBuffer = PrefixBuffer(buffer: Buffer, prefixLen: nat)

  class Sink {
    const options: Options
    var udpBuf: string
    var datagrams: seq<string>
    var mode: Mode
    var prefixBuffers: map<Key, PrefixBuffer>

    constructor (o: Options)
      ensures Valid() && options == o && State() == SinkState(EMPTY, Running) && fresh(Buffers())
    {
      options, udpBuf, datagrams, mode, prefixBuffers := o, "", [], Running, map[];
    }

    function State(): SinkState
      reads this
    {
      SinkState(Packer(datagrams, udpBuf), mode)
    }

    ghost function Buffers(): set<Buffer>
      reads this
    {
      set key | key in prefixBuffers :: prefixBuffers[key].buffer
    }

    /** Every buffer starts with its own key's name, whatever was written after it. */
    ghost predicate Valid()
      reads this, Buffers()
    {
      && (forall key :: key in prefixBuffers ==> HasPrefix(prefixBuffers[key], Prefix(options, key)))
      && (forall k, l :: k in prefixBuffers && l in prefixBuffers && k != l ==>
            prefixBuffers[k].buffer != prefixBuffers[l].buffer)
    }

    method WriteMetric(b: string)
      modifies this`udpBuf, this`datagrams
      ensures State() == SinkState(Write(old(State()).packer, b), old(mode))
    {
      if |b| == 0 {
        return;
      }
      if |b| > MAX_UDP_BYTES {
        return;
      }
      if |b| + |udpBuf| > MAX_UDP_BYTES {
        datagrams := datagrams + [udpBuf];
        udpBuf := "";
      }
      udpBuf := udpBuf + b;
    }

    method FlushBuffer()
      modifies this`udpBuf, this`datagrams
      ensures State() == SinkState(Flush(old(State()).packer), old(mode))
    {
      if |udpBuf| > 0 {
        datagrams := datagrams + [udpBuf];
        udpBuf := "";
      }
    }

    method AddPrefixBuffer(key: Key) returns (b: Buffer)
      requires Valid() && key !in prefixBuffers
      modifies this`prefixBuffers
      ensures Valid() && key in prefixBuffers && prefixBuffers[key].buffer == b
      ensures b.data == Prefix(options, key)
      ensures fresh(Buffers() - old(Buffers()))
    {
      var name := WriteSanitizedKeys(options.sanitize, [options.prefix, key.job, key.event, key.suffix]);
      b := new Buffer(name + ":");
      prefixBuffers := prefixBuffers[key := PrefixBuffer(b, |b.data|)];
    }

    /** A reused buffer is cut back to its name, so it reads like a fresh one. */
    method GetPrefixBuffer(key: Key) returns (b: Buffer)
      requires Valid()
      modifies this`prefixBuffers, Buffers()
      ensures Valid() && key in prefixBuffers && prefixBuffers[key].buffer == b
      ensures b.data == Prefix(options, key)
      ensures fresh(Buffers() - old(Buffers()))
    {
      if key !in prefixBuffers {
        b := AddPrefixBuffer(key);
      } else {
        b := prefixBuffers[key].buffer;
        b.data := b.data[..prefixBuffers[key].prefixLen];
      }
    }

    /** What follows the name in a buffer is free. */
    method Append(key: Key, b: Buffer, tail: string)
      requires Valid() && key in prefixBuffers && prefixBuffers[key].buffer == b && b.data == Prefix(options, key)
      modifies b
      ensures Valid() && b.data == Prefix(options, key) + tail
    {
      b.data := b.data + tail;
    }

    /** One metric: the key's name, the value and the unit. */
    method Emit(key: Key, tail: string)
      requires Valid()
      modifies this`udpBuf, this`datagrams, this`prefixBuffers, Buffers()
      ensures Valid() && fresh(Buffers() - old(Buffers()))
      ensures State() == SinkState(Write(old(State()).packer, Prefix(options, key) + tail), old(mode))
    {
      var b := GetPrefixBuffer(key);
      Append(key, b, tail);
      WriteMetric(b.data);
    }

    method ProcessBoth(job: string, event: string, suffix: string, tail: string)
      requires Valid()
      modifies this`udpBuf, this`datagrams, this`prefixBuffers, Buffers()
      ensures Valid() && fresh(Buffers() - old(Buffers()))
      ensures State() ==
              SinkState(WriteAll(old(State()).packer, Both(options, job, event, suffix, tail)), old(mode))
    {
      WriteTwo(State().packer, Prefix(options, Key("", event, suffix)) + tail,
               Prefix(options, Key(job, event, suffix)) + tail);
      if !options.skipTopLevel {
        Emit(Key("", event, suffix), tail);
      }
      if !options.skipNested {
        Emit(Key(job, event, suffix), tail);
      }
    }

    /** Ticks, drains and stops are not processed here: during a drain they are dropped. */
    method ProcessCmd(cmd: Cmd)
      requires Valid()
      modifies this`udpBuf, this`datagrams, this`prefixBuffers, Buffers()
      ensures Valid() && fresh(Buffers() - old(Buffers()))
      ensures State() == SinkState(WriteAll(old(State()).packer, Metrics(options, cmd)), old(mode))
    {
      match cmd
      case Event(job, event) => ProcessBoth(job, event, "", "1|c\n");
      case EventErr(job, event) => ProcessBoth(job, event, "error", "1|c\n");
      case Timing(job, event, text) => ProcessBoth(job, event, "", text + "|ms\n");
      case Gauge(job, event, text) => ProcessBoth(job, event, "", text + "|g\n");
      case Complete(job, status, text) => Emit(Key(job, "", status), text + "|ms\n");
      case _ =>
    }

    /** One turn of the loop. */
    method Receive(i: Input)
      requires Valid()
      modifies this, Buffers()
      ensures Valid() && fresh(Buffers() - old(Buffers()))
      ensures State() == StepSink(options, old(State()), i)
    {
      if mode == Stopped {
        return;
      }
      if i.Empty? {
        if mode == Draining {
          FlushBuffer();
          mode := Running;
        }
      } else if mode == Draining {
        ProcessCmd(i.cmd);
      } else {
        match i.cmd
        case Drain => mode := Draining;
        case Stop => mode := Stopped;
        case FlushTick => FlushBuffer();
        case _ => ProcessCmd(i.cmd);
      }
    }
  }

  ghost predicate HasPrefix(p: PrefixBuffer, prefix: string)
    reads p.buffer
  {
    p.prefixLen <= |p.buffer.data| && p.buffer.data[..p.prefixLen] == prefix
  }

  lemma WriteTwo(p: Packer, a: string, b: string)
    ensures WriteAll(p, []) == p
    ensures WriteAll(p, [a]) == Write(p, a)
    ensures WriteAll(p, [a] + [b]) == Write(Write(p, a), b)
  {
    assert [a][..0] == [];
    assert ([a] + [b])[..1] == [a];
  }

  // ---------------------------------------------------------------------------------------------
  // Whole runs
  // ---------------------------------------------------------------------------------------------

  function MetricOps(metrics: seq<string>): seq<Op> {
    seq(|metrics|, i requires 0 <= i < |metrics| => Metric(metrics[i]))
  }

  /** What a run asks of the packer. */
  function Asked(o: Options, inputs: seq<Input>): seq<Op> {
    if inputs == [] then []
    else
      var n := |inputs| - 1;
      Asked(o, inputs[..n]) + AskedBy(o, RunSink(o, inputs[..n]).mode, inputs[n])
  }

  function AskedBy(o: Options, mode: Mode, i: Input): seq<Op> {
    if mode == Stopped then []
    else if i.Empty? then if mode == Draining then [Timer] else []
    else if mode == Running && i.cmd.FlushTick? then [Timer]
    else MetricOps(Metrics(o, i.cmd))
  }

  lemma LastMetric(ops: seq<Op>, metrics: seq<string>)
    requires metrics != []
    ensures ops + MetricOps(metrics) ==
      (ops + MetricOps(metrics[..|metrics| - 1])) + [Metric(metrics[|metrics| - 1])]
  {
  }

  lemma RunOne(ops: seq<Op>, op: Op)
    ensures Run(ops + [op]) == Step(Run(ops), op)
  {
    assert (ops + [op])[..|ops|] == ops;
  }

  lemma {:induction false} RunMetrics(ops: seq<Op>, metrics: seq<string>)
    ensures Run(ops + MetricOps(metrics)) == WriteAll(Run(ops), metrics)
  {
    if metrics == [] {
      assert ops + MetricOps(metrics) == ops;
    } else {
      var n := |metrics| - 1;
      RunMetrics(ops, metrics[..n]);
      LastMetric(ops, metrics);
      RunOne(ops + MetricOps(metrics[..n]), Metric(metrics[n]));
    }
  }

  lemma RunTimer(ops: seq<Op>)
    ensures Run(ops + [Timer]) == Flush(Run(ops))
  {
    assert (ops + [Timer])[..|ops|] == ops;
  }

  lemma StepWrites(o: Options, s: SinkState, cmd: Cmd)
    requires s.mode != Stopped && !(s.mode == Running && cmd.FlushTick?)
    ensures StepSink(o, s, Take(cmd)).packer == WriteAll(s.packer, Metrics(o, cmd))
  {
  }

  lemma StepPacks(o: Options, s: SinkState, ops: seq<Op>, i: Input)
    requires s.packer == Run(ops)
    ensures StepSink(o, s, i).packer == Run(ops + AskedBy(o, s.mode, i))
  {
    if s.mode == Stopped || (i.Empty? && s.mode == Running) {
      assert ops + [] == ops;
    } else if i.Empty? || (s.mode == Running && i.cmd.FlushTick?) {
      RunTimer(ops);
    } else {
      StepWrites(o, s, i.cmd);
      RunMetrics(ops, Metrics(o, i.cmd));
    }
  }

  /** The sink sends what packing the asked metrics and ticks sends. */
  lemma {:induction false} SinkPacks(o: Options, inputs: seq<Input>)
    ensures RunSink(o, inputs).packer == Run(Asked(o, inputs))
  {
    if inputs != [] {
      var n := |inputs| - 1;
      SinkPacks(o, inputs[..n]);
      StepPacks(o, RunSink(o, inputs[..n]), Asked(o, inputs[..n]), inputs[n]);
    }
  }

  // ---------------------------------------------------------------------------------------------
  // Every metric is a line
  // ---------------------------------------------------------------------------------------------

  /** Printed numbers hold no line feed. */
  predicate Printed(cmd: Cmd) {
    (cmd.Timing? || cmd.Gauge? || cmd.Complete?) ==> '\n' !in cmd.text
  }

  ghost predicate Clean(o: Options) {
    forall s: string :: '\n' !in o.sanitize(s)
  }

  lemma {:induction false} DottedClean(parts: seq<string>)
    requires forall i :: 0 <= i < |parts| ==> '\n' !in parts[i]
    ensures '\n' !in Dotted(parts)
  {
    if |parts| > 1 {
      DottedClean(parts[1..]);
    }
  }

  lemma {:induction false} KeptClean(o: Options, keys: seq<string>)
    requires Clean(o)
    ensures forall i :: 0 <= i < |Kept(o.sanitize, keys)| ==> '\n' !in Kept(o.sanitize, keys)[i]
  {
    if keys != [] {
      KeptClean(o, keys[..|keys| - 1]);
    }
  }

  lemma MetricIsLine(o: Options, key: Key, value: string, unit: string)
    requires Clean(o) && '\n' !in value && '\n' !in unit
    ensures IsLine(Prefix(o, key) + (value + (unit + "\n")))
  {
    var keys := [o.prefix, key.job, key.event, key.suffix];
    KeptClean(o, keys);
    DottedClean(Kept(o.sanitize, keys));
    var s := Prefix(o, key) + (value + (unit + "\n"));
    assert s[..|s| - 1] == Prefix(o, key) + value + unit;
  }

  /** The default sanitizer lets no line feed through. */
  lemma DefaultIsClean(o: Options)
    requires forall s :: o.sanitize(s) == Sanitized(s)
    ensures Clean(o)
  {}

  lemma MetricsAreLines(o: Options, cmd: Cmd)
    requires Clean(o) && Printed(cmd)
    ensures forall i :: 0 <= i < |Metrics(o, cmd)| ==> IsLine(Metrics(o, cmd)[i])
  {
    assert "1" + ("|c" + "\n") == "1|c\n" && "|ms" + "\n" == "|ms\n" && "|g" + "\n" == "|g\n";
    match cmd
    case Event(job, event) => BothAreLines(o, job, event, "", "1", "|c");
    case EventErr(job, event) => BothAreLines(o, job, event, "error", "1", "|c");
    case Timing(job, event, text) => BothAreLines(o, job, event, "", text, "|ms");
    case Gauge(job, event, text) => BothAreLines(o, job, event, "", text, "|g");
    case Complete(job, status, text) => MetricIsLine(o, Key(job, "", status), text, "|ms");
    case _ =>
  }

  lemma BothAreLines(o: Options, job: string, event: string, suffix: string, value: string, unit: string)
    requires Clean(o) && '\n' !in value && '\n' !in unit
    ensures var metrics := Both(o, job, event, suffix, value + (unit + "\n"));
            forall i :: 0 <= i < |metrics| ==> IsLine(metrics[i])
  {
    MetricIsLine(o, Key("", event, suffix), value, unit);
    MetricIsLine(o, Key(job, event, suffix), value, unit);
  }

  ghost predicate AllPrinted(inputs: seq<Input>) {
    forall i :: 0 <= i < |inputs| && inputs[i].Take? ==> Printed(inputs[i].cmd)
  }

  lemma {:induction false} LineOpsPlus(ops: seq<Op>, more: seq<Op>)
    requires LineOps(ops) && forall i :: 0 <= i < |more| && more[i].Metric? ==> IsLine(more[i].text)
    ensures LineOps(ops + more)
  {
    if more == [] {
      assert ops + more == ops;
    } else {
      var n := |more| - 1;
      LineOpsPlus(ops, more[..n]);
      assert (ops + more)[..|ops + more| - 1] == ops + more[..n];
    }
  }

  lemma {:induction false} AskedAreLines(o: Options, inputs: seq<Input>)
    requires Clean(o) && AllPrinted(inputs)
    ensures LineOps(Asked(o, inputs))
  {
    if inputs != [] {
      var n := |inputs| - 1;
      AskedAreLines(o, inputs[..n]);
      if inputs[n].Take? {
        MetricsAreLines(o, inputs[n].cmd);
      }
      LineOpsPlus(Asked(o, inputs[..n]), AskedBy(o, RunSink(o, inputs[..n]).mode, inputs[n]));
    }
  }

  // ---------------------------------------------------------------------------------------------
  // What the receiver gets
  // ---------------------------------------------------------------------------------------------

  /** The metrics of the commands taken before a stop, each checked for its size. */
  function Due(o: Options, inputs: seq<Input>): seq<string> {
    if inputs == [] then []
    else
      var n := |inputs| - 1;
      Due(o, inputs[..n]) +
      (if RunSink(o, inputs[..n]).mode == Stopped || inputs[n].Empty? then []
       else Sendable(Metrics(o, inputs[n].cmd)))
  }

  function Sendable(metrics: seq<string>): seq<string> {
    if metrics == [] then []
    else
      var n := |metrics| - 1;
      Sendable(metrics[..n]) + (if Accepted(metrics[n]) then [metrics[n]] else [])
  }

  lemma AcceptedOne(ops: seq<Op>, op: Op)
    ensures AcceptedOf(ops + [op]) == AcceptedOf(ops) + (if op.Metric? && Accepted(op.text) then [op.text] else [])
  {
    assert (ops + [op])[..|ops|] == ops;
  }

  lemma {:induction false} AcceptedMetrics(ops: seq<Op>, metrics: seq<string>)
    ensures AcceptedOf(ops + MetricOps(metrics)) == AcceptedOf(ops) + Sendable(metrics)
  {
    if metrics == [] {
      assert ops + MetricOps(metrics) == ops;
    } else {
      var n := |metrics| - 1;
      AcceptedMetrics(ops, metrics[..n]);
      LastMetric(ops, metrics);
      AcceptedOne(ops + MetricOps(metrics[..n]), Metric(metrics[n]));
    }
  }

  lemma {:induction false} AskedIsDue(o: Options, inputs: seq<Input>)
    ensures AcceptedOf(Asked(o, inputs)) == Due(o, inputs)
  {
    if inputs != [] {
      var n := |inputs| - 1;
      AskedIsDue(o, inputs[..n]);
      AskedStep(o, RunSink(o, inputs[..n]).mode, Asked(o, inputs[..n]), inputs[n]);
    }
  }

  lemma AskedStep(o: Options, mode: Mode, ops: seq<Op>, i: Input)
    ensures AcceptedOf(ops + AskedBy(o, mode, i)) ==
            AcceptedOf(ops) + (if mode == Stopped || i.Empty? then [] else Sendable(Metrics(o, i.cmd)))
  {
    var none: seq<string> := [];
    assert ops + [] == ops && AcceptedOf(ops) + none == AcceptedOf(ops);
    assert (ops + [Timer])[..|ops|] == ops;
    if i.Take? {
      AcceptedMetrics(ops, Metrics(o, i.cmd));
    }
  }

  /** Over every run: datagrams fit, and read line by line they give every due metric once, whole and in
      order; only what is still in the buffer has not been sent. */
  lemma Delivered(o: Options, inputs: seq<Input>)
    requires Clean(o) && AllPrinted(inputs)
    ensures Sized(RunSink(o, inputs).packer)
    ensures Received(RunSink(o, inputs).packer.sent) + Lines(RunSink(o, inputs).packer.pending) == Due(o, inputs)
  {
    SinkPacks(o, inputs);
    AskedAreLines(o, inputs);
    AskedIsDue(o, inputs);
    DatagramsSized(Asked(o, inputs));
    ReceiverRecovers(Asked(o, inputs));
  }

  /** When a drain ends, everything due has been sent. */
  lemma DrainDelivers(o: Options, inputs: seq<Input>)
    requires Clean(o) && AllPrinted(inputs)
    requires RunSink(o, inputs).mode == Draining
    ensures var s := RunSink(o, inputs + [Empty]);
            && s.mode == Running && s.packer.pending == ""
            && Received(s.packer.sent) == Due(o, inputs)
  {
    var all := inputs + [Empty];
    assert all[..|inputs|] == inputs;
    Delivered(o, all);
    assert Due(o, all) == Due(o, inputs);
  }

  /** A stop sends nothing: it loses exactly the metrics in the buffer. During a drain a stop is dropped. */
  lemma StopKeepsBuffer(o: Options, inputs: seq<Input>, rest: seq<Input>)
    ensures var s, t := RunSink(o, inputs), RunSink(o, inputs + [Take(Stop)] + rest);
            s.mode == Running ==> t == s.(mode := Stopped)
    ensures RunSink(o, inputs).mode == Draining ==> RunSink(o, inputs + [Take(Stop)]) == RunSink(o, inputs)
  {
    var all := inputs + [Take(Stop)];
    assert all[..|inputs|] == inputs;
    if rest == [] {
      assert all + rest == all;
    } else {
      var n := |rest| - 1;
      StopKeepsBuffer(o, inputs, rest[..n]);
      assert (all + rest)[..|all + rest| - 1] == all + rest[..n];
    }
  }
}

/** Packing StatsD metrics into datagrams. Texts are sequences of one-byte characters. */
module StatsDPacking {

  const MAX_UDP_BYTES := 1440

  /** The datagrams sent so far and the buffer for the next one. */
  datatype Packer = Packer(sent: seq<string>, pending: string)

  const EMPTY := Packer([], "")

  function Flush(p: Packer): Packer {
    if |p.pending| > 0 then Packer(p.sent + [p.pending], "") else p
  }

  /** Empty and oversized metrics are dropped; a metric that does not fit starts a new datagram. */
  predicate Accepted(metric: string) { 0 < |metric| <= MAX_UDP_BYTES }

  function Write(p: Packer, metric: string): Packer {
    if !Accepted(metric) then p
    else if |metric| + |p.pending| > MAX_UDP_BYTES then Packer(p.sent + [p.pending], metric)
    else Packer(p.sent, p.pending + metric)
  }

  datatype Op = Metric(text: string) | Timer

  function Step(p: Packer, op: Op): Packer {
    match op
    case Metric(text) => Write(p, text)
    case Timer => Flush(p)
  }

  function Run(ops: seq<Op>): Packer {
    if ops == [] then EMPTY else Step(Run(ops[..|ops| - 1]), ops[|ops| - 1])
  }

  // ---------------------------------------------------------------------------------------------
  // Reference: metrics grouped whole
  // ---------------------------------------------------------------------------------------------

  function Concat(parts: seq<string>): string {
    if parts == [] then "" else Concat(parts[..|parts| - 1]) + parts[|parts| - 1]
  }

  function ConcatAll(groups: seq<seq<string>>): seq<string> {
    if groups == [] then [] else ConcatAll(groups[..|groups| - 1]) + groups[|groups| - 1]
  }

  /** The accepted metrics in the order they came. */
  function AcceptedOf(ops: seq<Op>): seq<string> {
    if ops == [] then []
    else
      var op := ops[|ops| - 1];
      AcceptedOf(ops[..|ops| - 1]) + (if op.Metric? && 0 < |op.text| <= 1440 then [op.text] else [])
  }

  /** The datagrams as groups of whole metrics. */
  ghost predicate Groups(groups: seq<seq<string>>, open: seq<string>, p: Packer, accepted: seq<string>) {
    && |groups| == |p.sent|
    && (forall i :: 0 <= i < |groups| ==> p.sent[i] == Concat(groups[i]))
    && p.pending == Concat(open)
    && ConcatAll(groups) + open == accepted
  }

  predicate Sized(p: Packer) {
    && |p.pending| <= 1440
    && forall i :: 0 <= i < |p.sent| ==> 0 < |p.sent[i]| <= 1440
  }

  lemma {:induction false} DatagramsSized(ops: seq<Op>)
    ensures Sized(Run(ops))
  {
    if ops != [] {
      DatagramsSized(ops[..|ops| - 1]);
    }
  }

  lemma ConcatOne(parts: seq<string>, part: string)
    ensures Concat(parts + [part]) == Concat(parts) + part
  {
    assert (parts + [part])[..|parts|] == parts;
  }

  lemma ConcatAllOne(groups: seq<seq<string>>, group: seq<string>)
    ensures ConcatAll(groups + [group]) == ConcatAll(groups) + group
  {
    assert (groups + [group])[..|groups|] == groups;
  }

  /** No metric is split, lost or reordered: the datagrams are groups of the accepted metrics, in order. */
  lemma {:induction false} MetricsStayWhole(ops: seq<Op>) returns (groups: seq<seq<string>>, open: seq<string>)
    ensures Groups(groups, open, Run(ops), AcceptedOf(ops))
  {
    if ops == [] {
      groups, open := [], [];
    } else {
      var before := ops[..|ops| - 1];
      var g, o := MetricsStayWhole(before);
      groups, open := GroupStep(g, o, Run(before), AcceptedOf(before), ops[|ops| - 1]);
    }
  }

  /** Sending the buffer closes its group. */
  lemma CloseGroup(g: seq<seq<string>>, o: seq<string>, p: Packer, accepted: seq<string>, next: seq<string>)
    requires Groups(g, o, p, accepted)
    ensures Groups(g + [o], next, Packer(p.sent + [p.pending], Concat(next)), accepted + next)
  {
    ConcatAllOne(g, o);
  }

  lemma GrowGroup(g: seq<seq<string>>, o: seq<string>, p: Packer, accepted: seq<string>, text: string)
    requires Groups(g, o, p, accepted)
    ensures Groups(g, o + [text], Packer(p.sent, p.pending + text), accepted + [text])
  {
    ConcatOne(o, text);
    assert ConcatAll(g) + (o + [text]) == (ConcatAll(g) + o) + [text];
  }

  lemma ConcatSingle(text: string)
    ensures Concat([text]) == text
  {
    ConcatOne([], text);
    assert [] + [text] == [text];
  }

  lemma GroupStep(g: seq<seq<string>>, o: seq<string>, p: Packer, accepted: seq<string>, op: Op)
    returns (groups: seq<seq<string>>, open: seq<string>)
    requires Groups(g, o, p, accepted)
    ensures Groups(groups, open, Step(p, op),
                   accepted + (if op.Metric? && Accepted(op.text) then [op.text] else []))
  {
    groups, open := g, o;
    assert accepted + [] == accepted;
    if op.Timer? {
      if |p.pending| > 0 {
        groups, open := g + [o], [];
        CloseGroup(g, o, p, accepted, []);
      }
    } else if Accepted(op.text) {
      if |op.text| + |p.pending| > MAX_UDP_BYTES {
        groups, open := g + [o], [op.text];
        CloseGroup(g, o, p, accepted, [op.text]);
        ConcatSingle(op.text);
      } else {
        open := o + [op.text];
        GrowGroup(g, o, p, accepted, op.text);
      }
    }
  }

  /** The metrics of the group after group i. */
  function NextGroup(groups: seq<seq<string>>, open: seq<string>, i: nat): seq<string>
    requires i < |groups|
  {
    if i + 1 < |groups| then groups[i + 1] else open
  }

  /** No datagram has room for the metric that the next one starts with. */
  predicate Tight(groups: seq<seq<string>>, open: seq<string>, p: Packer)
    requires |groups| == |p.sent|
  {
    forall i :: 0 <= i < |groups| ==>
      NextGroup(groups, open, i) != [] && |p.sent[i]| + |NextGroup(groups, open, i)[0]| > 1440
  }

  lemma TightStep(g: seq<seq<string>>, o: seq<string>, p: Packer, accepted: seq<string>, text: string)
    returns (groups: seq<seq<string>>, open: seq<string>)
    requires Groups(g, o, p, accepted) && Tight(g, o, p)
    ensures Groups(groups, open, Write(p, text), accepted + (if Accepted(text) then [text] else []))
    ensures Tight(groups, open, Write(p, text))
  {
    groups, open := GroupStep(g, o, p, accepted, Metric(text));
    if !Accepted(text) {
      groups, open := g, o;
      assert accepted + [] == accepted;
    } else if |text| + |p.pending| > MAX_UDP_BYTES {
      groups, open := g + [o], [text];
      CloseGroup(g, o, p, accepted, [text]);
      ConcatSingle(text);
      forall i | 0 <= i < |groups|
        ensures NextGroup(groups, open, i) != []
        ensures |(p.sent + [p.pending])[i]| + |NextGroup(groups, open, i)[0]| > 1440
      {
        if i < |g| {
          assert NextGroup(groups, open, i) == NextGroup(g, o, i);
        }
      }
    } else {
      open := o + [text];
      groups := g;
      GrowGroup(g, o, p, accepted, text);
      forall i | 0 <= i < |groups|
        ensures NextGroup(groups, open, i) != [] && |p.sent[i]| + |NextGroup(groups, open, i)[0]| > 1440
      {
        assert NextGroup(g, o, i)[0] == NextGroup(groups, open, i)[0];
      }
    }
  }

  /** Between two ticks metrics are packed tightly: a datagram is sent only when the next metric does not fit into
      it. */
  lemma {:induction false} PackedTightly(ops: seq<Op>) returns (groups: seq<seq<string>>, open: seq<string>)
    requires Timer !in ops
    ensures Groups(groups, open, Run(ops), AcceptedOf(ops)) && Tight(groups, open, Run(ops))
  {
    if ops == [] {
      groups, open := [], [];
    } else {
      var n := |ops| - 1;
      assert ops[n] in ops;
      var g, o := PackedTightly(ops[..n]);
      groups, open := TightStep(g, o, Run(ops[..n]), AcceptedOf(ops[..n]), ops[n].text);
    }
  }

  lemma {:induction false} ConcatFlat(groups: seq<seq<string>>, texts: seq<string>)
    requires |groups| == |texts| && forall i :: 0 <= i < |groups| ==> texts[i] == Concat(groups[i])
    ensures Concat(texts) == Concat(ConcatAll(groups))
  {
    if groups != [] {
      var n := |groups| - 1;
      ConcatFlat(groups[..n], texts[..n]);
      ConcatPlus(ConcatAll(groups[..n]), groups[n]);
    }
  }

  lemma {:induction false} ConcatPlus(a: seq<string>, b: seq<string>)
    ensures Concat(a + b) == Concat(a) + Concat(b)
  {
    if b == [] {
      assert a + b == a;
    } else {
      var front, last := b[..|b| - 1], b[|b| - 1];
      ConcatPlus(a, front);
      ConcatOne(a + front, last);
      assert a + b == (a + front) + [last];
      assert (Concat(a) + Concat(front)) + last == Concat(a) + (Concat(front) + last);
    }
  }

  /** The datagrams and the buffer together are the accepted metrics, byte for byte. */
  lemma NothingLost(ops: seq<Op>)
    ensures Concat(Run(ops).sent) + Run(ops).pending == Concat(AcceptedOf(ops))
  {
    var groups, open := MetricsStayWhole(ops);
    ConcatFlat(groups, Run(ops).sent);
    ConcatPlus(ConcatAll(groups), open);
  }

  // ---------------------------------------------------------------------------------------------
  // Reading the metrics back
  // ---------------------------------------------------------------------------------------------

  /** A metric line: one line feed, at its end. */
  predicate IsLine(s: string) { s != "" && s[|s| - 1] == '\n' && '\n' !in s[..|s| - 1] }

  /** The text cut after every line feed. */
  function Lines(s: string): seq<string> {
    if s == "" then [] else LinesAfter(s[..|s| - 1], [s[|s| - 1]])
  }

  /** The lines of s followed by the line end that has been read backwards. */
  function LinesAfter(s: string, tail: string): seq<string> {
    if s == "" then [tail]
    else if s[|s| - 1] == '\n' then LinesAfter(s[..|s| - 1], ['\n']) + [tail]
    else LinesAfter(s[..|s| - 1], [s[|s| - 1]] + tail)
  }

  lemma {:induction false} LineBack(before: string, line: string, tail: string)
    requires '\n' !in line
    ensures LinesAfter(before + line, tail) == LinesAfter(before, line + tail)
  {
    if line == "" {
      assert before + line == before && line + tail == tail;
    } else {
      var n := |line| - 1;
      assert (before + line)[..|before + line| - 1] == before + line[..n];
      LineBack(before, line[..n], [line[n]] + tail);
      assert line[..n] + ([line[n]] + tail) == line + tail;
    }
  }

  lemma LastLine(before: string, line: string)
    requires IsLine(line) && (before == "" || before[|before| - 1] == '\n')
    ensures Lines(before + line) == Lines(before) + [line]
  {
    var n := |line| - 1;
    assert (before + line)[..|before + line| - 1] == before + line[..n];
    LineBack(before, line[..n], ['\n']);
    assert line[..n] + ['\n'] == line;
  }

  predicate AllLines(metrics: seq<string>) {
    metrics == [] || (AllLines(metrics[..|metrics| - 1]) && IsLine(metrics[|metrics| - 1]))
  }

  predicate EndsLine(s: string) { s == "" || s[|s| - 1] == '\n' }

  lemma {:induction false} ConcatEndsLine(metrics: seq<string>)
    requires AllLines(metrics)
    ensures EndsLine(Concat(metrics))
  {
    if metrics != [] {
      var n := |metrics| - 1;
      assert (Concat(metrics[..n]) + metrics[n])[|Concat(metrics[..n])| + |metrics[n]| - 1] == '\n';
    }
  }

  /** Cutting at line feeds gives back the metrics of a datagram. */
  lemma {:induction false} LinesRecover(metrics: seq<string>)
    requires AllLines(metrics)
    ensures Lines(Concat(metrics)) == metrics
  {
    if metrics != [] {
      var n := |metrics| - 1;
      LinesRecover(metrics[..n]);
      ConcatEndsLine(metrics[..n]);
      LastLine(Concat(metrics[..n]), metrics[n]);
    }
  }

  lemma {:induction false} LinesSplit(a: seq<string>, b: seq<string>)
    requires AllLines(a + b)
    ensures AllLines(a) && AllLines(b)
  {
    if b == [] {
      assert a + b == a;
    } else {
      var n := |b| - 1;
      assert (a + b)[..|a + b| - 1] == a + b[..n];
      LinesSplit(a, b[..n]);
    }
  }

  /** A receiver that reads every datagram line by line. */
  function Received(datagrams: seq<string>): seq<string> {
    if datagrams == [] then [] else Received(datagrams[..|datagrams| - 1]) + Lines(datagrams[|datagrams| - 1])
  }

  lemma {:induction false} ReceivedGroups(groups: seq<seq<string>>, texts: seq<string>)
    requires |groups| == |texts| && forall i :: 0 <= i < |groups| ==> texts[i] == Concat(groups[i])
    requires AllLines(ConcatAll(groups))
    ensures Received(texts) == ConcatAll(groups)
  {
    if groups != [] {
      var n := |groups| - 1;
      LinesSplit(ConcatAll(groups[..n]), groups[n]);
      ReceivedGroups(groups[..n], texts[..n]);
      LinesRecover(groups[n]);
    }
  }

  predicate LineOps(ops: seq<Op>) {
    ops == [] || (LineOps(ops[..|ops| - 1]) && (ops[|ops| - 1].Metric? ==> IsLine(ops[|ops| - 1].text)))
  }

  lemma {:induction false} AcceptedAreLines(ops: seq<Op>)
    requires LineOps(ops)
    ensures AllLines(AcceptedOf(ops))
  {
    if ops != [] {
      var before := ops[..|ops| - 1];
      AcceptedAreLines(before);
      var op := ops[|ops| - 1];
      if op.Metric? && Accepted(op.text) {
        assert (AcceptedOf(before) + [op.text])[..|AcceptedOf(before)|] == AcceptedOf(before);
      } else {
        assert AcceptedOf(ops) == AcceptedOf(before);
      }
    }
  }

  /** Whatever the metrics and timer ticks: the receiver gets exactly the accepted metrics, in order. */
  lemma ReceiverRecovers(ops: seq<Op>)
    requires LineOps(ops)
    ensures Received(Run(ops).sent) + Lines(Run(ops).pending) == AcceptedOf(ops)
  {
    var groups, open := MetricsStayWhole(ops);
    AcceptedAreLines(ops);
    LinesSplit(ConcatAll(groups), open);
    LinesRecover(open);
    ReceivedGroups(groups, Run(ops).sent);
  }
}

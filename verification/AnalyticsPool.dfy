/** The analytics pool: request handlers queue records in a channel, workers encode them and store them in
    batches, and stopping closes the channel and waits for the workers. */
module AnalyticsPool {
  import opened Sequences
  import opened Wrappers

  // ---------------------------------------------------------------------------------------------
  // Records
  // ---------------------------------------------------------------------------------------------

  datatype Record =
    Record(apiKey: string, orgID: string, apiID: string, path: string, rawPath: string, tags: seq<string>)

  /** Key hashing and record encoding are library code; encoding can fail. */
  datatype Conf = Conf(useRPC: bool, segmented: bool, nodeTags: seq<string>, hash: string -> string,
                       marshal: Record -> Option<string>, bufferSize: nat)

  function Rooted(path: string): (p: string)
    ensures "/" <= p && (p == path || p == "/" + path)
  {
    if "/" <= path then path else "/" + path
  }

  function AddIf(tags: seq<string>, added: bool, more: seq<string>): seq<string> {
    if added then tags + more else tags
  }

  function TagsOf(conf: Conf, r: Record, key: string): seq<string> {
    var node := AddIf(AddIf(r.tags, conf.useRPC, ["tyk-hybrid-rpc"]), conf.segmented, conf.nodeTags);
    AddIf(AddIf(node, key != "", ["key-" + key]), r.orgID != "", ["org-" + r.orgID]) + ["api-" + r.apiID]
  }

  function Prepared(conf: Conf, r: Record): Record {
    var key := conf.hash(r.apiKey);
    Record(key, r.orgID, r.apiID, Rooted(r.path), Rooted(r.rawPath), TagsOf(conf, r, key))
  }

  /** What a tag is added for. */
  predicate Added(conf: Conf, r: Record, tag: string) {
    || (conf.useRPC && tag == "tyk-hybrid-rpc")
    || (conf.segmented && tag in conf.nodeTags)
    || (conf.hash(r.apiKey) != "" && tag == "key-" + conf.hash(r.apiKey))
    || (r.orgID != "" && tag == "org-" + r.orgID)
    || tag == "api-" + r.apiID
  }

  lemma AddedIf(tags: seq<string>, added: bool, more: seq<string>, n: nat, tag: string)
    requires n <= |tags|
    ensures tags <= AddIf(tags, added, more)
    ensures tag in AddIf(tags, added, more)[n..] <==> tag in tags[n..] || (added && tag in more)
  {
    if added {
      assert (tags + more)[n..] == tags[n..] + more;
    }
  }

  /** A stored record keeps the received tags in front, has the API's tag last, and between them exactly the tags of its
      node, key and organisation; its key is hashed and its paths start with a slash. */
  lemma PreparedRecord(conf: Conf, r: Record, tag: string)
    ensures var p := Prepared(conf, r);
      && r.tags <= p.tags && |p.tags| > |r.tags| && p.tags[|p.tags| - 1] == "api-" + r.apiID
      && (tag in p.tags[|r.tags|..] <==> Added(conf, r, tag))
      && (conf.useRPC ==> p.tags[|r.tags|] == "tyk-hybrid-rpc")
      && p.apiKey == conf.hash(r.apiKey) && p.orgID == r.orgID && p.apiID == r.apiID
      && "/" <= p.path && (if "/" <= r.path then p.path == r.path else p.path[1..] == r.path)
      && "/" <= p.rawPath && (if "/" <= r.rawPath then p.rawPath == r.rawPath else p.rawPath[1..] == r.rawPath)
  {
    var n, key := |r.tags|, conf.hash(r.apiKey);
    var a := AddIf(r.tags, conf.useRPC, ["tyk-hybrid-rpc"]);
    var b := AddIf(a, conf.segmented, conf.nodeTags);
    var c := AddIf(b, key != "", ["key-" + key]);
    var d := AddIf(c, r.orgID != "", ["org-" + r.orgID]);
    AddedIf(r.tags, conf.useRPC, ["tyk-hybrid-rpc"], n, tag);
    AddedIf(a, conf.segmented, conf.nodeTags, n, tag);
    AddedIf(b, key != "", ["key-" + key], n, tag);
    AddedIf(c, r.orgID != "", ["org-" + r.orgID], n, tag);
    AddedIf(d, true, ["api-" + r.apiID], n, tag);
  }

  function Encode(conf: Conf, r: Record): Option<string> { conf.marshal(Prepared(conf, r)) }

  // ---------------------------------------------------------------------------------------------
  // One worker
  // ---------------------------------------------------------------------------------------------

  datatype Turn = Turn(buffer: seq<string>, batch: Option<seq<string>>)

  function SendIf(buffer: seq<string>, ready: bool): Turn {
    if buffer != [] && ready then Turn([], Some(buffer)) else Turn(buffer, None)
  }

  /** late: the last batch was sent too long ago. */
  function AfterRecord(conf: Conf, buffer: seq<string>, r: Record, late: bool): Turn {
    var e := Encode(conf, r);
    var grown := if e.Some? then buffer + [e.value] else buffer;
    SendIf(grown, |grown| == conf.bufferSize || late)
  }

  /** The worker's own buffer, grown and reset in place. */
  class Worker {
    const conf: Conf
    var recordsBuffer: seq<string>

    constructor (conf: Conf)
      ensures this.conf == conf && recordsBuffer == []
    {
      this.conf, recordsBuffer := conf, [];
    }

    method Prepare(received: Record) returns (record: Record)
      ensures record == Prepared(conf, received)
    {
      record := received.(apiKey := conf.hash(received.apiKey));
      if conf.useRPC {
        record := record.(tags := record.tags + ["tyk-hybrid-rpc"]);
      }
      if conf.segmented {
        record := record.(tags := record.tags + conf.nodeTags);
      }
      if record.apiKey != "" {
        record := record.(tags := record.tags + ["key-" + record.apiKey]);
      }
      if record.orgID != "" {
        record := record.(tags := record.tags + ["org-" + record.orgID]);
      }
      record := record.(tags := record.tags + ["api-" + record.apiID]);
      if !("/" <= record.path) {
        record := record.(path := "/" + record.path);
      }
      if !("/" <= record.rawPath) {
        record := record.(rawPath := "/" + record.rawPath);
      }
    }

    method OnRecord(received: Record, late: bool) returns (batch: Option<seq<string>>)
      modifies this
      ensures Turn(recordsBuffer, batch) == AfterRecord(conf, old(recordsBuffer), received, late)
    {
      var record := Prepare(received);
      var encoded := conf.marshal(record);
      if encoded.Some? {
        recordsBuffer := recordsBuffer + [encoded.value];
      }
      batch := MaybeSend(|recordsBuffer| == conf.bufferSize, late);
    }

    method MaybeSend(readyToSend: bool, late: bool) returns (batch: Option<seq<string>>)
      modifies this
      ensures Turn(recordsBuffer, batch) == SendIf(old(recordsBuffer), readyToSend || late)
    {
      batch := None;
      if |recordsBuffer| > 0 && (readyToSend || late) {
        batch := Some(recordsBuffer);
        recordsBuffer := [];
      }
    }
  }

  // ---------------------------------------------------------------------------------------------
  // The batches of one worker
  // ---------------------------------------------------------------------------------------------

  /** What a worker meets: a record, at a time when the last batch may be long ago, or nothing for a while. */
  datatype Meeting = Got(record: Record, late: bool) | Idle

  datatype Work = Work(batches: seq<seq<string>>, buffer: seq<string>)

  function Worked(w: Work, t: Turn): Work {
    Work(w.batches + (if t.batch.Some? then [t.batch.value] else []), t.buffer)
  }

  function RunWorker(conf: Conf, ms: seq<Meeting>): Work {
    if ms == [] then Work([], [])
    else
      var w, m := RunWorker(conf, ms[..|ms| - 1]), ms[|ms| - 1];
      Worked(w, TurnOf(conf, w.buffer, m))
  }

  /** The encodings of the received records, in the order they came. */
  function EncodingsOf(conf: Conf, ms: seq<Meeting>): seq<string> {
    if ms == [] then [] else EncodingsOf(conf, ms[..|ms| - 1]) + Texts(conf, ms[|ms| - 1])
  }

  function Flat(batches: seq<seq<string>>): seq<string> {
    if batches == [] then [] else Flat(batches[..|batches| - 1]) + batches[|batches| - 1]
  }

  lemma FlatOne(batches: seq<seq<string>>, batch: seq<string>)
    ensures Flat(batches + [batch]) == Flat(batches) + batch
  {
    assert (batches + [batch])[..|batches|] == batches;
  }

  function Sent(t: Turn): seq<string> { if t.batch.Some? then t.batch.value else [] }

  lemma WorkedFlat(w: Work, t: Turn)
    ensures Flat(Worked(w, t).batches) == Flat(w.batches) + Sent(t)
  {
    if t.batch.Some? {
      FlatOne(w.batches, t.batch.value);
    } else {
      assert w.batches + [] == w.batches;
    }
  }

  function Texts(conf: Conf, m: Meeting): seq<string> {
    if m.Got? && Encode(conf, m.record).Some? then [Encode(conf, m.record).value] else []
  }

  function TurnOf(conf: Conf, buffer: seq<string>, m: Meeting): Turn {
    if m.Idle? then SendIf(buffer, true) else AfterRecord(conf, buffer, m.record, m.late)
  }

  lemma TurnInOrder(conf: Conf, buffer: seq<string>, m: Meeting)
    ensures var t := TurnOf(conf, buffer, m); Sent(t) + t.buffer == buffer + Texts(conf, m)
  {
    assert buffer + [] == buffer && [] + buffer == buffer;
  }

  lemma WorkedInOrder(conf: Conf, w: Work, m: Meeting, before: seq<string>)
    requires Flat(w.batches) + w.buffer == before
    ensures var v := Worked(w, TurnOf(conf, w.buffer, m)); Flat(v.batches) + v.buffer == before + Texts(conf, m)
  {
    var t := TurnOf(conf, w.buffer, m);
    WorkedFlat(w, t);
    TurnInOrder(conf, w.buffer, m);
    Regrouped(Flat(w.batches), Sent(t), t.buffer);
    Regrouped(Flat(w.batches), w.buffer, Texts(conf, m));
  }

  /** A worker stores records in the order it received them: its batches one after the other, and then its buffer. */
  lemma {:induction false} StoresInOrder(conf: Conf, ms: seq<Meeting>)
    ensures var w := RunWorker(conf, ms); Flat(w.batches) + w.buffer == EncodingsOf(conf, ms)
  {
    if ms != [] {
      var n := |ms| - 1;
      StoresInOrder(conf, ms[..n]);
      WorkedInOrder(conf, RunWorker(conf, ms[..n]), ms[n], EncodingsOf(conf, ms[..n]));
    }
  }

  /** No batch is empty, and one below the buffer size is sent only late or after a pause: then all of the buffer is. */
  ghost predicate BatchDue(conf: Conf, m: Meeting, before: Work, after: Work) {
    && (after.batches == before.batches
        || exists b :: b != [] && after.batches == before.batches + [b] && after.buffer == []
             && (m.Idle? || m.late || |b| == conf.bufferSize))
    && (m.Idle? || m.late ==> after.buffer == [])
    && (conf.bufferSize >= 1 && |before.buffer| < conf.bufferSize ==> |after.buffer| < conf.bufferSize)
  }

  /** When batches are sent, at every point of every worker's life. */
  lemma SendsWhenDue(conf: Conf, ms: seq<Meeting>, m: Meeting)
    ensures BatchDue(conf, m, RunWorker(conf, ms), RunWorker(conf, ms + [m]))
  {
    assert (ms + [m])[..|ms|] == ms;
    var w := RunWorker(conf, ms);
    var t := TurnOf(conf, w.buffer, m);
    if t.batch.Some? {
      assert t.batch.value != [];
    } else {
      assert w.batches + [] == w.batches;
    }
  }

  // ---------------------------------------------------------------------------------------------
  // The pool
  // ---------------------------------------------------------------------------------------------

  /** A worker has finished, or holds a buffer and perhaps a record it has just received. */
  datatype WorkerState = Done | Working(buffer: seq<string>, hand: Option<Record>)

  /** sending: handlers that passed the stop check but have not sent; refused: sends on the closed channel. */
  datatype Pool = Pool(
    shouldStop: bool, closed: bool,
    enqueued: seq<Record>, taken: nat,
    sending: multiset<Record>, refused: multiset<Record>,
    workers: seq<WorkerState>, stored: seq<seq<string>>)

  /** Records still in the channel. */
  function Channel(p: Pool): seq<Record>
    requires p.taken <= |p.enqueued|
  {
    p.enqueued[p.taken..]
  }

  datatype Step =
    | Hit(record: Record)                // a handler checks the stop flag
    | Send(record: Record)               // a handler's send goes through, or fails on a closed channel
    | Take(worker: nat)                  // a worker receives, or sees the closed and empty channel
    | Process(worker: nat, late: bool)   // a worker encodes what it received
    | Timeout(worker: nat)               // a worker received nothing for a while
    | SetStop
    | Close

  predicate CanStep(capacity: nat, p: Pool, s: Step) {
    && p.taken <= |p.enqueued|
    && match s
       case Hit(_) => true
       case Send(r) => r in p.sending && (p.closed || |Channel(p)| < capacity)
       case Take(w) => w < |p.workers| && p.workers[w].Working? && p.workers[w].hand.None?
                       && (Channel(p) != [] || p.closed)
       case Process(w, _) => w < |p.workers| && p.workers[w].Working? && p.workers[w].hand.Some?
       case Timeout(w) => w < |p.workers| && p.workers[w].Working? && p.workers[w].hand.None?
       case SetStop => true
       case Close => p.shouldStop && !p.closed
  }

  function WithTurn(p: Pool, w: nat, t: Turn): Pool
    requires w < |p.workers|
  {
    p.(workers := p.workers[w := Working(t.buffer, None)],
       stored := p.stored + if t.batch.Some? then [t.batch.value] else [])
  }

  function Apply(conf: Conf, capacity: nat, p: Pool, s: Step): Pool
    requires CanStep(capacity, p, s)
  {
    match s
    case Hit(r) => if p.shouldStop then p else p.(sending := p.sending + multiset{r})
    case Send(r) =>
      var q := p.(sending := p.sending - multiset{r});
      if p.closed then q.(refused := p.refused + multiset{r}) else q.(enqueued := p.enqueued + [r])
    case Take(w) =>
      var b := p.workers[w].buffer;
      if Channel(p) != [] then
        p.(taken := p.taken + 1, workers := p.workers[w := Working(b, Some(p.enqueued[p.taken]))])
      else
        p.(workers := p.workers[w := Done], stored := p.stored + [b])
    case Process(w, late) =>
      WithTurn(p, w, AfterRecord(conf, p.workers[w].buffer, p.workers[w].hand.value, late))
    case Timeout(w) => WithTurn(p, w, SendIf(p.workers[w].buffer, true))
    case SetStop => p.(shouldStop := true)
    case Close => p.(closed := true)
  }

  /** The pool just started, with a number of workers. */
  function Started(workers: nat): Pool {
    Pool(false, false, [], 0, multiset{}, multiset{}, seq(workers, i => Working([], None)), [])
  }

  ghost predicate Reaches(conf: Conf, capacity: nat, p: Pool, steps: seq<Step>, q: Pool)
    decreases |steps|
  {
    if steps == [] then p == q
    else
      var n := |steps| - 1;
      exists m ::
        Reaches(conf, capacity, p, steps[..n], m) && CanStep(capacity, m, steps[n])
        && q == Apply(conf, capacity, m, steps[n])
  }

  lemma Before(conf: Conf, capacity: nat, p: Pool, steps: seq<Step>, q: Pool) returns (m: Pool)
    requires steps != [] && Reaches(conf, capacity, p, steps, q)
    ensures Reaches(conf, capacity, p, steps[..|steps| - 1], m)
    ensures CanStep(capacity, m, steps[|steps| - 1]) && q == Apply(conf, capacity, m, steps[|steps| - 1])
  {
    var n := |steps| - 1;
    m :| Reaches(conf, capacity, p, steps[..n], m) && CanStep(capacity, m, steps[n])
         && q == Apply(conf, capacity, m, steps[n]);
  }

  // ---------------------------------------------------------------------------------------------
  // Conservation: how often each encoded text e is found
  // ---------------------------------------------------------------------------------------------

  function Count(texts: seq<string>, e: string): nat { multiset(texts)[e] }

  function One(conf: Conf, r: Record, e: string): nat { if Encode(conf, r) == Some(e) then 1 else 0 }

  /** Among the encodings of the first n records. */
  function Encoded(conf: Conf, rs: seq<Record>, n: nat, e: string): nat
    requires n <= |rs|
  {
    if n == 0 then 0 else Encoded(conf, rs, n - 1, e) + One(conf, rs[n - 1], e)
  }

  function Own(conf: Conf, w: WorkerState, e: string): nat {
    if w.Done? then 0 else Count(w.buffer, e) + (if w.hand.Some? then One(conf, w.hand.value, e) else 0)
  }

  /** In the buffers and hands of all workers. */
  function Held(conf: Conf, ws: seq<WorkerState>, e: string): nat {
    if ws == [] then 0 else Held(conf, ws[..|ws| - 1], e) + Own(conf, ws[|ws| - 1], e)
  }

  function Stored(batches: seq<seq<string>>, e: string): nat {
    if batches == [] then 0 else Stored(batches[..|batches| - 1], e) + Count(batches[|batches| - 1], e)
  }

  /** What was received is in a worker's hands, in its buffer or stored. */
  predicate Conserved(conf: Conf, p: Pool, e: string) {
    && p.taken <= |p.enqueued|
    && Encoded(conf, p.enqueued, p.taken, e) == Held(conf, p.workers, e) + Stored(p.stored, e)
  }

  /** A finished worker means a closed and empty channel. */
  ghost predicate Orderly(p: Pool) {
    && p.taken <= |p.enqueued|
    && forall w :: 0 <= w < |p.workers| && p.workers[w].Done? ==> p.closed && p.taken == |p.enqueued|
  }

  lemma {:induction false} HeldUpdate(conf: Conf, ws: seq<WorkerState>, i: nat, w: WorkerState, e: string)
    requires i < |ws|
    ensures Held(conf, ws[i := w], e) + Own(conf, ws[i], e) == Held(conf, ws, e) + Own(conf, w, e)
  {
    var n := |ws| - 1;
    if i == n {
      assert ws[i := w][..n] == ws[..n];
    } else {
      HeldUpdate(conf, ws[..n], i, w, e);
      assert ws[i := w][..n] == ws[..n][i := w];
    }
  }

  lemma StoredOne(batches: seq<seq<string>>, batch: seq<string>, e: string)
    ensures Stored(batches + [batch], e) == Stored(batches, e) + Count(batch, e)
  {
    assert (batches + [batch])[..|batches|] == batches;
  }

  lemma {:induction false} EncodedMore(conf: Conf, rs: seq<Record>, r: Record, n: nat, e: string)
    requires n <= |rs|
    ensures Encoded(conf, rs + [r], n, e) == Encoded(conf, rs, n, e)
  {
    if n > 0 {
      EncodedMore(conf, rs, r, n - 1, e);
    }
  }

  function Batch(t: Turn, e: string): nat { if t.batch.Some? then Count(t.batch.value, e) else 0 }

  lemma TurnKeeps(conf: Conf, buffer: seq<string>, r: Record, late: bool, e: string)
    ensures var t := AfterRecord(conf, buffer, r, late);
            Count(t.buffer, e) + Batch(t, e) == Count(buffer, e) + One(conf, r, e)
  {}

  lemma WithTurnKeeps(conf: Conf, p: Pool, w: nat, t: Turn, e: string)
    requires w < |p.workers| && Count(t.buffer, e) + Batch(t, e) == Own(conf, p.workers[w], e)
    ensures var q := WithTurn(p, w, t);
            Held(conf, q.workers, e) + Stored(q.stored, e) == Held(conf, p.workers, e) + Stored(p.stored, e)
  {
    HeldUpdate(conf, p.workers, w, Working(t.buffer, None), e);
    if t.batch.Some? {
      StoredOne(p.stored, t.batch.value, e);
    } else {
      assert WithTurn(p, w, t).stored == p.stored;
    }
  }

  lemma TakeKeeps(conf: Conf, capacity: nat, p: Pool, w: nat, e: string)
    requires CanStep(capacity, p, Take(w)) && Conserved(conf, p, e)
    ensures Conserved(conf, Apply(conf, capacity, p, Take(w)), e)
  {
    var b := p.workers[w].buffer;
    if Channel(p) != [] {
      HeldUpdate(conf, p.workers, w, Working(b, Some(p.enqueued[p.taken])), e);
    } else {
      HeldUpdate(conf, p.workers, w, Done, e);
      StoredOne(p.stored, b, e);
    }
  }

  lemma StepConserves(conf: Conf, capacity: nat, p: Pool, s: Step, e: string)
    requires CanStep(capacity, p, s) && Conserved(conf, p, e)
    ensures Conserved(conf, Apply(conf, capacity, p, s), e)
  {
    match s
    case Send(r) => EncodedMore(conf, p.enqueued, r, p.taken, e);
    case Take(w) => TakeKeeps(conf, capacity, p, w, e);
    case Process(w, late) =>
      var worker := p.workers[w];
      TurnKeeps(conf, worker.buffer, worker.hand.value, late, e);
      WithTurnKeeps(conf, p, w, AfterRecord(conf, worker.buffer, worker.hand.value, late), e);
    case Timeout(w) => WithTurnKeeps(conf, p, w, SendIf(p.workers[w].buffer, true), e);
    case _ =>
  }

  lemma StepOrderly(conf: Conf, capacity: nat, p: Pool, s: Step)
    requires CanStep(capacity, p, s) && Orderly(p)
    ensures Orderly(Apply(conf, capacity, p, s))
  {}

  lemma {:induction false} StartedHoldsNothing(conf: Conf, workers: nat, e: string)
    ensures Held(conf, Started(workers).workers, e) == 0
  {
    if workers > 0 {
      StartedHoldsNothing(conf, workers - 1, e);
      assert Started(workers).workers[..workers - 1] == Started(workers - 1).workers;
    }
  }

  /** Over every interleaving no record is lost or stored twice. */
  lemma {:induction false} NothingLost(conf: Conf, capacity: nat, workers: nat, steps: seq<Step>, q: Pool, e: string)
    requires Reaches(conf, capacity, Started(workers), steps, q)
    ensures Conserved(conf, q, e) && Orderly(q) && |q.workers| == workers
    decreases |steps|
  {
    if steps == [] {
      StartedHoldsNothing(conf, workers, e);
    } else {
      var n := |steps| - 1;
      var m := Before(conf, capacity, Started(workers), steps, q);
      NothingLost(conf, capacity, workers, steps[..n], m, e);
      StepConserves(conf, capacity, m, steps[n], e);
      StepOrderly(conf, capacity, m, steps[n]);
    }
  }

  lemma {:induction false} AllDoneHoldNothing(conf: Conf, ws: seq<WorkerState>, e: string)
    requires forall w :: 0 <= w < |ws| ==> ws[w].Done?
    ensures Held(conf, ws, e) == 0
  {
    if ws != [] {
      AllDoneHoldNothing(conf, ws[..|ws| - 1], e);
    }
  }

  /** When stopping returns, what has been enqueued has been stored, exactly once. */
  lemma StoppedStoresAll(conf: Conf, capacity: nat, workers: nat, steps: seq<Step>, q: Pool)
    requires Reaches(conf, capacity, Started(workers), steps, q)
    requires workers > 0 && forall w :: 0 <= w < |q.workers| ==> q.workers[w].Done?
    ensures q.closed && Channel(q) == []
    ensures forall e :: Stored(q.stored, e) == Encoded(conf, q.enqueued, |q.enqueued|, e)
  {
    NothingLost(conf, capacity, workers, steps, q, "");
    assert q.workers[0].Done?;
    forall e ensures Stored(q.stored, e) == Encoded(conf, q.enqueued, |q.enqueued|, e) {
      NothingLost(conf, capacity, workers, steps, q, e);
      AllDoneHoldNothing(conf, q.workers, e);
    }
  }

  // ---------------------------------------------------------------------------------------------
  // The channel, and stopping
  // ---------------------------------------------------------------------------------------------

  /** The channel never holds more than it has places. */
  lemma {:induction false} ChannelBounded(conf: Conf, capacity: nat, workers: nat, steps: seq<Step>, q: Pool)
    requires Reaches(conf, capacity, Started(workers), steps, q)
    ensures q.taken <= |q.enqueued| <= q.taken + capacity
    decreases |steps|
  {
    if steps != [] {
      var m := Before(conf, capacity, Started(workers), steps, q);
      ChannelBounded(conf, capacity, workers, steps[..|steps| - 1], m);
    }
  }

  /** Nothing is held back: a pause, or a record that comes late, leaves the worker's buffer empty, and what it held has
      been stored as one batch. */
  lemma LateSends(conf: Conf, capacity: nat, p: Pool, w: nat, s: Step)
    requires (s == Timeout(w) || s == Process(w, true)) && CanStep(capacity, p, s)
    ensures var q := Apply(conf, capacity, p, s);
      var grown := p.workers[w].buffer +
        if s.Process? && Encode(conf, p.workers[w].hand.value).Some?
        then [Encode(conf, p.workers[w].hand.value).value] else [];
      q.workers[w] == Working([], None) && q.stored == p.stored + if grown == [] then [] else [grown]
  {
    assert p.workers[w].buffer + [] == p.workers[w].buffer;
  }

  /** What is left to do for a worker, and for all. */
  function Load(w: WorkerState): nat { if w.Done? then 0 else if w.hand.Some? then 2 else 1 }

  function Loads(ws: seq<WorkerState>): nat {
    if ws == [] then 0 else Loads(ws[..|ws| - 1]) + Load(ws[|ws| - 1])
  }

  lemma {:induction false} LoadsUpdate(ws: seq<WorkerState>, i: nat, w: WorkerState)
    requires i < |ws|
    ensures Loads(ws[i := w]) + Load(ws[i]) == Loads(ws) + Load(w)
  {
    var n := |ws| - 1;
    if i == n {
      assert ws[i := w][..n] == ws[..n];
    } else {
      LoadsUpdate(ws[..n], i, w);
      assert ws[i := w][..n] == ws[..n][i := w];
    }
  }

  predicate AllDone(p: Pool) { forall w :: 0 <= w < |p.workers| ==> p.workers[w].Done? }

  /** The next step of a worker that is not done, in a closed pool. */
  function NextStep(p: Pool, w: nat): Step
    requires w < |p.workers| && p.workers[w].Working?
  {
    if p.workers[w].hand.Some? then Process(w, false) else Take(w)
  }

  function ToDo(p: Pool): int { 3 * (|p.enqueued| - p.taken) + Loads(p.workers) }

  lemma NextHelps(conf: Conf, capacity: nat, p: Pool, w: nat)
    requires p.taken <= |p.enqueued| && p.closed && w < |p.workers| && p.workers[w].Working?
    ensures CanStep(capacity, p, NextStep(p, w))
    ensures var q := Apply(conf, capacity, p, NextStep(p, w));
      q.taken <= |q.enqueued| && q.closed && ToDo(q) < ToDo(p)
  {
    var q := Apply(conf, capacity, p, NextStep(p, w));
    LoadsUpdate(p.workers, w, q.workers[w]);
    assert q.workers == p.workers[w := q.workers[w]];
  }

  lemma {:induction false} ClosedFinishes(conf: Conf, capacity: nat, start: Pool, steps: seq<Step>, p: Pool)
    returns (longer: seq<Step>, q: Pool)
    requires Reaches(conf, capacity, start, steps, p) && p.closed && p.taken <= |p.enqueued|
    ensures steps <= longer && Reaches(conf, capacity, start, longer, q) && q.closed && AllDone(q)
    decreases ToDo(p)
  {
    longer, q := steps, p;
    if !AllDone(p) {
      var w :| 0 <= w < |p.workers| && !p.workers[w].Done?;
      NextHelps(conf, capacity, p, w);
      longer, q := Extend(conf, capacity, start, steps, p, NextStep(p, w));
      longer, q := ClosedFinishes(conf, capacity, start, longer, q);
    }
  }

  /** Stopping comes to an end: from every state that a run can reach, setting the flag, closing the channel and letting
      the workers go on leaves all of them done. */
  lemma StopFinishes(conf: Conf, capacity: nat, workers: nat, steps: seq<Step>, p: Pool)
    returns (longer: seq<Step>, q: Pool)
    requires Reaches(conf, capacity, Started(workers), steps, p)
    ensures steps <= longer && Reaches(conf, capacity, Started(workers), longer, q) && q.closed && AllDone(q)
  {
    ChannelBounded(conf, capacity, workers, steps, p);
    longer, q := Extend(conf, capacity, Started(workers), steps, p, SetStop);
    if !q.closed {
      longer, q := Extend(conf, capacity, Started(workers), longer, q, Close);
    }
    longer, q := ClosedFinishes(conf, capacity, Started(workers), longer, q);
  }

  // ---------------------------------------------------------------------------------------------
  // Batch sizes
  // ---------------------------------------------------------------------------------------------

  predicate Small(size: nat, p: Pool) {
    && (forall w :: 0 <= w < |p.workers| && p.workers[w].Working? ==> |p.workers[w].buffer| < size)
    && (forall i :: 0 <= i < |p.stored| ==> |p.stored[i]| <= size)
  }

  lemma {:induction false} BatchesFit(conf: Conf, capacity: nat, workers: nat, steps: seq<Step>, q: Pool)
    requires Reaches(conf, capacity, Started(workers), steps, q)
    requires conf.bufferSize >= 1
    ensures Small(conf.bufferSize, q)
    decreases |steps|
  {
    if steps != [] {
      var n := |steps| - 1;
      var m := Before(conf, capacity, Started(workers), steps, q);
      BatchesFit(conf, capacity, workers, steps[..n], m);
      StepStaysSmall(conf, capacity, m, steps[n]);
    }
  }

  lemma StepStaysSmall(conf: Conf, capacity: nat, p: Pool, s: Step)
    requires CanStep(capacity, p, s) && conf.bufferSize >= 1 && Small(conf.bufferSize, p)
    ensures Small(conf.bufferSize, Apply(conf, capacity, p, s))
  {}

  /** Adding a step to a run. */
  lemma Extend(conf: Conf, capacity: nat, p: Pool, steps: seq<Step>, m: Pool, s: Step)
    returns (longer: seq<Step>, q: Pool)
    requires Reaches(conf, capacity, p, steps, m) && CanStep(capacity, m, s)
    ensures q == Apply(conf, capacity, m, s) && longer == steps + [s] && Reaches(conf, capacity, p, longer, q)
  {
    longer, q := steps + [s], Apply(conf, capacity, m, s);
    assert longer[..|longer| - 1] == steps;
  }

  /** The pool runs, and its first worker waits on an empty channel with n texts in its buffer. */
  predicate Waiting(p: Pool, n: nat) {
    && |p.workers| > 0 && p.workers[0].Working? && p.workers[0].hand.None? && |p.workers[0].buffer| == n
    && !p.closed && !p.shouldStop && p.taken == |p.enqueued|
  }

  lemma Queue(conf: Conf, capacity: nat, start: Pool, r: Record, steps: seq<Step>, p: Pool, n: nat)
    returns (longer: seq<Step>, q: Pool)
    requires capacity >= 1 && Waiting(p, n) && Reaches(conf, capacity, start, steps, p)
    ensures Reaches(conf, capacity, start, longer, q)
    ensures q.workers == p.workers && !q.closed && !q.shouldStop
    ensures q.taken == |p.enqueued| && q.enqueued == p.enqueued + [r]
  {
    longer, q := Extend(conf, capacity, start, steps, p, Hit(r));
    longer, q := Extend(conf, capacity, start, longer, q, Send(r));
  }

  /** One record goes all the way into the buffer of the first worker. */
  lemma GrowOnce(conf: Conf, capacity: nat, start: Pool, r: Record, steps: seq<Step>, p: Pool, n: nat)
    returns (longer: seq<Step>, q: Pool)
    requires conf.bufferSize == 0 && capacity >= 1 && Encode(conf, r).Some?
    requires Waiting(p, n) && Reaches(conf, capacity, start, steps, p)
    ensures Reaches(conf, capacity, start, longer, q) && Waiting(q, n + 1)
  {
    longer, q := Queue(conf, capacity, start, r, steps, p, n);
    longer, q := Extend(conf, capacity, start, longer, q, Take(0));
    longer, q := Extend(conf, capacity, start, longer, q, Process(0, false));
  }

  lemma {:induction false} Grow(conf: Conf, capacity: nat, workers: nat, r: Record, n: nat)
    returns (steps: seq<Step>, q: Pool)
    requires conf.bufferSize == 0 && capacity >= 1 && workers > 0 && Encode(conf, r).Some?
    ensures Reaches(conf, capacity, Started(workers), steps, q) && Waiting(q, n)
  {
    if n == 0 {
      steps, q := [], Started(workers);
    } else {
      steps, q := Grow(conf, capacity, workers, r, n - 1);
      steps, q := GrowOnce(conf, capacity, Started(workers), r, steps, q, n - 1);
    }
  }

  /** With a buffer size of 0 the size check never fires again, and batches of every size occur. */
  lemma ZeroSizeUnbounded(conf: Conf, capacity: nat, workers: nat, r: Record, n: nat)
    returns (steps: seq<Step>, q: Pool)
    requires conf.bufferSize == 0 && capacity >= 1 && workers > 0 && Encode(conf, r).Some? && n > 0
    ensures Reaches(conf, capacity, Started(workers), steps, q)
    ensures |q.stored| > 0 && |q.stored[|q.stored| - 1]| == n
  {
    steps, q := Grow(conf, capacity, workers, r, n);
    steps, q := Extend(conf, capacity, Started(workers), steps, q, Timeout(0));
  }

  /** Without workers nothing is stored. */
  lemma {:induction false} NobodyStores(conf: Conf, capacity: nat, steps: seq<Step>, q: Pool)
    requires Reaches(conf, capacity, Started(0), steps, q)
    ensures q.workers == [] && q.stored == []
    decreases |steps|
  {
    if steps != [] {
      var m := Before(conf, capacity, Started(0), steps, q);
      NobodyStores(conf, capacity, steps[..|steps| - 1], m);
    }
  }

  // ---------------------------------------------------------------------------------------------
  // Starting and stopping
  // ---------------------------------------------------------------------------------------------

  const MIN_RECORDS_BUFFER_SIZE := 1000
  const DEFAULT_POOL_SIZE := 50

  datatype Sizes = Sizes(workers: nat, bufferSize: nat, capacity: nat)

  /** A negative pool size reads as a 64-bit number in the division and starts no worker. */
  function Configured(poolSize: int, recordsBufferSize: nat): Sizes
    requires -0x8000_0000_0000_0000 <= poolSize
  {
    var ps := if poolSize == 0 then DEFAULT_POOL_SIZE else poolSize;
    var total := if recordsBufferSize < MIN_RECORDS_BUFFER_SIZE then MIN_RECORDS_BUFFER_SIZE else recordsBufferSize;
    if ps < 0 then Sizes(0, Share(total, ps + 0x1_0000_0000_0000_0000), total) else Sizes(ps, Share(total, ps), total)
  }

  function Share(total: nat, parts: nat): nat
    requires parts > 0
  {
    total / parts
  }

  /** The workers share the channel's size, and get a size of 0 just when they are more than its places. */
  lemma SharedSize(poolSize: int, recordsBufferSize: nat)
    requires 0 <= poolSize
    ensures var s := Configured(poolSize, recordsBufferSize);
            && s.workers == (if poolSize == 0 then 50 else poolSize)
            && s.capacity == (if recordsBufferSize < 1000 then 1000 else recordsBufferSize)
            && s.bufferSize * s.workers <= s.capacity < (s.bufferSize + 1) * s.workers
            && (s.bufferSize >= 1 <==> s.workers <= s.capacity)
  {
    var s := Configured(poolSize, recordsBufferSize);
    Quotient(s.capacity, s.workers);
  }

  predicate BatchesWithin(size: nat, p: Pool) {
    forall i :: 0 <= i < |p.stored| ==> |p.stored[i]| <= size
  }

  /** No run of a pool with these settings stores a batch above the workers' buffer size. */
  ghost predicate AlwaysWithin(conf: Conf, s: Sizes) {
    forall steps, q :: Reaches(conf, s.capacity, Started(s.workers), steps, q) ==> BatchesWithin(s.bufferSize, q)
  }

  /** The exact settings: batches are bounded if and only if there are no more workers than places in the channel.
      Failing that, some run stores a batch of any size one likes. */
  lemma BatchBoundExactly(conf: Conf, poolSize: int, recordsBufferSize: nat, r: Record)
    requires -0x8000_0000_0000_0000 <= poolSize && Encode(conf, r).Some?
    requires conf.bufferSize == Configured(poolSize, recordsBufferSize).bufferSize
    ensures var s := Configured(poolSize, recordsBufferSize); AlwaysWithin(conf, s) <==> s.workers <= s.capacity
  {
    var s := Configured(poolSize, recordsBufferSize);
    if poolSize >= 0 {
      SharedSize(poolSize, recordsBufferSize);
    }
    if s.workers <= s.capacity {
      forall steps, q | Reaches(conf, s.capacity, Started(s.workers), steps, q) ensures BatchesWithin(s.bufferSize, q) {
        if s.workers == 0 {
          NobodyStores(conf, s.capacity, steps, q);
        } else {
          BatchesFit(conf, s.capacity, s.workers, steps, q);
        }
      }
    } else {
      var steps, q := ZeroSizeUnbounded(conf, s.capacity, s.workers, r, 1);
      assert !BatchesWithin(s.bufferSize, q);
    }
  }

  lemma Quotient(a: nat, b: nat)
    requires b > 0
    ensures (a / b) * b <= a < (a / b + 1) * b
    ensures a / b >= 1 <==> b <= a
  {
    assert a == (a / b) * b + a % b;
    if a / b >= 1 {
      assert (a / b) * b >= 1 * b;
    }
  }

  /** How often a record was hit before the stop flag was set. */
  function Hits(steps: seq<Step>, r: Record): nat {
    if steps == [] then 0
    else
      var n := |steps| - 1;
      Hits(steps[..n], r) + (if steps[n] == Hit(r) && SetStop !in steps[..n] then 1 else 0)
  }

  function Places(p: Pool, r: Record): nat { multiset(p.enqueued)[r] + p.sending[r] + p.refused[r] }

  lemma StepPlaces(conf: Conf, capacity: nat, p: Pool, s: Step, r: Record)
    requires CanStep(capacity, p, s)
    ensures Places(Apply(conf, capacity, p, s), r) == Places(p, r) + (if s == Hit(r) && !p.shouldStop then 1 else 0)
  {}

  lemma {:induction false} Flags(conf: Conf, capacity: nat, workers: nat, steps: seq<Step>, q: Pool)
    requires Reaches(conf, capacity, Started(workers), steps, q)
    ensures q.shouldStop <==> SetStop in steps
    ensures q.closed ==> q.shouldStop
    decreases |steps|
  {
    if steps != [] {
      var n := |steps| - 1;
      var m := Before(conf, capacity, Started(workers), steps, q);
      Flags(conf, capacity, workers, steps[..n], m);
      assert steps == steps[..n] + [steps[n]];
      assert SetStop in steps <==> (SetStop in steps[..n] || steps[n] == SetStop);
    }
  }

  /** Every such record was enqueued, was refused by the closed channel or is still being sent. */
  lemma {:induction false} HitsAccounted(conf: Conf, capacity: nat, workers: nat, steps: seq<Step>, q: Pool, r: Record)
    requires Reaches(conf, capacity, Started(workers), steps, q)
    ensures Hits(steps, r) == Places(q, r)
    decreases |steps|
  {
    if steps != [] {
      var n := |steps| - 1;
      var m := Before(conf, capacity, Started(workers), steps, q);
      HitsAccounted(conf, capacity, workers, steps[..n], m, r);
      Flags(conf, capacity, workers, steps[..n], m);
      StepPlaces(conf, capacity, m, steps[n], r);
    }
  }

  lemma {:induction false} Joined(conf: Conf, capacity: nat, p: Pool, before: seq<Step>, m: Pool,
                                  after: seq<Step>, q: Pool)
    requires Reaches(conf, capacity, p, before, m) && Reaches(conf, capacity, m, after, q)
    ensures Reaches(conf, capacity, p, before + after, q)
    decreases |after|
  {
    if after == [] {
      assert before + after == before;
    } else {
      var n := |after| - 1;
      var l := Before(conf, capacity, m, after, q);
      Joined(conf, capacity, p, before, m, after[..n], l);
      var longer, end := Extend(conf, capacity, p, before + after[..n], l, after[n]);
      assert longer == before + after;
    }
  }

  /** If nothing was being sent when the channel was closed, then once the workers are done every hit made before the
      stop flag has been stored: the hits are the enqueued records, and their encodings the stored ones. */
  lemma QuietStopStoresAllHits(conf: Conf, capacity: nat, workers: nat, before: seq<Step>, p: Pool,
                               after: seq<Step>, q: Pool, r: Record, e: string)
    requires Reaches(conf, capacity, Started(workers), before, p)
    requires p.closed && p.sending == multiset{} && p.refused == multiset{}
    requires Reaches(conf, capacity, p, after, q)
    requires workers > 0 && forall w :: 0 <= w < |q.workers| ==> q.workers[w].Done?
    ensures Hits(before, r) == multiset(q.enqueued)[r]
    ensures Stored(q.stored, e) == Encoded(conf, q.enqueued, |q.enqueued|, e)
  {
    Flags(conf, capacity, workers, before, p);
    HitsAccounted(conf, capacity, workers, before, p, r);
    QuietStays(conf, capacity, p, after, q);
    Joined(conf, capacity, Started(workers), before, p, after, q);
    StoppedStoresAll(conf, capacity, workers, before + after, q);
  }

  lemma {:induction false} QuietStays(conf: Conf, capacity: nat, p: Pool, after: seq<Step>, q: Pool)
    requires p.closed && p.shouldStop && p.sending == multiset{} && p.refused == multiset{}
    requires Reaches(conf, capacity, p, after, q)
    ensures q.closed && q.shouldStop && q.enqueued == p.enqueued
    ensures q.sending == multiset{} && q.refused == multiset{}
    decreases |after|
  {
    if after != [] {
      var n := |after| - 1;
      var m := Before(conf, capacity, p, after, q);
      QuietStays(conf, capacity, p, after[..n], m);
    }
  }
}

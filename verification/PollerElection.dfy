/** Which gateway runs the uptime tests: a lease on a key with a time to live in the shared store.

    Every instance checks the key from time to time. Time is in seconds; an entry is readable until its time
    to live is over. */
module PollerElection {
  import opened SmallSets
  import opened Wrappers

  const TTL := 15

  datatype Lease = Lease(holder: string, expires: int)

  /** The store, the instances that run a poller, and when each instance checked last. */
  datatype System = System(now: int, key: Option<Lease>, polling: set<string>, checked: map<string, int>)

  /** What reading the key gives: an expired entry is missing. */
  function ReadKey(key: Option<Lease>, now: int): Option<string> {
    if key.Some? && now < key.value.expires then Some(key.value.holder) else None
  }

  predicate MayPoll(s: System, id: string) {
    ReadKey(s.key, s.now).None? || ReadKey(s.key, s.now).value == id
  }

  datatype Step = Check(id: string) | Wait(seconds: nat)

  function Apply(s: System, step: Step): System {
    match step
    case Wait(d) => s.(now := s.now + d)
    case Check(id) =>
      if MayPoll(s, id)
      then System(s.now, Some(Lease(id, s.now + TTL)), s.polling + {id}, s.checked[id := s.now])
      else System(s.now, s.key, s.polling - {id}, s.checked[id := s.now])
  }

  /** An instance that polls checks again before its lease ends; the source's ticker fires every 10 seconds. */
  predicate InTime(s: System, step: Step) {
    step.Wait? ==> forall id :: id in s.polling && id in s.checked ==> s.now + step.seconds < s.checked[id] + 15
  }

  function Run(s: System, steps: seq<Step>): System {
    if steps == [] then s else Apply(Run(s, steps[..|steps| - 1]), steps[|steps| - 1])
  }

  predicate Punctual(s: System, steps: seq<Step>) {
    steps != [] ==>
      Punctual(s, steps[..|steps| - 1]) && InTime(Run(s, steps[..|steps| - 1]), steps[|steps| - 1])
  }

  /** An instance that polls and has checked holds the key, and its lease is running. */
  ghost predicate HoldersOnly(s: System) {
    forall id :: id in s.polling && id in s.checked ==>
      s.key == Some(Lease(id, s.checked[id] + TTL)) && s.now < s.checked[id] + TTL
  }

  lemma StepKeepsHolders(s: System, step: Step)
    requires HoldersOnly(s) && InTime(s, step)
    ensures HoldersOnly(Apply(s, step))
  {
  }

  lemma {:induction false} RunKeepsHolders(s: System, steps: seq<Step>)
    requires HoldersOnly(s) && Punctual(s, steps)
    ensures HoldersOnly(Run(s, steps))
  {
    if steps != [] {
      RunKeepsHolders(s, steps[..|steps| - 1]);
      StepKeepsHolders(Run(s, steps[..|steps| - 1]), steps[|steps| - 1]);
    }
  }

  /** From whatever state: of the instances that have checked since, at most one polls. */
  lemma AtMostOnePolls(s: System, steps: seq<Step>, i: string, j: string)
    requires s.checked == map[] && Punctual(s, steps)
    requires var e := Run(s, steps); i in e.polling && i in e.checked && j in e.polling && j in e.checked
    ensures i == j
  {
    RunKeepsHolders(s, steps);
  }

  /** Only an instance that has checked can have started polling. */
  lemma {:induction false} PollersHaveChecked(s: System, steps: seq<Step>)
    requires s.polling <= s.checked.Keys
    ensures Run(s, steps).polling <= Run(s, steps).checked.Keys
  {
    if steps != [] {
      PollersHaveChecked(s, steps[..|steps| - 1]);
    }
  }

  /** Started with no poller, there is never more than one, in every run. */
  lemma NeverTwoPollers(key: Option<Lease>, now: int, steps: seq<Step>)
    requires Punctual(System(now, key, {}, map[]), steps)
    ensures |Run(System(now, key, {}, map[]), steps).polling| <= 1
  {
    var s := System(now, key, {}, map[]);
    PollersHaveChecked(s, steps);
    forall i, j | i in Run(s, steps).polling && j in Run(s, steps).polling
      ensures i == j
    {
      AtMostOnePolls(s, steps, i, j);
    }
    AllEqual(Run(s, steps).polling);
  }

  /** A silent poller is replaced: once its lease is over, the next instance to check polls. */
  lemma SilentPollerReplaced(s: System, steps: seq<Step>, i: string, j: string, d: nat)
    requires s.checked == map[] && Punctual(s, steps)
    requires var e := Run(s, steps); i in e.polling && i in e.checked && e.now + d >= e.checked[i] + 15
    ensures var e := Apply(Apply(Run(s, steps), Wait(d)), Check(j));
      j in e.polling && ReadKey(e.key, e.now) == Some(j)
  {
    RunKeepsHolders(s, steps);
  }

  // ---------------------------------------------------------------------------------------------
  // Exactly when there are never two pollers
  // ---------------------------------------------------------------------------------------------

  /** At no point of the run does more than one instance poll. */
  predicate NeverTwo(s: System, steps: seq<Step>) {
    |Run(s, steps).polling| <= 1 && (steps != [] ==> NeverTwo(s, steps[..|steps| - 1]))
  }

  /** Whenever an instance checks, every other poller checked less than a lease time before. */
  predicate LeasesRun(s: System, steps: seq<Step>) {
    steps != [] ==>
      && LeasesRun(s, steps[..|steps| - 1])
      && LeasesHold(Run(s, steps[..|steps| - 1]), steps[|steps| - 1])
  }

  predicate LeasesHold(s: System, step: Step) {
    step.Check? ==> forall i :: i in s.polling && i != step.id ==> i in s.checked && s.now < s.checked[i] + 15
  }

  /** Every poller holds the key, under the lease it took when it last checked. */
  ghost predicate PollersHold(s: System) {
    forall i :: i in s.polling ==> i in s.checked && s.key == Some(Lease(i, s.checked[i] + TTL))
  }

  /** Where every poller holds the key, a check keeps it so just when no other poller's lease is over; otherwise
      the late poller and the one that checks both poll. */
  lemma OneStep(s: System, step: Step)
    requires PollersHold(s)
    ensures LeasesHold(s, step) ==> PollersHold(Apply(s, step)) && |Apply(s, step).polling| <= 1
    ensures !LeasesHold(s, step) ==> |Apply(s, step).polling| > 1
  {
    var e := Apply(s, step);
    if LeasesHold(s, step) {
      forall a, b | a in e.polling && b in e.polling ensures a == b {}
      AllEqual(e.polling);
    } else {
      var i :| i in s.polling && i != step.id && !(i in s.checked && s.now < s.checked[i] + 15);
      TwoElements(e.polling, i, step.id);
    }
  }

  lemma {:induction false} HoldWhileOne(s: System, steps: seq<Step>)
    requires s.polling == {} && NeverTwo(s, steps)
    ensures PollersHold(Run(s, steps)) && LeasesRun(s, steps)
  {
    if steps != [] {
      HoldWhileOne(s, steps[..|steps| - 1]);
      OneStep(Run(s, steps[..|steps| - 1]), steps[|steps| - 1]);
    }
  }

  lemma {:induction false} OneWhileLeasesRun(s: System, steps: seq<Step>)
    requires s.polling == {} && LeasesRun(s, steps)
    ensures PollersHold(Run(s, steps)) && NeverTwo(s, steps)
  {
    if steps != [] {
      OneWhileLeasesRun(s, steps[..|steps| - 1]);
      OneStep(Run(s, steps[..|steps| - 1]), steps[|steps| - 1]);
    }
  }

  /** For every run that starts with no poller: there are never two if and only if nobody checks after the lease of
      another poller is over. */
  lemma NeverTwoExactly(s: System, steps: seq<Step>)
    requires s.polling == {}
    ensures NeverTwo(s, steps) <==> LeasesRun(s, steps)
  {
    if NeverTwo(s, steps) {
      HoldWhileOne(s, steps);
    }
    if LeasesRun(s, steps) {
      OneWhileLeasesRun(s, steps);
    }
  }

  /** After every such run with poller i: a check of another instance gives two pollers just when i is late. */
  lemma LateCheckGivesTwo(s: System, steps: seq<Step>, i: string, j: string)
    requires s.polling == {} && NeverTwo(s, steps) && i in Run(s, steps).polling && i != j
    ensures i in Run(s, steps).checked
    ensures var e := Run(s, steps);
      Apply(e, Check(j)).polling == if e.now < e.checked[i] + 15 then {i} else {i, j}
  {
    HoldWhileOne(s, steps);
    var e := Run(s, steps);
    forall k | k in e.polling ensures k == i {
      OneElement(e.polling, i, k);
    }
    assert e.polling == {i};
  }

  // ---------------------------------------------------------------------------------------------
  // The check is two store operations
  // ---------------------------------------------------------------------------------------------

  /** The second half: decide on what was read before. */
  function Decide(s: System, id: string, seen: Option<string>): System {
    if seen.None? || seen.value == id
    then System(s.now, Some(Lease(id, s.now + TTL)), s.polling + {id}, s.checked[id := s.now])
    else System(s.now, s.key, s.polling - {id}, s.checked[id := s.now])
  }

  /** Reading the key, acting on what was read, or time passing. */
  datatype Half = Read(id: string) | Act(id: string) | Pause(seconds: nat)

  /** seen: what the instances between their read and their write have read. */
  datatype Split = Split(system: System, seen: map<string, Option<string>>)

  function ApplyHalf(s: Split, h: Half): Split {
    match h
    case Read(id) => s.(seen := s.seen[id := ReadKey(s.system.key, s.system.now)])
    case Act(id) => if id in s.seen then Split(Decide(s.system, id, s.seen[id]), s.seen - {id}) else s
    case Pause(d) => s.(system := Apply(s.system, Wait(d)))
  }

  function RunHalves(s: Split, hs: seq<Half>): Split {
    if hs == [] then s else ApplyHalf(RunHalves(s, hs[..|hs| - 1]), hs[|hs| - 1])
  }

  lemma OneMoreHalf(s: Split, hs: seq<Half>, h: Half)
    ensures RunHalves(s, hs + [h]) == ApplyHalf(RunHalves(s, hs), h)
  {
    assert (hs + [h])[..|hs|] == hs;
  }

  /** Every check done without interruption. */
  function Halves(steps: seq<Step>): seq<Half> {
    if steps == [] then []
    else
      var before, step := Halves(steps[..|steps| - 1]), steps[|steps| - 1];
      if step.Wait? then before + [Pause(step.seconds)] else before + [Read(step.id)] + [Act(step.id)]
  }

  /** Runs whose checks are not interrupted are the runs above. */
  lemma {:induction false} HalvesAreTheCheck(s: System, steps: seq<Step>)
    ensures RunHalves(Split(s, map[]), Halves(steps)) == Split(Run(s, steps), map[])
  {
    if steps != [] {
      var n, t := |steps| - 1, Split(s, map[]);
      HalvesAreTheCheck(s, steps[..n]);
      var before, step := Halves(steps[..n]), steps[n];
      if step.Wait? {
        OneMoreHalf(t, before, Pause(step.seconds));
      } else {
        OneMoreHalf(t, before, Read(step.id));
        OneMoreHalf(t, before + [Read(step.id)], Act(step.id));
        assert map[step.id := ReadKey(Run(s, steps[..n]).key, Run(s, steps[..n]).now)] - {step.id} == map[];
      }
    }
  }

  /** Two instances that both read a missing key before either writes both poll, however punctual they are. */
  lemma OverlappingChecksGiveTwo(s: System, i: string, j: string)
    requires i != j && ReadKey(s.key, s.now).None?
    ensures RunHalves(Split(s, map[]), [Read(i), Read(j), Act(i), Act(j)]).system.polling == s.polling + {i, j}
  {
    var t := Split(s, map[]);
    OneMoreHalf(t, [], Read(i));
    OneMoreHalf(t, [Read(i)], Read(j));
    OneMoreHalf(t, [Read(i), Read(j)], Act(i));
    OneMoreHalf(t, [Read(i), Read(j), Act(i)], Act(j));
    assert [] + [Read(i)] == [Read(i)] && [Read(i)] + [Read(j)] == [Read(i), Read(j)];
    assert [Read(i), Read(j)] + [Act(i)] == [Read(i), Read(j), Act(i)];
    assert [Read(i), Read(j), Act(i)] + [Act(j)] == [Read(i), Read(j), Act(i), Act(j)];
  }

  /** An instance acts on a missing or its own key while another one polls. */
  predicate Intrudes(s: Split, h: Half) {
    && h.Act? && h.id in s.seen && (s.seen[h.id].None? || s.seen[h.id].value == h.id)
    && exists i :: i in s.system.polling && i != h.id
  }

  predicate NobodyIntrudes(s: Split, hs: seq<Half>) {
    hs != [] ==>
      NobodyIntrudes(s, hs[..|hs| - 1]) && !Intrudes(RunHalves(s, hs[..|hs| - 1]), hs[|hs| - 1])
  }

  /** At no point of the run of halves does more than one instance poll. */
  predicate HalvesNeverTwo(s: Split, hs: seq<Half>) {
    |RunHalves(s, hs).system.polling| <= 1 && (hs != [] ==> HalvesNeverTwo(s, hs[..|hs| - 1]))
  }

  lemma OneHalf(s: Split, h: Half)
    requires |s.system.polling| <= 1
    ensures |ApplyHalf(s, h).system.polling| <= 1 <==> !Intrudes(s, h)
  {
    var was, now := s.system.polling, ApplyHalf(s, h).system.polling;
    if Intrudes(s, h) {
      var i :| i in was && i != h.id;
      TwoElements(now, i, h.id);
    } else {
      forall a, b | a in now && b in now ensures a == b {
        if a in was && b in was {
          OneElement(was, a, b);
        }
      }
      AllEqual(now);
    }
  }

  /** However reads and acts interleave, from no poller: there are never two if and only if nobody acts on a missing or
      its own key, as it was when it was read, while another instance polls. */
  lemma {:induction false} HalvesNeverTwoExactly(s: Split, hs: seq<Half>)
    requires s.system.polling == {}
    ensures HalvesNeverTwo(s, hs) <==> NobodyIntrudes(s, hs)
  {
    if hs != [] {
      var before := hs[..|hs| - 1];
      HalvesNeverTwoExactly(s, before);
      if HalvesNeverTwo(s, before) {
        OneHalf(RunHalves(s, before), hs[|hs| - 1]);
      }
    }
  }

  /** Such an overlap heals: as soon as every poller has checked again on its own, at most one is left. */
  lemma OverlapHeals(s: System, steps: seq<Step>)
    requires s.checked == map[] && Punctual(s, steps)
    requires forall id :: id in s.polling ==> Check(id) in steps
    ensures |Run(s, steps).polling| <= 1
  {
    CheckedAreRecorded(s, steps);
    OldOrChecked(s, steps);
    var e := Run(s, steps);
    forall i, j | i in e.polling && j in e.polling
      ensures i == j
    {
      AtMostOnePolls(s, steps, i, j);
    }
    AllEqual(e.polling);
  }

  lemma {:induction false} CheckedAreRecorded(s: System, steps: seq<Step>)
    ensures forall id :: Check(id) in steps ==> id in Run(s, steps).checked
  {
    if steps != [] {
      CheckedAreRecorded(s, steps[..|steps| - 1]);
      assert steps == steps[..|steps| - 1] + [steps[|steps| - 1]];
    }
  }

  lemma {:induction false} OldOrChecked(s: System, steps: seq<Step>)
    ensures Run(s, steps).polling <= s.polling + Run(s, steps).checked.Keys
  {
    if steps != [] {
      OldOrChecked(s, steps[..|steps| - 1]);
    }
  }

  // ---------------------------------------------------------------------------------------------
  // The imperative form
  // ---------------------------------------------------------------------------------------------

  class Store {
    var now: int
    var key: Option<Lease>

    method GetKey() returns (value: Option<string>)
      ensures value == ReadKey(key, now)
    {
      value := if key.Some? && now < key.value.expires then Some(key.value.holder) else None;
    }

    method SetKey(value: string, ttl: int)
      modifies this
      ensures key == Some(Lease(value, now + ttl)) && now == old(now)
    {
      key := Some(Lease(value, now + ttl));
    }
  }

  class HostCheckerManager {
    const id: string
    const store: Store?
    var stopLoop: bool
    var pollerStarted: bool

    constructor (id: string, store: Store?)
      ensures this.id == id && this.store == store && !stopLoop && !pollerStarted
    {
      this.id, this.store := id, store;
      stopLoop, pollerStarted := false, false;
    }

    method AmIPolling() returns (polling: bool)
      modifies store
      ensures store == null ==> !polling
      ensures store != null ==>
        && store.now == old(store.now)
        && polling == (old(ReadKey(store.key, store.now)) in {None, Some(id)})
        && store.key == if polling then Some(Lease(id, store.now + 15)) else old(store.key)
    {
      if store == null {
        return false;
      }
      var active := store.GetKey();
      if active.None? {
        store.SetKey(id, TTL);
        return true;
      }
      if active.value == id {
        store.SetKey(id, TTL);
        return true;
      }
      return false;
    }

    /** One check is one step of the system, seen from this instance. Without a store it never polls. */
    method CheckPollerLoop(ghost s: System) returns (ghost s': System)
      requires store != null ==> s.now == store.now && s.key == store.key && (id in s.polling <==> pollerStarted)
      modifies this, store
      ensures stopLoop == old(stopLoop)
      ensures old(stopLoop) ==> pollerStarted == old(pollerStarted) && s' == s
      ensures store == null && !old(stopLoop) ==> !pollerStarted
      ensures store != null ==>
        && s' == (if old(stopLoop) then s else Apply(s, Check(id)))
        && s'.now == store.now && s'.key == store.key && (id in s'.polling <==> pollerStarted)
    {
      s' := if stopLoop then s else Apply(s, Check(id));
      if !stopLoop {
        var polling := AmIPolling();
        if polling {
          if !pollerStarted {
            pollerStarted := true;
          }
        } else {
          if pollerStarted {
            pollerStarted := false;
          }
        }
      }
    }
  }
}

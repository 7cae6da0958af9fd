/** The uptime reporter: counting failed and good checks of every host, and calling back when a host goes down or
    comes up. A host's counter may expire at any time. */
module HostReporter {
  import opened Wrappers

  datatype Call = Up | Fail

  datatype Kind = Good | Failed | Expired

  datatype Event = Event(host: string, kind: Kind)

  const DEFAULT_SAMPLE_TRIGGER_LIMIT := 3

  // ---------------------------------------------------------------------------------------------
  // One host
  // ---------------------------------------------------------------------------------------------

  datatype Host = Host(down: bool, count: Option<int>, calls: seq<Call>)

  const FRESH := Host(false, None, [])

  function OnGood(h: Host): Host {
    if !h.down then h
    else
      var next := if h.count.Some? then h.count.value - 1 else 1;
      if next <= 0 then Host(false, None, h.calls + [Up]) else h.(count := Some(next))
  }

  function OnFailed(limit: int, h: Host): Host {
    var next := if h.count.Some? then h.count.value + 1 else 1;
    if next >= limit then Host(true, h.count, h.calls + [Fail]) else h.(count := Some(next))
  }

  function Next(limit: int, h: Host, kind: Kind): Host {
    match kind
    case Good => OnGood(h)
    case Failed => OnFailed(limit, h)
    case Expired => h.(count := None)
  }

  function RunHost(limit: int, kinds: seq<Kind>): Host {
    if kinds == [] then FRESH else Next(limit, RunHost(limit, kinds[..|kinds| - 1]), kinds[|kinds| - 1])
  }

  // ---------------------------------------------------------------------------------------------
  // The reporter
  // ---------------------------------------------------------------------------------------------

  class HostUptimeChecker {
    var sampleTriggerLimit: int
    var unHealthyList: set<string>
    var sampleCache: map<string, int>
    var calls: map<string, seq<Call>>

    constructor (triggerLimit: int)
      ensures sampleTriggerLimit == if triggerLimit == 0 then 3 else triggerLimit
      ensures forall host :: HostOf(host) == FRESH
    {
      sampleTriggerLimit := if triggerLimit == 0 then DEFAULT_SAMPLE_TRIGGER_LIMIT else triggerLimit;
      unHealthyList, sampleCache, calls := {}, map[], map[];
    }

    function HostOf(host: string): Host
      reads this
    {
      Host(host in unHealthyList,
           if host in sampleCache then Some(sampleCache[host]) else None,
           if host in calls then calls[host] else [])
    }

    method CallBack(host: string, call: Call)
      modifies this`calls
      ensures calls == old(calls)[host := old(HostOf(host)).calls + [call]]
    {
      calls := calls[host := (if host in calls then calls[host] else []) + [call]];
    }

    method ReportGood(host: string)
      modifies this`unHealthyList, this`sampleCache, this`calls
      ensures forall other ::
                HostOf(other) == if other == host then OnGood(old(HostOf(host))) else old(HostOf(other))
    {
      if host in unHealthyList {
        var newVal := 1;
        if host in sampleCache {
          newVal := sampleCache[host] - 1;
        }
        if newVal <= 0 {
          sampleCache := sampleCache - {host};
          CallBack(host, Up);
          unHealthyList := unHealthyList - {host};
        } else {
          sampleCache := sampleCache[host := newVal];
        }
      }
    }

    method ReportFailed(host: string)
      modifies this`unHealthyList, this`sampleCache, this`calls
      ensures forall other :: HostOf(other) ==
                if other == host then OnFailed(sampleTriggerLimit, old(HostOf(host))) else old(HostOf(other))
    {
      var newVal := 1;
      if host in sampleCache {
        newVal := sampleCache[host] + 1;
      }
      if newVal >= sampleTriggerLimit {
        unHealthyList := unHealthyList + {host};
        CallBack(host, Fail);
      } else {
        sampleCache := sampleCache[host := newVal];
      }
    }

    method Expire(host: string)
      modifies this`sampleCache
      ensures forall other ::
                HostOf(other) == if other == host then old(HostOf(host)).(count := None) else old(HostOf(other))
    {
      sampleCache := sampleCache - {host};
    }

    /** Hosts are reported on independently: each one sees only its own events. */
    method Report(events: seq<Event>)
      requires forall host :: HostOf(host) == FRESH
      modifies this`unHealthyList, this`sampleCache, this`calls
      ensures forall host :: HostOf(host) == RunHost(sampleTriggerLimit, KindsOf(events, host))
    {
      for i := 0 to |events|
        invariant forall host :: HostOf(host) == RunHost(sampleTriggerLimit, KindsOf(events[..i], host))
      {
        ghost var limit := sampleTriggerLimit;
        forall host ensures RunHost(limit, KindsOf(events[..i + 1], host)) ==
                            if host == events[i].host
                            then Next(limit, RunHost(limit, KindsOf(events[..i], host)), events[i].kind)
                            else RunHost(limit, KindsOf(events[..i], host))
        {
          OneMore(limit, events, i, host);
        }
        match events[i].kind
        case Good => ReportGood(events[i].host);
        case Failed => ReportFailed(events[i].host);
        case Expired => Expire(events[i].host);
      }
      assert events[..|events|] == events;
    }
  }

  function KindsOf(events: seq<Event>, host: string): seq<Kind> {
    if events == [] then []
    else
      var n := |events| - 1;
      KindsOf(events[..n], host) + (if events[n].host == host then [events[n].kind] else [])
  }

  lemma OneMore(limit: int, events: seq<Event>, i: nat, host: string)
    requires i < |events|
    ensures RunHost(limit, KindsOf(events[..i + 1], host)) ==
            if host == events[i].host
            then Next(limit, RunHost(limit, KindsOf(events[..i], host)), events[i].kind)
            else RunHost(limit, KindsOf(events[..i], host))
  {
    assert events[..i + 1][..i] == events[..i];
    var kinds := KindsOf(events[..i], host);
    assert (kinds + [events[i].kind])[..|kinds|] == kinds;
    assert kinds + [] == kinds;
  }

  // ---------------------------------------------------------------------------------------------
  // Callbacks and counters, whatever expires
  // ---------------------------------------------------------------------------------------------

  /** Every Up answers a Fail, and a host is down just when a Fail is still unanswered. */
  predicate Answered(h: Host) {
    && (forall i :: 0 <= i < |h.calls| && h.calls[i] == Up ==> i > 0 && h.calls[i - 1] == Fail)
    && (h.down <==> h.calls != [] && h.calls[|h.calls| - 1] == Fail)
  }

  predicate InRange(limit: int, h: Host) {
    h.count.Some? ==> 1 <= h.count.value <= if limit - 1 > 1 then limit - 1 else 1
  }

  lemma {:induction false} UpAnswersFail(limit: int, kinds: seq<Kind>)
    ensures Answered(RunHost(limit, kinds)) && InRange(limit, RunHost(limit, kinds))
  {
    if kinds != [] {
      UpAnswersFail(limit, kinds[..|kinds| - 1]);
    }
  }

  /** From any state a down host is called up by exactly that many good checks in a row. */
  function GoodsNeeded(h: Host): int { if h.count.Some? then h.count.value else 2 }

  function Goods(h: Host, k: nat): Host { if k == 0 then h else OnGood(Goods(h, k - 1)) }

  lemma RecoversExactly(limit: int, kinds: seq<Kind>, k: nat)
    requires RunHost(limit, kinds).down
    ensures var h := RunHost(limit, kinds);
            && (Goods(h, k).down <==> k < GoodsNeeded(h))
            && Goods(h, k).calls == h.calls + (if k < GoodsNeeded(h) then [] else [Up])
  {
    UpAnswersFail(limit, kinds);
    Recovers(RunHost(limit, kinds), k);
  }

  lemma {:induction false} Recovers(h: Host, k: nat)
    requires h.down && (h.count.Some? ==> h.count.value >= 1)
    ensures Goods(h, k).down <==> k < GoodsNeeded(h)
    ensures Goods(h, k).calls == h.calls + (if k < GoodsNeeded(h) then [] else [Up])
    ensures 0 < k < GoodsNeeded(h) ==> Goods(h, k).count == Some(GoodsNeeded(h) - k)
    ensures k >= GoodsNeeded(h) ==> Goods(h, k).count == None
  {
    if k > 0 {
      Recovers(h, k - 1);
    }
  }

  // ---------------------------------------------------------------------------------------------
  // Thresholds when nothing expires
  // ---------------------------------------------------------------------------------------------

  /** Failed checks since the host was last called up. */
  function FailuresSinceUp(limit: int, kinds: seq<Kind>): nat {
    if kinds == [] then 0
    else
      var n := |kinds| - 1;
      var before := RunHost(limit, kinds[..n]);
      if kinds[n] == Failed then FailuresSinceUp(limit, kinds[..n]) + 1
      else if before.down && !Next(limit, before, kinds[n]).down then 0
      else FailuresSinceUp(limit, kinds[..n])
  }

  /** A host goes down at exactly the limit-th failure since it was last up; good checks before do not count. */
  lemma {:induction false} DownExactly(limit: int, kinds: seq<Kind>)
    requires limit >= 2 && Expired !in kinds
    ensures var h, n := RunHost(limit, kinds), FailuresSinceUp(limit, kinds);
            && (h.down <==> n >= limit)
            && (!h.down ==> h.count == if n == 0 then None else Some(n))
            && (h.down ==> h.count.Some?)
  {
    if kinds != [] {
      var n := |kinds| - 1;
      DownExactly(limit, kinds[..n]);
      UpAnswersFail(limit, kinds[..n]);
      assert kinds[n] in kinds;
    }
  }

  /** Failed checks that are still counted, as the good checks needed show. */
  function Counted(h: Host): int { if h.count.Some? then h.count.value else 0 }

  /** The callbacks of one more check, from every reachable state: a failure that makes the counted ones reach the limit
      calls the host down, also when it is down already; a good check calls it up if it is the last one needed. */
  lemma CallsExactly(limit: int, kinds: seq<Kind>, kind: Kind)
    ensures var h := RunHost(limit, kinds);
      RunHost(limit, kinds + [kind]).calls == h.calls +
        (if kind == Failed && Counted(h) + 1 >= limit then [Fail]
         else if kind == Good && h.down && GoodsNeeded(h) == 1 then [Up]
         else [])
  {
    assert (kinds + [kind])[..|kinds|] == kinds;
    UpAnswersFail(limit, kinds);
  }

  /** An expired counter is forgotten: the host stays as it is, and if it is down it takes two good checks to come
      up. */
  lemma ExpiryForgets(limit: int, kinds: seq<Kind>)
    ensures var h, after := RunHost(limit, kinds), RunHost(limit, kinds + [Expired]);
      after.down == h.down && after.calls == h.calls && Counted(after) == 0 && GoodsNeeded(after) == 2
  {
    assert (kinds + [Expired])[..|kinds|] == kinds;
  }

  /** Once called down, a host comes up after exactly limit - 1 good checks in a row. */
  lemma UpExactly(limit: int, kinds: seq<Kind>, k: nat)
    requires limit >= 2 && Expired !in kinds && kinds != []
    requires RunHost(limit, kinds).calls != RunHost(limit, kinds[..|kinds| - 1]).calls
    requires RunHost(limit, kinds).down
    ensures Goods(RunHost(limit, kinds), k).down <==> k < limit - 1
  {
    var n := |kinds| - 1;
    DownExactly(limit, kinds[..n]);
    UpAnswersFail(limit, kinds[..n]);
    assert kinds[n] in kinds;
    RecoversExactly(limit, kinds, k);
  }

  /** A limit of 1 needs two good checks, not none: the first failure leaves no counter. */
  lemma LimitOneNeedsTwo(k: nat)
    ensures RunHost(1, [Failed]).calls == [Fail]
    ensures Goods(RunHost(1, [Failed]), k).down <==> k < 2
  {
    assert [Failed][..0] == [];
    RecoversExactly(1, [Failed], k);
  }
}

/** Internal redirects: a request whose target has the tyk scheme is served again by an API's own chain, up to a
    limit kept in the request's context. */
module Looping {

  const DEFAULT_LOOP_LEVEL_LIMIT := 5

  /** Where an internal redirect points: found with a chain, found without one, or unknown. */
  datatype Target = Chain | NoChain | Unknown

  /** What the middleware of a chain made of the request when it reaches the proxy. loopLimit is the number read from
      the loop_limit parameter, 0 if it is none. */
  datatype Arrival = Plain | Loop(target: Target, loopLimit: int, checkLimits: bool)

  datatype End = Served | TooDeep(limit: int) | NoLoopTarget | NilHandler

  function Limit(loopLimit: nat): nat { if loopLimit == 0 then DEFAULT_LOOP_LEVEL_LIMIT else loopLimit }

  /** A limit can be set once. */
  function SetOnce(limit: nat, next: int): nat { if limit == 0 && next > 0 then next else limit }

  /** How often the request may still be redirected before it is found too deep. */
  function Left(level: nat, limit: nat): nat {
    if level > Limit(limit) then 0 else Limit(limit) + 1 - level
  }

  datatype Trip = Trip(hops: nat, end: End, limit: nat)

  /** The trip of a request whose i-th arrival at a proxy is arrivals(i). */
  function Travel(arrivals: nat -> Arrival, i: nat, level: nat, limit: nat): Trip
    decreases if limit == 0 then 1 else 0, Left(level, limit)
  {
    var a := arrivals(i);
    if a.Plain? then Trip(0, Served, limit)
    else if level > Limit(limit) then Trip(0, TooDeep(Limit(limit)), limit)
    else if a.target.Unknown? then Trip(0, NoLoopTarget, limit)
    else if a.target.NoChain? then Trip(0, NilHandler, SetOnce(limit, a.loopLimit))
    else
      var rest := Travel(arrivals, i + 1, level + 1, SetOnce(limit, a.loopLimit));
      rest.(hops := rest.hops + 1)
  }

  /** The loop part of a request's context. */
  class Context {
    var loopLevel: nat
    var loopLevelLimit: nat
    var checkLoopLimits: bool

    constructor ()
      ensures loopLevel == 0 && loopLevelLimit == 0 && !checkLoopLimits
    {
      loopLevel, loopLevelLimit, checkLoopLimits := 0, 0, false;
    }

    method IncLoopLevel(loopLimit: int)
      modifies this`loopLevel, this`loopLevelLimit
      ensures loopLevel == old(loopLevel) + 1 && loopLevelLimit == SetOnce(old(loopLevelLimit), loopLimit)
    {
      if loopLevelLimit == 0 && loopLimit > 0 {
        loopLevelLimit := loopLimit;
      }
      loopLevel := loopLevel + 1;
    }

    /** Serving the i-th arrival. */
    method Serve(arrivals: nat -> Arrival, i: nat) returns (hops: nat, end: End)
      modifies this
      ensures Trip(hops, end, loopLevelLimit) == Travel(arrivals, i, old(loopLevel), old(loopLevelLimit))
      ensures end != NilHandler ==> loopLevel == old(loopLevel) + hops
      ensures end != NilHandler ==>
                checkLoopLimits == if hops == 0 then old(checkLoopLimits) else LastAsked(arrivals, i + hops - 1)
      decreases if loopLevelLimit == 0 then 1 else 0, Left(loopLevel, loopLevelLimit)
    {
      var a := arrivals(i);
      if a.Plain? {
        return 0, Served;
      }
      var limit := loopLevelLimit;
      if limit == 0 {
        limit := DEFAULT_LOOP_LEVEL_LIMIT;
      }
      if loopLevel > limit {
        return 0, TooDeep(limit);
      }
      if a.target == Unknown {
        return 0, NoLoopTarget;
      }
      checkLoopLimits := a.checkLimits;
      IncLoopLevel(a.loopLimit);
      if a.target == NoChain {
        return 0, NilHandler;
      }
      hops, end := Serve(arrivals, i + 1);
      hops := hops + 1;
    }
  }

  predicate LastAsked(arrivals: nat -> Arrival, i: nat) { arrivals(i).Loop? && arrivals(i).checkLimits }

  // ---------------------------------------------------------------------------------------------
  // How long a request can loop
  // ---------------------------------------------------------------------------------------------

  function Max(a: nat, b: nat): nat { if a < b then b else a }

  /** Looks for the first positive limit among the first n arrivals: n if there is none. */
  function FirstLimit(arrivals: nat -> Arrival, n: nat): (k: nat)
    ensures k <= n
    ensures k < n ==> arrivals(k).Loop? && arrivals(k).loopLimit > 0
    ensures forall i :: 0 <= i < k ==> arrivals(i).Loop? ==> arrivals(i).loopLimit <= 0
  {
    if n == 0 then 0
    else
      var k := FirstLimit(arrivals, n - 1);
      if k < n - 1 || (arrivals(n - 1).Loop? && arrivals(n - 1).loopLimit > 0) then k else n
  }

  /** The hops a request makes if it never stops looping by itself. */
  function FullTrip(arrivals: nat -> Arrival): nat {
    var j := FirstLimit(arrivals, 6);
    if j == 6 then 6 else Max(j + 1, arrivals(j).loopLimit + 1)
  }

  /** The limit set before the i-th arrival: the first positive one, or 0. */
  function SetBefore(arrivals: nat -> Arrival, i: nat): nat {
    var k := FirstLimit(arrivals, i);
    if k < i then arrivals(k).loopLimit else 0
  }

  /** The limit in force at the i-th arrival. */
  function InForce(arrivals: nat -> Arrival, i: nat): nat {
    if SetBefore(arrivals, i) > 0 then SetBefore(arrivals, i) else 5
  }

  /** Where and why a request stops: at the first arrival that is not a redirect to a chain within the limit in
      force. */
  predicate StopsAt(arrivals: nat -> Arrival, k: nat, end: End) {
    var a := arrivals(k);
    if a.Plain? then end == Served
    else if k > InForce(arrivals, k) then end == TooDeep(InForce(arrivals, k))
    else if a.target.Unknown? then end == NoLoopTarget
    else a.target.NoChain? && end == NilHandler
  }

  predicate GoesOn(arrivals: nat -> Arrival, k: nat) {
    arrivals(k).Loop? && arrivals(k).target.Chain? && k <= InForce(arrivals, k)
  }

  lemma SetNext(arrivals: nat -> Arrival, i: nat)
    requires arrivals(i).Loop?
    ensures SetBefore(arrivals, i + 1) == SetOnce(SetBefore(arrivals, i), arrivals(i).loopLimit)
  {
  }

  lemma HopOrStop(arrivals: nat -> Arrival, i: nat)
    ensures var trip := Travel(arrivals, i, i, SetBefore(arrivals, i));
      if GoesOn(arrivals, i)
      then var rest := Travel(arrivals, i + 1, i + 1, SetBefore(arrivals, i + 1)); trip == rest.(hops := rest.hops + 1)
      else trip.hops == 0 && StopsAt(arrivals, i, trip.end)
  {
    if GoesOn(arrivals, i) {
      SetNext(arrivals, i);
    }
  }

  lemma {:induction false} TripFrom(arrivals: nat -> Arrival, i: nat)
    ensures var trip := Travel(arrivals, i, i, SetBefore(arrivals, i));
      && (forall k :: i <= k < i + trip.hops ==> GoesOn(arrivals, k))
      && StopsAt(arrivals, i + trip.hops, trip.end)
    decreases if SetBefore(arrivals, i) == 0 then 1 else 0, Left(i, SetBefore(arrivals, i))
  {
    HopOrStop(arrivals, i);
    if GoesOn(arrivals, i) {
      SetNext(arrivals, i);
      TripFrom(arrivals, i + 1);
    }
  }

  /** The trip of every request: all arrivals before the last are redirects to chains within the limit then in force,
      and the last one says how it ends. */
  lemma TripExactly(arrivals: nat -> Arrival)
    ensures var trip := Travel(arrivals, 0, 0, 0);
      && (forall k :: 0 <= k < trip.hops ==> GoesOn(arrivals, k))
      && StopsAt(arrivals, trip.hops, trip.end)
  {
    TripFrom(arrivals, 0);
  }

  ghost predicate NeverStops(arrivals: nat -> Arrival) { forall i :: arrivals(i).Loop? && arrivals(i).target.Chain? }

  /** Once a limit is set it stays, and bounds the rest. */
  lemma {:induction false} LimitedTravel(arrivals: nat -> Arrival, i: nat, level: nat, limit: nat)
    requires limit > 0
    ensures Travel(arrivals, i, level, limit).limit == limit
    ensures Travel(arrivals, i, level, limit).hops <= Left(level, limit)
    ensures NeverStops(arrivals) ==>
              Travel(arrivals, i, level, limit) == Trip(Left(level, limit), TooDeep(limit), limit)
    decreases Left(level, limit)
  {
    if arrivals(i).Loop? && level <= limit {
      LimitedTravel(arrivals, i + 1, level + 1, limit);
    }
  }

  /** The next hop of a request without a limit, after as many hops as arrivals. */
  lemma NextHop(arrivals: nat -> Arrival, i: nat)
    requires i <= DEFAULT_LOOP_LEVEL_LIMIT && arrivals(i).Loop?
    ensures arrivals(i).target.Chain? ==>
      var rest := Travel(arrivals, i + 1, i + 1, SetOnce(0, arrivals(i).loopLimit));
      Travel(arrivals, i, i, 0) == rest.(hops := rest.hops + 1)
    ensures !arrivals(i).target.Chain? ==> Travel(arrivals, i, i, 0).hops == 0
  {
  }

  lemma FirstLimitReached(arrivals: nat -> Arrival, j: nat)
    requires j == FirstLimit(arrivals, DEFAULT_LOOP_LEVEL_LIMIT + 1) && j <= DEFAULT_LOOP_LEVEL_LIMIT
    ensures j + Travel(arrivals, j, j, 0).hops <= FullTrip(arrivals)
    ensures NeverStops(arrivals) ==>
      j + Travel(arrivals, j, j, 0).hops == FullTrip(arrivals) && Travel(arrivals, j, j, 0).end.TooDeep?
  {
    NextHop(arrivals, j);
    LimitedTravel(arrivals, j + 1, j + 1, arrivals(j).loopLimit);
  }

  lemma UnlimitedHop(arrivals: nat -> Arrival, i: nat, j: nat)
    requires j == FirstLimit(arrivals, DEFAULT_LOOP_LEVEL_LIMIT + 1) && i < j
    ensures var trip := Travel(arrivals, i, i, 0);
      if arrivals(i).Loop? && arrivals(i).target.Chain?
      then var rest := Travel(arrivals, i + 1, i + 1, 0); trip == rest.(hops := rest.hops + 1)
      else trip.hops == 0
  {
    if arrivals(i).Loop? {
      NextHop(arrivals, i);
    }
  }

  lemma {:induction false} UnlimitedTravel(arrivals: nat -> Arrival, i: nat)
    requires i <= FirstLimit(arrivals, DEFAULT_LOOP_LEVEL_LIMIT + 1)
    ensures i + Travel(arrivals, i, i, 0).hops <= FullTrip(arrivals)
    ensures NeverStops(arrivals) ==>
      i + Travel(arrivals, i, i, 0).hops == FullTrip(arrivals) && Travel(arrivals, i, i, 0).end.TooDeep?
    decreases DEFAULT_LOOP_LEVEL_LIMIT + 1 - i
  {
    var j := FirstLimit(arrivals, DEFAULT_LOOP_LEVEL_LIMIT + 1);
    if i == j && i <= DEFAULT_LOOP_LEVEL_LIMIT {
      FirstLimitReached(arrivals, i);
    } else if i < j {
      UnlimitedHop(arrivals, i, j);
      if arrivals(i).Loop? && arrivals(i).target.Chain? {
        UnlimitedTravel(arrivals, i + 1);
      }
    }
  }

  /** Every request stops looping: after at most six hops, or one more than the first positive limit it was given.
      A request that keeps being redirected makes exactly that many. */
  lemma LoopingEnds(arrivals: nat -> Arrival)
    ensures var trip, j := Travel(arrivals, 0, 0, 0), FirstLimit(arrivals, DEFAULT_LOOP_LEVEL_LIMIT + 1);
            && trip.hops <= FullTrip(arrivals)
            && FullTrip(arrivals) <= Max(6, if j <= DEFAULT_LOOP_LEVEL_LIMIT then arrivals(j).loopLimit + 1 else 0)
            && (NeverStops(arrivals) ==> trip.hops == FullTrip(arrivals) && trip.end.TooDeep?)
  {
    UnlimitedTravel(arrivals, 0);
  }
}

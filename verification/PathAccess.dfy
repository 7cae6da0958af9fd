/** Deciding from the path index whether a request may pass. */
module PathAccess {
  import opened Wrappers
  import opened PathIndex

  datatype RequestStatus =
    StatusOk | StatusOkAndIgnore | EndPointNotAllowed | StatusRedirectFlowByReply | StatusOf(feature: Status)

  datatype Answer = Nothing | ReplyWith(reply: MethodMeta) | Settings(meta: Meta)

  datatype Outcome = Outcome(status: RequestStatus, answer: Answer)

  function URLStatus(s: Status): RequestStatus {
    match s
    case Ignored => StatusOkAndIgnore
    case BlackList => EndPointNotAllowed
    case WhiteList => StatusOk
    case _ => StatusOf(s)
  }

  /** An access list entry speaks for the methods it names, or for all of them. */
  function ListVerdict(v: URLSpec, verb: string): Outcome {
    if v.actions.None? then Outcome(URLStatus(v.status), Nothing)
    else if verb !in v.actions.value then Outcome(EndPointNotAllowed, Nothing)
    else
      var m := v.actions.value[verb];
      match m.action
      case NoAction => Outcome(URLStatus(v.status), Nothing)
      case Reply => Outcome(StatusRedirectFlowByReply, ReplyWith(m))
      case Other => Outcome(EndPointNotAllowed, Nothing)
  }

  predicate InternalFor(v: URLSpec, verb: string) { v.status == Internal && v.meta.verb == verb }

  function FeatureAnswer(v: URLSpec): Answer {
    if v.status == Transformed || (v.status == TransformedJQ && v.meta.content != "")
       || (v.status == HeaderInjected && v.meta.path != "")
    then Settings(v.meta)
    else Nothing
  }

  function FeatureVerdict(v: URLSpec, r: Request, whiteListed: bool): Outcome {
    if InternalFor(v, r.verb) then
      if r.looping then Outcome(StatusOf(Internal), Nothing) else Outcome(EndPointNotAllowed, Nothing)
    else if whiteListed then Outcome(EndPointNotAllowed, Nothing)
    else Outcome(StatusOf(v.status), FeatureAnswer(v))
  }

  /** The first entry for the path that has a say on the method decides. */
  function Verdict(found: Option<URLSpec>, r: Request, whiteListed: bool): Outcome {
    if found.None? then Outcome(if whiteListed then EndPointNotAllowed else StatusOk, Nothing)
    else if found.value.actions.Some? || Listing(found.value.status) then ListVerdict(found.value, r.verb)
    else FeatureVerdict(found.value, r, whiteListed)
  }

  method URLAllowedAndIgnored(env: Env, r: Request, rxPaths: seq<URLSpec>, whiteListStatus: bool) returns (o: Outcome)
    ensures o == Verdict(First(env, Listed(r.path, r.verb), rxPaths), r, whiteListStatus)
  {
    ghost var t := Listed(r.path, r.verb);
    for i := 0 to |rxPaths|
      invariant First(env, t, rxPaths) == First(env, t, rxPaths[i..])
    {
      var v := rxPaths[i];
      assert rxPaths[i..][1..] == rxPaths[i + 1..];
      if env.rx(v.pattern, r.path) && (v.actions.Some? ==> r.verb in v.actions.value) {
        o := Answered(v, r, whiteListStatus);
        return;
      }
    }
    if whiteListStatus {
      return Outcome(EndPointNotAllowed, Nothing);
    }
    return Outcome(StatusOk, Nothing);
  }

  /** What a matching entry answers. */
  method Answered(v: URLSpec, r: Request, whiteListStatus: bool) returns (o: Outcome)
    requires v.actions.Some? ==> r.verb in v.actions.value
    ensures o == Verdict(Some(v), r, whiteListStatus)
  {
    if v.actions.Some? {
      var methodMeta := v.actions.value[r.verb];
      match methodMeta.action
      case NoAction => return Outcome(URLStatus(v.status), Nothing);
      case Reply => return Outcome(StatusRedirectFlowByReply, ReplyWith(methodMeta));
      case Other => return Outcome(EndPointNotAllowed, Nothing);
    }
    if r.verb == v.meta.verb && v.status == Internal && !r.looping {
      return Outcome(EndPointNotAllowed, Nothing);
    }
    if whiteListStatus {
      if v.status != WhiteList && v.status != BlackList && v.status != Ignored {
        if v.status == Internal && r.verb == v.meta.verb && r.looping {
          return Outcome(URLStatus(v.status), Nothing);
        }
        return Outcome(EndPointNotAllowed, Nothing);
      }
    }
    return Outcome(URLStatus(v.status), FeatureAnswer(v));
  }

  /** Most features are reported as plain acceptance. */
  function Reported(s: RequestStatus): RequestStatus {
    if s.StatusOf? && s.feature !in {Cached, Transformed, HeaderInjected, MethodTransformed} then StatusOk else s
  }

  /** What the request check returns for a decision. */
  function Returned(o: Outcome): (bool, RequestStatus, Answer) {
    (o.status != EndPointNotAllowed, Reported(o.status),
     if o.status == StatusRedirectFlowByReply then o.answer else Nothing)
  }

  /** The part of the request check after the version has been found and has not expired. */
  method RequestValid(env: Env, r: Request, rxPaths: seq<URLSpec>, whiteListStatus: bool)
    returns (ok: bool, status: RequestStatus, answer: Answer)
    ensures (ok, status, answer) == Returned(Verdict(First(env, Listed(r.path, r.verb), rxPaths), r, whiteListStatus))
  {
    var o := URLAllowedAndIgnored(env, r, rxPaths, whiteListStatus);
    match o.status
    case EndPointNotAllowed => return false, o.status, Nothing;
    case StatusRedirectFlowByReply => return true, o.status, o.answer;
    case StatusOkAndIgnore => return true, o.status, Nothing;
    case StatusOk => return true, StatusOk, Nothing;
    case StatusOf(s) =>
      if s == Cached || s == Transformed || s == HeaderInjected || s == MethodTransformed {
        return true, o.status, Nothing;
      }
      return true, StatusOk, Nothing;
  }

  // ---------------------------------------------------------------------------------------------
  // The decision in terms of the lists
  // ---------------------------------------------------------------------------------------------

  function OrElse(a: Option<URLSpec>, b: Option<URLSpec>): Option<URLSpec> { if a.Some? then a else b }

  /** The lists from place k up to n, one after the other. */
  function Between(ls: seq<seq<URLSpec>>, k: nat, n: nat): seq<URLSpec>
    requires k <= n <= |ls|
  {
    if k == n then [] else Between(ls, k, n - 1) + ls[n - 1]
  }

  lemma {:induction false} SplitSearch(env: Env, t: Test, ls: seq<seq<URLSpec>>, k: nat, n: nat)
    requires k <= n <= |ls|
    ensures First(env, t, Joined(ls, n)) ==
            OrElse(First(env, t, Joined(ls, k)), First(env, t, Between(ls, k, n)))
  {
    if k < n {
      SplitSearch(env, t, ls, k, n - 1);
      FirstOfTwo(env, t, Joined(ls, n - 1), ls[n - 1]);
      FirstOfTwo(env, t, Between(ls, k, n - 1), ls[n - 1]);
    }
  }

  /** Features other than the access lists. */
  function Features(l: Lists): seq<URLSpec> { Between(InOrder(l), 3, FEATURES) }

  /** The ignored entries come first, then the blacklist, then the whitelist. */
  function FirstListed(env: Env, l: Lists, r: Request): Option<URLSpec> {
    var t := Listed(r.path, r.verb);
    OrElse(First(env, t, l.ignored), OrElse(First(env, t, l.blackList), First(env, t, l.whiteList)))
  }

  lemma AccessLists(env: Env, l: Lists, r: Request)
    ensures First(env, Listed(r.path, r.verb), Joined(InOrder(l), 3)) == FirstListed(env, l, r)
  {
    var ls, t := InOrder(l), Listed(r.path, r.verb);
    assert ls[0] == Own(l, Ignored) && ls[1] == Own(l, BlackList) && ls[2] == Own(l, WhiteList);
    FirstOfTwo(env, t, Joined(ls, 2), ls[2]);
    FirstOfTwo(env, t, Joined(ls, 1), ls[1]);
    FirstOfTwo(env, t, Joined(ls, 0), ls[0]);
  }

  /** A feature entry names no methods, so it matches on its path alone. */
  lemma {:induction false} FeatureOnPath(env: Env, r: Request, s: Status, specs: seq<URLSpec>)
    requires !Listing(s) && forall i :: 0 <= i < |specs| ==> Tagged(specs[i], s)
    ensures First(env, Listed(r.path, r.verb), specs) == First(env, OnPath(r.path), specs)
    ensures var f := First(env, OnPath(r.path), specs); f.Some? ==> Tagged(f.value, s)
  {
    if specs != [] {
      assert Tagged(specs[0], s);
      FeatureOnPath(env, r, s, specs[1..]);
    }
  }

  predicate IsFeature(v: URLSpec) { !Listing(v.status) && v.actions.None? }

  lemma {:induction false} FeaturesOnPath(env: Env, l: Lists, r: Request, n: nat)
    requires AllTagged(l) && 3 <= n <= FEATURES
    ensures var ls := InOrder(l);
            && First(env, Listed(r.path, r.verb), Between(ls, 3, n)) == First(env, OnPath(r.path), Between(ls, 3, n))
            && var f := First(env, OnPath(r.path), Between(ls, 3, n)); f.Some? ==> IsFeature(f.value)
  {
    if n > 3 {
      var ls := InOrder(l);
      FeaturesOnPath(env, l, r, n - 1);
      FirstOfTwo(env, Listed(r.path, r.verb), Between(ls, 3, n - 1), ls[n - 1]);
      FirstOfTwo(env, OnPath(r.path), Between(ls, 3, n - 1), ls[n - 1]);
      var s := AtSlot(n - 1);
      assert forall i :: 0 <= i < |Own(l, s)| ==> Tagged(Own(l, s)[i], s);
      FeatureOnPath(env, r, s, Own(l, s));
    }
  }

  lemma {:induction false} ListedStatus(env: Env, t: Test, s: Status, specs: seq<URLSpec>)
    requires forall i :: 0 <= i < |specs| ==> Tagged(specs[i], s)
    ensures First(env, t, specs).Some? ==> Tagged(First(env, t, specs).value, s)
  {
    if specs != [] {
      assert Tagged(specs[0], s);
      ListedStatus(env, t, s, specs[1..]);
    }
  }

  lemma FirstListedIsListing(env: Env, l: Lists, r: Request)
    requires AllTagged(l)
    ensures FirstListed(env, l, r).Some? ==> Listing(FirstListed(env, l, r).value.status)
  {
    var t := Listed(r.path, r.verb);
    forall s: Status ensures forall i :: 0 <= i < |Own(l, s)| ==> Tagged(Own(l, s)[i], s) {}
    assert l.ignored == Own(l, Ignored) && l.blackList == Own(l, BlackList) && l.whiteList == Own(l, WhiteList);
    ListedStatus(env, t, Ignored, l.ignored);
    ListedStatus(env, t, BlackList, l.blackList);
    ListedStatus(env, t, WhiteList, l.whiteList);
  }

  /** An access list entry lets a request pass if it replies itself, or takes no action and is not on the blacklist. */
  predicate Lets(v: URLSpec, verb: string) {
    if v.actions.Some? && verb in v.actions.value && v.actions.value[verb].action != NoAction
    then v.actions.value[verb].action == Reply
    else v.status != BlackList
  }

  lemma LetsExactly(v: URLSpec, verb: string)
    requires Listing(v.status) && (v.actions.Some? ==> verb in v.actions.value)
    ensures ListVerdict(v, verb).status != EndPointNotAllowed <==> Lets(v, verb)
  {
  }

  lemma FirstHolds(env: Env, t: Test, specs: seq<URLSpec>)
    ensures First(env, t, specs).Some? ==> Holds(env, t, First(env, t, specs).value)
  {
    var i := FirstExact(env, t, specs);
  }

  lemma FirstListedSpeaks(env: Env, l: Lists, r: Request)
    ensures var say := FirstListed(env, l, r);
      say.Some? && say.value.actions.Some? ==> r.verb in say.value.actions.value
  {
    FirstHolds(env, Listed(r.path, r.verb), l.ignored);
    FirstHolds(env, Listed(r.path, r.verb), l.blackList);
    FirstHolds(env, Listed(r.path, r.verb), l.whiteList);
  }

  /** The decision, exactly. An access list entry with a say on the method decides. Failing that, with a
      whitelist a request passes just when it is looping and its first path match among the features is an
      internal entry for its method; without one it is refused just when it is not looping and that holds. */
  lemma AccessExact(env: Env, def: ExtendedPaths, r: Request)
    ensures var l, whiteListed := ListsOf(env, def), def.whiteList != [];
            var o := Verdict(First(env, Listed(r.path, r.verb), Combined(l)), r, whiteListed);
            var say, first := FirstListed(env, l, r), First(env, OnPath(r.path), Features(l));
            var internalFirst := first.Some? && InternalFor(first.value, r.verb);
            && (say.Some? ==> (o.status != EndPointNotAllowed <==> Lets(say.value, r.verb)))
            && (say.None? && whiteListed ==> (o.status != EndPointNotAllowed <==> r.looping && internalFirst))
            && (say.None? && !whiteListed ==> (o.status == EndPointNotAllowed <==> !r.looping && internalFirst))
  {
    var l := ListsOf(env, def);
    CompiledTagged(env, def);
    Decided(env, l, r, def.whiteList != []);
    FirstListedIsListing(env, l, r);
    FirstListedSpeaks(env, l, r);
    if FirstListed(env, l, r).Some? {
      LetsExactly(FirstListed(env, l, r).value, r.verb);
    }
  }

  lemma Decided(env: Env, l: Lists, r: Request, whiteListed: bool)
    requires AllTagged(l)
    ensures Verdict(First(env, Listed(r.path, r.verb), Combined(l)), r, whiteListed) ==
            var say, first := FirstListed(env, l, r), First(env, OnPath(r.path), Features(l));
            if say.Some? then ListVerdict(say.value, r.verb)
            else if first.Some? then FeatureVerdict(first.value, r, whiteListed)
            else Outcome(if whiteListed then EndPointNotAllowed else StatusOk, Nothing)
  {
    SplitSearch(env, Listed(r.path, r.verb), InOrder(l), 3, FEATURES);
    AccessLists(env, l, r);
    FeaturesOnPath(env, l, r, FEATURES);
    FirstListedIsListing(env, l, r);
  }

  /** An internal mark is seen only if no earlier feature has an entry for the path: with a cached entry there,
      the request is treated as cached. */
  lemma EarlierFeatureHidesInternal(env: Env, def: ExtendedPaths, r: Request)
    requires var l := ListsOf(env, def);
             def.whiteList == [] && FirstListed(env, l, r).None? && First(env, OnPath(r.path), l.cached).Some?
    ensures Verdict(First(env, Listed(r.path, r.verb), Combined(ListsOf(env, def))), r, false) ==
            Outcome(StatusOf(Cached), Nothing)
  {
    var l, t := ListsOf(env, def), OnPath(r.path);
    CompiledTagged(env, def);
    Decided(env, l, r, false);
    BetweenSplit(env, t, InOrder(l), 3, 4, FEATURES);
    assert InOrder(l)[3] == Own(l, Cached);
    FirstOfTwo(env, t, Between(InOrder(l), 3, 3), l.cached);
    assert forall i :: 0 <= i < |Own(l, Cached)| ==> Tagged(Own(l, Cached)[i], Cached);
    ListedStatus(env, t, Cached, l.cached);
  }

  lemma {:induction false} BetweenSplit(env: Env, t: Test, ls: seq<seq<URLSpec>>, k: nat, m: nat, n: nat)
    requires k <= m <= n <= |ls|
    ensures First(env, t, Between(ls, k, n)) ==
            OrElse(First(env, t, Between(ls, k, m)), First(env, t, Between(ls, m, n)))
  {
    if m < n {
      BetweenSplit(env, t, ls, k, m, n - 1);
      FirstOfTwo(env, t, Between(ls, k, n - 1), ls[n - 1]);
      FirstOfTwo(env, t, Between(ls, m, n - 1), ls[n - 1]);
    }
  }
}

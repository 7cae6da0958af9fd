/** What the path index answers, in terms of the lists of the definition: which entry a look-up finds, and what becomes
    of a request. */
module PathDecision {
  import opened Wrappers
  import opened PathIndex
  import opened PathAccess

  // ---------------------------------------------------------------------------------------------
  // The reference, over the definition
  // ---------------------------------------------------------------------------------------------

  /** The entries of a feature; old cache entries are paths, cached for the safe methods. */
  function EntriesOf(def: ExtendedPaths, s: Status): seq<Entry> {
    match s
    case Ignored => def.ignored
    case BlackList => def.blackList
    case WhiteList => def.whiteList
    case Cached =>
      seq(|def.cached|, i requires 0 <= i < |def.cached| => Entry(def.cached[i], None, Meta("SAFE_METHODS", "", "")))
      + def.advanceCacheConfig
    case Transformed => def.transform
    case TransformedResponse => def.transformResponse
    case TransformedJQ => def.transformJQ
    case TransformedJQResponse => def.transformJQResponse
    case HeaderInjected => def.transformHeader
    case HeaderInjectedResponse => def.transformResponseHeader
    case HardTimeout => def.hardTimeouts
    case CircuitBreaker => def.circuitBreaker
    case URLRewrite => def.urlRewrite
    case RequestSizeLimit => def.sizeLimit
    case VirtualPath => def.virtual
    case MethodTransformed => def.methodTransforms
    case RequestTracked => def.trackEndpoints
    case RequestNotTracked => def.doNotTrackEndpoints
    case ValidateJSONRequest => def.validateJSON
    case Internal => def.internal
  }

  /** Body transformations must load, and virtual endpoints need the script engine. */
  predicate Loaded(env: Env, s: Status, e: Entry) {
    && (s in {Transformed, TransformedResponse, TransformedJQ, TransformedJQResponse} ==> env.loads(s, e))
    && (s == VirtualPath ==> env.enableJSVM)
  }

  predicate AccessList(s: Status) { s in {Ignored, BlackList, WhiteList} }

  predicate MethodFits(s: Status, e: Entry, verb: string) {
    || AccessList(s) || verb == e.meta.verb
    || (s == Cached && e.meta.verb == "SAFE_METHODS" && verb in {"GET", "HEADERS", "OPTIONS"})
  }

  /** The entry answers a question. */
  predicate Fits(env: Env, t: Test, s: Status, e: Entry) {
    && Loaded(env, s, e) && env.rx(e.path, t.path)
    && match t
       case Feature(mode, _, verb) => s == mode && MethodFits(s, e, verb)
       case Listed(_, verb) => AccessList(s) && e.actions.Some? ==> verb in e.actions.value
       case OnPath(_) => true
  }

  /** The place of the first entry that does, or the length of the list. */
  function FirstFit(env: Env, t: Test, s: Status, es: seq<Entry>): (i: nat)
    ensures i <= |es| && (i < |es| ==> Fits(env, t, s, es[i]))
    ensures forall j :: 0 <= j < i ==> !Fits(env, t, s, es[j])
  {
    if es == [] then 0
    else
      var n := |es| - 1;
      var i := FirstFit(env, t, s, es[..n]);
      assert forall j :: 0 <= j < n ==> es[..n][j] == es[j];
      if i < n || Fits(env, t, s, es[n]) then i else n + 1
  }

  // ---------------------------------------------------------------------------------------------
  // Compiled entries
  // ---------------------------------------------------------------------------------------------

  /** What an entry is compiled to. */
  predicate CompiledTo(s: Status, e: Entry, v: URLSpec) {
    && v.pattern == e.path && v.status == s && v.actions == (if AccessList(s) then e.actions else None)
    && v.meta == (if s == RequestTracked && e.path == "" then e.meta.(path := "/") else e.meta)
  }

  lemma CompiledFits(env: Env, t: Test, s: Status, e: Entry)
    ensures CompiledTo(s, e, Compile(s, e))
    ensures Keeps(env, s, e) && Holds(env, t, Compile(s, e)) <==> Fits(env, t, s, e)
  {
  }

  /** The entry at a place is found, or the place is behind the list and nothing is. */
  predicate FoundAt(s: Status, es: seq<Entry>, i: nat, found: Option<URLSpec>) {
    if i < |es| then found.Some? && CompiledTo(s, es[i], found.value) else found.None?
  }

  lemma LastCompiled(env: Env, t: Test, s: Status, es: seq<Entry>, e: Entry, i: nat)
    requires i <= |es| && FoundAt(s, es, i, First(env, t, Compiled(env, s, es)))
    ensures FoundAt(s, es + [e], if i < |es| || Fits(env, t, s, e) then i else i + 1,
                    First(env, t, Compiled(env, s, es + [e])))
  {
    CompiledFits(env, t, s, e);
    var last := if Keeps(env, s, e) then [Compile(s, e)] else [];
    assert (es + [e])[..|es|] == es;
    FirstOfTwo(env, t, Compiled(env, s, es), last);
    FirstOfLast(env, t, last);
  }

  /** Searching a compiled list finds its first fitting entry. */
  lemma {:induction false} FirstCompiled(env: Env, t: Test, s: Status, es: seq<Entry>)
    ensures FoundAt(s, es, FirstFit(env, t, s, es), First(env, t, Compiled(env, s, es)))
  {
    if es != [] {
      var n := |es| - 1;
      FirstCompiled(env, t, s, es[..n]);
      LastCompiled(env, t, s, es[..n], es[n], FirstFit(env, t, s, es[..n]));
      assert es == es[..n] + [es[n]];
    }
  }

  lemma FirstOfLast(env: Env, t: Test, last: seq<URLSpec>)
    requires |last| <= 1
    ensures First(env, t, last) == if last != [] && Holds(env, t, last[0]) then Some(last[0]) else None
  {
    if last != [] {
      assert last[1..] == [];
    }
  }

  lemma OwnIsCompiled(env: Env, def: ExtendedPaths, s: Status)
    ensures Own(ListsOf(env, def), s) == Compiled(env, s, EntriesOf(def, s))
  {
    match s
    case Cached => CachedEntries(def);
    case _ =>
  }

  lemma CachedEntries(def: ExtendedPaths)
    ensures EntriesOf(def, Cached) == Upgraded(def.cached) + def.advanceCacheConfig
  {
  }

  // ---------------------------------------------------------------------------------------------
  // Looking a feature up
  // ---------------------------------------------------------------------------------------------

  /** The features of responses look at the request as it was before it was rewritten. */
  predicate ForResponse(mode: Status) {
    mode == TransformedResponse || mode == TransformedJQResponse || mode == HeaderInjectedResponse
  }

  function WholePath(r: Request, mode: Status): string {
    if ForResponse(mode) && r.rewritePath != "" then r.rewritePath else r.path
  }

  /** path is what is left of whole without the listen path, unless that is the root, behind a slash. */
  predicate WithoutListenPath(listenPath: string, whole: string, rest: string, path: string) {
    && (if listenPath != "/" && listenPath <= whole then whole == listenPath + rest else whole == rest)
    && path == if rest != "" && rest[0] == '/' then rest else "/" + rest
  }

  /** The path and method that are looked up. */
  lemma LookedUp(env: Env, listenPath: string, r: Request, mode: Status) returns (rest: string)
    ensures var t := Lookup(env, listenPath, r, mode);
      && t == Feature(mode, t.path, if ForResponse(mode) then r.originalVerb else r.verb)
      && WithoutListenPath(listenPath, WholePath(r, mode), rest, t.path)
  {
    var whole := WholePath(r, mode);
    rest := if listenPath != "/" && listenPath <= whole then whole[|listenPath|..] else whole;
    assert "/" <= rest <==> rest != "" && rest[0] == '/';
  }

  /** A look-up in the whole index finds the first entry of the feature's own list in the definition that loads and fits
      the path and the method, with its settings; it finds nothing if there is none. */
  lemma FoundExactly(env: Env, def: ExtendedPaths, t: Test) returns (i: nat)
    requires t.Feature?
    ensures var es, found := EntriesOf(def, t.mode), First(env, t, Combined(ListsOf(env, def)));
      && i <= |es| && (forall j :: 0 <= j < i ==> !Fits(env, t, t.mode, es[j]))
      && if i < |es| then Fits(env, t, t.mode, es[i]) && found.Some? && CompiledTo(t.mode, es[i], found.value)
         else found.None?
  {
    var l := ListsOf(env, def);
    CompiledTagged(env, def);
    FindsOwn(env, l, t, FEATURES);
    OwnIsCompiled(env, def, t.mode);
    FirstCompiled(env, t, t.mode, EntriesOf(def, t.mode));
    i := FirstFit(env, t, t.mode, EntriesOf(def, t.mode));
  }

  // ---------------------------------------------------------------------------------------------
  // Deciding
  // ---------------------------------------------------------------------------------------------

  datatype Hit = Hit(list: Status, e: Entry)

  /** The features after the access lists, in the order they are searched. */
  const FEATURE_ORDER := [
    Cached, Transformed, TransformedResponse, TransformedJQ, TransformedJQResponse, HeaderInjected,
    HeaderInjectedResponse, HardTimeout, CircuitBreaker, URLRewrite, RequestSizeLimit, VirtualPath, MethodTransformed,
    RequestTracked, RequestNotTracked, ValidateJSONRequest, Internal]

  function FirstIn(env: Env, def: ExtendedPaths, t: Test, s: Status): Option<Hit> {
    var i := FirstFit(env, t, s, EntriesOf(def, s));
    if i < |EntriesOf(def, s)| then Some(Hit(s, EntriesOf(def, s)[i])) else None
  }

  /** The first access list entry that has a say on the path and method: ignored, then blacklisted, then whitelisted. */
  function FirstSay(env: Env, def: ExtendedPaths, r: Request): Option<Hit> {
    var t := Listed(r.path, r.verb);
    if FirstIn(env, def, t, Ignored).Some? then FirstIn(env, def, t, Ignored)
    else if FirstIn(env, def, t, BlackList).Some? then FirstIn(env, def, t, BlackList)
    else FirstIn(env, def, t, WhiteList)
  }

  /** The first entry for the path among the first n features. */
  function FirstFeature(env: Env, def: ExtendedPaths, r: Request, n: nat): Option<Hit>
    requires n <= |FEATURE_ORDER|
  {
    if n == 0 then None
    else
      var before := FirstFeature(env, def, r, n - 1);
      if before.Some? then before else FirstIn(env, def, OnPath(r.path), FEATURE_ORDER[n - 1])
  }

  /** What an access list entry that has a say makes of a request. */
  predicate SayAnswers(h: Hit, verb: string, ok: bool, status: RequestStatus, answer: Answer) {
    if h.e.actions.None? || (verb in h.e.actions.value && h.e.actions.value[verb].action == NoAction) then
      && answer == Nothing
      && (h.list == Ignored ==> ok && status == StatusOkAndIgnore)
      && (h.list == BlackList ==> !ok && status == EndPointNotAllowed)
      && (h.list == WhiteList ==> ok && status == StatusOk)
    else if verb in h.e.actions.value && h.e.actions.value[verb].action == Reply then
      ok && status == StatusRedirectFlowByReply && answer == ReplyWith(h.e.actions.value[verb])
    else !ok && status == EndPointNotAllowed && answer == Nothing
  }

  /** What the first feature entry for the path makes of it: internal paths are for looping requests, a whitelist shuts
      everything else out, and only four features are reported as such. */
  predicate FeatureAnswers(h: Hit, r: Request, whiteListed: bool, ok: bool, status: RequestStatus) {
    if h.list == Internal && h.e.meta.verb == r.verb then
      ok == r.looping && status == if r.looping then StatusOk else EndPointNotAllowed
    else if whiteListed then !ok && status == EndPointNotAllowed
    else if h.list in {Cached, Transformed, HeaderInjected, MethodTransformed} then ok && status == StatusOf(h.list)
    else ok && status == StatusOk
  }

  lemma AccessHit(env: Env, def: ExtendedPaths, r: Request)
    ensures var found, say := FirstListed(env, ListsOf(env, def), r), FirstSay(env, def, r);
      && (found.Some? <==> say.Some?)
      && (say.Some? ==> AccessList(say.value.list) && CompiledTo(say.value.list, say.value.e, found.value))
      && (say.Some? && say.value.e.actions.Some? ==> r.verb in say.value.e.actions.value)
  {
    var t, l := Listed(r.path, r.verb), ListsOf(env, def);
    OwnIsCompiled(env, def, Ignored);
    OwnIsCompiled(env, def, BlackList);
    OwnIsCompiled(env, def, WhiteList);
    assert l.ignored == Own(l, Ignored) && l.blackList == Own(l, BlackList) && l.whiteList == Own(l, WhiteList);
    FirstCompiled(env, t, Ignored, EntriesOf(def, Ignored));
    FirstCompiled(env, t, BlackList, EntriesOf(def, BlackList));
    FirstCompiled(env, t, WhiteList, EntriesOf(def, WhiteList));
  }

  lemma OrderedSlot(k: nat)
    requires k < |FEATURE_ORDER|
    ensures Slot(FEATURE_ORDER[k]) == k + 3 && !AccessList(FEATURE_ORDER[k])
  {
  }

  /** A search and the reference find the same feature entry, or nothing. */
  predicate SameHit(found: Option<URLSpec>, hit: Option<Hit>) {
    && (found.Some? <==> hit.Some?)
    && (hit.Some? ==> !AccessList(hit.value.list) && CompiledTo(hit.value.list, hit.value.e, found.value))
  }

  lemma HitIn(env: Env, def: ExtendedPaths, t: Test, s: Status)
    requires !AccessList(s)
    ensures SameHit(First(env, t, Own(ListsOf(env, def), s)), FirstIn(env, def, t, s))
  {
    OwnIsCompiled(env, def, s);
    FirstCompiled(env, t, s, EntriesOf(def, s));
  }

  lemma HitInTwo(env: Env, t: Test, a: seq<URLSpec>, b: seq<URLSpec>, x: Option<Hit>, y: Option<Hit>)
    requires SameHit(First(env, t, a), x) && SameHit(First(env, t, b), y)
    ensures SameHit(First(env, t, a + b), if x.Some? then x else y)
  {
    FirstOfTwo(env, t, a, b);
  }

  lemma OrderedList(l: Lists, k: nat)
    requires k < |FEATURE_ORDER|
    ensures InOrder(l)[k + 3] == Own(l, FEATURE_ORDER[k]) && !AccessList(FEATURE_ORDER[k])
  {
    OrderedSlot(k);
  }

  /** Each list after the access lists is searched with the result the reference has for its feature. */
  ghost predicate HitsInOrder(env: Env, def: ExtendedPaths, t: Test, ls: seq<seq<URLSpec>>)
    requires |ls| == FEATURES
  {
    forall k :: 0 <= k < |FEATURE_ORDER| ==>
      SameHit(First(env, t, ls[k + 3]), FirstIn(env, def, t, FEATURE_ORDER[k]))
  }

  lemma {:induction false} FirstHit(env: Env, def: ExtendedPaths, r: Request, ls: seq<seq<URLSpec>>, n: nat)
    requires n <= |FEATURE_ORDER| && |ls| == FEATURES && HitsInOrder(env, def, OnPath(r.path), ls)
    ensures SameHit(First(env, OnPath(r.path), Between(ls, 3, n + 3)), FirstFeature(env, def, r, n))
  {
    if n > 0 {
      var t := OnPath(r.path);
      FirstHit(env, def, r, ls, n - 1);
      assert SameHit(First(env, t, ls[n - 1 + 3]), FirstIn(env, def, t, FEATURE_ORDER[n - 1]));
      HitInTwo(env, t, Between(ls, 3, n + 2), ls[n + 2],
               FirstFeature(env, def, r, n - 1), FirstIn(env, def, t, FEATURE_ORDER[n - 1]));
    }
  }

  lemma ListsHit(env: Env, def: ExtendedPaths, t: Test)
    ensures HitsInOrder(env, def, t, InOrder(ListsOf(env, def)))
  {
    forall k | 0 <= k < |FEATURE_ORDER|
      ensures SameHit(First(env, t, InOrder(ListsOf(env, def))[k + 3]), FirstIn(env, def, t, FEATURE_ORDER[k]))
    {
      OrderedList(ListsOf(env, def), k);
      HitIn(env, def, t, FEATURE_ORDER[k]);
    }
  }

  lemma FeatureHit(env: Env, def: ExtendedPaths, r: Request)
    ensures SameHit(First(env, OnPath(r.path), Features(ListsOf(env, def))),
                    FirstFeature(env, def, r, |FEATURE_ORDER|))
  {
    ListsHit(env, def, OnPath(r.path));
    FirstHit(env, def, r, InOrder(ListsOf(env, def)), |FEATURE_ORDER|);
  }

  lemma SayVerdict(v: URLSpec, h: Hit, r: Request, whiteListed: bool)
    requires AccessList(h.list) && CompiledTo(h.list, h.e, v) && (h.e.actions.Some? ==> r.verb in h.e.actions.value)
    ensures var (ok, status, answer) := Returned(Verdict(Some(v), r, whiteListed));
      SayAnswers(h, r.verb, ok, status, answer)
  {
  }

  lemma FeatureVerdictIs(v: URLSpec, h: Hit, r: Request, whiteListed: bool)
    requires !AccessList(h.list) && CompiledTo(h.list, h.e, v)
    ensures var (ok, status, answer) := Returned(Verdict(Some(v), r, whiteListed));
      FeatureAnswers(h, r, whiteListed, ok, status) && answer == Nothing
  {
  }

  lemma DecidingEntry(env: Env, def: ExtendedPaths, r: Request)
    ensures First(env, Listed(r.path, r.verb), Combined(ListsOf(env, def))) ==
      OrElse(FirstListed(env, ListsOf(env, def), r), First(env, OnPath(r.path), Features(ListsOf(env, def))))
  {
    var l := ListsOf(env, def);
    CompiledTagged(env, def);
    SplitSearch(env, Listed(r.path, r.verb), InOrder(l), 3, FEATURES);
    AccessLists(env, l, r);
    FeaturesOnPath(env, l, r, FEATURES);
  }

  /** The answer to every request. The first access list entry that has a say decides. Failing that, the first feature
      entry for the path does; failing that, the request passes unless there is a whitelist. */
  lemma AnswerExactly(env: Env, def: ExtendedPaths, r: Request)
    ensures
      var whiteListed := def.whiteList != [];
      var (ok, status, answer) :=
        Returned(Verdict(First(env, Listed(r.path, r.verb), Combined(ListsOf(env, def))), r, whiteListed));
      var say, hit := FirstSay(env, def, r), FirstFeature(env, def, r, |FEATURE_ORDER|);
      if say.Some? then SayAnswers(say.value, r.verb, ok, status, answer)
      else if hit.Some? then FeatureAnswers(hit.value, r, whiteListed, ok, status) && answer == Nothing
      else ok == !whiteListed && status == (if whiteListed then EndPointNotAllowed else StatusOk) && answer == Nothing
  {
    var l, whiteListed := ListsOf(env, def), def.whiteList != [];
    DecidingEntry(env, def, r);
    AccessHit(env, def, r);
    FeatureHit(env, def, r);
    var say, hit := FirstSay(env, def, r), FirstFeature(env, def, r, |FEATURE_ORDER|);
    if say.Some? {
      SayVerdict(FirstListed(env, l, r).value, say.value, r, whiteListed);
    } else if hit.Some? {
      FeatureVerdictIs(First(env, OnPath(r.path), Features(l)).value, hit.value, r, whiteListed);
    }
  }

  /** The decision that an access list entry leads to when it takes no action of its own. */
  lemma SaidExactly(env: Env, def: ExtendedPaths, r: Request)
    requires FirstSay(env, def, r).Some?
    ensures var h := FirstSay(env, def, r).value;
      h.e.actions.None? || (r.verb in h.e.actions.value && h.e.actions.value[r.verb].action == NoAction) ==>
        Verdict(First(env, Listed(r.path, r.verb), Combined(ListsOf(env, def))), r, def.whiteList != []) ==
        Outcome(if h.list == Ignored then StatusOkAndIgnore
                else if h.list == BlackList then EndPointNotAllowed
                else StatusOk, Nothing)
  {
    DecidingEntry(env, def, r);
    AccessHit(env, def, r);
  }

  /** The decision that a feature entry leads to, with the settings it hands out: those of a body transformation, of a
      filter that is not empty, or of a header injection with a path. */
  predicate FeatureDecides(h: Hit, r: Request, whiteListed: bool, o: Outcome) {
    if h.list == Internal && h.e.meta.verb == r.verb then
      o == Outcome(if r.looping then StatusOf(Internal) else EndPointNotAllowed, Nothing)
    else if whiteListed then o == Outcome(EndPointNotAllowed, Nothing)
    else
      && o.status == StatusOf(h.list)
      && o.answer ==
         if || h.list == Transformed
            || (h.list == TransformedJQ && h.e.meta.content != "")
            || (h.list == HeaderInjected && h.e.meta.path != "")
         then Settings(h.e.meta) else Nothing
  }

  lemma FeatureOutcome(v: URLSpec, h: Hit, r: Request, whiteListed: bool)
    requires !AccessList(h.list) && CompiledTo(h.list, h.e, v)
    ensures FeatureDecides(h, r, whiteListed, Verdict(Some(v), r, whiteListed))
  {
  }

  /** Which settings are handed out when no access list has a say. */
  lemma SettingsExactly(env: Env, def: ExtendedPaths, r: Request)
    requires FirstSay(env, def, r).None? && FirstFeature(env, def, r, |FEATURE_ORDER|).Some?
    ensures FeatureDecides(FirstFeature(env, def, r, |FEATURE_ORDER|).value, r, def.whiteList != [],
      Verdict(First(env, Listed(r.path, r.verb), Combined(ListsOf(env, def))), r, def.whiteList != []))
  {
    DecidingEntry(env, def, r);
    AccessHit(env, def, r);
    FeatureHit(env, def, r);
    FeatureOutcome(First(env, OnPath(r.path), Features(ListsOf(env, def))).value,
                   FirstFeature(env, def, r, |FEATURE_ORDER|).value, r, def.whiteList != []);
  }
}

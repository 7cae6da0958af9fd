/** The path index of an API version: twenty feature lists compiled into one list, which is scanned to decide
    access and to find a feature's settings for a request. */
module PathIndex {
  import opened Wrappers

  // ---------------------------------------------------------------------------------------------
  // Definitions and compiled entries
  // ---------------------------------------------------------------------------------------------

  datatype Status =
    | Ignored | BlackList | WhiteList | Cached | Transformed | TransformedResponse | TransformedJQ
    | TransformedJQResponse | HeaderInjected | HeaderInjectedResponse | HardTimeout | CircuitBreaker | URLRewrite
    | RequestSizeLimit | VirtualPath | MethodTransformed | RequestTracked | RequestNotTracked | ValidateJSONRequest
    | Internal

  const FEATURES := 20

  /** The place of a feature's list in the combined list. */
  function Slot(s: Status): (k: nat)
    ensures k < FEATURES
  {
    match s
    case Ignored => 0
    case BlackList => 1
    case WhiteList => 2
    case Cached => 3
    case Transformed => 4
    case TransformedResponse => 5
    case TransformedJQ => 6
    case TransformedJQResponse => 7
    case HeaderInjected => 8
    case HeaderInjectedResponse => 9
    case HardTimeout => 10
    case CircuitBreaker => 11
    case URLRewrite => 12
    case RequestSizeLimit => 13
    case VirtualPath => 14
    case MethodTransformed => 15
    case RequestTracked => 16
    case RequestNotTracked => 17
    case ValidateJSONRequest => 18
    case Internal => 19
  }

  lemma SlotsDiffer(a: Status, b: Status)
    ensures Slot(a) == Slot(b) ==> a == b
  {}

  datatype Action = NoAction | Reply | Other

  datatype MethodMeta = MethodMeta(action: Action, reply: string)

  /** A feature's settings; content stands for those the index does not look into. */
  datatype Meta = Meta(verb: string, path: string, content: string)

  /** An entry of a feature list. */
  datatype Entry = Entry(path: string, actions: Option<map<string, MethodMeta>>, meta: Meta)

  datatype URLSpec = URLSpec(pattern: string, status: Status, actions: Option<map<string, MethodMeta>>, meta: Meta)

  /** A version's lists, in the order they are compiled. */
  datatype ExtendedPaths = ExtendedPaths(
    ignored: seq<Entry>, blackList: seq<Entry>, whiteList: seq<Entry>,
    cached: seq<string>, advanceCacheConfig: seq<Entry>,
    transform: seq<Entry>, transformResponse: seq<Entry>, transformJQ: seq<Entry>, transformJQResponse: seq<Entry>,
    transformHeader: seq<Entry>, transformResponseHeader: seq<Entry>, hardTimeouts: seq<Entry>,
    circuitBreaker: seq<Entry>, urlRewrite: seq<Entry>, sizeLimit: seq<Entry>, virtual: seq<Entry>,
    methodTransforms: seq<Entry>, trackEndpoints: seq<Entry>, doNotTrackEndpoints: seq<Entry>,
    validateJSON: seq<Entry>, internal: seq<Entry>)

  /** rx: does a path match a pattern; loads: do an entry's template, filter or script load. */
  datatype Env = Env(rx: (string, string) -> bool, loads: (Status, Entry) -> bool, enableJSVM: bool)

  const SAFE_METHODS := "SAFE_METHODS"

  predicate Listing(s: Status) { s == Ignored || s == BlackList || s == WhiteList }

  /** Templates and filters that fail to load are skipped; virtual endpoints need the script engine. */
  predicate Keeps(env: Env, s: Status, e: Entry) {
    if s == Transformed || s == TransformedResponse || s == TransformedJQ || s == TransformedJQResponse
    then env.loads(s, e)
    else s == VirtualPath ==> env.enableJSVM
  }

  function Compile(s: Status, e: Entry): URLSpec {
    URLSpec(e.path, s, if Listing(s) then e.actions else None,
            if s == RequestTracked && e.path == "" then e.meta.(path := "/") else e.meta)
  }

  function Compiled(env: Env, s: Status, entries: seq<Entry>): seq<URLSpec> {
    if entries == [] then []
    else
      var n := |entries| - 1;
      Compiled(env, s, entries[..n]) + (if Keeps(env, s, entries[n]) then [Compile(s, entries[n])] else [])
  }

  method CompileList(env: Env, s: Status, entries: seq<Entry>) returns (specs: seq<URLSpec>)
    ensures specs == Compiled(env, s, entries)
  {
    specs := [];
    for i := 0 to |entries|
      invariant specs == Compiled(env, s, entries[..i])
    {
      assert entries[..i + 1][..i] == entries[..i];
      if Keeps(env, s, entries[i]) {
        specs := specs + [Compile(s, entries[i])];
      }
    }
    assert entries[..|entries|] == entries;
  }

  /** Old cache entries are paths, cached for the safe methods. */
  function Upgraded(paths: seq<string>): seq<Entry> {
    seq(|paths|, i requires 0 <= i < |paths| => Entry(paths[i], None, Meta(SAFE_METHODS, "", "")))
  }

  /** The compiled lists. */
  datatype Lists = Lists(
    ignored: seq<URLSpec>, blackList: seq<URLSpec>, whiteList: seq<URLSpec>, cached: seq<URLSpec>,
    transform: seq<URLSpec>, transformResponse: seq<URLSpec>, transformJQ: seq<URLSpec>,
    transformJQResponse: seq<URLSpec>, transformHeader: seq<URLSpec>, transformResponseHeader: seq<URLSpec>,
    hardTimeouts: seq<URLSpec>, circuitBreaker: seq<URLSpec>, urlRewrite: seq<URLSpec>,
    sizeLimit: seq<URLSpec>, virtual: seq<URLSpec>, methodTransforms: seq<URLSpec>,
    trackEndpoints: seq<URLSpec>, doNotTrackEndpoints: seq<URLSpec>, validateJSON: seq<URLSpec>,
    internal: seq<URLSpec>)

  /** A feature's own list. */
  function Own(l: Lists, s: Status): seq<URLSpec> {
    match s
    case Ignored => l.ignored
    case BlackList => l.blackList
    case WhiteList => l.whiteList
    case Cached => l.cached
    case Transformed => l.transform
    case TransformedResponse => l.transformResponse
    case TransformedJQ => l.transformJQ
    case TransformedJQResponse => l.transformJQResponse
    case HeaderInjected => l.transformHeader
    case HeaderInjectedResponse => l.transformResponseHeader
    case HardTimeout => l.hardTimeouts
    case CircuitBreaker => l.circuitBreaker
    case URLRewrite => l.urlRewrite
    case RequestSizeLimit => l.sizeLimit
    case VirtualPath => l.virtual
    case MethodTransformed => l.methodTransforms
    case RequestTracked => l.trackEndpoints
    case RequestNotTracked => l.doNotTrackEndpoints
    case ValidateJSONRequest => l.validateJSON
    case Internal => l.internal
  }

  function InOrder(l: Lists): (ls: seq<seq<URLSpec>>)
    ensures |ls| == FEATURES
    ensures forall s: Status :: ls[Slot(s)] == Own(l, s)
  {
    [l.ignored, l.blackList, l.whiteList, l.cached, l.transform, l.transformResponse, l.transformJQ,
     l.transformJQResponse, l.transformHeader, l.transformResponseHeader, l.hardTimeouts, l.circuitBreaker,
     l.urlRewrite, l.sizeLimit, l.virtual, l.methodTransforms, l.trackEndpoints, l.doNotTrackEndpoints,
     l.validateJSON, l.internal]
  }

  /** The first k lists, one after the other. */
  function Joined(ls: seq<seq<URLSpec>>, k: nat): seq<URLSpec>
    requires k <= |ls|
  {
    if k == 0 then [] else Joined(ls, k - 1) + ls[k - 1]
  }

  function Combined(l: Lists): seq<URLSpec> { Joined(InOrder(l), FEATURES) }

  function ListsOf(env: Env, def: ExtendedPaths): Lists {
    Lists(
      Compiled(env, Ignored, def.ignored),
      Compiled(env, BlackList, def.blackList),
      Compiled(env, WhiteList, def.whiteList),
      Compiled(env, Cached, Upgraded(def.cached) + def.advanceCacheConfig),
      Compiled(env, Transformed, def.transform),
      Compiled(env, TransformedResponse, def.transformResponse),
      Compiled(env, TransformedJQ, def.transformJQ),
      Compiled(env, TransformedJQResponse, def.transformJQResponse),
      Compiled(env, HeaderInjected, def.transformHeader),
      Compiled(env, HeaderInjectedResponse, def.transformResponseHeader),
      Compiled(env, HardTimeout, def.hardTimeouts),
      Compiled(env, CircuitBreaker, def.circuitBreaker),
      Compiled(env, URLRewrite, def.urlRewrite),
      Compiled(env, RequestSizeLimit, def.sizeLimit),
      Compiled(env, VirtualPath, def.virtual),
      Compiled(env, MethodTransformed, def.methodTransforms),
      Compiled(env, RequestTracked, def.trackEndpoints),
      Compiled(env, RequestNotTracked, def.doNotTrackEndpoints),
      Compiled(env, ValidateJSONRequest, def.validateJSON),
      Compiled(env, Internal, def.internal))
  }

  method CompileAll(env: Env, def: ExtendedPaths) returns (l: Lists)
    ensures l == ListsOf(env, def)
  {
    var ignored := CompileList(env, Ignored, def.ignored);
    var blackList := CompileList(env, BlackList, def.blackList);
    var whiteList := CompileList(env, WhiteList, def.whiteList);
    var cached := CompileList(env, Cached, Upgraded(def.cached) + def.advanceCacheConfig);
    var transform := CompileList(env, Transformed, def.transform);
    var transformResponse := CompileList(env, TransformedResponse, def.transformResponse);
    var transformJQ := CompileList(env, TransformedJQ, def.transformJQ);
    var transformJQResponse := CompileList(env, TransformedJQResponse, def.transformJQResponse);
    var transformHeader := CompileList(env, HeaderInjected, def.transformHeader);
    var transformResponseHeader := CompileList(env, HeaderInjectedResponse, def.transformResponseHeader);
    var hardTimeouts := CompileList(env, HardTimeout, def.hardTimeouts);
    var circuitBreaker := CompileList(env, CircuitBreaker, def.circuitBreaker);
    var urlRewrite := CompileList(env, URLRewrite, def.urlRewrite);
    var sizeLimit := CompileList(env, RequestSizeLimit, def.sizeLimit);
    var virtual := CompileList(env, VirtualPath, def.virtual);
    var methodTransforms := CompileList(env, MethodTransformed, def.methodTransforms);
    var trackEndpoints := CompileList(env, RequestTracked, def.trackEndpoints);
    var doNotTrackEndpoints := CompileList(env, RequestNotTracked, def.doNotTrackEndpoints);
    var validateJSON := CompileList(env, ValidateJSONRequest, def.validateJSON);
    var internal := CompileList(env, Internal, def.internal);
    l := Lists(
      ignored, blackList, whiteList, cached, transform, transformResponse, transformJQ, transformJQResponse,
      transformHeader, transformResponseHeader, hardTimeouts, circuitBreaker, urlRewrite, sizeLimit, virtual,
      methodTransforms, trackEndpoints, doNotTrackEndpoints, validateJSON, internal);
  }

  method Append(l: Lists) returns (combined: seq<URLSpec>)
    ensures combined == Combined(l)
  {
    ghost var ls := InOrder(l);
    combined := [];
    combined := combined + l.ignored;
    assert combined == Joined(ls, 1);
    combined := combined + l.blackList;
    assert combined == Joined(ls, 2);
    combined := combined + l.whiteList;
    assert combined == Joined(ls, 3);
    combined := combined + l.cached;
    assert combined == Joined(ls, 4);
    combined := combined + l.transform;
    assert combined == Joined(ls, 5);
    combined := combined + l.transformResponse;
    assert combined == Joined(ls, 6);
    combined := combined + l.transformJQ;
    assert combined == Joined(ls, 7);
    combined := combined + l.transformJQResponse;
    assert combined == Joined(ls, 8);
    combined := combined + l.transformHeader;
    assert combined == Joined(ls, 9);
    combined := combined + l.transformResponseHeader;
    assert combined == Joined(ls, 10);
    combined := combined + l.hardTimeouts;
    assert combined == Joined(ls, 11);
    combined := combined + l.circuitBreaker;
    assert combined == Joined(ls, 12);
    combined := combined + l.urlRewrite;
    assert combined == Joined(ls, 13);
    combined := combined + l.sizeLimit;
    assert combined == Joined(ls, 14);
    combined := combined + l.virtual;
    assert combined == Joined(ls, 15);
    combined := combined + l.methodTransforms;
    assert combined == Joined(ls, 16);
    combined := combined + l.trackEndpoints;
    assert combined == Joined(ls, 17);
    combined := combined + l.doNotTrackEndpoints;
    assert combined == Joined(ls, 18);
    combined := combined + l.validateJSON;
    assert combined == Joined(ls, 19);
    combined := combined + l.internal;
    assert combined == Joined(ls, 20);
  }

  method GetExtendedPathSpecs(env: Env, def: ExtendedPaths) returns (combined: seq<URLSpec>, whiteListStatus: bool)
    ensures combined == Combined(ListsOf(env, def))
    ensures whiteListStatus == (def.whiteList != [])
  {
    var l := CompileAll(env, def);
    combined := Append(l);
    KeepsAll(env, def.whiteList);
    whiteListStatus := |l.whiteList| > 0;
  }

  lemma {:induction false} KeepsAll(env: Env, entries: seq<Entry>)
    ensures |Compiled(env, WhiteList, entries)| == |entries|
  {
    if entries != [] {
      KeepsAll(env, entries[..|entries| - 1]);
    }
  }

  // ---------------------------------------------------------------------------------------------
  // Looking up a feature
  // ---------------------------------------------------------------------------------------------

  /** looping: the request came through an internal redirect. */
  datatype Request = Request(path: string, verb: string, rewritePath: string, originalVerb: string, looping: bool)

  predicate OnResponse(mode: Status) {
    mode == TransformedJQResponse || mode == HeaderInjectedResponse || mode == TransformedResponse
  }

  function MatchPath(listenPath: string, r: Request, mode: Status): string {
    var full := if OnResponse(mode) && r.rewritePath != "" then r.rewritePath else r.path;
    var cut := if listenPath != "/" && listenPath <= full then full[|listenPath|..] else full;
    if "/" <= cut then cut else "/" + cut
  }

  function MatchVerb(r: Request, mode: Status): string {
    if OnResponse(mode) then r.originalVerb else r.verb
  }

  predicate VerbFits(v: URLSpec, verb: string) {
    || Listing(v.status)
    || verb == v.meta.verb
    || (v.status == Cached && v.meta.verb == SAFE_METHODS
        && (verb == "GET" || verb == "HEADERS" || verb == "OPTIONS"))
  }

  /** What a search looks for. */
  datatype Test =
    | Feature(mode: Status, path: string, verb: string)   // an entry of a feature for a path and method
    | Listed(path: string, verb: string)                  // an entry for a path that has a say on a method
    | OnPath(path: string)                                  // any entry for a path

  predicate Holds(env: Env, t: Test, v: URLSpec) {
    && env.rx(v.pattern, t.path)
    && match t
       case Feature(mode, _, verb) => v.status == mode && VerbFits(v, verb)
       case Listed(_, verb) => v.actions.Some? ==> verb in v.actions.value
       case OnPath(_) => true
  }

  function First(env: Env, t: Test, specs: seq<URLSpec>): Option<URLSpec> {
    if specs == [] then None
    else if Holds(env, t, specs[0]) then Some(specs[0])
    else First(env, t, specs[1..])
  }

  function Lookup(env: Env, listenPath: string, r: Request, mode: Status): Test {
    Feature(mode, MatchPath(listenPath, r, mode), MatchVerb(r, mode))
  }

  /** The path and method to look for: those before a rewrite when a response is handled. */
  method MatchTarget(listenPath: string, r: Request, mode: Status) returns (matchPath: string, verb: string)
    ensures matchPath == MatchPath(listenPath, r, mode) && verb == MatchVerb(r, mode)
  {
    matchPath, verb := r.path, r.verb;
    if OnResponse(mode) {
      matchPath := r.rewritePath;
      verb := r.originalVerb;
      if matchPath == "" {
        matchPath := r.path;
      }
    }
    if listenPath != "/" && listenPath <= matchPath {
      matchPath := matchPath[|listenPath|..];
    }
    if !("/" <= matchPath) {
      matchPath := "/" + matchPath;
    }
  }

  method CheckSpecMatchesStatus(env: Env, listenPath: string, r: Request, rxPaths: seq<URLSpec>, mode: Status)
    returns (found: Option<URLSpec>)
    ensures found == First(env, Lookup(env, listenPath, r, mode), rxPaths)
  {
    var matchPath, verb := MatchTarget(listenPath, r, mode);
    ghost var t := Feature(mode, matchPath, verb);
    for i := 0 to |rxPaths|
      invariant First(env, t, rxPaths) == First(env, t, rxPaths[i..])
    {
      var v := rxPaths[i];
      assert rxPaths[i..][1..] == rxPaths[i + 1..];
      if mode == v.status && env.rx(v.pattern, matchPath) && VerbFits(v, verb) {
        return Some(v);
      }
    }
    return None;
  }

  lemma {:induction false} FirstOfTwo(env: Env, t: Test, a: seq<URLSpec>, b: seq<URLSpec>)
    ensures First(env, t, a + b) == (if First(env, t, a).Some? then First(env, t, a) else First(env, t, b))
  {
    if a == [] {
      assert a + b == b;
    } else {
      FirstOfTwo(env, t, a[1..], b);
      assert (a + b)[1..] == a[1..] + b;
    }
  }

  /** First is the first: it holds, and nothing before it does. */
  lemma {:induction false} FirstExact(env: Env, t: Test, specs: seq<URLSpec>) returns (i: nat)
    ensures i <= |specs| && forall j :: 0 <= j < i ==> !Holds(env, t, specs[j])
    ensures First(env, t, specs) == (if i < |specs| then Some(specs[i]) else None)
    ensures i < |specs| ==> Holds(env, t, specs[i])
  {
    if specs == [] || Holds(env, t, specs[0]) {
      i := 0;
    } else {
      i := FirstExact(env, t, specs[1..]);
      i := i + 1;
    }
  }

  lemma {:induction false} OtherFeatureMisses(env: Env, t: Test, s: Status, specs: seq<URLSpec>)
    requires t.Feature? && t.mode != s && forall i :: 0 <= i < |specs| ==> specs[i].status == s
    ensures First(env, t, specs) == None
  {
    if specs != [] {
      assert specs[0].status == s;
      OtherFeatureMisses(env, t, s, specs[1..]);
    }
  }

  lemma {:induction false} CompiledStatus(env: Env, s: Status, entries: seq<Entry>)
    ensures forall i :: 0 <= i < |Compiled(env, s, entries)| ==> Tagged(Compiled(env, s, entries)[i], s)
  {
    if entries != [] {
      CompiledStatus(env, s, entries[..|entries| - 1]);
    }
  }

  /** What compiling makes of an entry: only the access lists have method actions. */
  predicate Tagged(v: URLSpec, s: Status) { v.status == s && (!Listing(s) ==> v.actions.None?) }

  ghost predicate AllTagged(l: Lists) {
    forall s: Status, i :: 0 <= i < |Own(l, s)| ==> Tagged(Own(l, s)[i], s)
  }

  lemma {:induction false} FindsOwn(env: Env, l: Lists, t: Test, k: nat)
    requires AllTagged(l) && t.Feature? && k <= FEATURES
    ensures First(env, t, Joined(InOrder(l), k)) ==
            (if Slot(t.mode) < k then First(env, t, Own(l, t.mode)) else None)
  {
    if k > 0 {
      var ls := InOrder(l);
      FindsOwn(env, l, t, k - 1);
      FirstOfTwo(env, t, Joined(ls, k - 1), ls[k - 1]);
      var s := AtSlot(k - 1);
      if t.mode != s {
        SlotsDiffer(t.mode, s);
        assert forall i :: 0 <= i < |Own(l, s)| ==> Tagged(Own(l, s)[i], s);
        OtherFeatureMisses(env, t, s, Own(l, s));
      }
    }
  }

  lemma AtSlot(k: nat) returns (s: Status)
    requires k < FEATURES
    ensures Slot(s) == k
  {
    match k
    case 0 => s := Ignored;
    case 1 => s := BlackList;
    case 2 => s := WhiteList;
    case 3 => s := Cached;
    case 4 => s := Transformed;
    case 5 => s := TransformedResponse;
    case 6 => s := TransformedJQ;
    case 7 => s := TransformedJQResponse;
    case 8 => s := HeaderInjected;
    case 9 => s := HeaderInjectedResponse;
    case 10 => s := HardTimeout;
    case 11 => s := CircuitBreaker;
    case 12 => s := URLRewrite;
    case 13 => s := RequestSizeLimit;
    case 14 => s := VirtualPath;
    case 15 => s := MethodTransformed;
    case 16 => s := RequestTracked;
    case 17 => s := RequestNotTracked;
    case 18 => s := ValidateJSONRequest;
    case _ => s := Internal;
  }

  /** Searching the combined list is searching the feature's own list, whatever the other lists hold. */
  lemma IndexAgrees(env: Env, def: ExtendedPaths, listenPath: string, r: Request, mode: Status)
    ensures var l, t := ListsOf(env, def), Lookup(env, listenPath, r, mode);
            First(env, t, Combined(l)) == First(env, t, Own(l, mode))
  {
    CompiledTagged(env, def);
    FindsOwn(env, ListsOf(env, def), Lookup(env, listenPath, r, mode), FEATURES);
  }

  lemma CompiledTagged(env: Env, def: ExtendedPaths)
    ensures AllTagged(ListsOf(env, def))
  {
    var l := ListsOf(env, def);
    forall s: Status, i | 0 <= i < |Own(l, s)| ensures Tagged(Own(l, s)[i], s) {
      var entries := CompiledFrom(env, def, s);
      CompiledStatus(env, s, entries);
    }
  }

  lemma CompiledFrom(env: Env, def: ExtendedPaths, s: Status) returns (entries: seq<Entry>)
    ensures Own(ListsOf(env, def), s) == Compiled(env, s, entries)
  {
    match s
    case Ignored => entries := def.ignored;
    case BlackList => entries := def.blackList;
    case WhiteList => entries := def.whiteList;
    case Cached => entries := Upgraded(def.cached) + def.advanceCacheConfig;
    case Transformed => entries := def.transform;
    case TransformedResponse => entries := def.transformResponse;
    case TransformedJQ => entries := def.transformJQ;
    case TransformedJQResponse => entries := def.transformJQResponse;
    case HeaderInjected => entries := def.transformHeader;
    case HeaderInjectedResponse => entries := def.transformResponseHeader;
    case HardTimeout => entries := def.hardTimeouts;
    case CircuitBreaker => entries := def.circuitBreaker;
    case URLRewrite => entries := def.urlRewrite;
    case RequestSizeLimit => entries := def.sizeLimit;
    case VirtualPath => entries := def.virtual;
    case MethodTransformed => entries := def.methodTransforms;
    case RequestTracked => entries := def.trackEndpoints;
    case RequestNotTracked => entries := def.doNotTrackEndpoints;
    case ValidateJSONRequest => entries := def.validateJSON;
    case Internal => entries := def.internal;
  }
}

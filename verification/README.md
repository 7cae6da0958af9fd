# A verified model of the gateway's core

This project models the parts of the Tyk API gateway whose behaviour is hardest to see from the code, and proves
what they keep over every input, every run or every interleaving. Each source component has a module or a small group
of modules:

| component | modules |
|---|---|
| merging policies into a session | `Policies`, `PolicyTrace`, `PolicyIdempotence`, `PolicyLimits`, `PolicyEntries`, `PolicyOutcome`, `PolicyOrder` |
| rewriting URLs with capture groups | `UrlRewrite`, `UrlRewriteExact`, `Decimals` |
| signing requests and checking signatures | `HttpSignature`, `RequestSigning`, `SignThenVerify`, `SignatureBinding` |
| swapping listeners on reload | `Listeners`, `ListenerReload`, `ProxyMux` |
| electing the uptime poller | `PollerElection` |
| cached responses and stored definitions | `Base64`, `CachePayload`, `KeyTables`, `ApiDefinitionCodec` |
| the StatsD sink | `StatsDPacking`, `StatsDSink`, `StatsDReading` |
| the analytics pool | `AnalyticsPool` |
| the path index and the access decision | `PathIndex`, `PathAccess`, `PathDecision` |
| host up/down reports and target choice | `HostReporter`, `TargetChoice` |
| internal looping and throttling | `Looping`, `Throttle` |
| the certificate cache | `CertCache` |

Code that changes things step by step is modelled by classes and methods with loops, each proved against a function
or predicate on values; the results are lemmas about those. Concurrent code is a state machine over atomic steps.
Time, randomness, the network, regular expressions and cryptography are parameters. `dafny verify dfyconfig.toml`
checks everything.

Main results:

- Applying policies again changes nothing, for every session, if and only if the policy list is not of one described
  shape (`PolicyIdempotence.IdempotenceExact`).
- Every limit of the finished session has a closed form over the loaded policies, and the order of the policies does not
  matter if and only if a stated condition holds (`PolicyLimits.FinalLimit`, `PolicyOrder.OrderExactly`).
- Replacing `$N` tokens one after the other equals replacing them at once, for all matches without dollar signs, if and
  only if no round of the template is of one of three described shapes (`UrlRewriteExact.AgreesExactly`).
- A signed request is read back field by field. The signed string can be rebuilt if and only if there is no earlier
  Authorization header or it is the very header to be written; a bearer token never is
  (`SignThenVerify.SignedIsReadBack`, `SignThenVerify.RebuildsExactly`, `SignThenVerify.BearerNotRebuilt`).
- A signed request that was changed is accepted only where two different strings have one digest
  (`SignatureBinding.ChangeNeedsCollision`).
- A reload keeps every listener that is still needed, shuts down exactly the others, and serves exactly the new services
  (`ListenerReload.SameServices`, `ListenerReload.OnlyUnusedShutDown`, `ProxyMux.Mux.Swap`).
- There are never two pollers in a run if and only if every check finds the other poller's lease still running;
  overlapping checks can break this, with its own exact condition, and it heals (`PollerElection.NeverTwoExactly`,
  `PollerElection.HalvesNeverTwoExactly`, `PollerElection.OverlapHeals`).
- No metric is split, lost or reordered by the sink, and no record is lost or stored twice by the analytics pool, over
  every interleaving; what a StatsD server reads is what each command means (`StatsDSink.Delivered`,
  `StatsDReading.DeliveredReadings`, `AnalyticsPool.NothingLost`). The pool's batches are bounded by the buffer size
  if and only if the workers are not more than the channel's places (`AnalyticsPool.BatchBoundExactly`).
- What the path index finds and what becomes of every request is given in terms of the definition's own lists
  (`PathDecision.FoundExactly`, `PathDecision.AnswerExactly`).
- On hexadecimal ids the certificate cache shows only as a memory of public key fingerprints: listing certificates,
  adding, deleting, flushing and expiry are those of a manager without a cache (`CertCache.Perform`).

Where the code and its comments disagree the model follows the code:

- `gateway/api_loader.go:514-515` says that a bad `loop_limit` always reads as 0; a number too large for the
  machine reads as the largest one instead, so `loopLimit` is a parameter of any size.
- `gateway/api_definition.go:1122` lists `HEADERS` among the safe methods, and so does the model.

## Model

| member | source | states |
|---|---|---|
| `Policies.ApplyPolicies` | gateway/middleware.go:287-531 | The session ends as the fold of its policies, finished, or, when a policy is refused, as the earlier policies left it; the policy list is kept, is read from the list or else the single id of the session, and tags are not repeated |
| `Policies.Carried` | gateway/middleware.go:356-424 | What a policy carries: everything if it is per-API or sets no partition, else the partitions it sets |
| `Policies.ApplyAll` | gateway/middleware.go:293-463 | The loop over the policies computes the fold, stopping at the first refused policy with the session as the earlier ones made it |
| `Policies.ApplyPolicy` | gateway/middleware.go:294-462 | One turn of the loop is one step of the fold, with the same error |
| `Policies.MergePerApi` | gateway/middleware.go:317-354 | Refuses exactly when some API was already set by an earlier policy, whatever the order of the map; otherwise sets every entry |
| `Policies.MergeShared` | gateway/middleware.go:358-432 | The entries of the policy's APIs are merged, all others are kept |
| `Policies.MergeEntry` | gateway/middleware.go:359-431 | An entry takes versions, quota and rate as the partitions allow, raising limits and keeping the renewal date |
| `Policies.ApplyMaster` | gateway/middleware.go:434-447 | A policy without access rights sets the session's own values, as its partitions allow |
| `Policies.ApplyFlags` | gateway/middleware.go:449-459 | Signing is switched on by shared policies only; the first policy decides inactivity, later ones can only add it |
| `Policies.FinishRights` | gateway/middleware.go:475-507 | The finishing loop computes the finished entries, whose content `PolicyEntries.FinalEntryIs` and `PolicyLimits.FinalLimit` give |
| `Policies.WriteLegacyRoot` | gateway/middleware.go:509-523 | The session's own limits become those of some entry, whichever is visited last |
| `Policies.SetTags` | gateway/middleware.go:460-473 | The tags are those of the session and of all policies, without repetition |
| `Policies.Finish` | gateway/middleware.go:465-528 | The steps after the loop, together |
| `Policies.RefusalStays` | gateway/middleware.go:293-324 | After a refusal no later policy counts |
| `PolicyIdempotence.Idempotent` | gateway/middleware.go:287-531 | Applying policies to their own result changes nothing unless one API has a quota, one has a rate and a further API is named |
| `PolicyIdempotence.NotIdempotent` | gateway/middleware.go:509-523 | For every such list that is accepted, a session that the second application changes |
| `PolicyIdempotence.IdempotenceExact` | gateway/middleware.go:287-531 | For every accepted list: always idempotent if and only if it is not of that shape |
| `PolicyIdempotence.WholePoliciesUnambiguous` | gateway/middleware.go:509-523 | Lists of per-API and unpartitioned policies never have that shape |
| `PolicyIdempotence.PolicyListKept` | gateway/middleware.go:287-315 | Re-application, as on every cache hit, is accepted when the first was |
| `PolicyIdempotence.Shape` | gateway/middleware.go:317-432 | Which APIs have rights, a quota or a rate after n policies follows from the policies alone |
| `PolicyIdempotence.SameFold` | gateway/middleware.go:293-463 | Two sessions with the same list are merged alike, but for their own values and renewal dates |
| `PolicyIdempotence.RenewsKept` | gateway/middleware.go:339-342 | The merge keeps the renewal dates the session had |
| `PolicyLimits.HeldIsPeak` | gateway/middleware.go:355-432 | After n policies: an API has an entry exactly when one of them names it, and its limit is the largest of what the entry started with and the contributions since, but stays -1 once it is unlimited |
| `PolicyLimits.PeakIsMax` | gateway/middleware.go:393-424 | That value is a maximum: neither the start nor a contribution exceeds it, and one of them attains it |
| `PolicyLimits.FinalLimit` | gateway/middleware.go:465-528 | The closed form of every limit of the finished session: the session's old one if no policy with the ACL names an API; else that value, or the session's own level where no policy contributes; and which APIs have an entry |
| `PolicyLimits.SessionLevelExactly` | gateway/middleware.go:434-447 | The session's own values are those of the last policy without APIs that carries the partition, else those it came with |
| `PolicyEntries.RootValue` | gateway/middleware.go:509-523 | The session's own values and renewal date at the end: those of some named API if exactly one has a quota and one has a rate, but for the throttling, else the session's level and date |
| `PolicyEntries.EntryComesFrom` | gateway/middleware.go:317-432 | After n policies an API's entry has the names and scope of the policy it comes from, the mark of its last setter, and the renewal date the session holds or else the stored one |
| `PolicyEntries.FinalEntryIs` | gateway/middleware.go:475-507 | The finished entry from the list alone: its names, its allowance scope (the API for a per-API policy, else its own, else the setter if the list has several, else none) and its renewal date |
| `PolicyLimits.UnlimitedExactly` | gateway/middleware.go:393-414 | A contributed quota or rate ends as unlimited if and only if the entry started with -1, or with less and the first contribution not below -1 is -1; a shared policy's own -1 does not count where no limit is stored |
| `PolicyOrder.OrderIrrelevant` | gateway/middleware.go:358-432 | Order and repetition do not change a limit if no policy with the ACL names an API, or nobody names this one, or: where a policy contributes, each that names the API without the ACL alone gives the largest value; where none does, the policies that set the session's value agree |
| `PolicyOrder.OrderMatters` | gateway/middleware.go:358-432 | Otherwise two accepted orders, with their two different limits |
| `PolicyOrder.OrderExactly` | gateway/middleware.go:287-531 | For every accepted list: all orders of it end with the same limit if and only if that holds |
| `PolicyOrder.MovedIsAccepted` | gateway/middleware.go:293-324 | Moving a policy that is not per-API to the end keeps a list accepted |
| `PolicyLimits.DidExactly` | gateway/middleware.go:355-424 | An API counts as having a quota or rate exactly when some policy contributes one |
| `PolicyOutcome.AcceptedExactly` | gateway/middleware.go:293-324 | A list is accepted if and only if every policy is loaded, belongs to the API's organisation if there is one, does not mix per-API with a partition, and, if per-API, is the first to name each of its APIs |
| `PolicyOutcome.RefusedExactly` | gateway/middleware.go:293-324 | A refused list is refused for its first unacceptable policy, with the error of its first fault: not found, other organisation, per-API with partitions, or API named before |
| `PolicyOutcome.RefusedSession` | gateway/middleware.go:287-324 | What the session then holds: rights, date, tags and list untouched, flags and values as the policies before it set them |
| `PolicyOutcome.FlagsAndTags` | gateway/middleware.go:449-463 | A key is inactive if any of its policies is, signed if any shared one allows it, and has the tags of all |
| `PolicyOutcome.VersionsGranted` | gateway/middleware.go:358-371 | The versions of an API: added up by policies with the ACL, replaced by the others |
| `PolicyOutcome.OutcomeOfList` | gateway/middleware.go:465-528 | The finished session after an accepted list, from the list alone: its inactivity, signing and tags, which APIs it has, and for each its names, versions, allowance scope and renewal date; no setter mark is left |
| `UrlRewrite.Rewrite` | gateway/mw_url_rewrite.go:159-186 | Without a match the path stays; with one it is the token-by-token replacement over the first match's groups, and the simultaneous substitution when all rounds are sound and no group holds a `$` |
| `UrlRewrite.SequentialIsSimultaneous` | gateway/mw_url_rewrite.go:163-179 | For every template whose rounds are sound and all groups without `$`, token-by-token replacement equals one simultaneous substitution |
| `UrlRewrite.RoundsTo` | gateway/mw_url_rewrite.go:177-179 | After p sound rounds exactly the first p tokens have been replaced |
| `UrlRewrite.TameIsSound` | gateway/mw_url_rewrite.go:177-179 | Rounds are sound if no token is a proper prefix of a later one, and no `$` and no token that a later one extends stands directly before a token |
| `UrlRewrite.ReplaceStep` | gateway/mw_url_rewrite.go:177-179 | One sound round replaces exactly the tokens equal to its own |
| `UrlRewrite.GroupMapKeys` | gateway/mw_url_rewrite.go:171-175 | The group map holds exactly the group numbers written without leading zeros |
| `UrlRewriteExact.ShorterFirstFails` | gateway/mw_url_rewrite.go:177-179 | For every two tokens, the first a proper prefix of the second, a template and a match, each group a part of the whole match, on which the two substitutions differ |
| `UrlRewriteExact.GroupWithTokenFails` | gateway/mw_url_rewrite.go:177-179 | For every two groups besides the whole match, neither number starting with the other, a template and a match, one group of which holds a token, on which they differ, and both results |
| `UrlRewriteExact.StrayDollarFails` | gateway/mw_url_rewrite.go:177-179 | For every token, a template with a stray `$` and a match on which they differ |
| `UrlRewriteExact.Disagrees` | gateway/mw_url_rewrite.go:163-179 | Every template with an unsound round, its tokens without leading zeros, has a match without `$` on which they differ |
| `UrlRewriteExact.AgreesExactly` | gateway/mw_url_rewrite.go:163-179 | Such a template agrees for all matches without `$`, group 0 being the whole match and the others parts of it, if and only if, in each round, no undone token extends the round's, and neither a `$` nor an undone proper prefix of it stands directly before a replaced token |
| `UrlRewriteExact.PiecesOfText` | gateway/mw_url_rewrite.go:166 | The token pattern reads back the pieces that a template was written from |
| `HttpSignature.BuildSignatureString` | gateway/mw_hmac.go:338-361 | The loop writes one line per listed header, line feeds between them |
| `HttpSignature.AuthorizationUnsigned` | gateway/mw_hmac.go:338-361 | The string depends on the Authorization header only if that header is listed |
| `HttpSignature.LoadKeyValues` | gateway/mw_hmac.go:263-297 | The scanner loop over words, strings and marks computes the pairs |
| `RequestSigning.ListNames` | gateway/mw_request_signing.go:24-46 | The request target first, then every header name once, in any order |
| `RequestSigning.GenerateHeaderList` | gateway/mw_request_signing.go:24-46 | Every header is listed; a date is added to the request when it has none |
| `RequestSigning.PrintAuthHeader` | gateway/mw_request_signing.go:82-94 | The printed Authorization header |
| `RequestSigning.SignRequest` | gateway/mw_request_signing.go:48-98 | Missing settings, and an algorithm outside the allowed list or else the four supported ones, are refused and leave the request alone; otherwise it is signed over its headers |
| `RequestSigning.GetFieldValues` | gateway/mw_hmac.go:299-334 | Fails exactly when some pair is unknown or badly quoted; otherwise gives a reading of the pairs, the headers defaulting to the date |
| `RequestSigning.CheckSignature` | gateway/mw_hmac.go:48-120 | Accepts only a reading whose signature matches, and accepts whenever every reading does |
| `SignThenVerify.FieldListRead` | gateway/mw_hmac.go:263-297 | Scanning a printed field list gives back its four pairs, for all clean values |
| `SignThenVerify.BlanksIgnored` | gateway/mw_hmac.go:263-297 | Blanks between the tokens of a field list make no difference |
| `SignThenVerify.HeaderStripped` | gateway/mw_hmac.go:140-144 | Stripping the scheme leaves the field list |
| `SignThenVerify.PrintedParses` | gateway/mw_hmac.go:299-334 | The printed pairs can be read in exactly one way |
| `SignThenVerify.FieldTextExactly` | gateway/mw_hmac.go:299-315 | A field's text is the inside of its quotes, which must hold no quote, escape or line feed, or the text itself when it does not start with a quote |
| `SignThenVerify.SignedIsReadBack` | gateway/mw_request_signing.go:73-94 | For every request without an Authorization header, the checker reads exactly what the signer wrote and rebuilds the signed string |
| `SignThenVerify.SignedIsAccepted` | gateway/mw_hmac.go:48-120 | Such a request passes the check of a gateway that knows the secret and allows the algorithm |
| `SignThenVerify.RebuildsExactly` | gateway/mw_hmac.go:338-361 | The signed string is rebuilt if and only if the request has no Authorization header or its header, trimmed, is the text that signing writes, stated over the request, the settings and the digest |
| `SignThenVerify.OtherHeaderNotRebuilt` | gateway/mw_hmac.go:338-361 | It is not rebuilt if the earlier header does not begin with the signer's own key, algorithm and first listed name |
| `SignThenVerify.BearerNotRebuilt` | gateway/mw_hmac.go:338-361 | It is never rebuilt over an earlier bearer token |
| `SignThenVerify.AcceptedExactly` | gateway/mw_hmac.go:48-120 | With or without an earlier header, a signed request is accepted if and only if the string it now has gives the same signature |
| `SignatureBinding.LineText` | gateway/mw_hmac.go:338-361 | The text of every line: the request target from method and path, the date from the auxiliary or else the date header or neither, any other header by its name and trimmed value |
| `SignatureBinding.SameStringExactly` | gateway/mw_hmac.go:338-361 | Two requests have the same signature string if and only if they agree on everything listed: method and path, the date and its source, every trimmed value |
| `SignatureBinding.UnchangedExactly` | gateway/mw_hmac.go:338-361 | Over the signer's own list, a request has the signed string if and only if method, path, date and all headers are as they were |
| `SignatureBinding.SigningKeeps` | gateway/mw_request_signing.go:24-98 | Signing writes the Authorization header and a missing date, and nothing else |
| `SignatureBinding.SameDigest` | gateway/mw_hmac.go:363-383 | Two digests are printed alike if and only if they are equal |
| `SignatureBinding.EscapedExactly` | gateway/mw_hmac.go:363-383 | Letters, digits, hyphens, underscores, dots and tildes of a signature stay, a space becomes a plus sign, anything else an escape |
| `SignatureBinding.AcceptedOnlyIf` | gateway/mw_hmac.go:48-120 | A request with the Authorization header of a signed one, otherwise changed at will, is accepted if and only if the key is known, the algorithm allowed, and the digests of its own and of the signed string are equal |
| `SignatureBinding.ChangeNeedsCollision` | gateway/mw_hmac.go:48-120 | So one whose method, path, date or headers were changed is accepted only where two different strings have one digest |
| `ListenerReload.ReloadServes` | gateway/proxy_muxer.go:296-401 | After a reload the listeners in use are open, distinct and exactly the bound ones, and every merged proxy has been served |
| `ListenerReload.OpensExactly` | gateway/proxy_muxer.go:349-460 | A merged proxy without a listener ends with one if and only if its port is allowed and can be bound; it is the bound one, kept for the next reload, and the proxy is started on it, with a server exactly for http and https; otherwise nothing changes |
| `ListenerReload.SameServices` | gateway/proxy_muxer.go:296-347 | After a reload exactly the ports and protocols of the new muxer are served |
| `ListenerReload.SurvivorGoesOn` | gateway/proxy_muxer.go:296-401 | A proxy with a counterpart keeps its listener and its server, with the new routes |
| `ListenerReload.OnlyUnusedShutDown` | gateway/proxy_muxer.go:299-319 | Exactly the listeners of proxies without a counterpart are shut down |
| `ListenerReload.HeldStays` | gateway/proxy_muxer.go:299-319 | A listener that a survivor holds is neither shut down nor forgotten |
| `ListenerReload.MergedProxy` | gateway/proxy_muxer.go:321-346 | Every proxy after merging has the routes of the new one on its port, and a listener only if it had it before |
| `ListenerReload.ServeOne` | gateway/proxy_muxer.go:349-401 | Serving one proxy keeps the listeners open, distinct and bound |
| `ProxyMux.GetProxy` | gateway/proxy_muxer.go:82-94 | The first proxy on the port, port 0 meaning the configured one; none if there is none |
| `ProxyMux.Mux.SetRouter` | gateway/proxy_muxer.go:117-149 | For every muxer: a new port gets a proxy; otherwise the first proxy on the port gets the router if it speaks the protocol, and no other proxy changes; a muxer that is being filled stays ready to be swapped in |
| `ProxyMux.DropUnused` | gateway/proxy_muxer.go:299-319 | Compacting in place keeps the survivors in order and forgets and closes exactly the others |
| `ProxyMux.TakeNew` | gateway/proxy_muxer.go:321-346 | Survivors take over routes in place, the remaining new proxies are appended |
| `ProxyMux.ServeList` | gateway/proxy_muxer.go:349-401 | The serving loop on objects computes the serving function on values, which `ListenerReload.OpensExactly` and `ListenerReload.ReloadServes` are about |
| `ProxyMux.Mux.Swap` | gateway/proxy_muxer.go:296-347 | The muxer's whole new state, and which proxy objects stay |
| `PollerElection.NeverTwoPollers` | gateway/host_checker_manager.go:99-172 | Started with no poller there is never more than one, in every run with punctual checks |
| `PollerElection.AtMostOnePolls` | gateway/host_checker_manager.go:118-172 | From whatever state, at most one of the instances that have checked since polls |
| `PollerElection.SilentPollerReplaced` | gateway/host_checker_manager.go:140-172 | Once a silent poller's lease is over, the next instance to check polls |
| `PollerElection.LateCheckGivesTwo` | gateway/host_checker_manager.go:140-172 | After every run without two pollers, a check by another instance gives two if and only if the poller's last check is at least the lease time ago |
| `PollerElection.NeverTwoExactly` | gateway/host_checker_manager.go:99-172 | From no poller, for every run: there are never two if and only if whenever an instance checks, every other poller checked less than the lease time before |
| `PollerElection.OverlappingChecksGiveTwo` | gateway/host_checker_manager.go:140-172 | In the model where reading and acting are separate steps, two checks that both read before either acts give two pollers |
| `PollerElection.HalvesNeverTwoExactly` | gateway/host_checker_manager.go:140-172 | In that model, from no poller and for every run: there are never two if and only if nobody acts on a key it read as missing or its own while another instance polls |
| `PollerElection.HalvesAreTheCheck` | gateway/host_checker_manager.go:140-172 | In that model, runs whose halves are not interrupted are the runs of whole checks |
| `PollerElection.OverlapHeals` | gateway/host_checker_manager.go:118-172 | After that, as soon as every poller has checked again, at most one is left |
| `PollerElection.HostCheckerManager.AmIPolling` | gateway/host_checker_manager.go:140-172 | Polls exactly when the key is missing, expired or its own, and then renews the lease; never without a store |
| `PollerElection.HostCheckerManager.CheckPollerLoop` | gateway/host_checker_manager.go:118-138 | One check is one step of the system; a stopped loop does nothing, and without a store polling ends |
| `Base64.RoundTrip` | gateway/mw_redis_cache.go:117-136 | Decoding undoes encoding for all bytes (section 4 of RFC 4648, line breaks skipped) |
| `Base64.EncodeAlphabet` | gateway/mw_redis_cache.go:117-120 | An encoding holds alphabet symbols and padding only |
| `Base64.StandardAlphabet` | gateway/mw_redis_cache.go:117-120 | The 64 symbols are those of the standard |
| `Base64.DecodesExactly` | apidef/api_definitions.go:555-591 | A text decodes if and only if, line breaks taken out, it is groups of four symbols with padding only at the end |
| `Base64.LineBreaksSkipped` | apidef/api_definitions.go:555-591 | A line break anywhere makes no difference |
| `CachePayload.PayloadRoundTrip` | gateway/mw_redis_cache.go:117-136 | A cached response comes back with its timestamp if and only if the timestamp holds no bar; otherwise reading fails |
| `CachePayload.StoredEntryReadable` | gateway/mw_redis_cache.go:91-136 | Every entry the cache writes, for every clock and lifetime, reads back as its payload and the time it expires |
| `CachePayload.PayloadReadings` | gateway/mw_redis_cache.go:117-136 | Values without a bar are read as they are, with one as base64 and a timestamp, with more not at all |
| `CachePayload.EntryLives` | gateway/mw_redis_cache.go:91-115 | An entry counts as expired exactly when its lifetime is over |
| `KeyTables.ReloadRestores` | apidef/api_definitions.go:520-591 | Storing and loading a map gives every key back, none collapsed, each version named after its key |
| `KeyTables.StoredAs` | apidef/api_definitions.go:520-541 | What is stored: exactly the encoded keys, as many as there were, each version named after its encoded key |
| `KeyTables.PlainMapsRestored` | apidef/api_definitions.go:529-541 | Maps of plain values come back unchanged |
| `KeyTables.LegacyKeyKept` | apidef/api_definitions.go:555-591 | A key that was never encoded is kept if and only if it is empty or does not decode |
| `KeyTables.DecodingLossless` | apidef/api_definitions.go:555-591 | If all keys decode apart, every entry comes back under its decoded key |
| `KeyTables.LossExactly` | apidef/api_definitions.go:555-591 | The loaded keys are exactly the decoded ones, and entries are lost if and only if two keys decode alike |
| `KeyTables.LegacyMeetsEncoded` | apidef/api_definitions.go:555-591 | Every key that does not decode collides with its own encoding |
| `ApiDefinitionCodec.APIDefinition.EncodeForDB` | apidef/api_definitions.go:520-553 | All three maps are encoded, under encoded keys |
| `ApiDefinitionCodec.APIDefinition.DecodeFromDB` | apidef/api_definitions.go:555-591 | All three maps are decoded, in whatever order their keys are visited |
| `StatsDPacking.DatagramsSized` | gateway/instrumentation_statsd_sink.go:275-303 | Over every run each datagram has between 1 and 1440 bytes |
| `StatsDPacking.MetricsStayWhole` | gateway/instrumentation_statsd_sink.go:275-303 | The datagrams are groups of whole accepted metrics, in the order they came |
| `StatsDPacking.NothingLost` | gateway/instrumentation_statsd_sink.go:275-303 | Datagrams and buffer together are the accepted metrics, byte for byte |
| `StatsDPacking.ReceiverRecovers` | gateway/instrumentation_statsd_sink.go:275-303 | Cutting every datagram at line feeds gives back the accepted metrics |
| `StatsDPacking.PackedTightly` | gateway/instrumentation_statsd_sink.go:283-303 | Between ticks a datagram is sent only when the next metric does not fit into it |
| `StatsDSink.SanitizeKey` | gateway/instrumentation_statsd_sink.go:348-361 | Allowed characters stay, every other one becomes a dollar sign |
| `StatsDSink.WriteSanitizedKeys` | gateway/instrumentation_statsd_sink.go:325-336 | The non-empty keys, sanitized and joined with dots |
| `StatsDSink.Sink.GetPrefixBuffer` | gateway/instrumentation_statsd_sink.go:305-323 | A reused buffer reads like a fresh one, and no two keys share a buffer |
| `StatsDSink.Sink.WriteMetric` | gateway/instrumentation_statsd_sink.go:283-303 | Empty and oversized metrics are dropped; one that does not fit starts a datagram |
| `StatsDSink.Sink.FlushBuffer` | gateway/instrumentation_statsd_sink.go:275-280 | A non-empty buffer is sent |
| `StatsDSink.Sink.ProcessCmd` | gateway/instrumentation_statsd_sink.go:195-273 | The metrics written are those of the command, whatever was written before; `StatsDReading.DeliveredReadings` says what they read as |
| `StatsDSink.Sink.Receive` | gateway/instrumentation_statsd_sink.go:157-193 | One turn of the loop: commands, ticks, drains and stops |
| `StatsDSink.MetricsAreLines` | gateway/instrumentation_statsd_sink.go:210-273 | Every metric is a single line if the sanitizer lets no line feed through |
| `StatsDSink.DefaultIsClean` | gateway/instrumentation_statsd_sink.go:348-361 | The default sanitizer does not |
| `StatsDSink.SinkPacks` | gateway/instrumentation_statsd_sink.go:157-303 | Over every run the sink sends what packing the commands' metrics and ticks sends |
| `StatsDSink.Delivered` | gateway/instrumentation_statsd_sink.go:157-303 | Over every run datagrams fit, and read line by line they give each due metric once, whole and in order; only the buffer is unsent |
| `StatsDSink.DrainDelivers` | gateway/instrumentation_statsd_sink.go:170-181 | When a drain ends, everything due has been sent |
| `StatsDSink.StopKeepsBuffer` | gateway/instrumentation_statsd_sink.go:182-184 | A stop loses exactly what is in the buffer; during a drain it is ignored |
| `StatsDReading.DeliveredReadings` | gateway/instrumentation_statsd_sink.go:157-303 | Over every run a server reads, for each command in order, the unit of its kind (c, ms or g), its value (1 for events) and the name of the non-empty sanitized parts prefix, job, event and suffix, one at the top level and one nested as the options say, a single one for a completion, those over 1440 bytes left out |
| `StatsDReading.TickDelivers` | gateway/instrumentation_statsd_sink.go:157-193 | A tick while running leaves nothing unsent |
| `StatsDReading.DrainDrops` | gateway/instrumentation_statsd_sink.go:170-181 | While draining, ticks, stops and further drains are dropped |
| `AnalyticsPool.Worker.OnRecord` | gateway/analytics.go:263-322 | Preparing, encoding and buffering one record, and the batch sent, if any |
| `AnalyticsPool.PreparedRecord` | gateway/analytics.go:273-302 | A stored record has the received tags in front, the API's tag last and exactly the due tags in between, its key hashed, and its paths with one slash added where they had none |
| `AnalyticsPool.StoresInOrder` | gateway/analytics.go:249-326 | A worker's batches and then its buffer are the encodings of the records it received, in order |
| `AnalyticsPool.SendsWhenDue` | gateway/analytics.go:304-322 | No batch is empty; one below the buffer size is sent only late or after a pause, a full one always, and sending empties the buffer |
| `AnalyticsPool.LateSends` | gateway/analytics.go:304-322 | A pause, or a record that comes late, stores what the worker holds as one batch and leaves its buffer empty |
| `AnalyticsPool.NothingLost` | gateway/analytics.go:224-326 | Over every interleaving each encoding is found as often among the received records as in hands, buffers and batches together |
| `AnalyticsPool.StoppedStoresAll` | gateway/analytics.go:224-233 | Once all workers are done, the channel is empty and what was enqueued has been stored, each once |
| `AnalyticsPool.StopFinishes` | gateway/analytics.go:224-233 | From every reachable state, stopping and letting the workers go on leaves all of them done |
| `AnalyticsPool.ChannelBounded` | gateway/analytics.go:214-246 | Over every interleaving the channel holds no more than its places |
| `AnalyticsPool.HitsAccounted` | gateway/analytics.go:236-246 | Every hit made before the stop flag was enqueued, refused by the closed channel, or is still being sent |
| `AnalyticsPool.QuietStopStoresAllHits` | gateway/analytics.go:224-246 | If nothing was being sent when the channel was closed, then once the workers are done the hits made before the stop are exactly the enqueued records, and all their encodings are stored |
| `AnalyticsPool.BatchesFit` | gateway/analytics.go:249-326 | With a buffer size of at least 1 no batch exceeds it, over every interleaving |
| `AnalyticsPool.ZeroSizeUnbounded` | gateway/analytics.go:310-323 | With a buffer size of 0 and any number of workers, batches of every size occur |
| `AnalyticsPool.BatchBoundExactly` | gateway/analytics.go:186-326 | For every setting: every batch of every run has at most the buffer size's entries if and only if the workers are not more than the channel's places |
| `AnalyticsPool.SharedSize` | gateway/analytics.go:199-221 | There are as many workers as set, 50 by default, and as many places, at least 1000; the buffer size is their share, and 0 exactly when the workers are more |
| `PathIndex.CompileList` | gateway/api_definition.go:542-899 | One list compiled in order, entries that do not load left out |
| `PathIndex.GetExtendedPathSpecs` | gateway/api_definition.go:901-948 | The twenty lists one after the other, and whether there is a whitelist |
| `PathIndex.CheckSpecMatchesStatus` | gateway/api_definition.go:1085-1192 | The first entry of the feature that matches the path and method, on the original path for responses |
| `PathIndex.FirstExact` | gateway/api_definition.go:1108-1192 | The entry found matches, and none before it does |
| `PathIndex.IndexAgrees` | gateway/api_definition.go:901-948 | For every feature and request, searching the combined list gives what searching the feature's own list gives |
| `PathDecision.LookedUp` | gateway/api_definition.go:1085-1110 | The path and method looked up: for the three response features those before a rewrite, without the listen path unless it is the root, behind a slash |
| `PathDecision.FoundExactly` | gateway/api_definition.go:1108-1192 | A look-up in the whole index finds the first entry of the feature's own list in the definition that loads and fits path and method, with its settings, or nothing |
| `PathAccess.URLAllowedAndIgnored` | gateway/api_definition.go:1012-1082 | The first entry for the path that has a say on the method decides; none is decided by the whitelist |
| `PathAccess.RequestValid` | gateway/api_definition.go:1265-1278 | What is returned for the decision; `PathDecision.AnswerExactly` says what that is |
| `PathAccess.AccessExact` | gateway/api_definition.go:1012-1082 | A request passes: with a say by an access list if and only if that entry replies, or takes no action and is not on the blacklist; failing that, with a whitelist if and only if it loops and its first path match among the features is internal for its method, and without one unless it does not loop and that holds |
| `PathDecision.AnswerExactly` | gateway/api_definition.go:955-1082 | The answer to every request, from the definition: passed or not, the status reported and the reply, for the first ignored, blacklisted or whitelisted entry with a say, else the first feature entry for the path, else by whether there is a whitelist |
| `PathDecision.SaidExactly` | gateway/api_definition.go:1012-1072 | The decision an access list entry leads to when it takes no action of its own: ignored, not allowed or passed, by the list it is in |
| `PathDecision.SettingsExactly` | gateway/api_definition.go:1012-1072 | Which status and which settings the decision hands out when a feature entry decides |
| `PathAccess.EarlierFeatureHidesInternal` | gateway/api_definition.go:1014-1072 | A cached entry for the path decides before an internal one |
| `HostReporter.HostUptimeChecker.Report` | gateway/host_checker.go:145-202 | Over every trace each host ends as its own events alone make it |
| `HostReporter.HostUptimeChecker.ReportGood` | gateway/host_checker.go:154-175 | A good check lowers the counter of a down host or calls it up; other hosts are not touched |
| `HostReporter.HostUptimeChecker.ReportFailed` | gateway/host_checker.go:179-199 | A failed check raises the counter or calls the host down; other hosts are not touched |
| `HostReporter.UpAnswersFail` | gateway/host_checker.go:145-202 | Whatever expires: every Up directly answers a Fail, a host is down exactly when a Fail is unanswered, and counters stay between 1 and max(1, limit - 1) |
| `HostReporter.DownExactly` | gateway/host_checker.go:179-195 | Without expiry and with limit at least 2, a host is down if and only if it failed at least limit times since it was last up |
| `HostReporter.UpExactly` | gateway/host_checker.go:154-171 | Once called down, it comes up after exactly limit - 1 good checks in a row |
| `HostReporter.RecoversExactly` | gateway/host_checker.go:154-171 | From every reachable state, the number of good checks in a row that call a host up |
| `HostReporter.CallsExactly` | gateway/host_checker.go:145-202 | From every reachable state, which callback one more check makes: down when the counted failures reach the limit, again while down; up on the last good check needed |
| `HostReporter.ExpiryForgets` | gateway/host_checker.go:145-202 | An expired counter leaves the host as it is, and a down host two good checks from being up |
| `HostReporter.LimitOneNeedsTwo` | gateway/host_checker.go:154-195 | With a limit of 1 that number is two |
| `TargetChoice.RoundRobin.WithLen` | gateway/api_definition.go:1342-1349 | The start, and the 32-bit counter moved on by one; an empty list moves nothing |
| `TargetChoice.NextTarget` | gateway/reverse_proxy.go:125-161 | At most one pass; the host returned was seen up and all before it in cyclic order down; fails exactly when the list is empty or all were seen down |
| `TargetChoice.TransportExactly` | gateway/reverse_proxy.go:109-123 | A host that has the scheme stays, others get it in front, http by default; doing it again changes nothing |
| `TargetChoice.CyclicExactly` | gateway/reverse_proxy.go:143-160 | The k-th host asked is the one k places on, counted around the list |
| `TargetChoice.Fair` | gateway/api_definition.go:1342-1349 | n starts in a row over n hosts take every position once if the counter does not wrap or n divides 2^32 |
| `TargetChoice.Collides` | gateway/api_definition.go:1342-1349 | Otherwise two of them take the same position |
| `TargetChoice.FairExactly` | gateway/api_definition.go:1342-1349 | So n starts are fair if and only if the counter does not wrap or n divides 2^32 |
| `Looping.Context.Serve` | gateway/api_loader.go:461-529 | Serving ends, with the hops, the outcome and the context of the trip |
| `Looping.Context.IncLoopLevel` | gateway/api.go:2152-2172 | The level goes up by one; a limit can be set once |
| `Looping.LimitedTravel` | gateway/api_loader.go:461-478 | A set limit never changes and bounds the rest of the trip |
| `Looping.LoopingEnds` | gateway/api_loader.go:459-529 | Every request makes at most max(6, L + 1) hops, L being the first positive limit among the first six; one that keeps being redirected at hop j + 1 makes exactly max(j + 1, L + 1), or 6 without a limit |
| `Looping.TripExactly` | gateway/api_loader.go:461-529 | Every trip: all arrivals before the last are redirects to chains within the limit then in force, and the last one is plain, too deep, without a target or without a handler |
| `Throttle.Request.ProcessRequest` | gateway/mw_rate_limiting.go:63-142 | The checks made, the outcome and the throttle level, for every sequence of limiter answers |
| `Throttle.Request.IncThrottleLevel` | gateway/api.go:2194-2208 | The level goes up by one; a limit can be set once |
| `Throttle.BoundedRetries` | gateway/mw_rate_limiting.go:97-127 | At most limit + 1 dry runs fail, none when there are no retries, and a request is accepted if and only if its last check counted it and passed, the only one that did |
| `Throttle.RunExactly` | gateway/mw_rate_limiting.go:63-142 | Every run: the questions asked and which are dry runs, what each last answer leads to, when retrying gives up, and the level it leaves |
| `Throttle.BoundReached` | gateway/mw_rate_limiting.go:101-127 | A limiter that always refuses gets limit + 1 failing dry runs |
| `Throttle.CanGoOn` | gateway/mw_rate_limiting.go:101-119 | Passing dry runs are not bounded: for every n a limiter that keeps the request waiting after n of them |
| `CertCache.CertificateManager.List` | certs/manager.go:241-288 | One slot per id as cache, store or files give it, entries of the wrong kind left out; the cache stays coherent and answers as before |
| `CertCache.CertificateManager.ListPublicKeys` | certs/manager.go:291-332 | One fingerprint per id, empty where there is none, and the fingerprints remembered are those of a plain reference; cached certificates are not touched |
| `CertCache.CertificateManager.Add` | certs/manager.go:348-444 | What is stored under which id, and every refusal; an id with a text is never overwritten |
| `CertCache.SortedExactly` | certs/manager.go:355-380 | Sorting is refused if and only if a private key follows one with bytes; otherwise the certificates are those of the certificate blocks in order, and the keys the last of their kind |
| `CertCache.AddsExactly` | certs/manager.go:348-444 | What adding stores under which id: the chain or the public key, behind it the encrypted key if a private one was given, which must fit; and that anything else, and a taken id, stores nothing |
| `CertCache.OneListed` | certs/manager.go:204-288 | Ids are listed in order; private mode lists only certificates with a private key, public mode only those without; one that cannot be had leaves an empty slot |
| `CertCache.LookExactly` | certs/manager.go:241-280 | A certificate comes from the cache, else from the store for ids of paired hexadecimal digits, else from a file |
| `CertCache.KeyExactly` | certs/manager.go:291-332 | A remembered fingerprint is listed; otherwise that of the key's text, which is then remembered, or an empty text |
| `CertCache.KeysExactly` | certs/manager.go:291-332 | Listing keys gives one text per id, each what that id alone is listed as, whatever fingerprints are remembered on the way |
| `CertCache.CertificateManager.Delete` | certs/manager.go:446-449 | The id leaves store and cache |
| `CertCache.CertificateManager.FlushCache` | certs/manager.go:485-487 | The cache is emptied |
| `CertCache.CoherentList` | certs/manager.go:241-288 | With a coherent cache, listing hexadecimal ids gives what the store alone gives |
| `CertCache.AnyModeSlots` | certs/manager.go:241-288 | Listing any kind gives one slot per id, empty exactly where the certificate cannot be had |
| `CertCache.AddingKeeps` | certs/manager.go:434-441 | Adding never replaces a text that a cached certificate was parsed from |
| `CertCache.DeletingKeeps` | certs/manager.go:446-449 | Deleting keeps the cache coherent |
| `CertCache.DeleteLeavesFingerprint` | certs/manager.go:291-332 | A deleted public key goes on being listed if and only if its fingerprint was remembered |
| `CertCache.Perform` | certs/manager.go:241-332 | Over every sequence of listing certificates and public keys, adding, deleting, flushing and expiry on hexadecimal ids, outputs, store and remembered fingerprints are those of a manager that keeps nothing but fingerprints |

## Left out

- MergeEntry: does not model the merge of `AllowedURLs`; sharing of limit objects between a session and the stored policies is not modelled either, limits are values.
- HeldIsPeak: does not model that a stored limit is shared while a list is merged. For a list q, b, q, where q has only the quota partition and stores a limit for the API, and b is unpartitioned, b raises q's stored limit, and the second q starts from the raised value; here it starts from the stored one.
- FinalLimit: the same, for lists that name a policy with a stored limit again after another one raised it.
- UnlimitedExactly: the same.
- OrderIrrelevant: for a limit that some policy contributes to, takes policies that are not per-API and store no limit for the API.
- OrderMatters: as OrderIrrelevant.
- OrderExactly: as OrderIrrelevant.
- AgreesExactly: takes templates whose tokens have no leading zeros; that sound rounds suffice holds for all templates (SequentialIsSimultaneous).
- The triggers of URL rewriting and the replacement of Tyk variables.
- LoadKeyValues: numbers, character literals, comments and escapes of Go's scanner read as failures.
- CheckSignature: does not model the fallback for lower-case percent escapes nor the clock-skew check; digests are an uninterpreted function.
- SignedIsAccepted: leaves out the clock-skew check, as CheckSignature does.
- AcceptedOnlyIf: leaves out the clock-skew check and the fallback for lower-case percent escapes, as CheckSignature does.
- ChangeNeedsCollision: the same; its requests have no line feeds, and no space in the method.
- SignThenVerify.AcceptedExactly: leaves out the clock-skew check and the fallback for lower-case percent escapes, as CheckSignature does.
- Multiple values of one HTTP header, and header name canonicalisation beyond lower case.
- GetFieldValues: a quoted field with a backslash is taken as malformed, because Go's escape sequences are not modelled.
- `addTCPService`, the health-check route, server timeouts and the TLS settings of listeners.
- ReloadServes: assumes that binding gives a listener on the requested port that is not in use.
- EncodeForDB: does not model the JSON schemas of paths, which are encoded as text.
- DecodeFromDB: does not model the JSON schemas of paths.
- RequestValid: the version lookup, version expiry and the returned expiry time are not modelled.
- CompileList: one loop stands for the near-identical compile loops of the twenty features; circuit breaker events and virtual endpoint scripts are not modelled.
- The text of printed numbers in StatsD metrics: it is a parameter without line feeds.
- The queue between emitters and the StatsD loop: the model takes the commands in the order the loop receives them.
- NextTarget: the host list does not change during one call; service discovery is not modelled.
- The rewriting of URLs, methods and queries between two internal hops: what reaches the next proxy is a parameter.
- ProcessRequest: the answers of the limiter are a parameter, and so is the retry limit of the session; the token buckets and the quota counters behind them are not modelled.
- List: requires that no fingerprint is cached under a listed id, since the source fails on one there; a store that fails for a time and other managers writing to the store are not modelled.
- ListPublicKeys: requires that no certificate is cached under the name of a listed key's fingerprint, since the source fails on one there.
- PEM and X.509 parsing, key pairs, encryption and hashing: uninterpreted functions, of which only the failure on an empty text is used.
- JWT and OpenID checks, the JavaScript virtual machine, gRPC plugins, the dashboard and RPC clients: separate subsystems.

/** The policy merge: `ApplyPolicies` folds the policies named by a session into that session.

    Limits are values here. A limit stored inside a policy is copied, not shared: what one session's
    merge would write back into the stored policy through the pointer is not modelled. */
module Policies {
  import opened Wrappers

  datatype ApiLimit = ApiLimit(
    rate: real, per: real, throttleInterval: real, throttleRetryLimit: int,
    quotaMax: int, quotaRenews: int, quotaRemaining: int, quotaRenewalRate: int, setBy: string)

  const ZERO_LIMIT := ApiLimit(0.0, 0.0, 0.0, 0, 0, 0, 0, 0, "")

  datatype AccessDefinition = AccessDefinition(
    apiName: string, apiID: string, versions: seq<string>, limit: Option<ApiLimit>, allowanceScope: string)
  {
    /** The limit, a missing one read as the zero limit. */
    function Limit(): ApiLimit {
      if limit.Some? then limit.value else ZERO_LIMIT
    }
  }

  datatype Partitions = Partitions(quota: bool, rateLimit: bool, acl: bool, perAPI: bool) {
    predicate Any() { quota || rateLimit || acl }
  }

  datatype Policy = Policy(
    id: string, orgID: string, rate: real, per: real, quotaMax: int, quotaRenewalRate: int,
    throttleInterval: real, throttleRetryLimit: int, accessRights: map<string, AccessDefinition>,
    hmacEnabled: bool, isInactive: bool, tags: seq<string>, partitions: Partitions)
  {
    predicate GivesQuota() { partitions.perAPI || !partitions.Any() || partitions.quota }
    predicate GivesRate() { partitions.perAPI || !partitions.Any() || partitions.rateLimit }
    predicate GivesACL() { partitions.perAPI || !partitions.Any() || partitions.acl }
  }

  /** A policy carries everything if it is per-API or sets no partition, and otherwise the partitions it sets. */
  lemma Carried(p: Policy)
    ensures var parts := p.partitions;
      && (p.GivesQuota() <==> parts.perAPI || parts.quota || !(parts.rateLimit || parts.acl))
      && (p.GivesRate() <==> parts.perAPI || parts.rateLimit || !(parts.quota || parts.acl))
      && (p.GivesACL() <==> parts.perAPI || parts.acl || !(parts.quota || parts.rateLimit))
  {
  }

  /** The loaded policies, and the organisation of the API being served (absent when there is no API). */
  datatype Env = Env(policies: map<string, Policy>, orgID: Option<string>)

  /** The part of a session that the merge reads or writes; tags are a set. */
  datatype Session = Session(
    rate: real, per: real, throttleInterval: real, throttleRetryLimit: int,
    quotaMax: int, quotaRenews: int, quotaRenewalRate: int,
    accessRights: map<string, AccessDefinition>, hmacEnabled: bool, isInactive: bool,
    tags: set<string>, policyIDs: seq<string>)

  datatype PolicyError =
    | NotFound(id: string)
    | WrongOrganisation
    | PerApiWithPartitions(id: string)
    | PerApiMixedWithOthers

  /** What the loop over the policies has accumulated. */
  datatype Merge = Merge(
    rights: map<string, AccessDefinition>,
    didQuota: set<string>, didRate: set<string>, didACL: set<string>,
    tags: set<string>, session: Session)

  /** Either the merge so far, or the session as it stands when a policy is refused. */
  datatype Outcome = Merged(m: Merge) | Refused(session: Session, error: PolicyError)

  // ---------------------------------------------------------------------------------------------
  // One policy
  // ---------------------------------------------------------------------------------------------

  /** The quota renewal date that a session holds for an API. */
  function Renews(s: Session, api: string): Option<int> {
    if api in s.accessRights && s.accessRights[api].limit.Some?
    then Some(s.accessRights[api].limit.value.quotaRenews) else None
  }

  /** A renewal date already in the session wins over the one in the limit being built. */
  function KeepRenews(renews: Option<int>, limit: ApiLimit): ApiLimit {
    if renews.Some? then limit.(quotaRenews := renews.value) else limit
  }

  function PolicyLimit(p: Policy): ApiLimit {
    ApiLimit(p.rate, p.per, p.throttleInterval, p.throttleRetryLimit, p.quotaMax, 0, 0, p.quotaRenewalRate, "")
  }

  function PerApiEntry(p: Policy, renews: Option<int>, api: string): AccessDefinition
    requires api in p.accessRights
  {
    var own := p.accessRights[api];
    var limit := if own.limit.None? || own.limit.value == ZERO_LIMIT then PolicyLimit(p) else own.limit.value;
    own.(limit := Some(KeepRenews(renews, limit).(setBy := api)), allowanceScope := api)
  }

  /** -1 is the special "unlimited" value: once reached it stays. */
  function RaiseQuota(p: Policy, limit: ApiLimit): ApiLimit {
    limit.(quotaMax := if limit.quotaMax != -1 && p.quotaMax > limit.quotaMax then p.quotaMax else limit.quotaMax,
           quotaRenewalRate := if p.quotaRenewalRate > limit.quotaRenewalRate then p.quotaRenewalRate
                               else limit.quotaRenewalRate)
  }

  function RaiseRate(p: Policy, limit: ApiLimit): ApiLimit {
    limit.(rate := if limit.rate != -1.0 && p.rate > limit.rate then p.rate else limit.rate,
           per := if p.per > limit.per then p.per else limit.per,
           throttleInterval := if p.throttleInterval > limit.throttleInterval then p.throttleInterval
                               else limit.throttleInterval,
           throttleRetryLimit := if p.throttleRetryLimit > limit.throttleRetryLimit then p.throttleRetryLimit
                                 else limit.throttleRetryLimit)
  }

  /** The entry a policy starts from: the one already merged when the policy carries the ACL, else its own. */
  function StartEntry(p: Policy, prior: Option<AccessDefinition>, api: string): AccessDefinition
    requires api in p.accessRights
  {
    var own := p.accessRights[api].(limit := Some(p.accessRights[api].Limit()));
    var entry := if p.GivesACL() && prior.Some?
                 then prior.value.(versions := prior.value.versions + own.versions) else own;
    if p.GivesACL() then entry.(limit := Some(entry.Limit().(setBy := p.id))) else entry
  }

  function SharedEntry(p: Policy, renews: Option<int>, prior: Option<AccessDefinition>, api: string): AccessDefinition
    requires api in p.accessRights
  {
    var entry := StartEntry(p, prior, api);
    var quota := if p.GivesQuota() then RaiseQuota(p, entry.Limit()) else entry.Limit();
    var rate := if p.GivesRate() then RaiseRate(p, quota) else quota;
    entry.(limit := Some(KeepRenews(renews, rate)))
  }

  function Prior(m: Merge, api: string): Option<AccessDefinition> {
    if api in m.rights then Some(m.rights[api]) else None
  }

  function Entry(p: Policy, m: Merge, api: string): AccessDefinition
    requires api in p.accessRights
  {
    if p.partitions.perAPI then PerApiEntry(p, Renews(m.session, api), api)
    else SharedEntry(p, Renews(m.session, api), Prior(m, api), api)
  }

  /** The rights after the policy has been merged into the APIs of `done`. */
  function WithEntries(p: Policy, m: Merge, done: set<string>): map<string, AccessDefinition>
    requires done <= p.accessRights.Keys
  {
    map api | api in m.rights.Keys + done :: if api in done then Entry(p, m, api) else m.rights[api]
  }

  /** Session-level values are set by a master policy: one that names no API. */
  function MasterValues(p: Policy, s: Session): Session {
    if p.partitions.perAPI || p.accessRights != map[] then s
    else
      var s1 := if p.GivesRate()
                then s.(rate := p.rate, per := p.per, throttleInterval := p.throttleInterval,
                        throttleRetryLimit := p.throttleRetryLimit)
                else s;
      if p.GivesQuota() then s1.(quotaMax := p.quotaMax, quotaRenewalRate := p.quotaRenewalRate) else s1
  }

  function Flags(p: Policy, s: Session, first: bool): Session {
    s.(hmacEnabled := s.hmacEnabled || (!p.partitions.perAPI && p.hmacEnabled),
       isInactive := if first then p.isInactive else s.isInactive || p.isInactive)
  }

  function TagSet(tags: seq<string>): set<string> {
    set t | t in tags
  }

  predicate PerApiClash(p: Policy, m: Merge) {
    p.partitions.perAPI &&
    exists api :: api in p.accessRights && (api in m.didQuota || api in m.didRate || api in m.didACL)
  }

  function MergePolicy(p: Policy, m: Merge, first: bool): Merge {
    var apis := p.accessRights.Keys;
    Merge(WithEntries(p, m, apis),
          if p.GivesQuota() then m.didQuota + apis else m.didQuota,
          if p.GivesRate() then m.didRate + apis else m.didRate,
          if p.GivesACL() then m.didACL + apis else m.didACL,
          m.tags + TagSet(p.tags),
          Flags(p, MasterValues(p, m.session), first))
  }

  function Admission(env: Env, id: string): Option<PolicyError> {
    if id !in env.policies then Some(NotFound(id))
    else
      var p := env.policies[id];
      if env.orgID.Some? && p.orgID != env.orgID.value then Some(WrongOrganisation)
      else if p.partitions.perAPI && p.partitions.Any() then Some(PerApiWithPartitions(p.id))
      else None
  }

  function ApplyOne(env: Env, m: Merge, id: string, first: bool): Outcome {
    if Admission(env, id).Some? then Refused(m.session, Admission(env, id).value)
    else if PerApiClash(env.policies[id], m) then Refused(m.session, PerApiMixedWithOthers)
    else Merged(MergePolicy(env.policies[id], m, first))
  }

  function Start(s: Session): Merge {
    Merge(map[], {}, {}, {}, {}, s)
  }

  /** The merge after the first n policies of the session. */
  function Fold(env: Env, s: Session, n: nat): Outcome
    requires n <= |s.policyIDs|
  {
    if n == 0 then Merged(Start(s))
    else
      match Fold(env, s, n - 1)
      case Refused(_, _) => Fold(env, s, n - 1)
      case Merged(m) => ApplyOne(env, m, s.policyIDs[n - 1], n == 1)
  }

  // ---------------------------------------------------------------------------------------------
  // After the last policy
  // ---------------------------------------------------------------------------------------------

  function DistinctSetters(m: Merge): set<string> {
    set api | api in m.rights && m.rights[api].Limit().setBy != "" :: m.rights[api].Limit().setBy
  }

  function FinalEntry(m: Merge, api: string): AccessDefinition
    requires api in m.rights
  {
    var e := m.rights[api];
    var l0 := e.Limit();
    var l1 := if api in m.didRate then l0
              else l0.(rate := m.session.rate, per := m.session.per,
                       throttleInterval := m.session.throttleInterval,
                       throttleRetryLimit := m.session.throttleRetryLimit);
    var l2 := if api in m.didQuota then l1
              else l1.(quotaMax := m.session.quotaMax, quotaRenewalRate := m.session.quotaRenewalRate,
                       quotaRenews := m.session.quotaRenews);
    e.(limit := Some(l2.(setBy := "")),
       allowanceScope := if |DistinctSetters(m)| > 1 && e.allowanceScope == "" && l0.setBy != "" then l0.setBy
                         else e.allowanceScope)
  }

  function FinalRights(m: Merge): map<string, AccessDefinition> {
    map api | api in m.rights :: FinalEntry(m, api)
  }

  /** The legacy session-level values are written when exactly one API has a quota and one has a rate. */
  predicate WritesLegacyRoot(m: Merge) {
    |m.didQuota| == 1 && |m.didRate| == 1 && m.rights != map[]
  }

  function LegacyRoot(s: Session, l: ApiLimit): Session {
    s.(rate := l.rate, per := l.per, quotaMax := l.quotaMax, quotaRenews := l.quotaRenews,
       quotaRenewalRate := l.quotaRenewalRate)
  }

  /** The finished session, `last` being the entry that a map iteration happens to visit last. */
  function Closed(m: Merge, last: Option<string>): Session
    requires last.Some? ==> last.value in m.rights
  {
    var s := if last.Some? then LegacyRoot(m.session, FinalEntry(m, last.value).Limit()) else m.session;
    s.(tags := m.tags + s.tags, accessRights := if m.didACL != {} then FinalRights(m) else s.accessRights)
  }

  /** The sessions that the merge may end in: the order of a map iteration is not fixed. */
  ghost predicate Finished(m: Merge, s': Session) {
    if WritesLegacyRoot(m)
    then exists last :: last in m.rights && s' == Closed(m, Some(last))
    else s' == Closed(m, None)
  }

  ghost predicate Applies(env: Env, s: Session, s': Session) {
    var o := Fold(env, s, |s.policyIDs|);
    o.Merged? && Finished(o.m, s')
  }

  // ---------------------------------------------------------------------------------------------
  // The imperative form
  // ---------------------------------------------------------------------------------------------

  class SessionState {
    var rate: real
    var per: real
    var throttleInterval: real
    var throttleRetryLimit: int
    var quotaMax: int
    var quotaRenews: int
    var quotaRenewalRate: int
    var accessRights: map<string, AccessDefinition>
    var hmacEnabled: bool
    var isInactive: bool
    var tags: seq<string>
    var applyPolicyID: string
    var applyPolicies: seq<string>

    function PolicyIDs(): seq<string>
      reads this
    {
      if |applyPolicies| > 0 then applyPolicies else if applyPolicyID != "" then [applyPolicyID] else []
    }

    function View(): Session
      reads this
    {
      Session(rate, per, throttleInterval, throttleRetryLimit, quotaMax, quotaRenews, quotaRenewalRate,
              accessRights, hmacEnabled, isInactive, TagSet(tags), PolicyIDs())
    }
  }

  /** The body of the loop over the access rights of a per-API policy. */
  method MergePerApiEntry(p: Policy, session: Session, api: string) returns (entry: AccessDefinition)
    requires api in p.accessRights
    ensures entry == PerApiEntry(p, Renews(session, api), api)
  {
    entry := p.accessRights[api];
    var limit := entry.Limit();
    if entry.limit.None? || entry.limit.value == ZERO_LIMIT {
      limit := ApiLimit(p.rate, p.per, p.throttleInterval, p.throttleRetryLimit,
                        p.quotaMax, 0, 0, p.quotaRenewalRate, "");
    }
    if api in session.accessRights && session.accessRights[api].limit.Some? {
      limit := limit.(quotaRenews := session.accessRights[api].limit.value.quotaRenews);
    }
    entry := entry.(allowanceScope := api);
    limit := limit.(setBy := api);
    entry := entry.(limit := Some(limit));
  }

  /** The loop over the access rights of a per-API policy. */
  method MergePerApi(p: Policy, m: Merge) returns (clash: bool, rights: map<string, AccessDefinition>)
    requires p.partitions.perAPI
    ensures clash == PerApiClash(p, m)
    ensures !clash ==> rights == WithEntries(p, m, p.accessRights.Keys)
  {
    rights, clash := m.rights, false;
    ghost var did := {};
    var todo := p.accessRights.Keys;
    while todo != {}
      invariant todo <= p.accessRights.Keys
      invariant did == p.accessRights.Keys - todo
      invariant rights == WithEntries(p, m, did)
      invariant forall api :: api in did ==> api !in m.didQuota && api !in m.didRate && api !in m.didACL
    {
      var api :| api in todo;
      if api in m.didQuota || api in m.didRate || api in m.didACL {
        clash := true;
        return;
      }
      var entry := MergePerApiEntry(p, m.session, api);
      rights := rights[api := entry];
      did := did + {api};
      todo := todo - {api};
    }
  }

  method RaisedQuota(p: Policy, limit: ApiLimit) returns (raised: ApiLimit)
    ensures raised == RaiseQuota(p, limit)
  {
    raised := limit;
    if raised.quotaMax != -1 && p.quotaMax > raised.quotaMax {
      raised := raised.(quotaMax := p.quotaMax);
    }
    if p.quotaRenewalRate > raised.quotaRenewalRate {
      raised := raised.(quotaRenewalRate := p.quotaRenewalRate);
    }
  }

  method RaisedRate(p: Policy, limit: ApiLimit) returns (raised: ApiLimit)
    ensures raised == RaiseRate(p, limit)
  {
    raised := limit;
    if raised.rate != -1.0 && p.rate > raised.rate {
      raised := raised.(rate := p.rate);
    }
    if p.per > raised.per {
      raised := raised.(per := p.per);
    }
    if p.throttleInterval > raised.throttleInterval {
      raised := raised.(throttleInterval := p.throttleInterval);
    }
    if p.throttleRetryLimit > raised.throttleRetryLimit {
      raised := raised.(throttleRetryLimit := p.throttleRetryLimit);
    }
  }

  /** The body of the loop over the access rights of any other policy. */
  method MergeEntry(p: Policy, session: Session, prior: Option<AccessDefinition>, api: string)
    returns (entry: AccessDefinition)
    requires !p.partitions.perAPI && api in p.accessRights
    ensures entry == SharedEntry(p, Renews(session, api), prior, api)
  {
    var usePartitions := p.partitions.quota || p.partitions.rateLimit || p.partitions.acl;
    entry := p.accessRights[api];
    var limit := entry.Limit();
    if !usePartitions || p.partitions.acl {
      if prior.Some? {
        entry := prior.value.(versions := prior.value.versions + entry.versions);
        limit := prior.value.Limit();
      }
      limit := limit.(setBy := p.id);
    }
    entry := entry.(limit := Some(limit));
    assert entry == StartEntry(p, prior, api);
    if !usePartitions || p.partitions.quota {
      limit := RaisedQuota(p, limit);
    }
    if !usePartitions || p.partitions.rateLimit {
      limit := RaisedRate(p, limit);
    }
    if api in session.accessRights && session.accessRights[api].limit.Some? {
      limit := limit.(quotaRenews := session.accessRights[api].limit.value.quotaRenews);
    }
    entry := entry.(limit := Some(limit));
  }

  method MergeShared(p: Policy, m: Merge) returns (rights: map<string, AccessDefinition>)
    requires !p.partitions.perAPI
    ensures rights == WithEntries(p, m, p.accessRights.Keys)
  {
    rights := m.rights;
    var todo := p.accessRights.Keys;
    ghost var done := {};
    while todo != {}
      invariant todo <= p.accessRights.Keys
      invariant done == p.accessRights.Keys - todo
      invariant rights == WithEntries(p, m, done)
    {
      var api :| api in todo;
      var entry := MergeEntry(p, m.session, if api in rights then Some(rights[api]) else None, api);
      rights := rights[api := entry];
      done := done + {api};
      todo := todo - {api};
    }
  }

  method Setters(m: Merge) returns (setters: set<string>)
    ensures setters == DistinctSetters(m)
  {
    setters := {};
    var todo := m.rights.Keys;
    while todo != {}
      invariant todo <= m.rights.Keys
      invariant setters ==
        set api | api in m.rights.Keys - todo && m.rights[api].Limit().setBy != "" :: m.rights[api].Limit().setBy
    {
      var api :| api in todo;
      if m.rights[api].Limit().setBy != "" {
        setters := setters + {m.rights[api].Limit().setBy};
      }
      todo := todo - {api};
    }
    assert m.rights.Keys - {} == m.rights.Keys;
  }

  method FinishEntry(m: Merge, api: string, setters: set<string>) returns (entry: AccessDefinition)
    requires api in m.rights && setters == DistinctSetters(m)
    ensures entry == FinalEntry(m, api)
  {
    entry := m.rights[api];
    var limit := entry.Limit();
    if api !in m.didRate {
      limit := limit.(rate := m.session.rate, per := m.session.per,
                      throttleInterval := m.session.throttleInterval,
                      throttleRetryLimit := m.session.throttleRetryLimit);
    }
    if api !in m.didQuota {
      limit := limit.(quotaMax := m.session.quotaMax, quotaRenewalRate := m.session.quotaRenewalRate,
                      quotaRenews := m.session.quotaRenews);
    }
    if |setters| > 1 && entry.allowanceScope == "" && limit.setBy != "" {
      entry := entry.(allowanceScope := limit.setBy);
    }
    entry := entry.(limit := Some(limit.(setBy := "")));
  }

  /** The inheritance loop that finishes every entry. */
  method FinishRights(m: Merge) returns (rights: map<string, AccessDefinition>)
    ensures rights == FinalRights(m)
  {
    var setters := Setters(m);
    rights := m.rights;
    var todo := m.rights.Keys;
    while todo != {}
      invariant todo <= m.rights.Keys == rights.Keys
      invariant forall api :: api in m.rights ==>
        rights[api] == if api in todo then m.rights[api] else FinalEntry(m, api)
    {
      var api :| api in todo;
      var entry := FinishEntry(m, api, setters);
      rights := rights[api := entry];
      todo := todo - {api};
    }
  }

  method ApplyMaster(p: Policy, session: SessionState)
    requires !p.partitions.perAPI
    modifies session
    ensures session.View() == MasterValues(p, old(session.View()))
    ensures session.tags == old(session.tags) && session.PolicyIDs() == old(session.PolicyIDs())
  {
    var usePartitions := p.partitions.quota || p.partitions.rateLimit || p.partitions.acl;
    if |p.accessRights| == 0 {
      if !usePartitions || p.partitions.rateLimit {
        session.rate := p.rate;
        session.per := p.per;
        session.throttleInterval := p.throttleInterval;
        session.throttleRetryLimit := p.throttleRetryLimit;
      }
      if !usePartitions || p.partitions.quota {
        session.quotaMax := p.quotaMax;
        session.quotaRenewalRate := p.quotaRenewalRate;
      }
    }
  }

  method ApplyFlags(p: Policy, session: SessionState, first: bool)
    modifies session
    ensures session.View() == Flags(p, old(session.View()), first)
    ensures session.tags == old(session.tags) && session.PolicyIDs() == old(session.PolicyIDs())
  {
    if !p.partitions.perAPI {
      if !session.hmacEnabled {
        session.hmacEnabled := p.hmacEnabled;
      }
    }
    if first {
      session.isInactive := p.isInactive;
    } else if p.isInactive {
      session.isInactive := true;
    }
  }

  /** The body of the loop over the policies. */
  method ApplyPolicy(env: Env, id: string, first: bool, m: Merge, session: SessionState)
    returns (error: Option<PolicyError>, m': Merge)
    requires session.View() == m.session
    modifies session
    ensures session.tags == old(session.tags) && session.PolicyIDs() == old(session.PolicyIDs())
    ensures error.None? ==> ApplyOne(env, m, id, first) == Merged(m') && session.View() == m'.session
    ensures error.Some? ==> ApplyOne(env, m, id, first) == Refused(session.View(), error.value)
  {
    m' := m;
    error := Admission(env, id);
    if error.Some? {
      return;
    }
    var p := env.policies[id];
    var rights;
    if p.partitions.perAPI {
      var clash;
      clash, rights := MergePerApi(p, m);
      if clash {
        return Some(PerApiMixedWithOthers), m;
      }
    } else {
      rights := MergeShared(p, m);
      ApplyMaster(p, session);
    }
    ApplyFlags(p, session, first);
    var apis := p.accessRights.Keys;
    m' := Merge(rights,
                if p.GivesQuota() then m.didQuota + apis else m.didQuota,
                if p.GivesRate() then m.didRate + apis else m.didRate,
                if p.GivesACL() then m.didACL + apis else m.didACL,
                m.tags + TagSet(p.tags),
                session.View());
  }

  /** The elements of a set in some order, as ranging over a map visits its keys. */
  method Listed(items: set<string>) returns (list: seq<string>)
    ensures TagSet(list) == items
    ensures forall i, j :: 0 <= i < j < |list| ==> list[i] != list[j]
  {
    list := [];
    var todo := items;
    while todo != {}
      invariant todo <= items
      invariant forall t :: t in list <==> t in items && t !in todo
      invariant forall i, j :: 0 <= i < j < |list| ==> list[i] != list[j]
    {
      var item :| item in todo;
      assert forall i :: 0 <= i < |list| ==> list[i] in list && list[i] != item;
      list := list + [item];
      todo := todo - {item};
    }
  }

  method WriteRoot(limit: ApiLimit, session: SessionState)
    modifies session
    ensures session.View() == LegacyRoot(old(session.View()), limit) && session.tags == old(session.tags)
  {
    session.rate := limit.rate;
    session.per := limit.per;
    session.quotaMax := limit.quotaMax;
    session.quotaRenews := limit.quotaRenews;
    session.quotaRenewalRate := limit.quotaRenewalRate;
  }

  /** The loop that writes the legacy values: every entry is written, so the last one visited stays. */
  method WriteLegacyRoot(rights: map<string, AccessDefinition>, session: SessionState)
    returns (ghost last: Option<string>)
    modifies session
    ensures last.Some? <==> rights != map[]
    ensures last.Some? ==> last.value in rights
    ensures session.View() ==
      if last.Some? then LegacyRoot(old(session.View()), rights[last.value].Limit()) else old(session.View())
    ensures session.tags == old(session.tags)
  {
    last := None;
    var todo := rights.Keys;
    while todo != {}
      invariant todo <= rights.Keys
      invariant last.None? ==> todo == rights.Keys
      invariant last.Some? ==> last.value in rights
      invariant session.View() ==
        if last.Some? then LegacyRoot(old(session.View()), rights[last.value].Limit()) else old(session.View())
      invariant session.tags == old(session.tags)
    {
      var api :| api in todo;
      WriteRoot(rights[api].Limit(), session);
      last := Some(api);
      todo := todo - {api};
    }
  }

  lemma FinishedBy(m: Merge, last: Option<string>, s': Session)
    requires last.Some? <==> WritesLegacyRoot(m)
    requires last.Some? ==> last.value in m.rights
    requires s' == Closed(m, last)
    ensures Finished(m, s')
  {
    assert last.Some? ==> last == Some(last.value);
  }

  method SetTags(tags: set<string>, session: SessionState)
    modifies session
    ensures session.View() == old(session.View()).(tags := tags + old(session.View()).tags)
    ensures forall i, j :: 0 <= i < j < |session.tags| ==> session.tags[i] != session.tags[j]
  {
    session.tags := Listed(tags + TagSet(session.tags));
  }

  method SetRights(rights: map<string, AccessDefinition>, session: SessionState)
    modifies session
    ensures session.View() == old(session.View()).(accessRights := rights) && session.tags == old(session.tags)
  {
    session.accessRights := rights;
  }

  /** Tags, legacy values and rights, one after the other. */
  lemma ClosedBySteps(m: Merge, last: Option<string>, tagged: Session, rooted: Session)
    requires last.Some? ==> last.value in m.rights
    requires tagged == m.session.(tags := m.tags + m.session.tags)
    requires rooted == if last.Some? then LegacyRoot(tagged, FinalEntry(m, last.value).Limit()) else tagged
    ensures Closed(m, last) == if m.didACL != {} then rooted.(accessRights := FinalRights(m)) else rooted
  {
  }

  /** Everything after the loop over the policies. */
  method Finish(m: Merge, session: SessionState)
    requires session.View() == m.session
    modifies session
    ensures Finished(m, session.View())
    ensures session.PolicyIDs() == old(session.PolicyIDs())
    ensures forall i, j :: 0 <= i < j < |session.tags| ==> session.tags[i] != session.tags[j]
  {
    SetTags(m.tags, session);
    ghost var tagged := session.View();
    var rights := FinishRights(m);
    ghost var last: Option<string> := None;
    if |m.didQuota| == 1 && |m.didRate| == 1 {
      last := WriteLegacyRoot(rights, session);
    }
    ClosedBySteps(m, last, tagged, session.View());
    if |m.didACL| > 0 {
      SetRights(rights, session);
    }
    FinishedBy(m, last, session.View());
    assert session.View().policyIDs == m.session.policyIDs;
  }

  lemma RefusalStays(env: Env, s: Session, n: nat)
    requires n <= |s.policyIDs| && Fold(env, s, n).Refused?
    ensures Fold(env, s, |s.policyIDs|) == Fold(env, s, n)
    decreases |s.policyIDs| - n
  {
    if n < |s.policyIDs| {
      RefusalStays(env, s, n + 1);
    }
  }

  lemma FoldNext(env: Env, s: Session, i: nat, m: Merge)
    requires i < |s.policyIDs| && Fold(env, s, i) == Merged(m)
    ensures Fold(env, s, i + 1) == ApplyOne(env, m, s.policyIDs[i], i == 0)
  {
  }

  /** The loop over the policies. A refused policy leaves the session as the earlier ones made it. */
  method ApplyAll(env: Env, session: SessionState) returns (error: Option<PolicyError>, m: Merge)
    modifies session
    ensures session.PolicyIDs() == old(session.PolicyIDs())
    ensures Fold(env, old(session.View()), |old(session.View()).policyIDs|)
         == if error.None? then Merged(m) else Refused(session.View(), error.value)
    ensures error.None? ==> session.View() == m.session
  {
    ghost var s := session.View();
    error, m := None, Start(session.View());
    var ids := session.PolicyIDs();
    for i := 0 to |ids|
      invariant session.PolicyIDs() == ids == s.policyIDs
      invariant session.View() == m.session
      invariant error.None? && Fold(env, s, i) == Merged(m)
    {
      FoldNext(env, s, i, m);
      error, m := ApplyPolicy(env, ids[i], i == 0, m, session);
      if error.Some? {
        RefusalStays(env, s, i + 1);
        return;
      }
    }
  }

  method ApplyPolicies(env: Env, session: SessionState) returns (error: Option<PolicyError>)
    modifies session
    ensures session.PolicyIDs() == old(session.PolicyIDs())
    ensures session.View() ==
      Session(session.rate, session.per, session.throttleInterval, session.throttleRetryLimit, session.quotaMax,
              session.quotaRenews, session.quotaRenewalRate, session.accessRights, session.hmacEnabled,
              session.isInactive, TagSet(session.tags), old(session.PolicyIDs()))
    ensures old(session.applyPolicies) != [] ==> old(session.View()).policyIDs == old(session.applyPolicies)
    ensures old(session.applyPolicies) == [] && old(session.applyPolicyID) != "" ==>
      old(session.View()).policyIDs == [old(session.applyPolicyID)]
    ensures old(session.applyPolicies) == [] && old(session.applyPolicyID) == "" ==> old(session.View()).policyIDs == []
    ensures error.None? ==> Applies(env, old(session.View()), session.View())
    ensures error.None? ==> forall i, j :: 0 <= i < j < |session.tags| ==> session.tags[i] != session.tags[j]
    ensures error.Some? ==>
      Fold(env, old(session.View()), |old(session.PolicyIDs())|) == Refused(session.View(), error.value)
  {
    var m;
    error, m := ApplyAll(env, session);
    if error.None? {
      Finish(m, session);
    }
  }
}

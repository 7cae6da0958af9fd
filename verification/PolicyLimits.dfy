/** The limits that the merge gives an API, as a closed form over the policies that name it. */
module PolicyLimits {
  import opened Wrappers
  import opened Policies
  import opened PolicyIdempotence
  import opened PolicyTrace

  datatype Field = QuotaMax | QuotaRenewalRate | Rate | Per | ThrottleInterval | ThrottleRetryLimit {
    predicate OfQuota() { QuotaMax? || QuotaRenewalRate? }

    /** -1 means unlimited, and is never raised. */
    predicate Sticky() { QuotaMax? || Rate? }
  }

  function PolicyValue(p: Policy, f: Field): real {
    match f
    case QuotaMax => p.quotaMax as real
    case QuotaRenewalRate => p.quotaRenewalRate as real
    case Rate => p.rate
    case Per => p.per
    case ThrottleInterval => p.throttleInterval
    case ThrottleRetryLimit => p.throttleRetryLimit as real
  }

  function LimitValue(l: ApiLimit, f: Field): real {
    match f
    case QuotaMax => l.quotaMax as real
    case QuotaRenewalRate => l.quotaRenewalRate as real
    case Rate => l.rate
    case Per => l.per
    case ThrottleInterval => l.throttleInterval
    case ThrottleRetryLimit => l.throttleRetryLimit as real
  }

  function SessionValue(s: Session, f: Field): real {
    match f
    case QuotaMax => s.quotaMax as real
    case QuotaRenewalRate => s.quotaRenewalRate as real
    case Rate => s.rate
    case Per => s.per
    case ThrottleInterval => s.throttleInterval
    case ThrottleRetryLimit => s.throttleRetryLimit as real
  }

  predicate Names(env: Env, id: string, api: string) {
    id in env.policies && api in env.policies[id].accessRights
  }

  predicate Gives(p: Policy, f: Field) { if f.OfQuota() then p.GivesQuota() else p.GivesRate() }

  /** The policy names the API and carries the partition that the field belongs to. */
  predicate Contributes(env: Env, id: string, api: string, f: Field) {
    Names(env, id, api) && Gives(env.policies[id], f)
  }

  /** Some of the first n policies contributes. */
  predicate Contributed(env: Env, ids: seq<string>, n: nat, api: string, f: Field)
    requires n <= |ids|
  {
    n > 0 && (Contributed(env, ids, n - 1, api, f) || Contributes(env, ids[n - 1], api, f))
  }

  // ---------------------------------------------------------------------------------------------
  // The reference: where an entry comes from, and the largest value since
  // ---------------------------------------------------------------------------------------------

  /** A per-API policy, and one without the ACL partition, puts an entry of its own in place of what was there. */
  predicate Replaces(p: Policy) { p.partitions.perAPI || !p.GivesACL() }

  /** The policy among the first n that the API's entry comes from, or -1. */
  function Origin(env: Env, ids: seq<string>, n: nat, api: string): (o: int)
    requires n <= |ids|
    ensures -1 <= o < n && (o >= 0 ==> Names(env, ids[o], api))
  {
    if n == 0 then -1
    else
      var o := Origin(env, ids, n - 1, api);
      if Names(env, ids[n - 1], api) && (o < 0 || Replaces(env.policies[ids[n - 1]])) then n - 1 else o
  }

  /** A limit that says nothing. */
  predicate AllZero(l: ApiLimit) {
    && (forall f: Field :: LimitValue(l, f) == 0.0)
    && l.quotaRenews == 0 && l.quotaRemaining == 0 && l.setBy == ""
  }

  /** The policy stores a limit for the API, which for a per-API policy must say something. */
  predicate Stores(p: Policy, api: string)
    requires api in p.accessRights
  {
    p.accessRights[api].limit.Some? && !(p.partitions.perAPI && AllZero(p.accessRights[api].limit.value))
  }

  /** What the entry starts with: the limit stored in the policy, or the own values of a per-API policy. */
  function StartValue(p: Policy, api: string, f: Field): real
    requires api in p.accessRights
  {
    if Stores(p, api) then LimitValue(p.accessRights[api].limit.value, f)
    else if p.partitions.perAPI then PolicyValue(p, f)
    else 0.0
  }

  lemma ZeroLimit(l: ApiLimit)
    ensures l == ZERO_LIMIT <==> AllZero(l)
  {
    if AllZero(l) {
      assert LimitValue(l, QuotaMax) == 0.0 && LimitValue(l, QuotaRenewalRate) == 0.0 && LimitValue(l, Rate) == 0.0;
      assert LimitValue(l, Per) == 0.0 && LimitValue(l, ThrottleInterval) == 0.0;
      assert LimitValue(l, ThrottleRetryLimit) == 0.0;
    }
  }

  lemma StartIs(p: Policy, api: string, f: Field)
    requires api in p.accessRights
    ensures p.partitions.perAPI ==> LimitValue(PerApiEntry(p, None, api).Limit(), f) == StartValue(p, api, f)
    ensures !p.partitions.perAPI ==> LimitValue(p.accessRights[api].Limit(), f) == StartValue(p, api, f)
  {
    ZeroLimit(ZERO_LIMIT);
    if p.accessRights[api].limit.Some? {
      ZeroLimit(p.accessRights[api].limit.value);
    }
  }

  function RealMax(a: real, b: real): real { if a > b then a else b }

  /** Policy k raises the entry that began with policy o. */
  predicate Adds(env: Env, ids: seq<string>, o: nat, k: nat, api: string, f: Field)
    requires o <= k < |ids|
  {
    Contributes(env, ids[k], api, f) && !(k == o && env.policies[ids[k]].partitions.perAPI)
  }

  /** The largest of the start and the contributions from policy o up to n. */
  function Peak(env: Env, ids: seq<string>, o: nat, n: nat, api: string, f: Field): real
    requires o <= n <= |ids| && o < |ids| && Names(env, ids[o], api)
  {
    if n == o then StartValue(env.policies[ids[o]], api, f)
    else
      var before := Peak(env, ids, o, n - 1, api, f);
      if Adds(env, ids, o, n - 1, api, f) then RealMax(PolicyValue(env.policies[ids[n - 1]], f), before) else before
  }

  /** At some point that value was -1, for a field where this means unlimited. */
  predicate Stuck(env: Env, ids: seq<string>, o: nat, n: nat, api: string, f: Field)
    requires o <= n <= |ids| && o < |ids| && Names(env, ids[o], api)
  {
    f.Sticky() && (Peak(env, ids, o, n, api, f) == -1.0 || (n > o && Stuck(env, ids, o, n - 1, api, f)))
  }

  function Tracked(env: Env, ids: seq<string>, o: nat, n: nat, api: string, f: Field): real
    requires o <= n <= |ids| && o < |ids| && Names(env, ids[o], api)
  {
    if Stuck(env, ids, o, n, api, f) then -1.0 else Peak(env, ids, o, n, api, f)
  }

  /** The peak is a maximum: of the start and the contributions, none is above it and one attains it. */
  lemma {:induction false} PeakIsMax(env: Env, ids: seq<string>, o: nat, n: nat, api: string, f: Field)
    returns (at: int)
    requires o <= n <= |ids| && o < |ids| && Names(env, ids[o], api)
    ensures var v := Peak(env, ids, o, n, api, f);
      && StartValue(env.policies[ids[o]], api, f) <= v
      && (forall k :: o <= k < n && Adds(env, ids, o, k, api, f) ==> PolicyValue(env.policies[ids[k]], f) <= v)
      && (if at < 0 then v == StartValue(env.policies[ids[o]], api, f)
          else o <= at < n && Adds(env, ids, o, at, api, f) && v == PolicyValue(env.policies[ids[at]], f))
  {
    if n == o {
      at := -1;
    } else {
      at := PeakIsMax(env, ids, o, n - 1, api, f);
      if && Adds(env, ids, o, n - 1, api, f)
         && PolicyValue(env.policies[ids[n - 1]], f) > Peak(env, ids, o, n - 1, api, f) {
        at := n - 1;
      }
    }
  }

  // ---------------------------------------------------------------------------------------------
  // The merge computes it
  // ---------------------------------------------------------------------------------------------

  /** The limit held so far for an API, zero when there is none. */
  function Held(m: Merge, api: string): ApiLimit {
    if api in m.rights then m.rights[api].Limit() else ZERO_LIMIT
  }

  function Raise(p: Policy, f: Field, v: real): real {
    if Gives(p, f) && !(f.Sticky() && v == -1.0) && PolicyValue(p, f) > v then PolicyValue(p, f) else v
  }

  lemma RaisedLimit(p: Policy, renews: Option<int>, start: ApiLimit, f: Field)
    ensures
      var quota := if p.GivesQuota() then RaiseQuota(p, start) else start;
      var rate := if p.GivesRate() then RaiseRate(p, quota) else quota;
      LimitValue(KeepRenews(renews, rate), f) == Raise(p, f, LimitValue(start, f))
  {
    match f
    case QuotaMax =>
    case QuotaRenewalRate =>
    case Rate =>
    case Per =>
    case ThrottleInterval =>
    case ThrottleRetryLimit =>
  }

  lemma SharedValue(p: Policy, m: Merge, api: string, f: Field)
    requires api in p.accessRights && !p.partitions.perAPI
    ensures LimitValue(Entry(p, m, api).Limit(), f) ==
      Raise(p, f, if api in m.rights && p.GivesACL() then LimitValue(Held(m, api), f) else StartValue(p, api, f))
  {
    var start := StartEntry(p, Prior(m, api), api).Limit();
    StartIs(p, api, f);
    RaisedLimit(p, Renews(m.session, api), start, f);
    assert LimitValue(start, f) ==
      if api in m.rights && p.GivesACL() then LimitValue(Held(m, api), f) else StartValue(p, api, f);
  }

  lemma PerApiValue(p: Policy, m: Merge, api: string, f: Field)
    requires api in p.accessRights && p.partitions.perAPI
    ensures LimitValue(Entry(p, m, api).Limit(), f) == StartValue(p, api, f)
  {
    StartIs(p, api, f);
  }

  lemma HeldAfter(p: Policy, m: Merge, first: bool, api: string)
    ensures Held(MergePolicy(p, m, first), api) ==
      if api in p.accessRights then Entry(p, m, api).Limit() else Held(m, api)
    ensures api in MergePolicy(p, m, first).rights <==> api in m.rights || api in p.accessRights
  {
  }

  lemma TrackStep(env: Env, ids: seq<string>, o: nat, k: nat, api: string, f: Field)
    requires o <= k < |ids| && Names(env, ids[o], api)
    ensures Tracked(env, ids, o, k + 1, api, f) ==
      var v := Tracked(env, ids, o, k, api, f);
      if Adds(env, ids, o, k, api, f) then Raise(env.policies[ids[k]], f, v) else v
  {
    assert Stuck(env, ids, o, k + 1, api, f) <==>
      f.Sticky() && (Peak(env, ids, o, k + 1, api, f) == -1.0 || Stuck(env, ids, o, k, api, f));
  }

  lemma TrackStart(env: Env, ids: seq<string>, o: nat, api: string, f: Field)
    requires o < |ids| && Names(env, ids[o], api)
    ensures Tracked(env, ids, o, o, api, f) == StartValue(env.policies[ids[o]], api, f)
  {
  }

  /** The entry that a merge holds for an API is the one that began with its origin, raised since. */
  ghost predicate Follows(env: Env, ids: seq<string>, n: nat, m: Merge, api: string, f: Field)
    requires n <= |ids|
  {
    var o := Origin(env, ids, n, api);
    && (o >= 0 <==> api in m.rights)
    && (o >= 0 ==> LimitValue(Held(m, api), f) == Tracked(env, ids, o, n, api, f))
  }

  lemma FollowsStep(env: Env, ids: seq<string>, n: nat, m: Merge, api: string, f: Field)
    requires n < |ids| && ids[n] in env.policies && Follows(env, ids, n, m, api, f)
    ensures Follows(env, ids, n + 1, MergePolicy(env.policies[ids[n]], m, n == 0), api, f)
  {
    var p, o := env.policies[ids[n]], Origin(env, ids, n, api);
    HeldAfter(p, m, n == 0, api);
    if !Names(env, ids[n], api) {
      if o >= 0 {
        TrackStep(env, ids, o, n, api, f);
      }
    } else if o < 0 || Replaces(p) {
      TrackStart(env, ids, n, api, f);
      TrackStep(env, ids, n, n, api, f);
      if p.partitions.perAPI {
        PerApiValue(p, m, api, f);
      } else {
        SharedValue(p, m, api, f);
      }
    } else {
      TrackStep(env, ids, o, n, api, f);
      SharedValue(p, m, api, f);
    }
  }

  lemma FollowsNext(env: Env, s: Session, ms: seq<Merge>, k: nat, api: string, f: Field)
    requires Trace(env, s, ms) && k + 1 < |ms| && Follows(env, s.policyIDs, k, ms[k], api, f)
    ensures Follows(env, s.policyIDs, k + 1, ms[k + 1], api, f)
  {
    assert StepAt(env, s, ms, k);
    FollowsStep(env, s.policyIDs, k, ms[k], api, f);
  }

  lemma {:induction false} FollowsTrace(env: Env, s: Session, ms: seq<Merge>, n: nat, api: string, f: Field)
    requires Trace(env, s, ms) && n < |ms|
    ensures Follows(env, s.policyIDs, n, ms[n], api, f)
  {
    if n > 0 {
      FollowsTrace(env, s, ms, n - 1, api, f);
      FollowsNext(env, s, ms, n - 1, api, f);
    }
  }

  /** After n policies, for every API and every limit, whatever the policies store. */
  lemma HeldIsPeak(env: Env, s: Session, n: nat, api: string, f: Field)
    requires n <= |s.policyIDs| && Fold(env, s, n).Merged?
    ensures Follows(env, s.policyIDs, n, Fold(env, s, n).m, api, f)
  {
    var ms := Traced(env, s, n);
    FollowsTrace(env, s, ms, n, api, f);
  }

  lemma DidStep(p: Policy, m: Merge, first: bool, api: string)
    ensures var m' := MergePolicy(p, m, first);
      && (api in m'.didQuota <==> api in m.didQuota || (p.GivesQuota() && api in p.accessRights))
      && (api in m'.didRate <==> api in m.didRate || (p.GivesRate() && api in p.accessRights))
  {
  }

  lemma DidNext(env: Env, s: Session, ms: seq<Merge>, k: nat, api: string)
    requires Trace(env, s, ms) && k + 1 < |ms|
    ensures api in ms[k + 1].didQuota <==> api in ms[k].didQuota || Contributes(env, s.policyIDs[k], api, QuotaMax)
    ensures api in ms[k + 1].didRate <==> api in ms[k].didRate || Contributes(env, s.policyIDs[k], api, Rate)
  {
    assert StepAt(env, s, ms, k);
    DidStep(env.policies[s.policyIDs[k]], ms[k], k == 0, api);
  }

  lemma {:induction false} DidTrace(env: Env, s: Session, ms: seq<Merge>, n: nat, api: string)
    requires Trace(env, s, ms) && n < |ms|
    ensures api in ms[n].didQuota <==> Contributed(env, s.policyIDs, n, api, QuotaMax)
    ensures api in ms[n].didRate <==> Contributed(env, s.policyIDs, n, api, Rate)
  {
    if n > 0 {
      DidTrace(env, s, ms, n - 1, api);
      DidNext(env, s, ms, n - 1, api);
    }
  }

  lemma DidExactly(env: Env, s: Session, n: nat, api: string)
    requires n <= |s.policyIDs| && Fold(env, s, n).Merged?
    ensures var m := Fold(env, s, n).m;
      && (api in m.didQuota <==> Contributed(env, s.policyIDs, n, api, QuotaMax))
      && (api in m.didRate <==> Contributed(env, s.policyIDs, n, api, Rate))
  {
    var ms := Traced(env, s, n);
    DidTrace(env, s, ms, n, api);
  }

  lemma {:induction false} SamePartition(env: Env, ids: seq<string>, n: nat, api: string, f: Field)
    requires n <= |ids|
    ensures Contributed(env, ids, n, api, f) <==> Contributed(env, ids, n, api, if f.OfQuota() then QuotaMax else Rate)
  {
    if n > 0 {
      SamePartition(env, ids, n - 1, api, f);
    }
  }

  // ---------------------------------------------------------------------------------------------
  // The session's own values, and the finished session
  // ---------------------------------------------------------------------------------------------

  /** A policy that names no API sets the session's own values. */
  predicate Sets(env: Env, id: string, f: Field) {
    && id in env.policies && !env.policies[id].partitions.perAPI && env.policies[id].accessRights == map[]
    && Gives(env.policies[id], f)
  }

  /** What the last of the first n policies to set the value set it to, or else what the session came with. */
  function SessionLevel(env: Env, s: Session, n: nat, f: Field): real
    requires n <= |s.policyIDs|
  {
    if n == 0 then SessionValue(s, f)
    else if Sets(env, s.policyIDs[n - 1], f) then PolicyValue(env.policies[s.policyIDs[n - 1]], f)
    else SessionLevel(env, s, n - 1, f)
  }

  lemma SetStep(p: Policy, m: Merge, first: bool, f: Field)
    ensures SessionValue(MergePolicy(p, m, first).session, f) ==
      if !p.partitions.perAPI && p.accessRights == map[] && Gives(p, f)
      then PolicyValue(p, f) else SessionValue(m.session, f)
  {
  }

  lemma SetNext(env: Env, s: Session, ms: seq<Merge>, k: nat, f: Field)
    requires Trace(env, s, ms) && k + 1 < |ms|
    ensures SessionValue(ms[k + 1].session, f) ==
      if Sets(env, s.policyIDs[k], f)
      then PolicyValue(env.policies[s.policyIDs[k]], f) else SessionValue(ms[k].session, f)
  {
    assert StepAt(env, s, ms, k);
    SetStep(env.policies[s.policyIDs[k]], ms[k], k == 0, f);
  }

  lemma {:induction false} SetTrace(env: Env, s: Session, ms: seq<Merge>, n: nat, f: Field)
    requires Trace(env, s, ms) && n < |ms|
    ensures SessionValue(ms[n].session, f) == SessionLevel(env, s, n, f)
  {
    if n > 0 {
      SetTrace(env, s, ms, n - 1, f);
      SetNext(env, s, ms, n - 1, f);
    }
  }

  lemma SessionLevelExactly(env: Env, s: Session, n: nat, f: Field)
    requires n <= |s.policyIDs| && Fold(env, s, n).Merged?
    ensures SessionValue(Fold(env, s, n).m.session, f) == SessionLevel(env, s, n, f)
  {
    var ms := Traced(env, s, n);
    SetTrace(env, s, ms, n, f);
  }

  /** Some of the first n policies names an API and carries the ACL: only then are the session's rights replaced. */
  predicate GrantsACL(env: Env, ids: seq<string>, n: nat)
    requires n <= |ids|
  {
    n > 0 &&
    (GrantsACL(env, ids, n - 1) ||
     (&& ids[n - 1] in env.policies
      && env.policies[ids[n - 1]].GivesACL() && env.policies[ids[n - 1]].accessRights != map[]))
  }

  lemma ACLStep(p: Policy, m: Merge, first: bool)
    ensures MergePolicy(p, m, first).didACL != {} <==> m.didACL != {} || (p.GivesACL() && p.accessRights != map[])
  {
    assert p.accessRights == map[] <==> p.accessRights.Keys == {};
    assert p.accessRights == map[] ==> m.didACL + p.accessRights.Keys == m.didACL;
  }

  lemma ACLNext(env: Env, s: Session, ms: seq<Merge>, k: nat)
    requires Trace(env, s, ms) && k + 1 < |ms|
    ensures s.policyIDs[k] in env.policies
    ensures var p := env.policies[s.policyIDs[k]];
      ms[k + 1].didACL != {} <==> ms[k].didACL != {} || (p.GivesACL() && p.accessRights != map[])
  {
    assert StepAt(env, s, ms, k);
    ACLStep(env.policies[s.policyIDs[k]], ms[k], k == 0);
  }

  lemma {:induction false} ACLTrace(env: Env, s: Session, ms: seq<Merge>, n: nat)
    requires Trace(env, s, ms) && n < |ms|
    ensures ms[n].didACL != {} <==> GrantsACL(env, s.policyIDs, n)
  {
    if n > 0 {
      ACLTrace(env, s, ms, n - 1);
      ACLNext(env, s, ms, n - 1);
    }
  }

  lemma ACLExactly(env: Env, s: Session, n: nat)
    requires n <= |s.policyIDs| && Fold(env, s, n).Merged?
    ensures Fold(env, s, n).m.didACL != {} <==> GrantsACL(env, s.policyIDs, n)
  {
    var ms := Traced(env, s, n);
    ACLTrace(env, s, ms, n);
  }

  lemma InheritedValue(m: Merge, api: string, f: Field)
    requires api in m.rights
    ensures LimitValue(FinalEntry(m, api).Limit(), f)
         == if (if f.OfQuota() then api in m.didQuota else api in m.didRate)
            then LimitValue(Held(m, api), f) else SessionValue(m.session, f)
  {
  }

  /** The limit a finished session has for an API. */
  function LimitOf(s: Session, api: string, f: Field): real {
    if api in s.accessRights then LimitValue(s.accessRights[api].Limit(), f) else 0.0
  }

  /** What the finished session should hold: the tracked value, or the session's own where nothing contributes. */
  function Expected(env: Env, s: Session, api: string, f: Field): real {
    var ids := s.policyIDs;
    var n, o := |ids|, Origin(env, ids, |ids|, api);
    if !GrantsACL(env, ids, n) then LimitOf(s, api, f)
    else if o < 0 then 0.0
    else if Contributed(env, ids, n, api, f) then Tracked(env, ids, o, n, api, f)
    else SessionLevel(env, s, n, f)
  }

  /** The closed form of every limit of the finished session, from the loaded policies and the session alone. */
  lemma FinalLimit(env: Env, s: Session, s': Session, api: string, f: Field)
    requires Applies(env, s, s')
    ensures LimitOf(s', api, f) == Expected(env, s, api, f)
    ensures GrantsACL(env, s.policyIDs, |s.policyIDs|) ==>
      (api in s'.accessRights <==> Origin(env, s.policyIDs, |s.policyIDs|, api) >= 0)
  {
    var n := |s.policyIDs|;
    var m := Fold(env, s, n).m;
    HeldIsPeak(env, s, n, api, f);
    DidExactly(env, s, n, api);
    SamePartition(env, s.policyIDs, n, api, f);
    SessionLevelExactly(env, s, n, f);
    ACLExactly(env, s, n);
    Untouched(env, s, n);
    var last := LastVisited(m, s');
    ClosedRights(m, last);
    if api in m.rights {
      InheritedValue(m, api, f);
    }
  }

  lemma ClosedRights(m: Merge, last: Option<string>)
    requires last.Some? ==> last.value in m.rights
    ensures Closed(m, last).accessRights == if m.didACL != {} then FinalRights(m) else m.session.accessRights
  {
  }

  /** The limit of an entry before it replaces the session's rights. */
  function EntryLimit(env: Env, s: Session, api: string, f: Field): real {
    var n, o := |s.policyIDs|, Origin(env, s.policyIDs, |s.policyIDs|, api);
    if o >= 0 && Contributed(env, s.policyIDs, n, api, f) then Tracked(env, s.policyIDs, o, n, api, f)
    else SessionLevel(env, s, n, f)
  }

  /** s' is what the merge of s ends in when the legacy values come from this entry, if they are written. */
  ghost predicate RootFrom(env: Env, s: Session, s': Session, last: Option<string>) {
    && Fold(env, s, |s.policyIDs|).Merged?
    && (last.Some? ==> last.value in Fold(env, s, |s.policyIDs|).m.rights)
    && s' == Closed(Fold(env, s, |s.policyIDs|).m, last)
  }

  lemma RootOrigin(env: Env, s: Session, s': Session) returns (last: Option<string>)
    requires Applies(env, s, s')
    ensures RootFrom(env, s, s', last)
    ensures last.Some? <==> |NamedWithQuota(env, s.policyIDs)| == 1 && |NamedWithRate(env, s.policyIDs)| == 1
    ensures last.Some? ==> last.value in Named(env, s.policyIDs)
  {
    var n := |s.policyIDs|;
    var m := Fold(env, s, n).m;
    assert s.policyIDs[..n] == s.policyIDs;
    Shape(env, s, n);
    last := LastVisited(m, s');
    if last.None? && |m.didQuota| == 1 {
      var api :| api in m.didQuota;
      assert api in m.rights;
    }
  }

  /** The session's own value is that of the API's entry, but for the throttling, or else what policies without APIs
      set. */
  predicate RootGives(env: Env, s: Session, s': Session, last: Option<string>, f: Field) {
    SessionValue(s', f) ==
    if last.Some? && f != ThrottleInterval && f != ThrottleRetryLimit then EntryLimit(env, s, last.value, f)
    else SessionLevel(env, s, |s.policyIDs|, f)
  }

  lemma RootIs(env: Env, s: Session, s': Session, last: Option<string>, f: Field)
    requires RootFrom(env, s, s', last)
    ensures RootGives(env, s, s', last, f)
  {
    var n := |s.policyIDs|;
    var m := Fold(env, s, n).m;
    SessionLevelExactly(env, s, n, f);
    if last.Some? {
      HeldIsPeak(env, s, n, last.value, f);
      DidExactly(env, s, n, last.value);
      SamePartition(env, s.policyIDs, n, last.value, f);
      InheritedValue(m, last.value, f);
    }
    RootOf(m, last, f);
  }

  lemma RootOf(m: Merge, last: Option<string>, f: Field)
    requires last.Some? ==> last.value in m.rights
    ensures SessionValue(Closed(m, last), f) ==
      if last.Some? && f != ThrottleInterval && f != ThrottleRetryLimit
      then LimitValue(FinalEntry(m, last.value).Limit(), f) else SessionValue(m.session, f)
  {
  }

  // ---------------------------------------------------------------------------------------------
  // Unlimited quotas and rates
  // ---------------------------------------------------------------------------------------------

  lemma {:induction false} StuckFromStart(env: Env, ids: seq<string>, o: nat, n: nat, api: string, f: Field)
    requires o <= n <= |ids| && o < |ids| && Names(env, ids[o], api) && StartValue(env.policies[ids[o]], api, f) >= -1.0
    ensures Stuck(env, ids, o, n, api, f) <==> f.Sticky() && StartValue(env.policies[ids[o]], api, f) == -1.0
    ensures StartValue(env.policies[ids[o]], api, f) <= Peak(env, ids, o, n, api, f)
  {
    if n > o {
      StuckFromStart(env, ids, o, n - 1, api, f);
    }
  }

  /** Every contribution from policy o up to n is below -1. */
  predicate Below(env: Env, ids: seq<string>, o: nat, n: nat, api: string, f: Field)
    requires o <= n <= |ids|
  {
    n == o || (Below(env, ids, o, n - 1, api, f) &&
               (Adds(env, ids, o, n - 1, api, f) ==> PolicyValue(env.policies[ids[n - 1]], f) < -1.0))
  }

  /** The first contribution from policy o up to n that is not below -1 is -1 itself. */
  predicate FirstIsUnlimited(env: Env, ids: seq<string>, o: nat, n: nat, api: string, f: Field)
    requires o <= n <= |ids|
  {
    n > o && (FirstIsUnlimited(env, ids, o, n - 1, api, f) ||
              (Below(env, ids, o, n - 1, api, f) && Adds(env, ids, o, n - 1, api, f) &&
               PolicyValue(env.policies[ids[n - 1]], f) == -1.0))
  }

  lemma {:induction false} StuckFromBelow(env: Env, ids: seq<string>, o: nat, n: nat, api: string, f: Field)
    requires o <= n <= |ids| && o < |ids| && Names(env, ids[o], api) && StartValue(env.policies[ids[o]], api, f) < -1.0
    ensures Stuck(env, ids, o, n, api, f) <==> f.Sticky() && FirstIsUnlimited(env, ids, o, n, api, f)
    ensures Below(env, ids, o, n, api, f) <==> Peak(env, ids, o, n, api, f) < -1.0
    ensures Peak(env, ids, o, n, api, f) == -1.0 ==> FirstIsUnlimited(env, ids, o, n, api, f)
  {
    if n > o {
      StuckFromBelow(env, ids, o, n - 1, api, f);
    }
  }

  lemma {:induction false} ContributedHasOrigin(env: Env, ids: seq<string>, n: nat, api: string, f: Field)
    requires n <= |ids| && Contributed(env, ids, n, api, f)
    ensures Origin(env, ids, n, api) >= 0
  {
    if Contributed(env, ids, n - 1, api, f) {
      ContributedHasOrigin(env, ids, n - 1, api, f);
    }
  }

  /** A contributed quota or rate ends as unlimited if and only if the entry's first policy stores -1 for the API or is
      per-API and has it, or stores less and the first contribution that is not below -1 is -1; so a shared policy's own
      -1 does not count where no limit is stored. */
  lemma UnlimitedExactly(env: Env, s: Session, s': Session, api: string, f: Field)
    requires Applies(env, s, s') && f.Sticky()
    requires var ids := s.policyIDs; GrantsACL(env, ids, |ids|) && Contributed(env, ids, |ids|, api, f)
    ensures var ids := s.policyIDs;
      var n, o := |ids|, Origin(env, ids, |ids|, api);
      && o >= 0
      && (LimitOf(s', api, f) == -1.0 <==>
          var start := StartValue(env.policies[ids[o]], api, f);
          start == -1.0 || (start < -1.0 && FirstIsUnlimited(env, ids, o, n, api, f)))
  {
    var ids := s.policyIDs;
    var n := |ids|;
    ContributedHasOrigin(env, ids, n, api, f);
    var o := Origin(env, ids, n, api);
    FinalLimit(env, s, s', api, f);
    if StartValue(env.policies[ids[o]], api, f) < -1.0 {
      StuckFromBelow(env, ids, o, n, api, f);
    } else {
      StuckFromStart(env, ids, o, n, api, f);
    }
  }
}

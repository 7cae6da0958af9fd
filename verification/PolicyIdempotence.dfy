/** Re-applying the policies of a session.

    A session found in the local cache has its policies applied again on every request. The second
    application changes nothing for any session exactly when the policy list leaves no choice in the
    legacy session-level values: the loop that writes them visits a single entry, or does not run. */
module PolicyIdempotence {
  import opened Wrappers
  import opened Policies
  import opened PolicyTrace
  import opened SmallSets

  // What a caller can compute from the loaded policies alone.

  function Named(env: Env, ids: seq<string>): set<string> {
    if ids == [] then {}
    else
      var id := ids[|ids| - 1];
      Named(env, ids[..|ids| - 1]) + (if id in env.policies then env.policies[id].accessRights.Keys else {})
  }

  function NamedWithQuota(env: Env, ids: seq<string>): set<string> {
    if ids == [] then {}
    else
      var id := ids[|ids| - 1];
      NamedWithQuota(env, ids[..|ids| - 1]) +
      (if id in env.policies && env.policies[id].GivesQuota() then env.policies[id].accessRights.Keys else {})
  }

  function NamedWithRate(env: Env, ids: seq<string>): set<string> {
    if ids == [] then {}
    else
      var id := ids[|ids| - 1];
      NamedWithRate(env, ids[..|ids| - 1]) +
      (if id in env.policies && env.policies[id].GivesRate() then env.policies[id].accessRights.Keys else {})
  }

  /** One API has a quota, one has a rate, and the policies name a further API. */
  predicate AmbiguousRoot(env: Env, ids: seq<string>) {
    |NamedWithQuota(env, ids)| == 1 && |NamedWithRate(env, ids)| == 1 && |Named(env, ids)| > 1
  }

  /** The APIs a merge has dealt with are those its policies name. */
  predicate ShapedBy(env: Env, ids: seq<string>, m: Merge) {
    && m.rights.Keys == Named(env, ids)
    && m.didQuota == NamedWithQuota(env, ids) && m.didRate == NamedWithRate(env, ids)
    && m.didQuota + m.didRate + m.didACL <= m.rights.Keys
  }

  lemma ShapeStep(env: Env, ids: seq<string>, id: string, m: Merge, first: bool)
    requires id in env.policies && ShapedBy(env, ids, m)
    ensures ShapedBy(env, ids + [id], MergePolicy(env.policies[id], m, first))
  {
    assert (ids + [id])[..|ids|] == ids;
  }

  lemma ShapeNext(env: Env, s: Session, ms: seq<Merge>, k: nat)
    requires Trace(env, s, ms) && k + 1 < |ms| && ShapedBy(env, s.policyIDs[..k], ms[k])
    ensures ShapedBy(env, s.policyIDs[..k + 1], ms[k + 1])
  {
    assert StepAt(env, s, ms, k);
    ShapeStep(env, s.policyIDs[..k], s.policyIDs[k], ms[k], k == 0);
    assert s.policyIDs[..k + 1] == s.policyIDs[..k] + [s.policyIDs[k]];
  }

  lemma {:induction false} ShapeTrace(env: Env, s: Session, ms: seq<Merge>, n: nat)
    requires Trace(env, s, ms) && n < |ms|
    ensures ShapedBy(env, s.policyIDs[..n], ms[n])
  {
    if n > 0 {
      ShapeTrace(env, s, ms, n - 1);
      ShapeNext(env, s, ms, n - 1);
    }
  }

  lemma Shape(env: Env, s: Session, n: nat)
    requires n <= |s.policyIDs| && Fold(env, s, n).Merged?
    ensures var m := Fold(env, s, n).m;
      && m.rights.Keys == Named(env, s.policyIDs[..n])
      && m.didQuota == NamedWithQuota(env, s.policyIDs[..n])
      && m.didRate == NamedWithRate(env, s.policyIDs[..n])
      && m.didQuota + m.didRate + m.didACL <= m.rights.Keys
  {
    var ms := Traced(env, s, n);
    ShapeTrace(env, s, ms, n);
  }

  // ---------------------------------------------------------------------------------------------
  // What the merge takes from the session
  // ---------------------------------------------------------------------------------------------

  function Blank(d: AccessDefinition): AccessDefinition {
    d.(limit := Some(d.Limit().(quotaRenews := 0)))
  }

  /** Two merges of the same policies: the entries can differ in their renewal dates only. */
  ghost predicate SameMerge(m: Merge, t: Merge) {
    && m.rights.Keys == t.rights.Keys
    && m.didQuota == t.didQuota && m.didRate == t.didRate && m.didACL == t.didACL && m.tags == t.tags
    && forall api :: api in m.rights ==>
         && m.rights[api].limit.Some? && t.rights[api].limit.Some?
         && Blank(m.rights[api]) == Blank(t.rights[api])
         && (Renews(m.session, api) == Renews(t.session, api) ==> m.rights[api] == t.rights[api])
  }

  lemma SameStart(p: Policy, a: AccessDefinition, b: AccessDefinition, api: string)
    requires api in p.accessRights && a.limit.Some? && b.limit.Some? && Blank(a) == Blank(b)
    ensures Blank(StartEntry(p, Some(a), api)) == Blank(StartEntry(p, Some(b), api))
  {
  }

  lemma SameRaise(p: Policy, k: ApiLimit, l: ApiLimit)
    requires k.(quotaRenews := 0) == l.(quotaRenews := 0)
    ensures RaiseQuota(p, k).(quotaRenews := 0) == RaiseQuota(p, l).(quotaRenews := 0)
    ensures RaiseRate(p, k).(quotaRenews := 0) == RaiseRate(p, l).(quotaRenews := 0)
  {
  }

  lemma SameShared(p: Policy, r: Option<int>, q: Option<int>, a: AccessDefinition, b: AccessDefinition, api: string)
    requires api in p.accessRights && a.limit.Some? && b.limit.Some? && Blank(a) == Blank(b)
    ensures Blank(SharedEntry(p, r, Some(a), api)) == Blank(SharedEntry(p, q, Some(b), api))
  {
    SameStart(p, a, b, api);
    var k, l := StartEntry(p, Some(a), api), StartEntry(p, Some(b), api);
    SameRaise(p, k.Limit(), l.Limit());
    SameRaise(p, RaiseQuota(p, k.Limit()), RaiseQuota(p, l.Limit()));
  }

  lemma SameEntry(p: Policy, m: Merge, t: Merge, api: string)
    requires SameMerge(m, t) && api in p.accessRights
    ensures Entry(p, m, api).limit.Some? && Entry(p, t, api).limit.Some?
    ensures Blank(Entry(p, m, api)) == Blank(Entry(p, t, api))
    ensures Renews(m.session, api) == Renews(t.session, api) ==> Entry(p, m, api) == Entry(p, t, api)
  {
    if !p.partitions.perAPI && api in m.rights {
      SameShared(p, Renews(m.session, api), Renews(t.session, api), m.rights[api], t.rights[api], api);
    }
  }

  /** The loop over the policies leaves the rights, renewal date, tags and policy list of the session. */
  predicate Kept(s: Session, u: Session) {
    u.accessRights == s.accessRights && u.quotaRenews == s.quotaRenews && u.tags == s.tags && u.policyIDs == s.policyIDs
  }

  lemma {:induction false} Untouched(env: Env, s: Session, n: nat)
    requires n <= |s.policyIDs| && Fold(env, s, n).Merged?
    ensures Kept(s, Fold(env, s, n).m.session)
  {
    if n > 0 {
      Untouched(env, s, n - 1);
    }
  }

  lemma {:induction false} SameFold(env: Env, s: Session, t: Session, n: nat)
    requires s.policyIDs == t.policyIDs && n <= |s.policyIDs|
    ensures Fold(env, s, n).Merged? == Fold(env, t, n).Merged?
    ensures Fold(env, s, n).Merged? ==> SameMerge(Fold(env, s, n).m, Fold(env, t, n).m)
  {
    if n > 0 {
      SameFold(env, s, t, n - 1);
      if Fold(env, s, n).Merged? {
        var m, u := Fold(env, s, n - 1).m, Fold(env, t, n - 1).m;
        SameStep(env.policies[s.policyIDs[n - 1]], m, u, n == 1);
      }
    }
  }

  lemma SameEntryAfter(p: Policy, m: Merge, t: Merge, first: bool, api: string)
    requires SameMerge(m, t) && api in MergePolicy(p, m, first).rights
    ensures api in MergePolicy(p, t, first).rights
    ensures var m', t' := MergePolicy(p, m, first), MergePolicy(p, t, first);
      && m'.rights[api].limit.Some? && t'.rights[api].limit.Some?
      && Blank(m'.rights[api]) == Blank(t'.rights[api])
      && (Renews(m'.session, api) == Renews(t'.session, api) ==> m'.rights[api] == t'.rights[api])
  {
    if api in p.accessRights {
      SameEntry(p, m, t, api);
    } else {
      assert api in m.rights;
    }
  }

  lemma SameStep(p: Policy, m: Merge, t: Merge, first: bool)
    requires SameMerge(m, t)
    ensures SameMerge(MergePolicy(p, m, first), MergePolicy(p, t, first))
  {
    var m', t' := MergePolicy(p, m, first), MergePolicy(p, t, first);
    forall api | api in m'.rights
      ensures m'.rights[api].limit.Some? && t'.rights[api].limit.Some?
      ensures Blank(m'.rights[api]) == Blank(t'.rights[api])
      ensures Renews(m'.session, api) == Renews(t'.session, api) ==> m'.rights[api] == t'.rights[api]
    {
      SameEntryAfter(p, m, t, first, api);
    }
  }

  lemma EntryRenews(p: Policy, m: Merge, api: string)
    requires api in p.accessRights
    ensures Entry(p, m, api).limit.Some?
    ensures Renews(m.session, api).Some? ==>
      Entry(p, m, api).Limit().quotaRenews == Renews(m.session, api).value
  {
  }

  /** Every entry has a limit, and its renewal date is the session's where the session has one. */
  ghost predicate DatesKept(s: Session, m: Merge) {
    forall api :: api in m.rights ==>
      && m.rights[api].limit.Some?
      && (Renews(s, api).Some? ==> m.rights[api].Limit().quotaRenews == Renews(s, api).value)
  }

  lemma {:induction false} RenewsKept(env: Env, s: Session, n: nat)
    requires n <= |s.policyIDs| && Fold(env, s, n).Merged?
    ensures DatesKept(s, Fold(env, s, n).m)
  {
    if n > 0 {
      RenewsKept(env, s, n - 1);
      Untouched(env, s, n - 1);
      RenewsKeptStep(env.policies[s.policyIDs[n - 1]], s, Fold(env, s, n - 1).m, n == 1);
    }
  }

  lemma RenewsKeptStep(p: Policy, s: Session, m: Merge, first: bool)
    requires DatesKept(s, m) && Kept(s, m.session)
    ensures DatesKept(s, MergePolicy(p, m, first))
  {
    forall api | api in p.accessRights
      ensures Entry(p, m, api).limit.Some?
      ensures Renews(s, api).Some? ==> Entry(p, m, api).Limit().quotaRenews == Renews(s, api).value
    {
      EntryRenews(p, m, api);
    }
  }

  function RateRoot(s: Session): (real, real, real, int) {
    (s.rate, s.per, s.throttleInterval, s.throttleRetryLimit)
  }

  function QuotaRoot(s: Session): (int, int) {
    (s.quotaMax, s.quotaRenewalRate)
  }

  /** u and v started as s and t: their values come from a master policy, the same one, or are still those. */
  predicate SameOrigin(s: Session, t: Session, u: Session, v: Session, started: bool) {
    && (RateRoot(u) == RateRoot(v) || (RateRoot(u) == RateRoot(s) && RateRoot(v) == RateRoot(t)))
    && (QuotaRoot(u) == QuotaRoot(v) || (QuotaRoot(u) == QuotaRoot(s) && QuotaRoot(v) == QuotaRoot(t)))
    && ((u.hmacEnabled && v.hmacEnabled) || (u.hmacEnabled == s.hmacEnabled && v.hmacEnabled == t.hmacEnabled))
    && (if started then u.isInactive == v.isInactive
        else u.isInactive == s.isInactive && v.isInactive == t.isInactive)
  }

  lemma MasterRoots(p: Policy, u: Session)
    ensures var w := MasterValues(p, u); var sets := !p.partitions.perAPI && p.accessRights == map[];
      && RateRoot(w) == (if sets && p.GivesRate()
                         then (p.rate, p.per, p.throttleInterval, p.throttleRetryLimit) else RateRoot(u))
      && QuotaRoot(w) == (if sets && p.GivesQuota() then (p.quotaMax, p.quotaRenewalRate) else QuotaRoot(u))
      && w.hmacEnabled == u.hmacEnabled && w.isInactive == u.isInactive
  {
  }

  lemma SameOriginMaster(p: Policy, s: Session, t: Session, u: Session, v: Session, started: bool)
    requires SameOrigin(s, t, u, v, started)
    ensures SameOrigin(s, t, MasterValues(p, u), MasterValues(p, v), started)
  {
    MasterRoots(p, u);
    MasterRoots(p, v);
  }

  lemma SameOriginStep(p: Policy, s: Session, t: Session, u: Session, v: Session, first: bool)
    requires SameOrigin(s, t, u, v, !first)
    ensures SameOrigin(s, t, Flags(p, MasterValues(p, u), first), Flags(p, MasterValues(p, v), first), true)
  {
    SameOriginMaster(p, s, t, u, v, !first);
  }

  lemma {:induction false} SameRoots(env: Env, s: Session, t: Session, n: nat)
    requires s.policyIDs == t.policyIDs && n <= |s.policyIDs|
    requires Fold(env, s, n).Merged? && Fold(env, t, n).Merged?
    ensures SameOrigin(s, t, Fold(env, s, n).m.session, Fold(env, t, n).m.session, n > 0)
  {
    if n > 0 {
      SameRoots(env, s, t, n - 1);
      var m, u := Fold(env, s, n - 1).m, Fold(env, t, n - 1).m;
      SameOriginStep(env.policies[s.policyIDs[n - 1]], s, t, m.session, u.session, n == 1);
    }
  }

  // ---------------------------------------------------------------------------------------------
  // Sufficiency
  // ---------------------------------------------------------------------------------------------

  lemma SameSetters(m: Merge, t: Merge)
    requires SameMerge(m, t)
    ensures DistinctSetters(m) == DistinctSetters(t)
  {
    forall api | api in m.rights
      ensures m.rights[api].Limit().setBy == t.rights[api].Limit().setBy
    {
      assert Blank(m.rights[api]) == Blank(t.rights[api]);
    }
  }

  /** A finished entry of the second merge is the finished entry of the first. */
  lemma SameFinalEntry(m: Merge, t: Merge, api: string)
    requires SameMerge(m, t) && api in m.rights
    requires api !in m.didRate ==> RateRoot(m.session) == RateRoot(t.session)
    requires api !in m.didQuota ==>
      QuotaRoot(m.session) == QuotaRoot(t.session) && m.session.quotaRenews == t.session.quotaRenews
    requires api in m.didQuota ==> m.rights[api].Limit().quotaRenews == t.rights[api].Limit().quotaRenews
    ensures FinalEntry(m, api) == FinalEntry(t, api)
  {
    SameSetters(m, t);
    assert Blank(m.rights[api]) == Blank(t.rights[api]);
  }

  /** When the legacy values are written they come from the only entry, which inherits nothing. */
  ghost predicate RootIsDetermined(m: Merge) {
    WritesLegacyRoot(m) ==> forall api :: api in m.rights ==>
      m.rights.Keys == {api} && api in m.didQuota && api in m.didRate
  }

  lemma UnambiguousRoot(env: Env, s: Session)
    requires Fold(env, s, |s.policyIDs|).Merged? && !AmbiguousRoot(env, s.policyIDs)
    ensures RootIsDetermined(Fold(env, s, |s.policyIDs|).m)
  {
    assert s.policyIDs[..|s.policyIDs|] == s.policyIDs;
    Shape(env, s, |s.policyIDs|);
    var m := Fold(env, s, |s.policyIDs|).m;
    RootOfOne(m);
  }

  lemma RootOfOne(m: Merge)
    requires m.didQuota + m.didRate <= m.rights.Keys
    requires |m.didQuota| == 1 && |m.didRate| == 1 ==> |m.rights.Keys| <= 1
    ensures RootIsDetermined(m)
  {
    if WritesLegacyRoot(m) {
      forall api | api in m.rights
        ensures m.rights.Keys == {api} && api in m.didQuota && api in m.didRate
      {
        var q :| q in m.didQuota;
        var r :| r in m.didRate;
        assert |m.rights.Keys - {api}| == 0;
        OneElement(m.rights.Keys, q, api);
        OneElement(m.rights.Keys, r, api);
      }
    }
  }

  /** The renewal date of a quota entry survives a re-application. */
  lemma SameRenews(m: Merge, s1: Session, t: Merge, last: Option<string>, api: string)
    requires last.Some? ==> last.value in m.rights
    requires s1 == Closed(m, last) && Kept(s1, t.session) && DatesKept(s1, t)
    requires SameMerge(m, t) && api in m.rights && api in m.didQuota
    ensures t.rights[api].Limit().quotaRenews == m.rights[api].Limit().quotaRenews
  {
    if m.didACL != {} {
      assert s1.accessRights[api] == FinalEntry(m, api);
    } else {
      assert Renews(m.session, api) == Renews(t.session, api);
    }
  }

  lemma FinalRightsKept(s: Session, m: Merge, s1: Session, t: Merge, last: Option<string>)
    requires last.Some? <==> WritesLegacyRoot(m)
    requires last.Some? ==> last.value in m.rights
    requires s1 == Closed(m, last) && Kept(s1, t.session) && DatesKept(s1, t)
    requires SameMerge(m, t) && SameOrigin(s, s1, m.session, t.session, s.policyIDs != [])
    requires RootIsDetermined(m)
    ensures FinalRights(t) == FinalRights(m)
  {
    forall api | api in m.rights
      ensures FinalEntry(t, api) == FinalEntry(m, api)
    {
      if api in m.didQuota {
        SameRenews(m, s1, t, last, api);
      }
      SameFinalEntry(m, t, api);
    }
  }

  /** Closing the second merge gives back the session it started from. */
  lemma ClosedAgain(s: Session, m: Merge, s1: Session, t: Merge, last: Option<string>)
    requires last.Some? ==> last.value in m.rights
    requires SameMerge(m, t) && FinalRights(t) == FinalRights(m)
    requires s1 == Closed(m, last) && Kept(s1, t.session)
    requires SameOrigin(s, s1, m.session, t.session, s.policyIDs != [])
    requires s.policyIDs == [] ==> m.session == s
    ensures s1 == Closed(t, last)
  {
    assert t.tags + t.session.tags == s1.tags;
    if last.Some? {
      assert FinalRights(t)[last.value] == FinalEntry(t, last.value);
      assert FinalRights(m)[last.value] == FinalEntry(m, last.value);
    }
  }

  lemma PolicyListKept(env: Env, s: Session, s1: Session)
    requires Applies(env, s, s1)
    ensures s1.policyIDs == s.policyIDs
    ensures Fold(env, s1, |s1.policyIDs|).Merged?
  {
    Untouched(env, s, |s.policyIDs|);
    SameFold(env, s, s1, |s.policyIDs|);
  }

  lemma LastVisited(m: Merge, s': Session) returns (last: Option<string>)
    requires Finished(m, s')
    ensures last.Some? <==> WritesLegacyRoot(m)
    ensures last.Some? ==> last.value in m.rights
    ensures s' == Closed(m, last)
  {
    if WritesLegacyRoot(m) {
      var api :| api in m.rights && s' == Closed(m, Some(api));
      last := Some(api);
    } else {
      last := None;
    }
  }

  lemma SameLast(m: Merge, t: Merge, last: Option<string>, last': Option<string>)
    requires m.rights.Keys == t.rights.Keys && m.didQuota == t.didQuota && m.didRate == t.didRate
    requires RootIsDetermined(m)
    requires (last.Some? <==> WritesLegacyRoot(m)) && (last'.Some? <==> WritesLegacyRoot(t))
    requires (last.Some? ==> last.value in m.rights) && (last'.Some? ==> last'.value in t.rights)
    ensures last' == last
  {
    assert m.rights == map[] <==> m.rights.Keys == {};
    assert t.rights == map[] <==> t.rights.Keys == {};
    if last.Some? {
      assert last'.value in m.rights.Keys;
      assert last'.value in {last.value};
    }
  }

  /** Re-application changes nothing unless the policy list is ambiguous. */
  lemma Idempotent(env: Env, s: Session, s1: Session, s2: Session)
    requires Applies(env, s, s1) && Applies(env, s1, s2)
    requires !AmbiguousRoot(env, s.policyIDs)
    ensures s2 == s1
  {
    var n := |s.policyIDs|;
    PolicyListKept(env, s, s1);
    SameFold(env, s, s1, n);
    SameRoots(env, s, s1, n);
    Untouched(env, s1, n);
    RenewsKept(env, s1, n);
    UnambiguousRoot(env, s);
    IdempotentMerges(s, Fold(env, s, n).m, s1, Fold(env, s1, n).m, s2);
  }

  lemma IdempotentMerges(s: Session, m: Merge, s1: Session, t: Merge, s2: Session)
    requires Finished(m, s1) && Finished(t, s2)
    requires SameMerge(m, t) && SameOrigin(s, s1, m.session, t.session, s.policyIDs != [])
    requires s.policyIDs == [] ==> m.session == s
    requires Kept(s1, t.session) && DatesKept(s1, t) && RootIsDetermined(m)
    ensures s2 == s1
  {
    var last := LastVisited(m, s1);
    var last' := LastVisited(t, s2);
    SameLast(m, t, last, last');
    FinalRightsKept(s, m, s1, t, last);
    ClosedAgain(s, m, s1, t, last);
  }

  // ---------------------------------------------------------------------------------------------
  // Necessity
  // ---------------------------------------------------------------------------------------------

  /** A session whose own renewal date differs from the one it holds for API x. */
  function Witness(ids: seq<string>, x: string): Session {
    Session(0.0, 0.0, 0.0, 0, 0, 0, 0,
            map[x := AccessDefinition("", x, [], Some(ZERO_LIMIT.(quotaRenews := 1)), "")],
            false, false, {}, ids)
  }

  lemma OtherElement<T>(x: set<T>, y: set<T>) returns (k: T)
    requires |x| == 1 && |y| > 1
    ensures k in y && k !in x
  {
    var q :| q in x;
    var rest := y - {q};
    assert y <= rest + {q};
    assert |rest| >= 1;
    k :| k in rest;
    if k in x {
      OneElement(x, k, q);
    }
  }

  ghost predicate Mixable(m: Merge, x: string, k: string) {
    && WritesLegacyRoot(m) && x in m.rights && k in m.rights && x in m.didQuota && k !in m.didQuota
    && m.session.quotaRenews == 0 && m.rights[x].Limit().quotaRenews == 1
  }

  lemma MixableMerge(s: Session, m: Merge, x: string, k: string)
    requires s == Witness(s.policyIDs, x) && Kept(s, m.session) && DatesKept(s, m)
    requires |m.didQuota| == 1 && |m.didRate| == 1 && m.didQuota <= m.rights.Keys
    requires x in m.didQuota && k in m.rights.Keys && k !in m.didQuota
    ensures Mixable(m, x, k)
  {
    assert Renews(s, x) == Some(1);
    assert k in m.rights;
  }

  lemma MixableWitness(env: Env, z: Session) returns (s: Session, x: string, k: string)
    requires AmbiguousRoot(env, z.policyIDs) && Fold(env, z, |z.policyIDs|).Merged?
    ensures s == Witness(z.policyIDs, x) && Fold(env, s, |s.policyIDs|).Merged?
    ensures var m := Fold(env, s, |s.policyIDs|).m; Kept(s, m.session) && Mixable(m, x, k)
  {
    var ids := z.policyIDs;
    assert ids[..|ids|] == ids;
    x :| x in NamedWithQuota(env, ids);
    k := OtherElement(NamedWithQuota(env, ids), Named(env, ids));
    s := Witness(ids, x);
    SameFold(env, z, s, |ids|);
    Shape(env, s, |ids|);
    Untouched(env, s, |ids|);
    RenewsKept(env, s, |ids|);
    MixableMerge(s, Fold(env, s, |ids|).m, x, k);
  }

  /** With an ambiguous list some session is changed by the second application. */
  lemma NotIdempotent(env: Env, z: Session) returns (s: Session, s1: Session, s2: Session)
    requires AmbiguousRoot(env, z.policyIDs) && Fold(env, z, |z.policyIDs|).Merged?
    ensures s.policyIDs == z.policyIDs && Applies(env, s, s1) && Applies(env, s1, s2) && s1 != s2
  {
    var x, k;
    s, x, k := MixableWitness(env, z);
    var n := |s.policyIDs|;
    s1 := FirstClosing(Fold(env, s, n).m, x, k);
    PolicyListKept(env, s, s1);
    SameFold(env, s, s1, n);
    Untouched(env, s1, n);
    RenewsKept(env, s1, n);
    s2 := SecondClosing(s, Fold(env, s, n).m, s1, Fold(env, s1, n).m, x, k);
  }

  function Visited(m: Merge, x: string, k: string): string {
    if m.didACL != {} then x else k
  }

  lemma FirstClosing(m: Merge, x: string, k: string) returns (s1: Session)
    requires Mixable(m, x, k)
    ensures Finished(m, s1) && s1 == Closed(m, Some(Visited(m, x, k)))
  {
    s1 := Closed(m, Some(Visited(m, x, k)));
  }

  /** The first merge gives k the session's date 0 and x its own date 1; the second mixes them up. */
  lemma SecondClosing(s: Session, m: Merge, s1: Session, t: Merge, x: string, k: string) returns (s2: Session)
    requires Mixable(m, x, k) && SameMerge(m, t) && Kept(s, m.session) && s == Witness(s.policyIDs, x)
    requires s1 == Closed(m, Some(Visited(m, x, k))) && Kept(s1, t.session) && DatesKept(s1, t)
    ensures Finished(t, s2) && s2 != s1
  {
    s2 := Closed(t, Some(x));
    if m.didACL != {} {
      assert s1.accessRights[k] == FinalEntry(m, k);
      assert s2.accessRights[k] == FinalEntry(t, k);
    } else {
      assert Renews(s1, x) == Some(1);
      assert s2.quotaRenews == FinalEntry(t, x).Limit().quotaRenews;
    }
  }

  ghost predicate AlwaysIdempotent(env: Env, ids: seq<string>) {
    forall s: Session, s1: Session, s2: Session ::
      s.policyIDs == ids && Applies(env, s, s1) && Applies(env, s1, s2) ==> s2 == s1
  }

  /** The exact condition, for every list of policies that is accepted at all. */
  lemma IdempotenceExact(env: Env, z: Session)
    requires Fold(env, z, |z.policyIDs|).Merged?
    ensures AlwaysIdempotent(env, z.policyIDs) <==> !AmbiguousRoot(env, z.policyIDs)
  {
    if AmbiguousRoot(env, z.policyIDs) {
      var s, s1, s2 := NotIdempotent(env, z);
    } else {
      forall s: Session, s1: Session, s2: Session
        | s.policyIDs == z.policyIDs && Applies(env, s, s1) && Applies(env, s1, s2)
        ensures s2 == s1
      {
        Idempotent(env, s, s1, s2);
      }
    }
  }

  /** Lists of per-API and unpartitioned policies are never ambiguous. */
  lemma {:induction false} WholePoliciesUnambiguous(env: Env, ids: seq<string>)
    requires forall i :: 0 <= i < |ids| && ids[i] in env.policies ==>
      env.policies[ids[i]].partitions.perAPI || !env.policies[ids[i]].partitions.Any()
    ensures NamedWithQuota(env, ids) == Named(env, ids) == NamedWithRate(env, ids)
    ensures !AmbiguousRoot(env, ids)
  {
    if ids != [] {
      WholePoliciesUnambiguous(env, ids[..|ids| - 1]);
    }
  }
}

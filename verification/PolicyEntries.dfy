/** What the merge makes of an API's entry besides its limits: where it comes from, who set it, and when its quota
    renews. */
module PolicyEntries {
  import opened Wrappers
  import opened Policies
  import opened PolicyIdempotence
  import opened PolicyLimits
  import opened PolicyTrace
  import opened SmallSets

  // ---------------------------------------------------------------------------------------------
  // The reference, over the loaded policies
  // ---------------------------------------------------------------------------------------------

  /** Who set the API's limit last among the first n policies: a per-API policy signs with the API, one with the ACL
      with its own id; one without it brings the mark stored with its limit. */
  function Setter(env: Env, ids: seq<string>, n: nat, api: string): string
    requires n <= |ids|
  {
    if n == 0 then ""
    else if !Names(env, ids[n - 1], api) then Setter(env, ids, n - 1, api)
    else
      var p := env.policies[ids[n - 1]];
      if p.partitions.perAPI then api
      else if p.partitions.acl || !(p.partitions.quota || p.partitions.rateLimit) then p.id
      else if Stores(p, api) then p.accessRights[api].limit.value.setBy
      else ""
  }

  /** Two named APIs were set by different policies. */
  ghost predicate TwoSetters(env: Env, ids: seq<string>) {
    exists a, b ::
      && a in Named(env, ids) && b in Named(env, ids)
      && Setter(env, ids, |ids|, a) != "" && Setter(env, ids, |ids|, b) != ""
      && Setter(env, ids, |ids|, a) != Setter(env, ids, |ids|, b)
  }

  /** The allowance scope that a policy gives an API: its own, or for a per-API policy the API. */
  function OwnScope(p: Policy, api: string): string
    requires api in p.accessRights
  {
    if p.partitions.perAPI then api else p.accessRights[api].allowanceScope
  }

  /** An entry without a scope of its own is scoped by its setter, if the list has several. */
  ghost function FinalScope(env: Env, ids: seq<string>, api: string): string
    requires Origin(env, ids, |ids|, api) >= 0
  {
    var own := OwnScope(env.policies[ids[Origin(env, ids, |ids|, api)]], api);
    if own == "" && TwoSetters(env, ids) then Setter(env, ids, |ids|, api) else own
  }

  /** The renewal date stored with a policy's limit. */
  function StoredRenews(p: Policy, api: string): int
    requires api in p.accessRights
  {
    if Stores(p, api) then p.accessRights[api].limit.value.quotaRenews else 0
  }

  /** And the rest of the quota stored with it. */
  function StoredRemaining(p: Policy, api: string): int
    requires api in p.accessRights
  {
    if Stores(p, api) then p.accessRights[api].limit.value.quotaRemaining else 0
  }

  predicate HasLimit(s: Session, api: string) { api in s.accessRights && s.accessRights[api].limit.Some? }

  /** The date of a contributed quota is the one the session holds for the API, or else the stored one; a quota that is
      inherited renews with the session. */
  function FinalRenews(env: Env, s: Session, api: string): int
    requires Origin(env, s.policyIDs, |s.policyIDs|, api) >= 0
  {
    if !Contributed(env, s.policyIDs, |s.policyIDs|, api, QuotaMax) then s.quotaRenews
    else if HasLimit(s, api) then s.accessRights[api].limit.value.quotaRenews
    else StoredRenews(env.policies[s.policyIDs[Origin(env, s.policyIDs, |s.policyIDs|, api)]], api)
  }

  // ---------------------------------------------------------------------------------------------
  // The merge follows it
  // ---------------------------------------------------------------------------------------------

  /** The entry e of an API after n policies. */
  ghost predicate ComesFrom(env: Env, s: Session, n: nat, api: string, e: AccessDefinition)
    requires n <= |s.policyIDs| && Origin(env, s.policyIDs, n, api) >= 0
  {
    var p := env.policies[s.policyIDs[Origin(env, s.policyIDs, n, api)]];
    && e.apiName == p.accessRights[api].apiName && e.apiID == p.accessRights[api].apiID
    && e.allowanceScope == OwnScope(p, api) && e.Limit().quotaRemaining == StoredRemaining(p, api)
    && e.Limit().setBy == Setter(env, s.policyIDs, n, api)
    && e.Limit().quotaRenews ==
       if HasLimit(s, api) then s.accessRights[api].limit.value.quotaRenews else StoredRenews(p, api)
  }

  ghost predicate EntryFollows(env: Env, s: Session, n: nat, m: Merge, api: string)
    requires n <= |s.policyIDs|
  {
    && m.session.accessRights == s.accessRights
    && (Origin(env, s.policyIDs, n, api) >= 0 <==> api in m.rights)
    && (api in m.rights ==> ComesFrom(env, s, n, api, m.rights[api]))
  }

  lemma NewEntry(p: Policy, m: Merge, s: Session, api: string)
    requires api in p.accessRights && m.session.accessRights == s.accessRights && (Replaces(p) || api !in m.rights)
    ensures var e := Entry(p, m, api);
      && e.apiName == p.accessRights[api].apiName && e.apiID == p.accessRights[api].apiID
      && e.allowanceScope == OwnScope(p, api) && e.Limit().quotaRemaining == StoredRemaining(p, api)
      && e.Limit().quotaRenews ==
         if HasLimit(s, api) then s.accessRights[api].limit.value.quotaRenews else StoredRenews(p, api)
  {
    ZeroLimit(ZERO_LIMIT);
    if p.accessRights[api].limit.Some? {
      ZeroLimit(p.accessRights[api].limit.value);
    }
  }

  lemma MergedEntry(p: Policy, m: Merge, s: Session, api: string)
    requires api in p.accessRights && m.session.accessRights == s.accessRights && !Replaces(p) && api in m.rights
    ensures var e, was := Entry(p, m, api), m.rights[api];
      && e.apiName == was.apiName && e.apiID == was.apiID && e.allowanceScope == was.allowanceScope
      && e.Limit().quotaRemaining == was.Limit().quotaRemaining
      && e.Limit().quotaRenews ==
         if HasLimit(s, api) then s.accessRights[api].limit.value.quotaRenews else was.Limit().quotaRenews
  {
  }

  lemma SetterAfter(env: Env, s: Session, n: nat, m: Merge, api: string)
    requires n < |s.policyIDs| && Names(env, s.policyIDs[n], api)
    ensures Entry(env.policies[s.policyIDs[n]], m, api).Limit().setBy == Setter(env, s.policyIDs, n + 1, api)
  {
    var p := env.policies[s.policyIDs[n]];
    Carried(p);
    ZeroLimit(ZERO_LIMIT);
  }

  lemma MergedRights(p: Policy, m: Merge, first: bool, api: string)
    ensures var m' := MergePolicy(p, m, first);
      && m'.session.accessRights == m.session.accessRights
      && (api in m'.rights <==> api in m.rights || api in p.accessRights)
      && (api in m'.rights ==> m'.rights[api] == if api in p.accessRights then Entry(p, m, api) else m.rights[api])
  {
  }

  lemma EntryStep(env: Env, s: Session, n: nat, m: Merge, api: string)
    requires n < |s.policyIDs| && s.policyIDs[n] in env.policies && EntryFollows(env, s, n, m, api)
    ensures EntryFollows(env, s, n + 1, MergePolicy(env.policies[s.policyIDs[n]], m, n == 0), api)
  {
    var p := env.policies[s.policyIDs[n]];
    MergedRights(p, m, n == 0, api);
    if api in p.accessRights {
      SetterAfter(env, s, n, m, api);
      if Replaces(p) || api !in m.rights {
        NewEntry(p, m, s, api);
      } else {
        MergedEntry(p, m, s, api);
      }
    }
  }

  lemma EntryNext(env: Env, s: Session, ms: seq<Merge>, k: nat, api: string)
    requires Trace(env, s, ms) && k + 1 < |ms| && EntryFollows(env, s, k, ms[k], api)
    ensures EntryFollows(env, s, k + 1, ms[k + 1], api)
  {
    assert StepAt(env, s, ms, k);
    EntryStep(env, s, k, ms[k], api);
  }

  lemma {:induction false} EntryTrace(env: Env, s: Session, ms: seq<Merge>, n: nat, api: string)
    requires Trace(env, s, ms) && n < |ms|
    ensures EntryFollows(env, s, n, ms[n], api)
  {
    if n > 0 {
      EntryTrace(env, s, ms, n - 1, api);
      EntryNext(env, s, ms, n - 1, api);
    }
  }

  lemma EntryComesFrom(env: Env, s: Session, n: nat, api: string)
    requires n <= |s.policyIDs| && Fold(env, s, n).Merged?
    ensures EntryFollows(env, s, n, Fold(env, s, n).m, api)
  {
    var ms := Traced(env, s, n);
    EntryTrace(env, s, ms, n, api);
  }

  // ---------------------------------------------------------------------------------------------
  // The finished entry
  // ---------------------------------------------------------------------------------------------

  lemma SetterOf(env: Env, s: Session, api: string)
    requires Fold(env, s, |s.policyIDs|).Merged? && api in Fold(env, s, |s.policyIDs|).m.rights
    ensures Fold(env, s, |s.policyIDs|).m.rights[api].Limit().setBy == Setter(env, s.policyIDs, |s.policyIDs|, api)
  {
    EntryComesFrom(env, s, |s.policyIDs|, api);
  }

  lemma SettersCounted(env: Env, s: Session)
    requires Fold(env, s, |s.policyIDs|).Merged?
    ensures |DistinctSetters(Fold(env, s, |s.policyIDs|).m)| > 1 <==> TwoSetters(env, s.policyIDs)
  {
    var ids, m := s.policyIDs, Fold(env, s, |s.policyIDs|).m;
    assert ids[..|ids|] == ids;
    Shape(env, s, |ids|);
    if a, b :|
      && a in Named(env, ids) && b in Named(env, ids)
      && Setter(env, ids, |ids|, a) != "" && Setter(env, ids, |ids|, b) != ""
      && Setter(env, ids, |ids|, a) != Setter(env, ids, |ids|, b)
    {
      SetterOf(env, s, a);
      SetterOf(env, s, b);
      TwoElements(DistinctSetters(m), Setter(env, ids, |ids|, a), Setter(env, ids, |ids|, b));
    } else {
      forall x, y | x in DistinctSetters(m) && y in DistinctSetters(m) ensures x == y {
        var a :| a in m.rights && m.rights[a].Limit().setBy == x;
        var b :| b in m.rights && m.rights[b].Limit().setBy == y;
        SetterOf(env, s, a);
        SetterOf(env, s, b);
      }
      AllEqual(DistinctSetters(m));
    }
  }

  lemma FinishedEntry(m: Merge, api: string)
    requires api in m.rights
    ensures var e, was := FinalEntry(m, api), m.rights[api];
      && e.apiName == was.apiName && e.apiID == was.apiID && e.versions == was.versions
      && e.limit.Some? && e.limit.value.setBy == "" && e.limit.value.quotaRemaining == was.Limit().quotaRemaining
      && e.limit.value.quotaRenews == (if api in m.didQuota then was.Limit().quotaRenews else m.session.quotaRenews)
      && e.allowanceScope ==
         (if was.allowanceScope == "" && |DistinctSetters(m)| > 1 then was.Limit().setBy else was.allowanceScope)
  {
  }

  /** The names, scope and renewal date of an API's finished entry. */
  lemma FinalEntryIs(env: Env, s: Session, api: string)
    requires Fold(env, s, |s.policyIDs|).Merged? && api in Fold(env, s, |s.policyIDs|).m.rights
    ensures Origin(env, s.policyIDs, |s.policyIDs|, api) >= 0
    ensures var e, ids := FinalEntry(Fold(env, s, |s.policyIDs|).m, api), s.policyIDs;
      var p := env.policies[ids[Origin(env, ids, |ids|, api)]];
      && e.apiName == p.accessRights[api].apiName && e.apiID == p.accessRights[api].apiID
      && e.limit.Some? && e.limit.value.quotaRemaining == StoredRemaining(p, api)
      && e.versions == Fold(env, s, |ids|).m.rights[api].versions
      && e.allowanceScope == FinalScope(env, ids, api)
      && e.limit.value.setBy == "" && e.limit.value.quotaRenews == FinalRenews(env, s, api)
  {
    var n := |s.policyIDs|;
    EntryComesFrom(env, s, n, api);
    SettersCounted(env, s);
    DidExactly(env, s, n, api);
    Untouched(env, s, n);
    FinishedEntry(Fold(env, s, n).m, api);
  }

  /** The session's own values and renewal date at the end: those of one named API, if exactly one has a quota and one
      has a rate, and otherwise the session's. */
  lemma RootValue(env: Env, s: Session, s': Session) returns (last: Option<string>)
    requires Applies(env, s, s')
    ensures last.Some? <==> |NamedWithQuota(env, s.policyIDs)| == 1 && |NamedWithRate(env, s.policyIDs)| == 1
    ensures last.Some? ==> Origin(env, s.policyIDs, |s.policyIDs|, last.value) >= 0
    ensures s'.quotaRenews == if last.Some? then FinalRenews(env, s, last.value) else s.quotaRenews
    ensures forall f :: RootGives(env, s, s', last, f)
  {
    last := RootOrigin(env, s, s');
    Untouched(env, s, |s.policyIDs|);
    if last.Some? {
      FinalEntryIs(env, s, last.value);
    }
    forall f: Field ensures RootGives(env, s, s', last, f) {
      RootIs(env, s, s', last, f);
    }
  }
}

/** When a list of policies is accepted, and what the finished session holds besides its limits. */
module PolicyOutcome {
  import opened Wrappers
  import opened Policies
  import opened PolicyIdempotence
  import opened PolicyLimits
  import opened PolicyEntries
  import opened PolicyTrace

  /** A per-API policy must be the first to name each of its APIs. */
  ghost predicate FirstToName(env: Env, ids: seq<string>, i: nat)
    requires i < |ids| && ids[i] in env.policies
  {
    var p := env.policies[ids[i]];
    p.partitions.perAPI ==> forall api :: api in p.accessRights ==> api !in Named(env, ids[..i])
  }

  lemma DoneStep(env: Env, ids: seq<string>, id: string, m: Merge, first: bool)
    requires id in env.policies && m.didQuota + m.didRate + m.didACL == Named(env, ids)
    ensures var m' := MergePolicy(env.policies[id], m, first);
      m'.didQuota + m'.didRate + m'.didACL == Named(env, ids + [id])
  {
    assert (ids + [id])[..|ids|] == ids;
  }

  lemma DoneNext(env: Env, s: Session, ms: seq<Merge>, k: nat)
    requires Trace(env, s, ms) && k + 1 < |ms|
    requires ms[k].didQuota + ms[k].didRate + ms[k].didACL == Named(env, s.policyIDs[..k])
    ensures ms[k + 1].didQuota + ms[k + 1].didRate + ms[k + 1].didACL == Named(env, s.policyIDs[..k + 1])
  {
    assert StepAt(env, s, ms, k);
    DoneStep(env, s.policyIDs[..k], s.policyIDs[k], ms[k], k == 0);
    assert s.policyIDs[..k + 1] == s.policyIDs[..k] + [s.policyIDs[k]];
  }

  lemma {:induction false} DoneTrace(env: Env, s: Session, ms: seq<Merge>, n: nat)
    requires Trace(env, s, ms) && n < |ms|
    ensures ms[n].didQuota + ms[n].didRate + ms[n].didACL == Named(env, s.policyIDs[..n])
  {
    if n > 0 {
      DoneTrace(env, s, ms, n - 1);
      DoneNext(env, s, ms, n - 1);
    }
  }

  lemma NamedIsDone(env: Env, s: Session, n: nat)
    requires n <= |s.policyIDs| && Fold(env, s, n).Merged?
    ensures var m := Fold(env, s, n).m; m.didQuota + m.didRate + m.didACL == Named(env, s.policyIDs[..n])
  {
    var ms := Traced(env, s, n);
    DoneTrace(env, s, ms, n);
  }

  /** A policy may be applied if it is loaded, belongs to the API's organisation and does not mix per-API with
      partitions, and if no earlier one stands in its way. */
  ghost predicate Acceptable(env: Env, ids: seq<string>, i: nat)
    requires i < |ids|
  {
    && ids[i] in env.policies
    && var p := env.policies[ids[i]];
       && (env.orgID.Some? ==> p.orgID == env.orgID.value)
       && !(p.partitions.perAPI && (p.partitions.quota || p.partitions.rateLimit || p.partitions.acl))
       && FirstToName(env, ids, i)
  }

  lemma AcceptedStep(env: Env, s: Session, n: nat)
    requires n < |s.policyIDs|
    ensures Fold(env, s, n + 1).Merged? <==> Fold(env, s, n).Merged? && Acceptable(env, s.policyIDs, n)
  {
    if Fold(env, s, n).Merged? {
      NamedIsDone(env, s, n);
      var id := s.policyIDs[n];
      if Admission(env, id).None? {
        assert PerApiClash(env.policies[id], Fold(env, s, n).m) <==> !FirstToName(env, s.policyIDs, n);
      }
    }
  }

  ghost predicate AllAcceptable(env: Env, ids: seq<string>, n: nat)
    requires n <= |ids|
  {
    n == 0 || (AllAcceptable(env, ids, n - 1) && Acceptable(env, ids, n - 1))
  }

  lemma {:induction false} EachAcceptable(env: Env, ids: seq<string>, n: nat)
    requires n <= |ids|
    ensures AllAcceptable(env, ids, n) <==> forall i :: 0 <= i < n ==> Acceptable(env, ids, i)
  {
    if n > 0 {
      EachAcceptable(env, ids, n - 1);
    }
  }

  lemma {:induction false} AcceptedFold(env: Env, s: Session, n: nat)
    requires n <= |s.policyIDs|
    ensures Fold(env, s, n).Merged? <==> AllAcceptable(env, s.policyIDs, n)
  {
    if n > 0 {
      AcceptedFold(env, s, n - 1);
      AcceptedStep(env, s, n - 1);
    }
  }

  /** Acceptance, from the loaded policies alone. */
  lemma AcceptedExactly(env: Env, s: Session, n: nat)
    requires n <= |s.policyIDs|
    ensures Fold(env, s, n).Merged? <==> forall i :: 0 <= i < n ==> Acceptable(env, s.policyIDs, i)
  {
    AcceptedFold(env, s, n);
    EachAcceptable(env, s.policyIDs, n);
  }

  /** What is wrong with a policy that is not acceptable; each fault hides the later ones. */
  ghost predicate Faulty(env: Env, ids: seq<string>, i: nat, error: PolicyError)
    requires i < |ids|
  {
    if ids[i] !in env.policies then error == NotFound(ids[i])
    else
      var p := env.policies[ids[i]];
      if env.orgID.Some? && p.orgID != env.orgID.value then error == WrongOrganisation
      else if p.partitions.perAPI && (p.partitions.quota || p.partitions.rateLimit || p.partitions.acl)
      then error == PerApiWithPartitions(p.id)
      else !FirstToName(env, ids, i) && error == PerApiMixedWithOthers
  }

  lemma RefusedStep(env: Env, s: Session, n: nat)
    requires n < |s.policyIDs| && Fold(env, s, n).Merged? && Fold(env, s, n + 1).Refused?
    ensures !Acceptable(env, s.policyIDs, n)
    ensures Faulty(env, s.policyIDs, n, Fold(env, s, n + 1).error)
    ensures Fold(env, s, n + 1).session == Fold(env, s, n).m.session
  {
    AcceptedStep(env, s, n);
  }

  /** A refused list is refused for its first unacceptable policy i, with the error of its first fault, and the session
      stands as the policies before it have left it. */
  lemma {:induction false} RefusedExactly(env: Env, s: Session, n: nat) returns (i: nat)
    requires n <= |s.policyIDs| && Fold(env, s, n).Refused?
    ensures i < n && !Acceptable(env, s.policyIDs, i) && forall j :: 0 <= j < i ==> Acceptable(env, s.policyIDs, j)
    ensures Faulty(env, s.policyIDs, i, Fold(env, s, n).error)
    ensures Fold(env, s, i).Merged? && Fold(env, s, n).session == Fold(env, s, i).m.session
  {
    if Fold(env, s, n - 1).Refused? {
      i := RefusedExactly(env, s, n - 1);
    } else {
      i := n - 1;
      AcceptedExactly(env, s, i);
      RefusedStep(env, s, i);
    }
  }

  /** The session after a refusal: its rights, renewal date, tags and list are untouched, its flags and values are those
      of the policies before the refused one. */
  lemma RefusedSession(env: Env, s: Session, f: Field) returns (i: nat)
    requires Fold(env, s, |s.policyIDs|).Refused?
    ensures i < |s.policyIDs| && !Acceptable(env, s.policyIDs, i)
    ensures var u, ids := Fold(env, s, |s.policyIDs|).session, s.policyIDs;
      && u.accessRights == s.accessRights && u.quotaRenews == s.quotaRenews && u.tags == s.tags && u.policyIDs == ids
      && SessionValue(u, f) == SessionLevel(env, s, i, f)
      && (u.isInactive <==> if i == 0 then s.isInactive else SomePolicy(env, ids, i, Inactive))
      && (u.hmacEnabled <==> s.hmacEnabled || SomePolicy(env, ids, i, Signed))
  {
    i := RefusedExactly(env, s, |s.policyIDs|);
    Untouched(env, s, i);
    SessionLevelExactly(env, s, i, f);
    FlagsAndTags(env, s, i, "");
  }

  /** What a policy adds to a key besides rights. */
  datatype Mark = Inactive | Signed | Tagged(tag: string)

  predicate Has(p: Policy, mark: Mark) {
    match mark
    case Inactive => p.isInactive
    case Signed => p.hmacEnabled && !p.partitions.perAPI
    case Tagged(tag) => tag in p.tags
  }

  /** Some of the first n policies has the mark. */
  predicate SomePolicy(env: Env, ids: seq<string>, n: nat, mark: Mark)
    requires n <= |ids|
  {
    n > 0 && (SomePolicy(env, ids, n - 1, mark) || (ids[n - 1] in env.policies && Has(env.policies[ids[n - 1]], mark)))
  }

  lemma FlagStep(p: Policy, m: Merge, first: bool, tag: string)
    ensures var m' := MergePolicy(p, m, first);
      && (m'.session.isInactive <==> p.isInactive || (!first && m.session.isInactive))
      && (m'.session.hmacEnabled <==> m.session.hmacEnabled || (p.hmacEnabled && !p.partitions.perAPI))
      && (tag in m'.tags <==> tag in m.tags || tag in p.tags)
  {
  }

  lemma FlagNext(env: Env, s: Session, ms: seq<Merge>, k: nat, tag: string)
    requires Trace(env, s, ms) && k + 1 < |ms|
    ensures s.policyIDs[k] in env.policies
    ensures var m, m', p := ms[k], ms[k + 1], env.policies[s.policyIDs[k]];
      && (m'.session.isInactive <==> p.isInactive || (k > 0 && m.session.isInactive))
      && (m'.session.hmacEnabled <==> m.session.hmacEnabled || (p.hmacEnabled && !p.partitions.perAPI))
      && (tag in m'.tags <==> tag in m.tags || tag in p.tags)
  {
    assert StepAt(env, s, ms, k);
    FlagStep(env.policies[s.policyIDs[k]], ms[k], k == 0, tag);
  }

  lemma {:induction false} FlagsTrace(env: Env, s: Session, ms: seq<Merge>, n: nat, tag: string)
    requires Trace(env, s, ms) && n < |ms|
    ensures var m := ms[n];
      && (m.session.isInactive <==> if n == 0 then s.isInactive else SomePolicy(env, s.policyIDs, n, Inactive))
      && (m.session.hmacEnabled <==> s.hmacEnabled || SomePolicy(env, s.policyIDs, n, Signed))
      && (tag in m.tags <==> SomePolicy(env, s.policyIDs, n, Tagged(tag)))
  {
    if n > 0 {
      FlagsTrace(env, s, ms, n - 1, tag);
      FlagNext(env, s, ms, n - 1, tag);
    }
  }

  /** A key is inactive if any policy is, signed requests are allowed if any shared policy allows them, tags add up. */
  lemma FlagsAndTags(env: Env, s: Session, n: nat, tag: string)
    requires n <= |s.policyIDs| && Fold(env, s, n).Merged?
    ensures var m := Fold(env, s, n).m;
      && (m.session.isInactive <==> if n == 0 then s.isInactive else SomePolicy(env, s.policyIDs, n, Inactive))
      && (m.session.hmacEnabled <==> s.hmacEnabled || SomePolicy(env, s.policyIDs, n, Signed))
      && (tag in m.tags <==> SomePolicy(env, s.policyIDs, n, Tagged(tag)))
  {
    var ms := Traced(env, s, n);
    FlagsTrace(env, s, ms, n, tag);
  }

  /** The versions granted for an API by the first n policies: a policy with the ACL adds its own, others replace. */
  function GrantedVersions(env: Env, ids: seq<string>, n: nat, api: string): seq<string>
    requires n <= |ids|
  {
    if n == 0 then []
    else if ids[n - 1] !in env.policies || api !in env.policies[ids[n - 1]].accessRights
    then GrantedVersions(env, ids, n - 1, api)
    else
      var p := env.policies[ids[n - 1]];
      if Replaces(p) then p.accessRights[api].versions
      else GrantedVersions(env, ids, n - 1, api) + p.accessRights[api].versions
  }

  lemma {:induction false} VersionsGranted(env: Env, s: Session, n: nat, api: string)
    requires n <= |s.policyIDs| && Fold(env, s, n).Merged?
    ensures var m := Fold(env, s, n).m;
      (if api in m.rights then m.rights[api].versions else []) == GrantedVersions(env, s.policyIDs, n, api)
  {
    if n > 0 {
      VersionsGranted(env, s, n - 1, api);
      var m := Fold(env, s, n - 1).m;
      var p := env.policies[s.policyIDs[n - 1]];
      if api in p.accessRights {
        VersionsAfter(p, m, api);
        assert Fold(env, s, n).m.rights[api] == Entry(p, m, api);
      }
    }
  }

  lemma VersionsAfter(p: Policy, m: Merge, api: string)
    requires api in p.accessRights
    ensures Entry(p, m, api).versions ==
      if p.partitions.perAPI || !p.GivesACL() then p.accessRights[api].versions
      else (if api in m.rights then m.rights[api].versions else []) + p.accessRights[api].versions
  {
  }

  /** What an accepted list gives an API: the names of the entry it comes from, the versions, the allowance scope and
      the renewal date of its quota. */
  ghost predicate Granted(env: Env, s: Session, api: string, e: AccessDefinition)
    requires Origin(env, s.policyIDs, |s.policyIDs|, api) >= 0
  {
    var ids := s.policyIDs;
    var p := env.policies[ids[Origin(env, ids, |ids|, api)]];
    && e.apiName == p.accessRights[api].apiName && e.apiID == p.accessRights[api].apiID
    && e.versions == GrantedVersions(env, ids, |ids|, api)
    && e.allowanceScope == FinalScope(env, ids, api)
    && e.limit.Some? && e.limit.value.setBy == "" && e.limit.value.quotaRemaining == StoredRemaining(p, api)
    && e.limit.value.quotaRenews == FinalRenews(env, s, api)
  }

  lemma EntryGranted(env: Env, s: Session, api: string)
    requires Fold(env, s, |s.policyIDs|).Merged? && api in Fold(env, s, |s.policyIDs|).m.rights
    ensures Origin(env, s.policyIDs, |s.policyIDs|, api) >= 0
    ensures Granted(env, s, api, FinalEntry(Fold(env, s, |s.policyIDs|).m, api))
  {
    VersionsGranted(env, s, |s.policyIDs|, api);
    FinalEntryIs(env, s, api);
  }

  /** The rights that an accepted list leaves. */
  lemma RightsOfList(env: Env, s: Session, s': Session, api: string)
    requires Applies(env, s, s')
    ensures var ids := s.policyIDs;
      if GrantsACL(env, ids, |ids|)
      then && s'.accessRights.Keys == Named(env, ids)
           && (api in s'.accessRights ==>
                 Origin(env, ids, |ids|, api) >= 0 && Granted(env, s, api, s'.accessRights[api]))
      else s'.accessRights == s.accessRights
  {
    var ids := s.policyIDs;
    var m := Fold(env, s, |ids|).m;
    var last := LastVisited(m, s');
    ClosedFields(m, last);
    RightsShape(env, s);
    if api in m.rights {
      EntryGranted(env, s, api);
    }
  }

  lemma RightsShape(env: Env, s: Session)
    requires Fold(env, s, |s.policyIDs|).Merged?
    ensures var m, ids := Fold(env, s, |s.policyIDs|).m, s.policyIDs;
      && m.rights.Keys == Named(env, ids) && (m.didACL != {} <==> GrantsACL(env, ids, |ids|)) && Kept(s, m.session)
  {
    assert s.policyIDs[..|s.policyIDs|] == s.policyIDs;
    Shape(env, s, |s.policyIDs|);
    Untouched(env, s, |s.policyIDs|);
    ACLExactly(env, s, |s.policyIDs|);
  }

  /** The session after an accepted list: its flags, which APIs it may reach and how, and its tags. */
  lemma OutcomeOfList(env: Env, s: Session, s': Session, api: string, tag: string)
    requires Applies(env, s, s')
    ensures var ids := s.policyIDs;
      && s'.policyIDs == ids
      && (s'.isInactive <==> if ids == [] then s.isInactive else SomePolicy(env, ids, |ids|, Inactive))
      && (s'.hmacEnabled <==> s.hmacEnabled || SomePolicy(env, ids, |ids|, Signed))
      && (tag in s'.tags <==> tag in s.tags || SomePolicy(env, ids, |ids|, Tagged(tag)))
      && (if GrantsACL(env, ids, |ids|)
          then && s'.accessRights.Keys == Named(env, ids)
               && (api in s'.accessRights ==>
                     Origin(env, ids, |ids|, api) >= 0 && Granted(env, s, api, s'.accessRights[api]))
          else s'.accessRights == s.accessRights)
  {
    RightsOfList(env, s, s', api);
    FlagsOfList(env, s, s', tag);
  }

  lemma FlagsOfList(env: Env, s: Session, s': Session, tag: string)
    requires Applies(env, s, s')
    ensures var ids := s.policyIDs;
      && s'.policyIDs == ids
      && (s'.isInactive <==> if ids == [] then s.isInactive else SomePolicy(env, ids, |ids|, Inactive))
      && (s'.hmacEnabled <==> s.hmacEnabled || SomePolicy(env, ids, |ids|, Signed))
      && (tag in s'.tags <==> tag in s.tags || SomePolicy(env, ids, |ids|, Tagged(tag)))
  {
    var ids := s.policyIDs;
    var last := LastVisited(Fold(env, s, |ids|).m, s');
    ClosedFields(Fold(env, s, |ids|).m, last);
    Untouched(env, s, |ids|);
    FlagsAndTags(env, s, |ids|, tag);
  }

  lemma ClosedFields(m: Merge, last: Option<string>)
    requires last.Some? ==> last.value in m.rights
    ensures var s' := Closed(m, last);
      && s'.policyIDs == m.session.policyIDs && s'.tags == m.tags + m.session.tags
      && s'.isInactive == m.session.isInactive && s'.hmacEnabled == m.session.hmacEnabled
      && s'.accessRights == (if m.didACL != {} then FinalRights(m) else m.session.accessRights)
  {
    assert FinalRights(m).Keys == m.rights.Keys;
  }
}

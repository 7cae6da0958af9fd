/** Whether the order in which a session lists its policies changes the limits it ends with. */
module PolicyOrder {
  import opened Wrappers
  import opened Policies
  import opened PolicyIdempotence
  import opened PolicyLimits
  import opened PolicyOutcome

  /** No policy naming the API is per-API or stores a limit of its own for it. */
  predicate PlainFor(env: Env, ids: seq<string>, api: string) {
    forall i :: 0 <= i < |ids| && Names(env, ids[i], api) ==>
      !env.policies[ids[i]].partitions.perAPI && env.policies[ids[i]].accessRights[api].limit.None?
  }

  /** What a policy alone makes of a limit. */
  function Alone(env: Env, id: string, api: string, f: Field): real {
    if Contributes(env, id, api, f) then RealMax(PolicyValue(env.policies[id], f), 0.0) else 0.0
  }

  /** The largest value that any of the policies gives. */
  function Largest(env: Env, ids: seq<string>, api: string, f: Field): real {
    if ids == [] then 0.0
    else RealMax(Alone(env, ids[|ids| - 1], api, f), Largest(env, ids[..|ids| - 1], api, f))
  }

  /** Every policy that names the API without the ACL gives the largest value on its own. */
  predicate Covered(env: Env, ids: seq<string>, api: string, f: Field) {
    forall i :: 0 <= i < |ids| && Names(env, ids[i], api) && !env.policies[ids[i]].GivesACL() ==>
      Alone(env, ids[i], api, f) == Largest(env, ids, api, f)
  }

  predicate SameElements(a: seq<string>, b: seq<string>) {
    (forall i :: 0 <= i < |a| ==> a[i] in b) && (forall i :: 0 <= i < |b| ==> b[i] in a)
  }

  /** Every accepted reordering ends with the same limit. */
  ghost predicate OrderFree(env: Env, s: Session, api: string, f: Field) {
    forall ids, t, t' ::
      multiset(ids) == multiset(s.policyIDs) && Applies(env, s, t) && Applies(env, s.(policyIDs := ids), t') ==>
      LimitOf(t, api, f) == LimitOf(t', api, f)
  }

  // ---------------------------------------------------------------------------------------------
  // What depends on the set of policies only
  // ---------------------------------------------------------------------------------------------

  lemma {:induction false} LargestIsMax(env: Env, ids: seq<string>, api: string, f: Field) returns (at: int)
    ensures forall i :: 0 <= i < |ids| ==> Alone(env, ids[i], api, f) <= Largest(env, ids, api, f)
    ensures Largest(env, ids, api, f) >= 0.0
    ensures if at < 0 then Largest(env, ids, api, f) == 0.0
            else at < |ids| && Largest(env, ids, api, f) == Alone(env, ids[at], api, f)
  {
    at := -1;
    if ids != [] {
      var n := |ids| - 1;
      at := LargestIsMax(env, ids[..n], api, f);
      if Alone(env, ids[n], api, f) > Largest(env, ids[..n], api, f) {
        at := n;
      }
      forall i | 0 <= i < |ids| ensures Alone(env, ids[i], api, f) <= Largest(env, ids, api, f) {
        if i < n {
          assert ids[..n][i] == ids[i];
        }
      }
    }
  }

  lemma LargestOfSet(env: Env, a: seq<string>, b: seq<string>, api: string, f: Field)
    requires SameElements(a, b)
    ensures Largest(env, a, api, f) == Largest(env, b, api, f)
  {
    var i := LargestIsMax(env, a, api, f);
    var j := LargestIsMax(env, b, api, f);
    if i >= 0 {
      var k :| 0 <= k < |b| && b[k] == a[i];
    }
    if j >= 0 {
      var k :| 0 <= k < |a| && a[k] == b[j];
    }
  }

  lemma {:induction false} ContributedBy(env: Env, ids: seq<string>, n: nat, api: string, f: Field)
    requires n <= |ids|
    ensures Contributed(env, ids, n, api, f) <==> exists i :: 0 <= i < n && Contributes(env, ids[i], api, f)
  {
    if n > 0 {
      ContributedBy(env, ids, n - 1, api, f);
    }
  }

  predicate Grants(env: Env, id: string) {
    id in env.policies && env.policies[id].GivesACL() && env.policies[id].accessRights != map[]
  }

  lemma {:induction false} GrantedBy(env: Env, ids: seq<string>, n: nat)
    requires n <= |ids|
    ensures GrantsACL(env, ids, n) <==> exists i :: 0 <= i < n && Grants(env, ids[i])
  {
    if n > 0 {
      GrantedBy(env, ids, n - 1);
    }
  }

  lemma SameMarks(env: Env, a: seq<string>, b: seq<string>, api: string, f: Field)
    requires SameElements(a, b)
    ensures Contributed(env, a, |a|, api, f) ==> Contributed(env, b, |b|, api, f)
    ensures GrantsACL(env, a, |a|) ==> GrantsACL(env, b, |b|)
    ensures PlainFor(env, a, api) ==> PlainFor(env, b, api)
  {
    ContributedBy(env, a, |a|, api, f);
    ContributedBy(env, b, |b|, api, f);
    GrantedBy(env, a, |a|);
    GrantedBy(env, b, |b|);
    if Contributed(env, a, |a|, api, f) {
      var i :| 0 <= i < |a| && Contributes(env, a[i], api, f);
      var k :| 0 <= k < |b| && b[k] == a[i];
    }
    if GrantsACL(env, a, |a|) {
      var i :| 0 <= i < |a| && Grants(env, a[i]);
      var k :| 0 <= k < |b| && b[k] == a[i];
    }
  }

  lemma Permuted(a: seq<string>, b: seq<string>)
    requires multiset(a) == multiset(b)
    ensures SameElements(a, b)
  {
    forall i | 0 <= i < |a| ensures a[i] in b {
      assert a[i] in multiset(a);
    }
    forall i | 0 <= i < |b| ensures b[i] in a {
      assert b[i] in multiset(b);
    }
  }

  // ---------------------------------------------------------------------------------------------
  // The limit of a list
  // ---------------------------------------------------------------------------------------------

  lemma {:induction false} PlainPeak(env: Env, ids: seq<string>, o: nat, n: nat, api: string, f: Field)
    requires o <= n <= |ids| && o < |ids| && Names(env, ids[o], api) && PlainFor(env, ids, api)
    ensures Tracked(env, ids, o, n, api, f) == Peak(env, ids, o, n, api, f)
    ensures 0.0 <= Peak(env, ids, o, n, api, f) <= Largest(env, ids, api, f)
    ensures forall k :: o <= k < n ==> Alone(env, ids[k], api, f) <= Peak(env, ids, o, n, api, f)
  {
    var at := LargestIsMax(env, ids, api, f);
    assert StartValue(env.policies[ids[o]], api, f) == 0.0;
    StuckFromStart(env, ids, o, n, api, f);
    if n > o {
      PlainPeak(env, ids, o, n - 1, api, f);
    }
  }

  /** An entry comes from a policy that replaces what was there, or from the first that names the API. */
  lemma {:induction false} OriginKinds(env: Env, ids: seq<string>, n: nat, api: string)
    requires n <= |ids|
    ensures var o := Origin(env, ids, n, api);
      if o < 0 then forall k :: 0 <= k < n ==> !Names(env, ids[k], api)
      else Replaces(env.policies[ids[o]]) || forall k :: 0 <= k < o ==> !Names(env, ids[k], api)
  {
    if n > 0 {
      OriginKinds(env, ids, n - 1, api);
    }
  }

  /** A covered list ends with the largest value, in whatever order. */
  lemma CoveredGivesLargest(env: Env, ids: seq<string>, api: string, f: Field)
    requires PlainFor(env, ids, api) && Contributed(env, ids, |ids|, api, f) && Covered(env, ids, api, f)
    ensures Origin(env, ids, |ids|, api) >= 0
    ensures Tracked(env, ids, Origin(env, ids, |ids|, api), |ids|, api, f) == Largest(env, ids, api, f)
  {
    ContributedHasOrigin(env, ids, |ids|, api, f);
    var n, o := |ids|, Origin(env, ids, |ids|, api);
    PlainPeak(env, ids, o, n, api, f);
    OriginKinds(env, ids, n, api);
    var at := LargestIsMax(env, ids, api, f);
    if Replaces(env.policies[ids[o]]) {
      assert Names(env, ids[o], api) && !env.policies[ids[o]].GivesACL();
    } else if at >= 0 && at < o {
      assert Alone(env, ids[at], api, f) == 0.0;
    }
  }

  /** A policy without the ACL at the end leaves its own value. */
  lemma ResetLast(env: Env, ids: seq<string>, api: string, f: Field)
    requires ids != [] && PlainFor(env, ids, api)
    requires Names(env, ids[|ids| - 1], api) && !env.policies[ids[|ids| - 1]].GivesACL()
    ensures Origin(env, ids, |ids|, api) == |ids| - 1
    ensures Tracked(env, ids, |ids| - 1, |ids|, api, f) == Alone(env, ids[|ids| - 1], api, f)
  {
    var n := |ids| - 1;
    PlainPeak(env, ids, n, n + 1, api, f);
    PlainPeak(env, ids, n, n, api, f);
    assert StartValue(env.policies[ids[n]], api, f) == 0.0;
    assert Peak(env, ids, n, n, api, f) == 0.0;
  }

  /** A policy with the largest value at the end leaves the largest. */
  lemma LargestLast(env: Env, ids: seq<string>, api: string, f: Field)
    requires ids != [] && PlainFor(env, ids, api) && Contributes(env, ids[|ids| - 1], api, f)
    requires Alone(env, ids[|ids| - 1], api, f) == Largest(env, ids, api, f)
    ensures Origin(env, ids, |ids|, api) >= 0
    ensures Tracked(env, ids, Origin(env, ids, |ids|, api), |ids|, api, f) == Largest(env, ids, api, f)
  {
    var n, o := |ids|, Origin(env, ids, |ids|, api);
    assert Names(env, ids[n - 1], api);
    OriginKinds(env, ids, n, api);
    PlainPeak(env, ids, o, n, api, f);
  }

  // ---------------------------------------------------------------------------------------------
  // Moving a policy to the end
  // ---------------------------------------------------------------------------------------------

  function Moved(ids: seq<string>, i: nat): seq<string>
    requires i < |ids|
  {
    ids[..i] + ids[i + 1..] + [ids[i]]
  }

  lemma MovedIsPermutation(ids: seq<string>, i: nat)
    requires i < |ids|
    ensures multiset(Moved(ids, i)) == multiset(ids)
  {
    assert ids == ids[..i] + [ids[i]] + ids[i + 1..];
  }

  lemma {:induction false} NamedBy(env: Env, ids: seq<string>, api: string)
    ensures api in Named(env, ids) <==> exists k :: 0 <= k < |ids| && Names(env, ids[k], api)
  {
    if ids != [] {
      var n := |ids| - 1;
      NamedBy(env, ids[..n], api);
      if k :| 0 <= k < n && Names(env, ids[k], api) {
        assert Names(env, ids[..n][k], api);
      }
      if k :| 0 <= k < n && Names(env, ids[..n][k], api) {
        assert Names(env, ids[k], api);
      }
    }
  }

  lemma FewerNamed(env: Env, a: seq<string>, b: seq<string>, api: string)
    requires (forall k :: 0 <= k < |a| ==> a[k] in b) && api in Named(env, a)
    ensures api in Named(env, b)
  {
    NamedBy(env, a, api);
    NamedBy(env, b, api);
    var k :| 0 <= k < |a| && Names(env, a[k], api);
    var j :| 0 <= j < |b| && b[j] == a[k];
  }

  lemma StillAcceptable(env: Env, ids: seq<string>, i: nat, k: nat)
    requires i < |ids| && k < |ids| && ids[i] in env.policies && !env.policies[ids[i]].partitions.perAPI
    requires forall j :: 0 <= j < |ids| ==> Acceptable(env, ids, j)
    ensures Acceptable(env, Moved(ids, i), k)
  {
    var a, n := Moved(ids, i), |ids| - 1;
    if k == n {
      assert a[k] == ids[i] && Acceptable(env, ids, i);
    } else {
      var j := if k < i then k else k + 1;
      assert a[k] == ids[j] && Acceptable(env, ids, j);
      forall m | 0 <= m < k ensures a[..k][m] in ids[..j] {
        var m' := if m < i then m else m + 1;
        assert a[m] == ids[m'] && ids[..j][m'] == ids[m'];
      }
      forall api | api in Named(env, a[..k]) ensures api in Named(env, ids[..j]) {
        FewerNamed(env, a[..k], ids[..j], api);
      }
    }
  }

  /** A policy that is not per-API may always be moved to the end. */
  lemma MovedIsAccepted(env: Env, s: Session, i: nat)
    requires i < |s.policyIDs| && Fold(env, s, |s.policyIDs|).Merged?
    requires s.policyIDs[i] in env.policies && !env.policies[s.policyIDs[i]].partitions.perAPI
    ensures Fold(env, s.(policyIDs := Moved(s.policyIDs, i)), |s.policyIDs|).Merged?
  {
    var ids := s.policyIDs;
    AcceptedExactly(env, s, |ids|);
    forall k | 0 <= k < |ids| ensures Acceptable(env, Moved(ids, i), k) {
      StillAcceptable(env, ids, i, k);
    }
    AcceptedExactly(env, s.(policyIDs := Moved(ids, i)), |ids|);
  }

  lemma CanFinish(env: Env, s: Session) returns (t: Session)
    requires Fold(env, s, |s.policyIDs|).Merged?
    ensures Applies(env, s, t)
  {
    var m := Fold(env, s, |s.policyIDs|).m;
    if WritesLegacyRoot(m) {
      var api :| api in m.rights;
      t := Closed(m, Some(api));
    } else {
      t := Closed(m, None);
    }
  }

  // ---------------------------------------------------------------------------------------------
  // A limit that no policy contributes to
  // ---------------------------------------------------------------------------------------------

  /** The policies that set the session's own value all set the same one. */
  predicate SetAlike(env: Env, ids: seq<string>, f: Field) {
    forall i, j :: 0 <= i < |ids| && 0 <= j < |ids| && Sets(env, ids[i], f) && Sets(env, ids[j], f) ==>
      PolicyValue(env.policies[ids[i]], f) == PolicyValue(env.policies[ids[j]], f)
  }

  /** The session's level is set by one of the policies, or is what the session came with. */
  lemma {:induction false} LevelSetBy(env: Env, s: Session, n: nat, f: Field) returns (at: int)
    requires n <= |s.policyIDs|
    ensures -1 <= at < n
    ensures if at < 0
      then SessionLevel(env, s, n, f) == SessionValue(s, f) && forall i :: 0 <= i < n ==> !Sets(env, s.policyIDs[i], f)
      else Sets(env, s.policyIDs[at], f) && SessionLevel(env, s, n, f) == PolicyValue(env.policies[s.policyIDs[at]], f)
  {
    at := -1;
    if n > 0 {
      at := LevelSetBy(env, s, n - 1, f);
      if Sets(env, s.policyIDs[n - 1], f) {
        at := n - 1;
      }
    }
  }

  lemma SameLevel(env: Env, s: Session, s': Session, f: Field)
    requires SameElements(s.policyIDs, s'.policyIDs) && s'.(policyIDs := s.policyIDs) == s
    requires SetAlike(env, s.policyIDs, f)
    ensures SessionLevel(env, s, |s.policyIDs|, f) == SessionLevel(env, s', |s'.policyIDs|, f)
  {
    var i := LevelSetBy(env, s, |s.policyIDs|, f);
    var j := LevelSetBy(env, s', |s'.policyIDs|, f);
    if i >= 0 {
      var k :| 0 <= k < |s'.policyIDs| && s'.policyIDs[k] == s.policyIDs[i];
      assert Sets(env, s'.policyIDs[k], f);
    }
    if j >= 0 {
      var k :| 0 <= k < |s.policyIDs| && s.policyIDs[k] == s'.policyIDs[j];
      assert Sets(env, s.policyIDs[k], f);
    }
  }

  predicate SomeoneNames(env: Env, ids: seq<string>, api: string) {
    exists i :: 0 <= i < |ids| && Names(env, ids[i], api)
  }

  lemma OriginOfNamed(env: Env, ids: seq<string>, api: string)
    ensures Origin(env, ids, |ids|, api) >= 0 <==> SomeoneNames(env, ids, api)
  {
    OriginKinds(env, ids, |ids|, api);
  }

  lemma SameNamed(env: Env, a: seq<string>, b: seq<string>, api: string)
    requires SameElements(a, b) && SomeoneNames(env, a, api)
    ensures SomeoneNames(env, b, api)
  {
    var i :| 0 <= i < |a| && Names(env, a[i], api);
    var k :| 0 <= k < |b| && b[k] == a[i];
  }

  // ---------------------------------------------------------------------------------------------
  // The exact condition
  // ---------------------------------------------------------------------------------------------

  /** No rights are replaced, or nobody names the API, or what decides the limit is the same for all: where a policy
      contributes, every policy that names the API without the ACL gives the largest value on its own; otherwise, the
      policies that set the session's value set the same one. */
  predicate Settled(env: Env, ids: seq<string>, api: string, f: Field) {
    || !GrantsACL(env, ids, |ids|) || !SomeoneNames(env, ids, api)
    || if Contributed(env, ids, |ids|, api, f) then Covered(env, ids, api, f) else SetAlike(env, ids, f)
  }

  lemma UncontributedSame(env: Env, s: Session, s': Session, api: string, f: Field)
    requires SameElements(s.policyIDs, s'.policyIDs) && s'.(policyIDs := s.policyIDs) == s
    requires !Contributed(env, s.policyIDs, |s.policyIDs|, api, f) && Settled(env, s.policyIDs, api, f)
    ensures Expected(env, s, api, f) == Expected(env, s', api, f)
  {
    var ids, ids' := s.policyIDs, s'.policyIDs;
    SameMarks(env, ids, ids', api, f);
    SameMarks(env, ids', ids, api, f);
    OriginOfNamed(env, ids, api);
    OriginOfNamed(env, ids', api);
    if SomeoneNames(env, ids, api) {
      SameNamed(env, ids, ids', api);
    }
    if SomeoneNames(env, ids', api) {
      SameNamed(env, ids', ids, api);
    }
    if SetAlike(env, ids, f) {
      SameLevel(env, s, s', f);
    }
  }

  lemma ContributedSame(env: Env, s: Session, s': Session, api: string, f: Field)
    requires SameElements(s.policyIDs, s'.policyIDs) && s'.(policyIDs := s.policyIDs) == s
    requires PlainFor(env, s.policyIDs, api) && Contributed(env, s.policyIDs, |s.policyIDs|, api, f)
    requires Settled(env, s.policyIDs, api, f)
    ensures Expected(env, s, api, f) == Expected(env, s', api, f)
  {
    var ids, ids' := s.policyIDs, s'.policyIDs;
    SameMarks(env, ids, ids', api, f);
    SameMarks(env, ids', ids, api, f);
    LargestOfSet(env, ids, ids', api, f);
    ContributedHasOrigin(env, ids, |ids|, api, f);
    OriginOfNamed(env, ids, api);
    if GrantsACL(env, ids, |ids|) {
      CoveredGivesLargest(env, ids, api, f);
      CoveredGivesLargest(env, ids', api, f);
    }
  }

  /** Order, and repetitions, do not change a limit that is settled. */
  lemma OrderIrrelevant(env: Env, s: Session, s': Session, t: Session, t': Session, api: string, f: Field)
    requires SameElements(s.policyIDs, s'.policyIDs) && s'.(policyIDs := s.policyIDs) == s
    requires Contributed(env, s.policyIDs, |s.policyIDs|, api, f) ==> PlainFor(env, s.policyIDs, api)
    requires Settled(env, s.policyIDs, api, f)
    requires Applies(env, s, t) && Applies(env, s', t')
    ensures LimitOf(t, api, f) == LimitOf(t', api, f)
  {
    FinalLimit(env, s, t, api, f);
    FinalLimit(env, s', t', api, f);
    if Contributed(env, s.policyIDs, |s.policyIDs|, api, f) {
      ContributedSame(env, s, s', api, f);
    } else {
      UncontributedSame(env, s, s', api, f);
    }
  }

  predicate GivesLargest(env: Env, ids: seq<string>, i: nat, api: string, f: Field)
    requires i < |ids|
  {
    Contributes(env, ids[i], api, f) && Alone(env, ids[i], api, f) == Largest(env, ids, api, f)
  }

  /** What the list that ends with policy i gives. */
  lemma EndValue(env: Env, s: Session, i: nat, api: string, f: Field)
    requires i < |s.policyIDs| && PlainFor(env, s.policyIDs, api) && Names(env, s.policyIDs[i], api)
    requires Contributed(env, s.policyIDs, |s.policyIDs|, api, f) && GrantsACL(env, s.policyIDs, |s.policyIDs|)
    ensures var s' := s.(policyIDs := Moved(s.policyIDs, i));
      && (!env.policies[s.policyIDs[i]].GivesACL() ==> Expected(env, s', api, f) == Alone(env, s.policyIDs[i], api, f))
      && (GivesLargest(env, s.policyIDs, i, api, f) ==> Expected(env, s', api, f) == Largest(env, s.policyIDs, api, f))
  {
    var ids, ids' := s.policyIDs, Moved(s.policyIDs, i);
    MovedIsPermutation(ids, i);
    Permuted(ids, ids');
    SameMarks(env, ids, ids', api, f);
    LargestOfSet(env, ids, ids', api, f);
    if !env.policies[ids[i]].GivesACL() {
      ResetLast(env, ids', api, f);
    }
    if GivesLargest(env, ids, i, api, f) {
      LargestLast(env, ids', api, f);
    }
  }

  /** What it gives when the policy sets the session's value and nobody contributes. */
  lemma EndLevel(env: Env, s: Session, i: nat, api: string, f: Field)
    requires i < |s.policyIDs| && Sets(env, s.policyIDs[i], f) && SomeoneNames(env, s.policyIDs, api)
    requires !Contributed(env, s.policyIDs, |s.policyIDs|, api, f) && GrantsACL(env, s.policyIDs, |s.policyIDs|)
    ensures Expected(env, s.(policyIDs := Moved(s.policyIDs, i)), api, f)
         == PolicyValue(env.policies[s.policyIDs[i]], f)
  {
    var ids, ids' := s.policyIDs, Moved(s.policyIDs, i);
    MovedIsPermutation(ids, i);
    Permuted(ids, ids');
    SameMarks(env, ids, ids', api, f);
    SameMarks(env, ids', ids, api, f);
    SameNamed(env, ids, ids', api);
    OriginOfNamed(env, ids', api);
    assert ids'[|ids'| - 1] == ids[i];
  }

  lemma EndingWith(env: Env, s: Session, i: nat, api: string, f: Field) returns (t: Session)
    requires i < |s.policyIDs| && Fold(env, s, |s.policyIDs|).Merged?
    requires s.policyIDs[i] in env.policies && !env.policies[s.policyIDs[i]].partitions.perAPI
    ensures var s' := s.(policyIDs := Moved(s.policyIDs, i));
      Applies(env, s', t) && LimitOf(t, api, f) == Expected(env, s', api, f)
  {
    var s' := s.(policyIDs := Moved(s.policyIDs, i));
    MovedIsAccepted(env, s, i);
    t := CanFinish(env, s');
    FinalLimit(env, s', t, api, f);
  }

  /** A policy that leaves less than the largest value, and one that leaves it, when each is put at the end. */
  lemma UncoveredEnds(env: Env, s: Session, api: string, f: Field) returns (i: nat, j: nat)
    requires PlainFor(env, s.policyIDs, api) && !Covered(env, s.policyIDs, api, f)
    requires Contributed(env, s.policyIDs, |s.policyIDs|, api, f) && GrantsACL(env, s.policyIDs, |s.policyIDs|)
    ensures i < |s.policyIDs| && Names(env, s.policyIDs[i], api) && j < |s.policyIDs| && Names(env, s.policyIDs[j], api)
    ensures Expected(env, s.(policyIDs := Moved(s.policyIDs, i)), api, f)
          < Expected(env, s.(policyIDs := Moved(s.policyIDs, j)), api, f)
  {
    var ids := s.policyIDs;
    i :| 0 <= i < |ids| && Names(env, ids[i], api) && !env.policies[ids[i]].GivesACL()
         && Alone(env, ids[i], api, f) != Largest(env, ids, api, f);
    var at := LargestIsMax(env, ids, api, f);
    j := at;
    assert GivesLargest(env, ids, j, api, f) && Names(env, ids[j], api);
    EndValue(env, s, i, api, f);
    EndValue(env, s, j, api, f);
  }

  /** Two policies that leave different session values. */
  lemma UnlikeEnds(env: Env, s: Session, api: string, f: Field) returns (i: nat, j: nat)
    requires SomeoneNames(env, s.policyIDs, api) && !SetAlike(env, s.policyIDs, f)
    requires !Contributed(env, s.policyIDs, |s.policyIDs|, api, f) && GrantsACL(env, s.policyIDs, |s.policyIDs|)
    ensures i < |s.policyIDs| && Sets(env, s.policyIDs[i], f) && j < |s.policyIDs| && Sets(env, s.policyIDs[j], f)
    ensures Expected(env, s.(policyIDs := Moved(s.policyIDs, i)), api, f)
          < Expected(env, s.(policyIDs := Moved(s.policyIDs, j)), api, f)
  {
    var ids := s.policyIDs;
    var a, b :| 0 <= a < |ids| && 0 <= b < |ids| && Sets(env, ids[a], f) && Sets(env, ids[b], f)
                && PolicyValue(env.policies[ids[a]], f) != PolicyValue(env.policies[ids[b]], f);
    if PolicyValue(env.policies[ids[a]], f) < PolicyValue(env.policies[ids[b]], f) {
      i, j := a, b;
    } else {
      i, j := b, a;
    }
    EndLevel(env, s, i, api, f);
    EndLevel(env, s, j, api, f);
  }

  /** Otherwise two orders of the same policies end with different limits. */
  lemma OrderMatters(env: Env, s: Session, api: string, f: Field) returns (i: nat, j: nat, t: Session, t': Session)
    requires Fold(env, s, |s.policyIDs|).Merged?
    requires Contributed(env, s.policyIDs, |s.policyIDs|, api, f) ==> PlainFor(env, s.policyIDs, api)
    requires !Settled(env, s.policyIDs, api, f)
    ensures i < |s.policyIDs| && j < |s.policyIDs|
    ensures Applies(env, s.(policyIDs := Moved(s.policyIDs, i)), t)
    ensures Applies(env, s.(policyIDs := Moved(s.policyIDs, j)), t')
    ensures LimitOf(t, api, f) < LimitOf(t', api, f)
  {
    if Contributed(env, s.policyIDs, |s.policyIDs|, api, f) {
      i, j := UncoveredEnds(env, s, api, f);
    } else {
      i, j := UnlikeEnds(env, s, api, f);
    }
    t := EndingWith(env, s, i, api, f);
    t' := EndingWith(env, s, j, api, f);
  }

  /** For every accepted list and every limit of an API, where a contributed one comes from policies that are not
      per-API and store no limit: every order gives the same limit if and only if the limit is settled. */
  lemma OrderExactly(env: Env, s: Session, api: string, f: Field)
    requires Fold(env, s, |s.policyIDs|).Merged?
    requires Contributed(env, s.policyIDs, |s.policyIDs|, api, f) ==> PlainFor(env, s.policyIDs, api)
    ensures OrderFree(env, s, api, f) <==> Settled(env, s.policyIDs, api, f)
  {
    var ids := s.policyIDs;
    if Settled(env, ids, api, f) {
      forall ids', t, t' |
        multiset(ids') == multiset(ids) && Applies(env, s, t) && Applies(env, s.(policyIDs := ids'), t')
        ensures LimitOf(t, api, f) == LimitOf(t', api, f)
      {
        Permuted(ids, ids');
        OrderIrrelevant(env, s, s.(policyIDs := ids'), t, t', api, f);
      }
    } else {
      var i, j, t, t' := OrderMatters(env, s, api, f);
      var u := CanFinish(env, s);
      MovedIsPermutation(ids, i);
      MovedIsPermutation(ids, j);
      assert LimitOf(u, api, f) != LimitOf(t, api, f) || LimitOf(u, api, f) != LimitOf(t', api, f);
    }
  }
}

/** The merges of an accepted list of policies, as a sequence of single steps. */
module PolicyTrace {
  import opened Policies

  /** The k-th merge becomes the next one by the k-th policy. */
  predicate StepAt(env: Env, s: Session, ms: seq<Merge>, k: nat)
    requires k + 1 < |ms| <= |s.policyIDs| + 1
  {
    s.policyIDs[k] in env.policies && ms[k + 1] == MergePolicy(env.policies[s.policyIDs[k]], ms[k], k == 0)
  }

  /** One merge after the other. */
  predicate Trace(env: Env, s: Session, ms: seq<Merge>) {
    && 0 < |ms| <= |s.policyIDs| + 1 && ms[0] == Start(s)
    && forall k :: 0 <= k < |ms| - 1 ==> StepAt(env, s, ms, k)
  }

  lemma FoldStep(env: Env, s: Session, n: nat)
    requires n < |s.policyIDs| && Fold(env, s, n + 1).Merged?
    ensures Fold(env, s, n).Merged? && s.policyIDs[n] in env.policies
    ensures Fold(env, s, n + 1).m == MergePolicy(env.policies[s.policyIDs[n]], Fold(env, s, n).m, n == 0)
  {
  }

  lemma MergedBefore(env: Env, s: Session, n: nat)
    requires n < |s.policyIDs| && Fold(env, s, n + 1).Merged?
    ensures Fold(env, s, n).Merged?
  {
  }

  lemma {:induction false} Merges(env: Env, s: Session, n: nat) returns (ms: seq<Merge>)
    requires n <= |s.policyIDs| && Fold(env, s, n).Merged?
    ensures |ms| == n + 1 && forall k :: 0 <= k <= n ==> Fold(env, s, k) == Merged(ms[k])
  {
    if n == 0 {
      ms := [Start(s)];
    } else {
      MergedBefore(env, s, n - 1);
      var before := Merges(env, s, n - 1);
      ms := before + [Fold(env, s, n).m];
      forall k | 0 <= k <= n ensures Fold(env, s, k) == Merged(ms[k]) {
        assert k < n ==> ms[k] == before[k];
      }
    }
  }

  lemma StepOfFold(env: Env, s: Session, ms: seq<Merge>, k: nat)
    requires k + 1 < |ms| <= |s.policyIDs| + 1
    requires Fold(env, s, k) == Merged(ms[k]) && Fold(env, s, k + 1) == Merged(ms[k + 1])
    ensures StepAt(env, s, ms, k)
  {
    FoldStep(env, s, k);
  }

  lemma Traced(env: Env, s: Session, n: nat) returns (ms: seq<Merge>)
    requires n <= |s.policyIDs| && Fold(env, s, n).Merged?
    ensures |ms| == n + 1 && Trace(env, s, ms) && Fold(env, s, n) == Merged(ms[n])
  {
    ms := Merges(env, s, n);
    forall k | 0 <= k < n ensures StepAt(env, s, ms, k) {
      StepOfFold(env, s, ms, k);
    }
    assert Fold(env, s, 0) == Merged(ms[0]);
  }
}

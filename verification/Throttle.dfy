/** Rate limiting with retries: a request over its rate is checked again a number of times, without counting, before
    it is processed once more or refused. */
module Throttle {
  import opened Wrappers

  /** What the limiter answers. */
  datatype Answer = Pass | RateLimit | Quota | Other

  /** A question put to the limiter; a dry run does not count the request. */
  datatype Check = Check(dryRun: bool, answer: Answer)

  /** Waiting: the limiter has not answered the last question yet. */
  datatype End = Accepted | RateLimited | QuotaExceeded | AccessDenied | Waiting

  datatype Run = Run(checks: seq<Check>, end: End, level: nat)

  function After(c: Check, r: Run): Run { r.(checks := [c] + r.checks) }

  /** Counting the request, at some throttle level, the limiter giving these answers in turn. */
  function Counted(limit: int, level: nat, answers: seq<Answer>): Run
    decreases |answers|
  {
    if answers == [] then Run([], Waiting, level)
    else
      var c := Check(false, answers[0]);
      match answers[0]
      case Pass => Run([c], Accepted, level)
      case Quota => Run([c], QuotaExceeded, level)
      case Other => Run([c], AccessDenied, level)
      case RateLimit =>
        if limit > 0 then After(c, Retried(limit, level, answers[1..])) else Run([c], RateLimited, level)
  }

  function Retried(limit: int, level: nat, answers: seq<Answer>): Run
    decreases |answers|
  {
    if answers == [] then Run([], Waiting, level + 1)
    else
      var c := Check(true, answers[0]);
      if answers[0] == Pass then After(c, Counted(limit, level + 1, answers[1..]))
      else if level + 1 > limit then Run([c], RateLimited, level + 1)
      else After(c, Retried(limit, level + 1, answers[1..]))
  }

  /** The throttle part of a request's context, and the limiter it talks to. */
  class Request {
    var throttleLevel: nat
    var throttleLevelLimit: int
    var answers: seq<Answer>
    var checks: seq<Check>

    constructor (answers: seq<Answer>)
      ensures throttleLevel == 0 && throttleLevelLimit == 0 && this.answers == answers && checks == []
    {
      throttleLevel, throttleLevelLimit, this.answers, checks := 0, 0, answers, [];
    }

    method IncThrottleLevel(limit: int)
      modifies this`throttleLevel, this`throttleLevelLimit
      ensures throttleLevel == old(throttleLevel) + 1
      ensures throttleLevelLimit == if old(throttleLevelLimit) == 0 && limit > 0 then limit else old(throttleLevelLimit)
    {
      if throttleLevelLimit == 0 && limit > 0 {
        throttleLevelLimit := limit;
      }
      throttleLevel := throttleLevel + 1;
    }

    method ForwardMessage(dryRun: bool) returns (reason: Option<Answer>)
      modifies this`answers, this`checks
      ensures old(answers) == [] ==> reason == None && answers == [] && checks == old(checks)
      ensures old(answers) != [] ==>
                && reason == Some(old(answers)[0]) && answers == old(answers)[1..]
                && checks == old(checks) + [Check(dryRun, old(answers)[0])]
    {
      if answers == [] {
        return None;
      }
      reason := Some(answers[0]);
      checks := checks + [Check(dryRun, answers[0])];
      answers := answers[1..];
    }

    /** checkLimits: false for a redirected request that did not ask to be limited. */
    method ProcessRequest(checkLimits: bool, limit: int) returns (end: End)
      modifies this
      ensures !checkLimits ==> end == Accepted && checks == old(checks) && throttleLevel == old(throttleLevel)
      ensures checkLimits ==>
                var run := Counted(limit, old(throttleLevel), old(answers));
                checks == old(checks) + run.checks && end == run.end && throttleLevel == run.level
      decreases |answers|
    {
      if !checkLimits {
        return Accepted;
      }
      var reason := ForwardMessage(false);
      if reason.None? {
        assert checks == old(checks) + [];
        return Waiting;
      }
      match reason.value
      case Pass => return Accepted;
      case Quota => return QuotaExceeded;
      case Other => return AccessDenied;
      case RateLimit =>
        if limit <= 0 {
          return RateLimited;
        }
        ghost var run := Counted(limit, old(throttleLevel), old(answers));
        while true
          invariant |answers| < |old(answers)|
          invariant Rest(run, old(checks), checks, Retried(limit, throttleLevel, answers))
          decreases |answers|
        {
          ghost var before, rest := checks, Retried(limit, throttleLevel, answers);
          IncThrottleLevel(limit);
          reason := ForwardMessage(true);
          if reason.None? {
            RestDone(run, old(checks), checks, rest);
            return Waiting;
          }
          if reason.value == Pass {
            end := ProcessRequest(checkLimits, limit);
            RestDone(run, old(checks), before, rest);
            return;
          }
          if throttleLevel > limit {
            RestDone(run, old(checks), before, rest);
            return RateLimited;
          }
          RestStep(run, old(checks), before, Check(true, reason.value), Retried(limit, throttleLevel, answers));
        }
    }
  }

  /** The run is what has been checked so far, then the rest. */
  ghost predicate Rest(run: Run, start: seq<Check>, checks: seq<Check>, rest: Run) {
    start + run.checks == checks + rest.checks && run.end == rest.end && run.level == rest.level
  }

  lemma RestDone(run: Run, start: seq<Check>, checks: seq<Check>, rest: Run)
    requires Rest(run, start, checks, rest)
    ensures start + run.checks == checks + rest.checks && run.end == rest.end && run.level == rest.level
    ensures rest.checks == [] ==> start + run.checks == checks
    ensures forall c: Check, r: Run :: rest == After(c, r) ==> start + run.checks == (checks + [c]) + r.checks
  {
    forall c: Check, r: Run | rest == After(c, r) ensures start + run.checks == (checks + [c]) + r.checks {
      assert checks + ([c] + r.checks) == (checks + [c]) + r.checks;
    }
  }

  lemma RestStep(run: Run, start: seq<Check>, checks: seq<Check>, c: Check, rest: Run)
    requires Rest(run, start, checks, After(c, rest))
    ensures Rest(run, start, checks + [c], rest)
  {
    assert checks + ([c] + rest.checks) == (checks + [c]) + rest.checks;
  }

  // ---------------------------------------------------------------------------------------------
  // What every run keeps
  // ---------------------------------------------------------------------------------------------

  function FailedDryRuns(checks: seq<Check>): nat {
    if checks == [] then 0
    else (if checks[0].dryRun && checks[0].answer != Pass then 1 else 0) + FailedDryRuns(checks[1..])
  }

  function CountedPasses(checks: seq<Check>): nat {
    if checks == [] then 0
    else (if checks[0] == Check(false, Pass) then 1 else 0) + CountedPasses(checks[1..])
  }

  lemma Prepend(c: Check, r: Run)
    ensures FailedDryRuns(After(c, r).checks) ==
            FailedDryRuns(r.checks) + (if c.dryRun && c.answer != Pass then 1 else 0)
    ensures CountedPasses(After(c, r).checks) == CountedPasses(r.checks) + (if c == Check(false, Pass) then 1 else 0)
  {
    assert ([c] + r.checks)[1..] == r.checks;
  }

  /** Dry runs that may still fail. */
  function Budget(limit: int, level: nat): nat { if level < limit then limit + 1 - level else 1 }

  predicate Sound(limit: int, level: nat, r: Run) {
    && FailedDryRuns(r.checks) <= Budget(limit, level)
    && CountedPasses(r.checks) == (if r.end == Accepted then 1 else 0)
    && (r.end == Accepted <==> r.checks != [] && r.checks[|r.checks| - 1] == Check(false, Pass))
  }

  lemma {:induction false} CountedIsSound(limit: int, level: nat, answers: seq<Answer>)
    ensures Sound(limit, level, Counted(limit, level, answers))
    decreases |answers|
  {
    if answers != [] {
      var c := Check(false, answers[0]);
      assert [c][1..] == [];
      if answers[0] == RateLimit && limit > 0 {
        RetriedIsSound(limit, level, answers[1..]);
        Prepend(c, Retried(limit, level, answers[1..]));
      }
    }
  }

  lemma {:induction false} RetriedIsSound(limit: int, level: nat, answers: seq<Answer>)
    requires limit > 0
    ensures Sound(limit, level, Retried(limit, level, answers))
    decreases |answers|
  {
    if answers != [] {
      var c := Check(true, answers[0]);
      assert [c][1..] == [];
      if answers[0] == Pass {
        CountedIsSound(limit, level + 1, answers[1..]);
        Prepend(c, Counted(limit, level + 1, answers[1..]));
      } else if level + 1 <= limit {
        RetriedIsSound(limit, level + 1, answers[1..]);
        Prepend(c, Retried(limit, level + 1, answers[1..]));
      }
    }
  }

  /** Whatever the limiter answers: at most limit + 1 dry runs fail, none without retries, and a request is accepted
      just when its last check counted it and passed, the only check that did. */
  lemma BoundedRetries(limit: int, answers: seq<Answer>)
    ensures var run := Counted(limit, 0, answers);
            && FailedDryRuns(run.checks) <= (if limit > 0 then limit + 1 else 0)
            && CountedPasses(run.checks) == (if run.end == Accepted then 1 else 0)
            && (run.end == Accepted <==> run.checks != [] && run.checks[|run.checks| - 1] == Check(false, Pass))
  {
    CountedIsSound(limit, 0, answers);
    if limit <= 0 && answers != [] {
      assert [Check(false, answers[0])][1..] == [];
    }
  }

  // ---------------------------------------------------------------------------------------------
  // The questions and the end, exactly
  // ---------------------------------------------------------------------------------------------

  function DryRuns(checks: seq<Check>): nat {
    if checks == [] then 0 else (if checks[0].dryRun then 1 else 0) + DryRuns(checks[1..])
  }

  /** Whether the next question is a dry run, after the last one was answered: it is, unless a dry run just passed. */
  predicate DryNext(c: Check) { !(c.dryRun && c.answer == Pass) }

  /** The limiter is asked with its answers in turn; only an answer that does not end the matter is followed by another
      question, which is a dry run unless a dry run just passed. */
  predicate InTurn(limit: int, checks: seq<Check>, answers: seq<Answer>) {
    checks != [] ==>
      && answers != [] && checks[0].answer == answers[0]
      && (|checks| > 1 ==>
            && limit > 0 && (checks[0].dryRun || checks[0].answer == RateLimit)
            && checks[1].dryRun == DryNext(checks[0]))
      && InTurn(limit, checks[1..], answers[1..])
  }

  /** How a run ends, by its last question and the dry runs so far. */
  predicate EndsBy(limit: int, last: Check, end: End) {
    if !last.dryRun then
      match last.answer
      case Pass => end == Accepted
      case Quota => end == QuotaExceeded
      case Other => end == AccessDenied
      case RateLimit => end == if limit > 0 then Waiting else RateLimited
    else if last.answer == Pass then end == Waiting
    else end == RateLimited || end == Waiting
  }

  /** The level is the number of dry runs begun, and a failing dry run is the last just when there were more than the
      limit. */
  predicate Levelled(limit: int, level: nat, r: Run, waitsDry: bool) {
    && r.level == level + DryRuns(r.checks) + (if r.end == Waiting && waitsDry then 1 else 0)
    && (r.checks != [] && r.checks[|r.checks| - 1].dryRun && r.checks[|r.checks| - 1].answer != Pass ==>
          (r.end == RateLimited <==> level + DryRuns(r.checks) > limit))
  }

  /** A run that waits is one that has not been answered yet. */
  predicate Answered(r: Run, answers: seq<Answer>) {
    |r.checks| <= |answers| && (r.end == Waiting ==> |r.checks| == |answers|)
  }

  /** Whether the question a run waits on is a dry run. */
  predicate WaitsDry(r: Run, start: bool) {
    if r.checks == [] then start else DryNext(r.checks[|r.checks| - 1])
  }

  ghost predicate Exact(limit: int, level: nat, dry: bool, r: Run, answers: seq<Answer>) {
    && InTurn(limit, r.checks, answers) && Answered(r, answers)
    && (r.checks != [] ==> r.checks[0].dryRun == dry && EndsBy(limit, r.checks[|r.checks| - 1], r.end))
    && (r.checks == [] ==> answers == [] && r.end == Waiting)
    && Levelled(limit, level, r, WaitsDry(r, dry))
  }

  lemma ExactAfter(limit: int, level: nat, next: nat, dry: bool, c: Check, r: Run, answers: seq<Answer>)
    requires limit > 0 && answers != [] && c == Check(dry, answers[0]) && (dry || answers[0] == RateLimit)
    requires Exact(limit, next, DryNext(c), r, answers[1..]) && next == level + if dry then 1 else 0
    requires dry && answers[0] != Pass ==> next <= limit
    ensures Exact(limit, level, dry, After(c, r), answers)
  {
    var all := [c] + r.checks;
    assert all[1..] == r.checks;
    assert DryRuns(all) == DryRuns(r.checks) + if dry then 1 else 0;
    if r.checks == [] {
      assert all == [c];
    } else {
      assert all[|all| - 1] == r.checks[|r.checks| - 1] && all[1] == r.checks[0];
    }
  }

  lemma {:induction false} CountedExactly(limit: int, level: nat, answers: seq<Answer>)
    ensures Exact(limit, level, false, Counted(limit, level, answers), answers)
    decreases |answers|
  {
    if answers != [] {
      var c := Check(false, answers[0]);
      assert [c][1..] == [];
      if answers[0] == RateLimit && limit > 0 {
        RetriedExactly(limit, level, answers[1..]);
        ExactAfter(limit, level, level, false, c, Retried(limit, level, answers[1..]), answers);
      }
    }
  }

  lemma {:induction false} RetriedExactly(limit: int, level: nat, answers: seq<Answer>)
    requires limit > 0
    ensures Exact(limit, level, true, Retried(limit, level, answers), answers)
    decreases |answers|
  {
    if answers != [] {
      var c := Check(true, answers[0]);
      assert [c][1..] == [];
      if answers[0] == Pass {
        CountedExactly(limit, level + 1, answers[1..]);
        ExactAfter(limit, level, level + 1, true, c, Counted(limit, level + 1, answers[1..]), answers);
      } else if level + 1 <= limit {
        RetriedExactly(limit, level + 1, answers[1..]);
        ExactAfter(limit, level, level + 1, true, c, Retried(limit, level + 1, answers[1..]), answers);
      }
    }
  }

  /** Every run, exactly: which questions the limiter is asked, what each last answer leads to, when retrying gives up,
      and the throttle level it leaves. */
  lemma RunExactly(limit: int, answers: seq<Answer>)
    ensures var run := Counted(limit, 0, answers);
      && InTurn(limit, run.checks, answers) && Answered(run, answers)
      && (run.checks == [] <==> answers == [])
      && (run.checks != [] ==>
            && !run.checks[0].dryRun
            && EndsBy(limit, run.checks[|run.checks| - 1], run.end))
      && Levelled(limit, 0, run, WaitsDry(run, false))
  {
    CountedExactly(limit, 0, answers);
  }

  // ---------------------------------------------------------------------------------------------
  // The bound is reached, and the passing dry runs are not bounded
  // ---------------------------------------------------------------------------------------------

  function Always(n: nat): seq<Answer> { seq(n, i => RateLimit) }

  lemma {:induction false} AllFail(limit: int, level: nat)
    requires 0 <= level <= limit && limit > 0
    ensures var run := Retried(limit, level, Always(limit + 1 - level));
            run.end == RateLimited && FailedDryRuns(run.checks) == limit + 1 - level
    decreases limit - level
  {
    var answers := Always(limit + 1 - level);
    if level < limit {
      AllFail(limit, level + 1);
      assert answers[1..] == Always(limit - level);
      Prepend(Check(true, RateLimit), Retried(limit, level + 1, answers[1..]));
    } else {
      assert [Check(true, RateLimit)][1..] == [];
    }
  }

  /** A limiter that always refuses gets limit + 1 dry runs. */
  lemma BoundReached(limit: int)
    requires limit > 0
    ensures var run := Counted(limit, 0, Always(limit + 2));
            run.end == RateLimited && FailedDryRuns(run.checks) == limit + 1
  {
    AllFail(limit, 0);
    assert Always(limit + 2)[1..] == Always(limit + 1);
    Prepend(Check(false, RateLimit), Retried(limit, 0, Always(limit + 1)));
  }

  /** The limiter refuses to count the request, lets a dry run pass, and so on. */
  function Alternating(n: nat): seq<Answer> { if n == 0 then [] else [RateLimit, Pass] + Alternating(n - 1) }

  /** Then the request goes on being checked, whatever the limit. */
  lemma {:induction false} CanGoOn(limit: int, level: nat, n: nat)
    requires limit > 0
    ensures Counted(limit, level, Alternating(n)).end == Waiting
    ensures |Counted(limit, level, Alternating(n)).checks| == 2 * n
    decreases n
  {
    if n > 0 {
      CanGoOn(limit, level + 1, n - 1);
      var answers := Alternating(n);
      assert answers[1..] == [Pass] + Alternating(n - 1);
      assert answers[1..][1..] == Alternating(n - 1);
    }
  }
}

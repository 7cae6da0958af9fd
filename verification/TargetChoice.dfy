/** Choosing an upstream target: a round-robin start that skips hosts seen down. */
module TargetChoice {
  import opened Wrappers

  const WORD := 0x1_0000_0000

  // ---------------------------------------------------------------------------------------------
  // The round-robin counter
  // ---------------------------------------------------------------------------------------------

  class RoundRobin {
    /** A 32-bit word that wraps around. */
    var pos: nat

    constructor ()
      ensures pos == 0
    {
      pos := 0;
    }

    method WithLen(len: int) returns (start: int)
      requires pos < WORD
      modifies this
      ensures pos < WORD
      ensures len < 1 ==> start == 0 && pos == old(pos)
      ensures len >= 1 ==> start == old(pos) % len && pos == (old(pos) + 1) % 0x1_0000_0000
    {
      if len < 1 {
        return 0;
      }
      var added := (pos + 1) % WORD;
      pos := added;
      var cur := (added + WORD - 1) % WORD;
      return cur % len;
    }
  }

  /** The i-th start after the counter stood at pos. */
  function Start(pos: nat, i: nat, n: nat): nat
    requires n >= 1
  {
    ((pos + i) % WORD) % n
  }

  /** n starts over n hosts take every position exactly once. */
  ghost predicate EachOnce(pos: nat, n: nat)
    requires n >= 1
  {
    && (forall i, j :: 0 <= i < j < n ==> Start(pos, i, n) != Start(pos, j, n))
    && (forall q :: 0 <= q < n ==> Taken(pos, n, q))
  }

  ghost predicate Taken(pos: nat, n: nat, q: nat)
    requires n >= 1
  {
    exists i :: 0 <= i < n && Start(pos, i, n) == q
  }

  /** The counter does not wrap between the first and the last of n starts. */
  predicate NoWrap(pos: nat, n: nat) { pos + n <= WORD }

  lemma MulFar(n: nat, d: int)
    ensures d == 0 || n * d >= n || n * d <= -(n as int)
  {
    if d >= 1 {
      assert n * d == n + n * (d - 1);
    } else if d <= -1 {
      assert n * d == -(n as int) + n * (d + 1);
    }
  }

  lemma Divide(n: nat, a: nat) returns (k: nat, r: nat)
    requires n >= 1
    ensures a == n * k + r && r < n && r == a % n
  {
    k, r := a / n, a % n;
  }

  lemma ModOf(n: nat, k: nat, r: nat)
    requires r < n
    ensures (n * k + r) % n == r
  {
    var l, s := Divide(n, n * k + r);
    MulFar(n, l - k);
    assert n * (l - k) == n * l - n * k;
  }

  lemma Apart(n: nat, a: nat, d: nat)
    requires 0 < d < n
    ensures a % n != (a + d) % n
  {
    var k, r := Divide(n, a);
    if r + d < n {
      ModOf(n, k, r + d);
    } else {
      ModOf(n, k + 1, r + d - n);
      assert n * (k + 1) == n * k + n;
    }
  }

  /** Where a position is hit: so many starts after the counter stood at pos. */
  lemma HitAt(n: nat, pos: nat, q: nat) returns (i: nat)
    requires q < n
    ensures i < n && (pos + i) % n == q
  {
    var k, r := Divide(n, pos);
    if r <= q {
      i := q - r;
      ModOf(n, k, q);
    } else {
      i := q + n - r;
      ModOf(n, k + 1, q);
      assert n * (k + 1) == n * k + n;
    }
  }

  /** Reducing by a multiple of n first changes nothing. */
  lemma ModMod(n: nat, m: nat, x: nat, k: nat, y: nat)
    requires n >= 1 && x == (n * m) * k + y
    ensures x % n == y % n
  {
    var l, r := Divide(n, y);
    assert x == n * (m * k + l) + r;
    ModOf(n, m * k + l, r);
  }

  /** Reducing to a word first changes nothing if nothing wraps, or if n divides the word size. */
  lemma Unwrapped(pos: nat, n: nat, i: nat)
    requires n >= 1 && i < n && (NoWrap(pos, n) || WORD % n == 0)
    ensures Start(pos, i, n) == (pos + i) % n
  {
    if !NoWrap(pos, n) {
      var m, zero := Divide(n, WORD);
      var k, y := Divide(WORD, pos + i);
      ModMod(n, m, pos + i, k, y);
    }
  }

  lemma Fair(pos: nat, n: nat)
    requires n >= 1 && (NoWrap(pos, n) || WORD % n == 0)
    ensures EachOnce(pos, n)
  {
    forall i, j | 0 <= i < j < n ensures Start(pos, i, n) != Start(pos, j, n) {
      Different(pos, n, i, j);
    }
    forall q | 0 <= q < n ensures Taken(pos, n, q) {
      TakenAt(pos, n, q);
    }
  }

  lemma Different(pos: nat, n: nat, i: nat, j: nat)
    requires i < j < n && (NoWrap(pos, n) || WORD % n == 0)
    ensures Start(pos, i, n) != Start(pos, j, n)
  {
    Unwrapped(pos, n, i);
    Unwrapped(pos, n, j);
    Apart(n, pos + i, j - i);
  }

  lemma TakenAt(pos: nat, n: nat, q: nat)
    requires q < n && (NoWrap(pos, n) || WORD % n == 0)
    ensures Taken(pos, n, q)
  {
    var i := HitAt(n, pos, q);
    Unwrapped(pos, n, i);
  }

  lemma StartIs(pos: nat, i: nat, n: nat, word: nat, k: nat, r: nat)
    requires n >= 1 && r < n && word < WORD && word == n * k + r && (pos + i == word || pos + i == WORD + word)
    ensures Start(pos, i, n) == r
  {
    ModOf(n, k, r);
  }

  /** A wrap that leaves a remainder makes two of the n starts collide. */
  lemma Collides(pos: nat, n: nat) returns (i: nat, j: nat)
    requires n >= 1 && pos < WORD && !NoWrap(pos, n) && WORD % n != 0
    ensures i < j < n && Start(pos, i, n) == Start(pos, j, n)
  {
    var m, e := Divide(n, WORD);
    i, j := CollidesAt(pos, n, m, e);
  }

  lemma CollidesAt(pos: nat, n: nat, m: nat, e: nat) returns (i: nat, j: nat)
    requires n >= 1 && pos < WORD && !NoWrap(pos, n) && WORD == n * m + e && 0 < e < n
    ensures i < j < n && Start(pos, i, n) == Start(pos, j, n)
  {
    var w := WORD - pos;
    if m == 0 {
      i, j := 0, WORD;
    } else if w >= e {
      i, j := w - e, w;
      StartIs(pos, i, n, WORD - e, m, 0);
      StartIs(pos, j, n, 0, 0, 0);
    } else {
      i, j := 0, e;
      StartIs(pos, i, n, pos, m, e - w);
      StartIs(pos, j, n, e - w, 0, e - w);
    }
  }

  /** Exactly when n starts in a row are fair. */
  lemma FairExactly(pos: nat, n: nat)
    requires n >= 1 && pos < WORD
    ensures EachOnce(pos, n) <==> NoWrap(pos, n) || WORD % n == 0
  {
    if NoWrap(pos, n) || WORD % n == 0 {
      Fair(pos, n);
    } else {
      var i, j := Collides(pos, n);
    }
  }

  // ---------------------------------------------------------------------------------------------
  // Targets
  // ---------------------------------------------------------------------------------------------

  function EnsureTransport(host: string, protocol: string): string {
    if protocol == "" then
      if "http://" <= host || "https://" <= host then host else "http://" + host
    else if protocol + "://" <= host then host
    else protocol + "://" + host
  }

  /** The target has a scheme: the given one, or http or https. A host that has it stays, others get it in front. */
  lemma TransportExactly(host: string, protocol: string)
    ensures var t, scheme := EnsureTransport(host, protocol), if protocol == "" then "http://" else protocol + "://";
      && (if scheme <= host || (protocol == "" && "https://" <= host) then t == host else t == scheme + host)
      && EnsureTransport(t, protocol) == t
  {
  }

  datatype Error = IndexOutOfRange | AllHostsDown

  datatype Spec = Spec(enableLoadBalancing: bool, checkHostAgainstUptimeTests: bool, protocol: string)

  /** The k-th host in cyclic order. */
  function Cyclic(hosts: seq<string>, spec: Spec, start: nat, k: nat): string
    requires start < |hosts| && k < |hosts|
  {
    EnsureTransport(hosts[if start + k < |hosts| then start + k else start + k - |hosts|], spec.protocol)
  }

  lemma CyclicExactly(hosts: seq<string>, spec: Spec, start: nat, k: nat)
    requires start < |hosts| && k < |hosts|
    ensures (start + k) % |hosts| < |hosts|
    ensures Cyclic(hosts, spec, start, k) == EnsureTransport(hosts[(start + k) % |hosts|], spec.protocol)
  {
    if start + k < |hosts| {
      ModOf(|hosts|, 0, start + k);
    } else {
      ModOf(|hosts|, 1, start + k - |hosts|);
    }
  }

  /** down(k, host): what the k-th question about a host was answered. The answers may change over time. */
  method NextTarget(hosts: seq<string>, spec: Spec, rr: RoundRobin, down: (nat, string) -> bool)
    returns (r: Result<string, Error>, asked: nat)
    requires rr.pos < WORD
    modifies rr
    ensures rr.pos == if spec.enableLoadBalancing && hosts != [] then (old(rr.pos) + 1) % WORD else old(rr.pos)
    ensures hosts == [] <==> r == Err(IndexOutOfRange)
    ensures hosts != [] && !spec.enableLoadBalancing ==> r == Ok(EnsureTransport(hosts[0], spec.protocol))
    ensures hosts != [] && spec.enableLoadBalancing && !spec.checkHostAgainstUptimeTests ==>
              r == Ok(Cyclic(hosts, spec, old(rr.pos) % |hosts|, 0))
    ensures asked <= |hosts|
    ensures hosts != [] && spec.enableLoadBalancing && spec.checkHostAgainstUptimeTests ==>
              var start := old(rr.pos) % |hosts|;
              && (r.Ok? ==> asked < |hosts| && r.value == Cyclic(hosts, spec, start, asked) && !down(asked, r.value))
              && (r.Err? ==> r == Err(AllHostsDown) && asked == |hosts|)
              && forall k :: 0 <= k < asked ==> down(k, Cyclic(hosts, spec, start, k))
  {
    asked := 0;
    if !spec.enableLoadBalancing {
      if 0 > |hosts| - 1 {
        return Err(IndexOutOfRange), 0;
      }
      return Ok(EnsureTransport(hosts[0], spec.protocol)), 0;
    }
    var startPos := rr.WithLen(|hosts|);
    if startPos > |hosts| - 1 {
      return Err(IndexOutOfRange), 0;
    }
    r, asked := Ask(hosts, spec, startPos, down);
  }

  lemma NextPos(pos: nat, n: nat)
    requires pos < n
    ensures (pos + 1) % n == if pos + 1 < n then pos + 1 else 0
  {}

  /** Ask around the list once, from the start. */
  method Ask(hosts: seq<string>, spec: Spec, startPos: nat, down: (nat, string) -> bool)
    returns (r: Result<string, Error>, asked: nat)
    requires startPos < |hosts|
    ensures !spec.checkHostAgainstUptimeTests ==> r == Ok(Cyclic(hosts, spec, startPos, 0)) && asked == 0
    ensures spec.checkHostAgainstUptimeTests && r.Ok? ==>
              asked < |hosts| && r.value == Cyclic(hosts, spec, startPos, asked) && !down(asked, r.value)
    ensures r.Err? ==> r == Err(AllHostsDown) && asked == |hosts|
    ensures asked <= |hosts| && forall k :: 0 <= k < asked ==> down(k, Cyclic(hosts, spec, startPos, k))
  {
    var pos := startPos;
    asked := 0;
    while true
      invariant asked < |hosts|
      invariant pos == if startPos + asked < |hosts| then startPos + asked else startPos + asked - |hosts|
      invariant forall k :: 0 <= k < asked ==> down(k, Cyclic(hosts, spec, startPos, k))
      invariant !spec.checkHostAgainstUptimeTests ==> asked == 0
      decreases |hosts| - asked
    {
      var host := EnsureTransport(hosts[pos], spec.protocol);
      if !spec.checkHostAgainstUptimeTests {
        return Ok(host), asked;
      }
      if !down(asked, host) {
        return Ok(host), asked;
      }
      asked := asked + 1;
      NextPos(pos, |hosts|);
      pos := (pos + 1) % |hosts|;
      if pos == startPos {
        return Err(AllHostsDown), asked;
      }
    }
  }
}

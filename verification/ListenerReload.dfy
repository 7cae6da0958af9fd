/** Properties of a reload: the new services are the ones served, and nothing that survives is interrupted. */
module ListenerReload {
  import opened Wrappers
  import opened Listeners

  lemma {:induction false} FindSome(ps: seq<Info>, port: int)
    ensures var q := Find(ps, port);
      if q.Some? then q.value in ps && q.value.port == port else forall i :: 0 <= i < |ps| ==> ps[i].port != port
  {
    if ps != [] {
      FindSome(ps[1..], port);
    }
  }

  lemma FindDistinct(ps: seq<Info>, i: nat)
    requires DistinctPorts(ps) && i < |ps|
    ensures Find(ps, ps[i].port) == Some(ps[i])
  {
    FindSome(ps, ps[i].port);
    var j :| 0 <= j < |ps| && ps[j] == Find(ps, ps[i].port).value;
  }

  predicate IsSurvivor(p: Info, q: Info, news: seq<Info>) {
    Matched(p, news) && q == Taken(p, Find(news, p.port).value)
  }

  /** Which proxy a survivor was. */
  lemma {:induction false} SurvivorWas(ps: seq<Info>, n: nat, news: seq<Info>, k: nat) returns (i: nat)
    requires n <= |ps| && k < |Survivors(ps, n, news)|
    ensures i < n && IsSurvivor(ps[i], Survivors(ps, n, news)[k], news)
  {
    if k < |Survivors(ps, n - 1, news)| {
      i := SurvivorWas(ps, n - 1, news, k);
    } else {
      i := n - 1;
    }
  }

  /** Where a matched proxy survives. */
  lemma {:induction false} SurvivesAt(ps: seq<Info>, n: nat, news: seq<Info>, i: nat) returns (k: nat)
    requires i < n <= |ps| && Matched(ps[i], news)
    ensures k < |Survivors(ps, n, news)| && IsSurvivor(ps[i], Survivors(ps, n, news)[k], news)
  {
    if i < n - 1 {
      k := SurvivesAt(ps, n - 1, news, i);
    } else {
      k := |Survivors(ps, n - 1, news)|;
    }
  }

  lemma {:induction false} SurvivorsDistinct(ps: seq<Info>, n: nat, news: seq<Info>)
    requires n <= |ps| && DistinctPorts(ps)
    ensures DistinctPorts(Survivors(ps, n, news))
  {
    if n > 0 {
      SurvivorsDistinct(ps, n - 1, news);
      var before := Survivors(ps, n - 1, news);
      forall k | 0 <= k < |before|
        ensures before[k].port != ps[n - 1].port
      {
        var i := SurvivorWas(ps, n - 1, news, k);
      }
    }
  }

  /** Which new proxy an addition is. */
  lemma {:induction false} AdditionWas(news: seq<Info>, n: nat, kept: seq<Info>, k: nat) returns (i: nat)
    requires n <= |news| && k < |Additions(news, n, kept)|
    ensures i < n && news[i] == Additions(news, n, kept)[k] && Find(kept, news[i].port).None?
  {
    if k < |Additions(news, n - 1, kept)| {
      i := AdditionWas(news, n - 1, kept, k);
    } else {
      i := n - 1;
    }
  }

  lemma {:induction false} AddedAt(news: seq<Info>, n: nat, kept: seq<Info>, i: nat) returns (k: nat)
    requires i < n <= |news| && Find(kept, news[i].port).None?
    ensures k < |Additions(news, n, kept)| && Additions(news, n, kept)[k] == news[i]
  {
    if i < n - 1 {
      k := AddedAt(news, n - 1, kept, i);
    } else {
      k := |Additions(news, n - 1, kept)|;
    }
  }

  lemma {:induction false} AdditionsDistinct(news: seq<Info>, n: nat, kept: seq<Info>)
    requires n <= |news| && DistinctPorts(news)
    ensures DistinctPorts(Additions(news, n, kept))
  {
    if n > 0 {
      AdditionsDistinct(news, n - 1, kept);
      var before := Additions(news, n - 1, kept);
      forall k | 0 <= k < |before|
        ensures before[k].port != news[n - 1].port
      {
        var i := AdditionWas(news, n - 1, kept, k);
      }
    }
  }

  lemma {:induction false} DroppedAre(ps: seq<Info>, n: nat, news: seq<Info>)
    requires n <= |ps|
    ensures forall port :: port in DroppedPorts(ps, n, news) <==>
      exists i :: 0 <= i < n && !Matched(ps[i], news) && ps[i].port == port
    ensures forall id :: id in DroppedListeners(ps, n, news) <==>
      exists i :: 0 <= i < n && !Matched(ps[i], news) && ps[i].listener.Some? && ps[i].listener.value.id == id
  {
    if n > 0 {
      DroppedAre(ps, n - 1, news);
    }
  }

  // ---------------------------------------------------------------------------------------------
  // Serving
  // ---------------------------------------------------------------------------------------------

  /** Binding lands on the requested port with a listener that is not in use and was never closed. */
  ghost predicate BindsFresh(net: Net, again: map<int, Listener>, closed: set<nat>) {
    && (forall port, protocol :: net.bind(port, protocol).Some? ==>
          var l := net.bind(port, protocol).value;
          && l.port == port && l.id !in closed
          && forall other :: other in again && other != port ==> again[other].id != l.id)
    && (forall p, q, p', q' :: net.bind(p, q).Some? && net.bind(p', q').Some? && p != p' ==>
          net.bind(p, q).value.id != net.bind(p', q').value.id)
  }

  lemma FreshAfterBind(net: Net, again: map<int, Listener>, closed: set<nat>, p: Info)
    requires BindsFresh(net, again, closed) && p.port !in again
    ensures BindsFresh(net, Rebound(net, again, p), closed)
  {
  }

  ghost predicate HasPort(ps: seq<Info>, port: int) { exists i :: 0 <= i < |ps| && ps[i].port == port }

  lemma StillBound(ps: seq<Info>, after: seq<Info>, n: nat, port: int)
    requires n < |ps| && |after| == |ps| && after == ps[n := after[n]] && after[n].port == ps[n].port
    requires HasPort(ps, port)
    ensures HasPort(after, port)
  {
    var i :| 0 <= i < |ps| && ps[i].port == port;
    assert after[i].port == port;
  }

  lemma AllStillBound(s: State, n: nat, q: Info)
    requires Live(s) && n < |s.proxies| && q.port == s.proxies[n].port
    ensures DistinctPorts(s.proxies[n := q]) && HasPort(s.proxies[n := q], q.port)
    ensures forall port :: port in s.again ==> HasPort(s.proxies[n := q], port)
  {
    assert s.proxies[n].port == q.port;
    StillBound(s.proxies, s.proxies[n := q], n, q.port);
    forall port | port in s.again ensures HasPort(s.proxies[n := q], port) {
      StillBound(s.proxies, s.proxies[n := q], n, port);
    }
  }

  /** A proxy that keeps its listener. */
  lemma KeptLive(s: State, n: nat, q: Info)
    requires Live(s) && n < |s.proxies| && Sound(q)
    requires q.port == s.proxies[n].port && q.listener == s.proxies[n].listener
    ensures Live(s.(proxies := s.proxies[n := q]))
  {
    AllStillBound(s, n, q);
  }

  /** A proxy that gets a listener of its own. */
  lemma BoundLive(s: State, n: nat, q: Info, l: Listener)
    requires Live(s) && n < |s.proxies| && Sound(q) && s.proxies[n].listener.None?
    requires q.port == s.proxies[n].port && q.listener == Some(l) && l.port == q.port && l.id !in s.closed
    requires forall other :: other in s.again && other != q.port ==> s.again[other].id != l.id
    ensures Live(State(s.proxies[n := q], s.again[q.port := l], s.closed))
  {
    AllStillBound(s, n, q);
  }

  lemma ServeOne(s: State, net: Net, n: nat)
    requires Live(s) && n < |s.proxies| && BindsFresh(net, s.again, s.closed)
    ensures
      var p := s.proxies[n];
      && Live(State(s.proxies[n := Served(p, Offer(net, s.again, p))], Rebound(net, s.again, p), s.closed))
      && Served(p, Offer(net, s.again, p)).port == p.port
  {
    var p := s.proxies[n];
    var offer := Offer(net, s.again, p);
    var q := Served(p, offer);
    assert Sound(p);
    if p.listener.None? && offer.Some? {
      assert p.port !in s.again;
      BoundLive(s, n, q, offer.value);
    } else {
      KeptLive(s, n, q);
    }
  }

  // ---------------------------------------------------------------------------------------------
  // Dropping and merging
  // ---------------------------------------------------------------------------------------------

  function Merged(s: State, news: seq<Info>): State {
    var n := |s.proxies|;
    var kept := Survivors(s.proxies, n, news);
    State(kept + Additions(news, |news|, kept), s.again - DroppedPorts(s.proxies, n, news),
          s.closed + DroppedListeners(s.proxies, n, news))
  }

  /** p has the listener that a matched proxy of s held on the same port. */
  ghost predicate HeldBefore(s: State, news: seq<Info>, p: Info) {
    exists i :: 0 <= i < |s.proxies| && Matched(s.proxies[i], news)
             && s.proxies[i].port == p.port && s.proxies[i].listener == p.listener
  }

  /** Every proxy after merging is a survivor with its listener, or a new one on a port of its own. */
  lemma MergedProxy(s: State, news: seq<Info>, k: nat)
    requires Live(s) && Unserved(news) && k < |Merged(s, news).proxies|
    ensures
      var p := Merged(s, news).proxies[k];
      && Sound(p)
      && Matched(p, news) && p.router == Find(news, p.port).value.router
      && (p.listener.Some? ==> HeldBefore(s, news, p))
  {
    var n := |s.proxies|;
    var kept := Survivors(s.proxies, n, news);
    if k < |kept| {
      var i := SurvivorWas(s.proxies, n, news, k);
      FindSome(news, s.proxies[i].port);
    } else {
      var i := AdditionWas(news, |news|, kept, k - |kept|);
      FindDistinct(news, i);
    }
  }

  lemma MergedDistinct(s: State, news: seq<Info>)
    requires Live(s) && Unserved(news)
    ensures DistinctPorts(Merged(s, news).proxies)
  {
    var n := |s.proxies|;
    var kept := Survivors(s.proxies, n, news);
    var added := Additions(news, |news|, kept);
    SurvivorsDistinct(s.proxies, n, news);
    AdditionsDistinct(news, |news|, kept);
    forall k, j | 0 <= k < |kept| && 0 <= j < |added|
      ensures kept[k].port != added[j].port
    {
      var i := AdditionWas(news, |news|, kept, j);
      FindSome(kept, news[i].port);
    }
  }

  /** A listener that a survivor holds is neither shut down nor forgotten. */
  lemma HeldStays(s: State, news: seq<Info>, i: nat)
    requires Live(s) && i < |s.proxies| && Matched(s.proxies[i], news) && s.proxies[i].listener.Some?
    ensures
      var l, m := s.proxies[i].listener.value, Merged(s, news);
      l.id !in m.closed && l.port in m.again && m.again[l.port] == l
  {
    var l, n := s.proxies[i].listener.value, |s.proxies|;
    DroppedAre(s.proxies, n, news);
    forall j | 0 <= j < n && !Matched(s.proxies[j], news)
      ensures s.proxies[j].port != l.port
      ensures s.proxies[j].listener.Some? ==> s.proxies[j].listener.value.id != l.id
    {
      assert i != j && s.proxies[i].port != s.proxies[j].port;
    }
  }

  /** A port is still bound after dropping only if a survivor serves it. */
  lemma BoundSurvives(s: State, news: seq<Info>, port: int) returns (i: nat, k: nat)
    requires Live(s) && port in Merged(s, news).again
    ensures i < |s.proxies| && Matched(s.proxies[i], news) && s.proxies[i].port == port
    ensures var kept := Survivors(s.proxies, |s.proxies|, news); k < |kept| && kept[k].port == port
  {
    var n := |s.proxies|;
    DroppedAre(s.proxies, n, news);
    i :| 0 <= i < n && s.proxies[i].port == port;
    k := SurvivesAt(s.proxies, n, news, i);
  }

  lemma UnboundStays(s: State, news: seq<Info>, k: nat)
    requires Live(s) && Unserved(news) && k < |Merged(s, news).proxies| && Merged(s, news).proxies[k].listener.None?
    ensures Merged(s, news).proxies[k].port !in Merged(s, news).again
  {
    var n := |s.proxies|;
    var kept := Survivors(s.proxies, n, news);
    if k < |kept| {
      var i := SurvivorWas(s.proxies, n, news, k);
    } else if Merged(s, news).proxies[k].port in Merged(s, news).again {
      var i := AdditionWas(news, |news|, kept, k - |kept|);
      FindSome(kept, news[i].port);
      var j, l := BoundSurvives(s, news, news[i].port);
      assert false;
    }
  }

  /** After dropping and merging, the listeners still in use are open and are the bound ones. */
  lemma MergedLive(s: State, news: seq<Info>)
    requires Live(s) && Unserved(news)
    ensures Live(Merged(s, news))
  {
    var m := Merged(s, news);
    MergedDistinct(s, news);
    forall k | 0 <= k < |m.proxies|
      ensures Sound(m.proxies[k])
      ensures m.proxies[k].listener.Some? ==>
        var l := m.proxies[k].listener.value; l.id !in m.closed && l.port in m.again && m.again[l.port] == l
      ensures m.proxies[k].listener.None? ==> m.proxies[k].port !in m.again
    {
      MergedProxy(s, news, k);
      if m.proxies[k].listener.Some? {
        var i :| 0 <= i < |s.proxies| && Matched(s.proxies[i], news)
              && s.proxies[i].port == m.proxies[k].port && s.proxies[i].listener == m.proxies[k].listener;
        HeldStays(s, news, i);
      } else {
        UnboundStays(s, news, k);
      }
    }
    forall port | port in m.again
      ensures exists k :: 0 <= k < |m.proxies| && m.proxies[k].port == port
    {
      var i, k := BoundSurvives(s, news, port);
      assert m.proxies[k].port == port;
    }
  }

  /** Each service of the new muxer is there after merging. */
  lemma ServiceMerged(s: State, news: seq<Info>, j: nat) returns (k: nat)
    requires Live(s) && Unserved(news) && j < |news|
    ensures k < |Merged(s, news).proxies|
    ensures Merged(s, news).proxies[k].port == news[j].port && Merged(s, news).proxies[k].protocol == news[j].protocol
  {
    var kept := Survivors(s.proxies, |s.proxies|, news);
    FindDistinct(news, j);
    FindSome(kept, news[j].port);
    if Find(kept, news[j].port).Some? {
      k :| 0 <= k < |kept| && kept[k] == Find(kept, news[j].port).value;
      MergedProxy(s, news, k);
    } else {
      var a := AddedAt(news, |news|, kept, j);
      k := |kept| + a;
    }
  }

  // ---------------------------------------------------------------------------------------------
  // The reload
  // ---------------------------------------------------------------------------------------------

  /** The serving loop, after n of the proxies. */
  lemma {:induction false} ServeAllLive(m: State, net: Net, n: nat)
    requires Live(m) && BindsFresh(net, m.again, m.closed) && n <= |m.proxies|
    ensures var (done, bound) := ServeAll(net, m.again, m.proxies, n);
      && |done| == n
      && Live(State(done + m.proxies[n..], bound, m.closed)) && BindsFresh(net, bound, m.closed)
      && forall i :: 0 <= i < n ==> Started(m.proxies[i], done[i])
  {
    var ps := m.proxies;
    if n == 0 {
      assert [] + ps[0..] == ps;
    } else {
      ServeAllLive(m, net, n - 1);
      var (done, bound) := ServeAll(net, m.again, ps, n - 1);
      ServeNext(m, net, n - 1, done, bound);
    }
  }

  lemma ServeNext(m: State, net: Net, n: nat, done: seq<Info>, bound: map<int, Listener>)
    requires n < |m.proxies| && |done| == n
    requires Live(State(done + m.proxies[n..], bound, m.closed)) && BindsFresh(net, bound, m.closed)
    ensures var p := m.proxies[n];
      var q := Served(p, Offer(net, bound, p));
      && Live(State(done + [q] + m.proxies[n + 1..], Rebound(net, bound, p), m.closed))
      && BindsFresh(net, Rebound(net, bound, p), m.closed) && Started(p, q)
  {
    var p := m.proxies[n];
    var s := State(done + m.proxies[n..], bound, m.closed);
    assert s.proxies[n] == p;
    ServeOne(s, net, n);
    var q := Served(p, Offer(net, bound, p));
    assert s.proxies[n := q] == done + [q] + m.proxies[n + 1..];
    assert Sound(p);
    if p.listener.None? {
      assert p.port !in bound;
      FreshAfterBind(net, bound, m.closed, p);
    }
  }

  /** q serves what p did: same port, protocol and routes, no listener replaced, nothing stopped. */
  predicate Started(p: Info, q: Info) {
    && q.port == p.port && q.protocol == p.protocol && q.router == p.router && q.tcp == p.tcp
    && (p.listener.Some? ==> q.listener == p.listener && q.started)
    && (p.started ==> q == p)
    && (q.listener.Some? ==> q.started)
  }

  /** The reload as a whole. */
  lemma ReloadServes(s: State, news: seq<Info>, net: Net)
    requires Live(s) && Unserved(news)
    requires BindsFresh(net, Merged(s, news).again, Merged(s, news).closed)
    ensures var s' := Swapped(s, news, net);
      && Live(s')
      && |s'.proxies| == |Merged(s, news).proxies|
      && s'.closed == Merged(s, news).closed
      && forall k :: 0 <= k < |s'.proxies| ==> Started(Merged(s, news).proxies[k], s'.proxies[k])
  {
    MergedLive(s, news);
    var m := Merged(s, news);
    ServeAllLive(m, net, |m.proxies|);
    var (done, bound) := ServeAll(net, m.again, m.proxies, |m.proxies|);
    assert done + m.proxies[|m.proxies|..] == done;
  }

  /** A proxy without a listener gets the one that binding its port gives, if the port may be opened and can be bound,
      and is started on it, with an HTTP server for http and https; otherwise it is left as it is. */
  predicate Opened(net: Net, p: Info, q: Info) {
    p.listener.None? ==>
      if net.allowed(p.port, p.protocol) && net.bind(p.port, p.protocol).Some? then
        && q.listener == net.bind(p.port, p.protocol) && q.started
        && q.server == (if p.protocol == "http" || p.protocol == "https" then Some(Server(p.router)) else None)
      else q == p
  }

  lemma OpensNew(net: Net, bound: map<int, Listener>, p: Info)
    requires Sound(p) && (p.listener.None? ==> p.port !in bound)
    ensures Opened(net, p, Served(p, Offer(net, bound, p)))
  {
  }

  lemma {:induction false} ServeAllOpened(m: State, net: Net, n: nat)
    requires Live(m) && BindsFresh(net, m.again, m.closed) && n <= |m.proxies|
    ensures var (done, bound) := ServeAll(net, m.again, m.proxies, n);
      |done| == n && forall i :: 0 <= i < n ==> Opened(net, m.proxies[i], done[i])
  {
    if n > 0 {
      ServeAllOpened(m, net, n - 1);
      ServeAllLive(m, net, n - 1);
      var (done, bound) := ServeAll(net, m.again, m.proxies, n - 1);
      assert (done + m.proxies[n - 1..])[n - 1] == m.proxies[n - 1];
      OpensNew(net, bound, m.proxies[n - 1]);
    }
  }

  /** Which ports a reload opens: a merged proxy without a listener ends with one if and only if its port is allowed and
      can be bound; then it is the bound one, kept for the next reload under its port, and the proxy is started. */
  lemma OpensExactly(s: State, news: seq<Info>, net: Net, k: nat)
    requires Live(s) && Unserved(news) && k < |Merged(s, news).proxies| && Merged(s, news).proxies[k].listener.None?
    requires BindsFresh(net, Merged(s, news).again, Merged(s, news).closed)
    ensures k < |Swapped(s, news, net).proxies|
    ensures var s' := Swapped(s, news, net);
      var p, q := Merged(s, news).proxies[k], s'.proxies[k];
      && (q.listener.Some? <==> net.allowed(p.port, p.protocol) && net.bind(p.port, p.protocol).Some?)
      && Opened(net, p, q)
      && (q.listener.Some? ==> p.port in s'.again && s'.again[p.port] == q.listener.value)
      && (q.listener.None? ==> p.port !in s'.again && !q.started)
  {
    MergedLive(s, news);
    var m := Merged(s, news);
    ReloadServes(s, news, net);
    ServeAllOpened(m, net, |m.proxies|);
    var s' := Swapped(s, news, net);
    var p, q := m.proxies[k], s'.proxies[k];
    assert Started(p, q) && Sound(p) && Sound(q) && Opened(net, p, q);
  }

  predicate Serves(ps: seq<Info>, port: int, protocol: string) {
    exists k :: 0 <= k < |ps| && ps[k].port == port && ps[k].protocol == protocol
  }

  /** Afterwards the gateway serves exactly the services of the new muxer. */
  lemma SameServices(s: State, news: seq<Info>, net: Net, port: int, protocol: string)
    requires Live(s) && Unserved(news)
    requires BindsFresh(net, Merged(s, news).again, Merged(s, news).closed)
    ensures Serves(Swapped(s, news, net).proxies, port, protocol) <==> Serves(news, port, protocol)
  {
    var s', m := Swapped(s, news, net), Merged(s, news);
    ReloadServes(s, news, net);
    if Serves(s'.proxies, port, protocol) {
      var k :| 0 <= k < |s'.proxies| && s'.proxies[k].port == port && s'.proxies[k].protocol == protocol;
      assert Started(m.proxies[k], s'.proxies[k]);
      MergedProxy(s, news, k);
      FindSome(news, port);
      var j :| 0 <= j < |news| && news[j] == Find(news, port).value;
      assert news[j].port == port && news[j].protocol == protocol;
    }
    if Serves(news, port, protocol) {
      var j :| 0 <= j < |news| && news[j].port == port && news[j].protocol == protocol;
      var k := ServiceMerged(s, news, j);
      assert Started(m.proxies[k], s'.proxies[k]);
      assert s'.proxies[k].port == port && s'.proxies[k].protocol == protocol;
    }
  }

  /** A proxy that the new muxer also serves goes on: same listener, still started, the new routes. */
  lemma SurvivorGoesOn(s: State, news: seq<Info>, net: Net, i: nat) returns (k: nat)
    requires Live(s) && Unserved(news) && i < |s.proxies| && Matched(s.proxies[i], news)
    requires BindsFresh(net, Merged(s, news).again, Merged(s, news).closed)
    ensures k < |Swapped(s, news, net).proxies|
    ensures
      var p, q, r := s.proxies[i], Find(news, s.proxies[i].port).value, Swapped(s, news, net).proxies[k];
      && r.port == p.port && r.protocol == p.protocol && r.router == q.router
      && (IsTcp(p.protocol) ==> r.tcp == q.tcp)
      && (p.listener.Some? ==> r.listener == p.listener)
      && (p.started ==> r.started && (IsHttp(p.protocol) ==> r.server == Some(Server(q.router))))
  {
    ReloadServes(s, news, net);
    k := SurvivesAt(s.proxies, |s.proxies|, news, i);
    assert Started(Merged(s, news).proxies[k], Swapped(s, news, net).proxies[k]);
  }

  /** Exactly the listeners of proxies without a counterpart are shut down. */
  lemma OnlyUnusedShutDown(s: State, news: seq<Info>, net: Net, id: nat)
    requires Live(s) && Unserved(news)
    ensures id in Swapped(s, news, net).closed <==>
      id in s.closed ||
      exists i :: 0 <= i < |s.proxies| && !Matched(s.proxies[i], news)
               && s.proxies[i].listener.Some? && s.proxies[i].listener.value.id == id
  {
    DroppedAre(s.proxies, |s.proxies|, news);
  }
}

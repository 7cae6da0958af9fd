/** The state of the listeners and what a reload makes of it, on values.

    A proxy serves one port with one protocol. Listeners have an identity; `closed` is the set of those that
    have been shut down and `again` the table of bound listeners that survives reloads. */
module Listeners {
  import opened Wrappers

  type Router = nat

  datatype Listener = Listener(id: nat, port: int)

  /** A running HTTP server: its handler forwards to a router that can be replaced. */
  datatype Server = Server(router: Option<Router>)

  datatype Info = Info(
    port: int, protocol: string, listener: Option<Listener>, router: Option<Router>,
    server: Option<Server>, tcp: Option<map<string, string>>, started: bool)

  predicate IsTcp(protocol: string) { protocol == "tcp" || protocol == "tls" }

  predicate IsHttp(protocol: string) { protocol == "http" || protocol == "https" }

  /** Which ports may be opened, and what binding one gives. */
  datatype Net = Net(allowed: (int, string) -> bool, bind: (int, string) -> Option<Listener>)

  datatype State = State(proxies: seq<Info>, again: map<int, Listener>, closed: set<nat>)

  // ---------------------------------------------------------------------------------------------
  // The steps of a reload
  // ---------------------------------------------------------------------------------------------

  /** The first proxy on a port. */
  function Find(ps: seq<Info>, port: int): Option<Info> {
    if ps == [] then None else if ps[0].port == port then Some(ps[0]) else Find(ps[1..], port)
  }

  predicate Matched(p: Info, news: seq<Info>) {
    var q := Find(news, p.port);
    q.Some? && q.value.protocol == p.protocol
  }

  /** A surviving proxy takes over the routes of its counterpart. */
  function Taken(p: Info, q: Info): Info {
    p.(router := q.router,
       tcp := if p.tcp.Some? then q.tcp else None,
       server := if p.server.Some? then Some(Server(q.router)) else None)
  }

  /** The survivors among the first n, with the routes of their counterparts. */
  function Survivors(ps: seq<Info>, n: nat, news: seq<Info>): seq<Info>
    requires n <= |ps|
  {
    if n == 0 then []
    else
      var p := ps[n - 1];
      Survivors(ps, n - 1, news) + (if Matched(p, news) then [Taken(p, Find(news, p.port).value)] else [])
  }

  function DroppedPorts(ps: seq<Info>, n: nat, news: seq<Info>): set<int>
    requires n <= |ps|
  {
    if n == 0 then {} else DroppedPorts(ps, n - 1, news) + (if Matched(ps[n - 1], news) then {} else {ps[n - 1].port})
  }

  function DroppedListeners(ps: seq<Info>, n: nat, news: seq<Info>): set<nat>
    requires n <= |ps|
  {
    if n == 0 then {}
    else
      DroppedListeners(ps, n - 1, news) +
      (if Matched(ps[n - 1], news) || ps[n - 1].listener.None? then {} else {ps[n - 1].listener.value.id})
  }

  /** Those of the first n new proxies whose port no survivor has. */
  function Additions(news: seq<Info>, n: nat, kept: seq<Info>): seq<Info>
    requires n <= |news|
  {
    if n == 0 then []
    else Additions(news, n - 1, kept) + (if Find(kept, news[n - 1].port).None? then [news[n - 1]] else [])
  }

  /** The listener for a proxy without one: a port that is not allowed is refused, a bound one is reused. */
  function Offer(net: Net, again: map<int, Listener>, p: Info): Option<Listener> {
    if !net.allowed(p.port, p.protocol) then None
    else if p.port in again then Some(again[p.port])
    else net.bind(p.port, p.protocol)
  }

  function Served(p: Info, offer: Option<Listener>): Info {
    if p.listener.None? && offer.None? then p
    else
      var q := if p.listener.None? then p.(listener := offer, port := offer.value.port) else p;
      if q.started then q
      else q.(started := true, server := if IsHttp(q.protocol) then Some(Server(q.router)) else q.server)
  }

  function Rebound(net: Net, again: map<int, Listener>, p: Info): map<int, Listener> {
    var offer := Offer(net, again, p);
    if p.listener.None? && offer.Some? then again[p.port := offer.value] else again
  }

  function ServeAll(net: Net, again: map<int, Listener>, ps: seq<Info>, n: nat): (seq<Info>, map<int, Listener>)
    requires n <= |ps|
  {
    if n == 0 then ([], again)
    else
      var (done, bound) := ServeAll(net, again, ps, n - 1);
      (done + [Served(ps[n - 1], Offer(net, bound, ps[n - 1]))], Rebound(net, bound, ps[n - 1]))
  }

  function Swapped(s: State, news: seq<Info>, net: Net): State {
    var kept := Survivors(s.proxies, |s.proxies|, news);
    var all := kept + Additions(news, |news|, kept);
    var (served, bound) := ServeAll(net, s.again - DroppedPorts(s.proxies, |s.proxies|, news), all, |all|);
    State(served, bound, s.closed + DroppedListeners(s.proxies, |s.proxies|, news))
  }

  // ---------------------------------------------------------------------------------------------
  // What is kept
  // ---------------------------------------------------------------------------------------------

  predicate DistinctPorts(ps: seq<Info>) {
    forall i, j :: 0 <= i < j < |ps| ==> ps[i].port != ps[j].port
  }

  /** A proxy in good order: TCP proxies have a domain table, and what runs was started on its own listener. */
  predicate Sound(p: Info) {
    && p.port != 0
    && (IsTcp(p.protocol) <==> p.tcp.Some?)
    && (p.listener.Some? ==> p.listener.value.port == p.port)
    && (p.started ==> p.listener.Some?)
    && (p.server.Some? <==> p.started && IsHttp(p.protocol))
    && (p.server.Some? ==> p.server.value.router == p.router)
  }

  /** The listeners in use are open, distinct, and exactly the bound ones. */
  ghost predicate Live(s: State) {
    && DistinctPorts(s.proxies)
    && (forall i :: 0 <= i < |s.proxies| ==> Sound(s.proxies[i]))
    && (forall i :: 0 <= i < |s.proxies| && s.proxies[i].listener.Some? ==>
          var l := s.proxies[i].listener.value; l.id !in s.closed && l.port in s.again && s.again[l.port] == l)
    && (forall i :: 0 <= i < |s.proxies| && s.proxies[i].listener.None? ==> s.proxies[i].port !in s.again)
    && (forall port :: port in s.again ==> exists i :: 0 <= i < |s.proxies| && s.proxies[i].port == port)
    && (forall a, b :: a in s.again && b in s.again && s.again[a].id == s.again[b].id ==> a == b)
  }

  /** A muxer that has been filled but not served yet. */
  predicate Unserved(news: seq<Info>) {
    && DistinctPorts(news)
    && forall i :: 0 <= i < |news| ==> Sound(news[i]) && news[i].listener.None?
  }
}

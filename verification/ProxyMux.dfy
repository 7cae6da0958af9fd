/** The proxy muxer: proxies are objects whose identity survives a reload. */
module ProxyMux {
  import opened Wrappers
  import opened Listeners
  import opened ListenerReload

  class Proxy {
    var port: int
    var protocol: string
    var listener: Option<Listener>
    var router: Option<Router>
    var server: Option<Server>
    var tcp: Option<map<string, string>>
    var started: bool

    constructor (port: int, protocol: string, router: Option<Router>, tcp: Option<map<string, string>>)
      ensures Info() == Listeners.Info(port, protocol, None, router, None, tcp, false)
    {
      this.port, this.protocol, this.router, this.tcp := port, protocol, router, tcp;
      listener, server, started := None, None, false;
    }

    function Info(): Info
      reads this
    {
      Listeners.Info(port, protocol, listener, router, server, tcp, started)
    }
  }

  function Infos(ps: seq<Proxy>): (infos: seq<Info>)
    reads ps
    ensures |infos| == |ps| && forall i :: 0 <= i < |ps| ==> infos[i] == ps[i].Info()
  {
    seq(|ps|, i requires 0 <= i < |ps| reads ps => ps[i].Info())
  }

  /** The objects behind the survivors and the additions. */
  function SurvivingObjects(ps: seq<Proxy>, infos: seq<Info>, n: nat, news: seq<Info>): seq<Proxy>
    requires n <= |ps| == |infos|
  {
    if n == 0 then []
    else SurvivingObjects(ps, infos, n - 1, news) + (if Matched(infos[n - 1], news) then [ps[n - 1]] else [])
  }

  function AddedObjects(ps: seq<Proxy>, news: seq<Info>, n: nat, kept: seq<Info>): seq<Proxy>
    requires n <= |ps| == |news|
  {
    if n == 0 then []
    else AddedObjects(ps, news, n - 1, kept) + (if Find(kept, news[n - 1].port).None? then [ps[n - 1]] else [])
  }

  /** The survivors as they were before they take over the new routes. */
  function Untaken(ps: seq<Info>, n: nat, news: seq<Info>): seq<Info>
    requires n <= |ps|
  {
    if n == 0 then [] else Untaken(ps, n - 1, news) + (if Matched(ps[n - 1], news) then [ps[n - 1]] else [])
  }

  lemma KeepInPlace<T>(s: seq<T>, i: nat, j: nat)
    requires i <= j < |s|
    ensures s[i := s[j]][..i + 1] == s[..i] + [s[j]]
    ensures s[i := s[j]][j + 1..] == s[j + 1..]
  {
  }

  lemma {:induction false} FirstFound(ps: seq<Info>, i: nat, port: int)
    requires i < |ps| && ps[i].port == port && forall j :: 0 <= j < i ==> ps[j].port != port
    ensures Find(ps, port) == Some(ps[i])
  {
    if i > 0 {
      FirstFound(ps[1..], i - 1, port);
    }
  }

  /** The first proxy of a list on a port; port 0 stands for the configured one. */
  method GetProxy(ps: seq<Proxy>, listenPort: int, configPort: int) returns (p: Proxy?, ghost i: nat)
    ensures
      var port := if listenPort == 0 then configPort else listenPort;
      if p == null then Find(Infos(ps), port).None?
      else FirstOn(Infos(ps), i, port) && ps[i] == p && Find(Infos(ps), port) == Some(p.Info())
  {
    var port := if listenPort == 0 then configPort else listenPort;
    FindSome(Infos(ps), port);
    i := 0;
    for j := 0 to |ps|
      invariant forall k :: 0 <= k < j ==> ps[k].port != port
    {
      if ps[j].port == port {
        FirstFound(Infos(ps), j, port);
        return ps[j], j;
      }
    }
    p := null;
  }

  /** Whether the new muxer has no proxy for the port and protocol of p. */
  method Unused(p: Proxy, news: seq<Proxy>, configPort: int) returns (unused: bool)
    requires p.port != 0
    ensures unused == !Matched(p.Info(), Infos(news))
  {
    var found, _ := GetProxy(news, p.port, configPort);
    unused := found == null || found.protocol != p.protocol;
  }

  lemma DropOneMore(ps: seq<Info>, n: nat, news: seq<Info>, again: map<int, Listener>, closed: set<nat>)
    requires n < |ps|
    ensures Matched(ps[n], news) ==>
      && DroppedPorts(ps, n + 1, news) == DroppedPorts(ps, n, news)
      && DroppedListeners(ps, n + 1, news) == DroppedListeners(ps, n, news)
    ensures !Matched(ps[n], news) ==>
      && again - DroppedPorts(ps, n + 1, news) == again - DroppedPorts(ps, n, news) - {ps[n].port}
      && closed + DroppedListeners(ps, n + 1, news)
         == closed + DroppedListeners(ps, n, news) + if ps[n].listener.Some? then {ps[n].listener.value.id} else {}
  {
  }

  /** The loop over the current proxies: the list is compacted in place, reads running ahead of writes. */
  method DropUnused(all: seq<Proxy>, again: map<int, Listener>, closed: set<nat>, news: seq<Proxy>, configPort: int)
    returns (kept: seq<Proxy>, bound: map<int, Listener>, shut: set<nat>)
    requires forall i :: 0 <= i < |all| ==> all[i].port != 0
    ensures kept == SurvivingObjects(all, Infos(all), |all|, Infos(news))
    ensures bound == again - DroppedPorts(Infos(all), |all|, Infos(news))
    ensures shut == closed + DroppedListeners(Infos(all), |all|, Infos(news))
  {
    var i, list := 0, all;
    bound, shut := again, closed;
    ghost var infos, newInfos := Infos(all), Infos(news);
    for j := 0 to |list|
      invariant 0 <= i <= j && |list| == |all|
      invariant list[j..] == all[j..]
      invariant list[..i] == SurvivingObjects(all, infos, j, newInfos)
      invariant bound == again - DroppedPorts(infos, j, newInfos)
      invariant shut == closed + DroppedListeners(infos, j, newInfos)
    {
      var cur := list[j];
      KeepInPlace(list, i, j);
      DropOneMore(infos, j, newInfos, again, closed);
      assert list[j..][0] == all[j..][0] && list[j..][1..] == all[j..][1..];
      var unused := Unused(cur, news, configPort);
      if unused {
        shut := shut + if cur.listener.Some? then {cur.listener.value.id} else {};
        bound := bound - {cur.port};
      } else {
        list := list[i := cur];
        i := i + 1;
      }
    }
    kept := list[..i];
  }

  /** What a survivor takes from its counterpart. */
  method TakeOver(p: Proxy, q: Proxy)
    requires p != q && (p.tcp.Some? ==> q.tcp.Some?)
    modifies p
    ensures p.Info() == Taken(old(p.Info()), old(q.Info()))
  {
    if p.tcp.Some? {
      p.tcp := q.tcp;
    }
    p.router := q.router;
    if p.server.Some? {
      p.server := Some(Server(q.router));
    }
  }

  lemma {:induction false} AddedObjectWas(ps: seq<Proxy>, news: seq<Info>, n: nat, kept: seq<Info>, k: nat)
    returns (i: nat)
    requires n <= |ps| == |news| && k < |AddedObjects(ps, news, n, kept)|
    ensures i < n && ps[i] == AddedObjects(ps, news, n, kept)[k]
  {
    if k < |AddedObjects(ps, news, n - 1, kept)| {
      i := AddedObjectWas(ps, news, n - 1, kept, k);
    } else {
      i := n - 1;
    }
  }

  /** The counterpart search of the merge loop: only a survivor can be on the port of the next new proxy. */
  method Counterpart(kept: seq<Proxy>, news: seq<Proxy>, j: nat, list: seq<Proxy>, ghost newInfos: seq<Info>,
                     ghost infos: seq<Info>, configPort: int)
    returns (p: Proxy?, ghost k: nat)
    requires j < |news| == |newInfos| && |kept| == |infos| && DistinctPorts(newInfos)
    requires forall i :: 0 <= i < |news| ==> news[i].Info() == newInfos[i] && newInfos[i].port != 0
    requires forall i :: 0 <= i < |kept| ==> kept[i].port == infos[i].port
    requires list == kept + AddedObjects(news, newInfos, j, infos)
    ensures if p == null then Find(infos, newInfos[j].port).None?
            else k < |kept| && p == kept[k] && infos[k].port == newInfos[j].port && Find(infos, newInfos[j].port).Some?
  {
    FindSome(infos, newInfos[j].port);
    FindSome(Infos(list), newInfos[j].port);
    p, k := GetProxy(list, news[j].port, configPort);
    if p == null {
      forall i | 0 <= i < |kept|
        ensures infos[i].port != newInfos[j].port
      {
        assert list[i] == kept[i] && Infos(list)[i] == kept[i].Info();
      }
    } else if k >= |kept| {
      var i := AddedObjectWas(news, newInfos, j, infos, k - |kept|);
      assert false;
    }
  }

  /** A survivor after the first j new proxies. */
  function After(p: Info, news: seq<Info>, j: nat): Info
    requires j <= |news|
  {
    if j == 0 then p else if news[j - 1].port == p.port then Taken(p, news[j - 1]) else After(p, news, j - 1)
  }

  lemma {:induction false} NotYetTaken(p: Info, news: seq<Info>, j: nat)
    requires j <= |news| && forall i :: 0 <= i < j ==> news[i].port != p.port
    ensures After(p, news, j) == p
  {
    if j > 0 {
      NotYetTaken(p, news, j - 1);
    }
  }

  lemma {:induction false} TakenInTheEnd(p: Info, news: seq<Info>, j: nat)
    requires j <= |news| && DistinctPorts(news) && exists i :: 0 <= i < j && news[i].port == p.port
    ensures Find(news, p.port).Some? && After(p, news, j) == Taken(p, Find(news, p.port).value)
  {
    if news[j - 1].port == p.port {
      FindDistinct(news, j - 1);
    } else {
      TakenInTheEnd(p, news, j - 1);
    }
  }

  /** The merge of the j-th new proxy. */
  method TakeOne(kept: seq<Proxy>, news: seq<Proxy>, j: nat, list: seq<Proxy>, ghost infos: seq<Info>,
                 ghost newInfos: seq<Info>, configPort: int)
    returns (list': seq<Proxy>)
    requires Mergeable(kept, news, infos, newInfos) && j < |news|
    requires forall i :: 0 <= i < |news| ==> news[i].Info() == newInfos[i]
    requires forall k :: 0 <= k < |kept| ==>
      kept[k].Info() == After(infos[k], newInfos, j) && kept[k].port == infos[k].port
    requires list == kept + AddedObjects(news, newInfos, j, infos)
    modifies kept
    ensures list' == kept + AddedObjects(news, newInfos, j + 1, infos)
    ensures forall i :: 0 <= i < |news| ==> news[i].Info() == newInfos[i]
    ensures forall k :: 0 <= k < |kept| ==>
      kept[k].Info() == After(infos[k], newInfos, j + 1) && kept[k].port == infos[k].port
  {
    list' := list;
    var p, k := Counterpart(kept, news, j, list, newInfos, infos, configPort);
    FindSome(infos, newInfos[j].port);
    if p == null {
      list' := list' + [news[j]];
    } else {
      CounterpartProtocol(infos[k], newInfos, j);
      NotYetTaken(infos[k], newInfos, j);
      OtherPorts(infos, k, newInfos[j].port);
      TakeOver(p, news[j]);
    }
  }

  /** Survivors and new proxies, as the merge loop finds them. */
  predicate Mergeable(kept: seq<Proxy>, news: seq<Proxy>, infos: seq<Info>, newInfos: seq<Info>) {
    && |infos| == |kept| && |newInfos| == |news| && DistinctPorts(infos) && DistinctPorts(newInfos)
    && (forall a, b :: 0 <= a < b < |kept| ==> kept[a] != kept[b])
    && (forall k :: 0 <= k < |kept| ==> kept[k] !in news && Sound(infos[k]) && Matched(infos[k], newInfos))
    && (forall i :: 0 <= i < |news| ==> Sound(newInfos[i]))
  }

  /** The loop over the new proxies: survivors take over their routes, the others are appended. */
  method TakeNew(kept: seq<Proxy>, news: seq<Proxy>, ghost infos: seq<Info>, ghost newInfos: seq<Info>, configPort: int)
    returns (list: seq<Proxy>)
    requires infos == Infos(kept) && newInfos == Infos(news) && Mergeable(kept, news, infos, newInfos)
    modifies kept
    ensures list == kept + AddedObjects(news, newInfos, |news|, infos)
    ensures forall i :: 0 <= i < |news| ==> news[i].Info() == newInfos[i]
    ensures forall k :: 0 <= k < |kept| ==> kept[k].Info() == After(infos[k], newInfos, |news|)
  {
    list := kept;
    for j := 0 to |news|
      invariant list == kept + AddedObjects(news, newInfos, j, infos)
      invariant forall i :: 0 <= i < |news| ==> news[i].Info() == newInfos[i]
      invariant forall k :: 0 <= k < |kept| ==>
        kept[k].Info() == After(infos[k], newInfos, j) && kept[k].port == infos[k].port
    {
      list := TakeOne(kept, news, j, list, infos, newInfos, configPort);
    }
  }

  lemma OtherPorts(ps: seq<Info>, k: nat, port: int)
    requires DistinctPorts(ps) && k < |ps| && ps[k].port == port
    ensures forall i :: 0 <= i < |ps| && i != k ==> ps[i].port != port
  {
  }

  lemma CounterpartProtocol(p: Info, news: seq<Info>, j: nat)
    requires DistinctPorts(news) && j < |news| && Matched(p, news) && news[j].port == p.port
    ensures news[j].protocol == p.protocol
  {
    FindDistinct(news, j);
  }

  /** The body of the serving loop. */
  method ServeProxy(p: Proxy, again: map<int, Listener>, net: Net) returns (bound: map<int, Listener>)
    modifies p
    ensures p.Info() == Served(old(p.Info()), Offer(net, again, old(p.Info())))
    ensures bound == Rebound(net, again, old(p.Info()))
  {
    bound := again;
    if p.listener.None? {
      var offer := if !net.allowed(p.port, p.protocol) then None
                   else if p.port in again then Some(again[p.port])
                   else net.bind(p.port, p.protocol);
      if offer.None? {
        return;
      }
      bound := bound[p.port := offer.value];
      p.port := offer.value.port;
      p.listener := offer;
    }
    if p.started {
      return;
    }
    if p.protocol == "http" || p.protocol == "https" {
      p.server := Some(Server(p.router));
    }
    p.started := true;
  }

  method ServeList(list: seq<Proxy>, again: map<int, Listener>, net: Net) returns (bound: map<int, Listener>)
    requires forall i, j :: 0 <= i < j < |list| ==> list[i] != list[j]
    modifies list
    ensures ServeAll(net, again, old(Infos(list)), |list|) == (Infos(list), bound)
  {
    bound := again;
    ghost var infos := Infos(list);
    for n := 0 to |list|
      invariant |ServeAll(net, again, infos, n).0| == n
      invariant forall i :: 0 <= i < n ==> list[i].Info() == ServeAll(net, again, infos, n).0[i]
      invariant forall i :: n <= i < |list| ==> list[i].Info() == infos[i]
      invariant bound == ServeAll(net, again, infos, n).1
    {
      bound := ServeProxy(list[n], bound, net);
    }
    assert Infos(list) == ServeAll(net, again, infos, |list|).0;
  }

  // ---------------------------------------------------------------------------------------------
  // Objects and values side by side
  // ---------------------------------------------------------------------------------------------

  /** Survivors as objects, before and after taking over: entry k of each list is about the same proxy. */
  lemma {:induction false} KeptWas(ps: seq<Proxy>, infos: seq<Info>, n: nat, news: seq<Info>)
    requires n <= |ps| == |infos|
    ensures |SurvivingObjects(ps, infos, n, news)| == |Untaken(infos, n, news)| == |Survivors(infos, n, news)|
    ensures forall k :: 0 <= k < |Untaken(infos, n, news)| ==>
      KeptEntry(ps, infos, n, news, SurvivingObjects(ps, infos, n, news)[k], Untaken(infos, n, news)[k],
                Survivors(infos, n, news)[k])
  {
    if n > 0 {
      KeptWas(ps, infos, n - 1, news);
      var objects := SurvivingObjects(ps, infos, n, news);
      var before, after := Untaken(infos, n, news), Survivors(infos, n, news);
      forall k | 0 <= k < |before|
        ensures KeptEntry(ps, infos, n, news, objects[k], before[k], after[k])
      {
        if k < |Untaken(infos, n - 1, news)| {
          assert KeptEntry(ps, infos, n - 1, news, objects[k], before[k], after[k]);
        } else {
          assert ps[n - 1] == objects[k];
        }
      }
    }
  }

  ghost predicate KeptEntry(ps: seq<Proxy>, infos: seq<Info>, n: nat, news: seq<Info>, p: Proxy, before: Info,
                            after: Info)
    requires n <= |ps| == |infos|
  {
    exists i :: 0 <= i < n && ps[i] == p && infos[i] == before && IsSurvivor(before, after, news)
  }

  lemma {:induction false} UntakenDistinct(ps: seq<Info>, n: nat, news: seq<Info>)
    requires n <= |ps| && DistinctPorts(ps)
    ensures DistinctPorts(Untaken(ps, n, news))
    ensures forall k :: 0 <= k < |Untaken(ps, n, news)| ==> exists i :: 0 <= i < n && Untaken(ps, n, news)[k] == ps[i]
  {
    if n > 0 {
      UntakenDistinct(ps, n - 1, news);
      var before := Untaken(ps, n - 1, news);
      forall k | 0 <= k < |before|
        ensures before[k].port != ps[n - 1].port
      {
        var i :| 0 <= i < n - 1 && before[k] == ps[i];
      }
    }
  }

  lemma {:induction false} SamePortsFind(a: seq<Info>, b: seq<Info>, port: int)
    requires |a| == |b| && forall i :: 0 <= i < |a| ==> a[i].port == b[i].port
    ensures Find(a, port).Some? <==> Find(b, port).Some?
  {
    if a != [] {
      SamePortsFind(a[1..], b[1..], port);
    }
  }

  lemma {:induction false} AddedMatch(ps: seq<Proxy>, news: seq<Info>, n: nat, a: seq<Info>, b: seq<Info>)
    requires n <= |ps| == |news| && |a| == |b| && forall i :: 0 <= i < |a| ==> a[i].port == b[i].port
    ensures |AddedObjects(ps, news, n, a)| == |Additions(news, n, b)|
    ensures forall k :: 0 <= k < |Additions(news, n, b)| ==>
      exists i :: 0 <= i < n && AddedObjects(ps, news, n, a)[k] == ps[i] && Additions(news, n, b)[k] == news[i]
  {
    if n > 0 {
      AddedMatch(ps, news, n - 1, a, b);
      SamePortsFind(a, b, news[n - 1].port);
      var objects, infos := AddedObjects(ps, news, n, a), Additions(news, n, b);
      forall k | 0 <= k < |infos|
        ensures exists i :: 0 <= i < n && objects[k] == ps[i] && infos[k] == news[i]
      {
        if k < |Additions(news, n - 1, b)| {
          var i :| 0 <= i < n - 1
                   && AddedObjects(ps, news, n - 1, a)[k] == ps[i] && Additions(news, n - 1, b)[k] == news[i];
          assert objects[k] == ps[i] && infos[k] == news[i];
        } else {
          assert objects[k] == ps[n - 1] && infos[k] == news[n - 1];
        }
      }
    }
  }

  lemma SurvivorsMergeable(all: seq<Proxy>, news: seq<Proxy>, s: State, newInfos: seq<Info>)
    requires s.proxies == Infos(all) && newInfos == Infos(news) && Live(s) && Unserved(newInfos)
    requires forall p :: p in all ==> p !in news
    ensures var kept := SurvivingObjects(all, s.proxies, |all|, newInfos);
      && Infos(kept) == Untaken(s.proxies, |all|, newInfos) && Mergeable(kept, news, Infos(kept), newInfos)
      && forall k :: 0 <= k < |kept| ==> kept[k] in all
  {
    var infos, n := s.proxies, |all|;
    var kept, before := SurvivingObjects(all, infos, n, newInfos), Untaken(infos, n, newInfos);
    KeptWas(all, infos, n, newInfos);
    UntakenDistinct(infos, n, newInfos);
    forall k | 0 <= k < |kept|
      ensures kept[k].Info() == before[k] && kept[k] in all && kept[k] !in news
      ensures Sound(before[k]) && Matched(before[k], newInfos)
    {
      assert KeptEntry(all, infos, n, newInfos, kept[k], before[k], Survivors(infos, n, newInfos)[k]);
      var i :| 0 <= i < n && all[i] == kept[k] && infos[i] == before[k]
            && IsSurvivor(before[k], Survivors(infos, n, newInfos)[k], newInfos);
      assert all[i] in all;
    }
    assert Infos(kept) == before;
    forall a, b | 0 <= a < b < |kept|
      ensures kept[a] != kept[b]
    {
      assert before[a].port != before[b].port;
    }
  }

  /** The objects of the merge loop: the survivors, then the new proxies that had no counterpart. */
  function SwappedObjects(all: seq<Proxy>, infos: seq<Info>, news: seq<Proxy>, newInfos: seq<Info>): seq<Proxy>
    requires |all| == |infos| && |news| == |newInfos|
  {
    SurvivingObjects(all, infos, |all|, newInfos)
    + AddedObjects(news, newInfos, |news|, Untaken(infos, |all|, newInfos))
  }

  lemma KeptHoldMerged(all: seq<Proxy>, s: State, newInfos: seq<Info>, k: nat)
    requires |all| == |s.proxies| && DistinctPorts(newInfos)
    requires
      var kept, before := SurvivingObjects(all, s.proxies, |all|, newInfos), Untaken(s.proxies, |all|, newInfos);
      k < |kept| == |before| && kept[k].Info() == After(before[k], newInfos, |newInfos|)
    ensures
      var kept, after := SurvivingObjects(all, s.proxies, |all|, newInfos), Survivors(s.proxies, |all|, newInfos);
      && |after| == |kept| && kept[k].Info() == after[k] && kept[k] in all
      && Untaken(s.proxies, |all|, newInfos)[k].port == after[k].port
  {
    var n := |all|;
    var kept, before := SurvivingObjects(all, s.proxies, n, newInfos), Untaken(s.proxies, n, newInfos);
    var after := Survivors(s.proxies, n, newInfos);
    KeptWas(all, s.proxies, n, newInfos);
    assert KeptEntry(all, s.proxies, n, newInfos, kept[k], before[k], after[k]);
    EntryTaken(before[k], after[k], newInfos);
  }

  /** After the merge loop the objects hold the merged values, and no object is listed twice. */
  lemma ListIsMerged(all: seq<Proxy>, news: seq<Proxy>, s: State, newInfos: seq<Info>, list: seq<Proxy>)
    requires |all| == |s.proxies| && |news| == |newInfos| && Live(s) && Unserved(newInfos)
    requires
      var kept, before := SurvivingObjects(all, s.proxies, |all|, newInfos), Untaken(s.proxies, |all|, newInfos);
      && |kept| == |before|
      && list == kept + AddedObjects(news, newInfos, |news|, before)
      && (forall i :: 0 <= i < |news| ==> news[i].Info() == newInfos[i])
      && (forall k :: 0 <= k < |kept| ==> kept[k].Info() == After(before[k], newInfos, |news|))
    ensures Infos(list) == Merged(s, newInfos).proxies
    ensures forall i, j :: 0 <= i < j < |list| ==> list[i] != list[j]
    ensures forall i :: 0 <= i < |list| ==> list[i] in all || list[i] in news
  {
    var n := |all|;
    var kept, before := SurvivingObjects(all, s.proxies, n, newInfos), Untaken(s.proxies, n, newInfos);
    var after := Survivors(s.proxies, n, newInfos);
    var added, additions := AddedObjects(news, newInfos, |news|, before), Additions(newInfos, |news|, after);
    KeptWas(all, s.proxies, n, newInfos);
    forall k | 0 <= k < |kept|
      ensures kept[k].Info() == after[k] && before[k].port == after[k].port && kept[k] in all
    {
      KeptHoldMerged(all, s, newInfos, k);
    }
    AddedMatch(news, newInfos, |news|, before, after);
    forall k | 0 <= k < |added|
      ensures added[k].Info() == additions[k] && added[k] in news
    {
      var i :| 0 <= i < |news| && added[k] == news[i] && additions[k] == newInfos[i];
    }
    assert Infos(list) == after + additions;
    MergedDistinct(s, newInfos);
    NoneTwice(list);
  }

  lemma EntryTaken(before: Info, after: Info, news: seq<Info>)
    requires DistinctPorts(news) && IsSurvivor(before, after, news)
    ensures After(before, news, |news|) == after && after.port == before.port
  {
    FindSome(news, before.port);
    var i :| 0 <= i < |news| && news[i] == Find(news, before.port).value;
    TakenInTheEnd(before, news, |news|);
  }

  lemma NoneTwice(list: seq<Proxy>)
    requires DistinctPorts(Infos(list))
    ensures forall i, j :: 0 <= i < j < |list| ==> list[i] != list[j]
  {
    forall i, j | 0 <= i < j < |list|
      ensures list[i] != list[j]
    {
      assert Infos(list)[i].port != Infos(list)[j].port;
    }
  }

  predicate FirstOn(ps: seq<Info>, i: nat, port: int) {
    i < |ps| && ps[i].port == port && forall k :: 0 <= k < i ==> ps[k].port != port
  }

  /** A proxy with the router, if it takes it. */
  function Routed(p: Info, takes: bool, router: Router): Info {
    if takes then p.(router := Some(router)) else p
  }

  class Mux {
    var proxies: seq<Proxy>
    var again: map<int, Listener>
    var closed: set<nat>

    function View(): State
      reads this, proxies
    {
      State(Infos(proxies), again, closed)
    }

    /** Registers a router for a port; a port taken by another protocol is left alone. */
    method SetRouter(listenPort: int, protocol: string, router: Router, configPort: int, useSSL: bool)
      returns (ghost i: nat)
      modifies this, proxies
      ensures again == old(again) && closed == old(closed)
      ensures
        var port := if listenPort == 0 then configPort else listenPort;
        var wanted := if protocol != "" then protocol else if useSSL then "https" else "http";
        if Find(old(Infos(proxies)), port).None? then
          && |proxies| == |old(proxies)| + 1 && proxies[..|old(proxies)|] == old(proxies)
          && Infos(proxies) ==
            old(Infos(proxies)) + [Listeners.Info(port, wanted, None, Some(router), None, None, false)]
        else
          && proxies == old(proxies) && FirstOn(old(Infos(proxies)), i, port)
          && forall p :: p in proxies ==>
            p.Info() == Routed(old(p.Info()), p == proxies[i] && old(p.Info()).protocol == wanted, router)
      ensures old(Unserved(Infos(proxies))) && !IsTcp(protocol) && (listenPort != 0 || configPort != 0) ==>
        Unserved(Infos(proxies))
    {
      var port := if listenPort == 0 then configPort else listenPort;
      var wanted := if protocol != "" then protocol else if useSSL then "https" else "http";
      ghost var infos := Infos(proxies);
      var p;
      p, i := GetProxy(proxies, port, configPort);
      if p == null {
        p := new Proxy(port, wanted, Some(router), None);
        proxies := proxies + [p];
        assert Infos(proxies) == infos + [p.Info()];
        if Unserved(infos) && !IsTcp(protocol) && port != 0 {
          UnservedAppended(infos, p.Info());
        }
      } else {
        if p.protocol == wanted {
          p.router := Some(router);
        }
        UnservedRerouted(infos, Infos(proxies));
      }
    }

    /** Live reload: the proxies of the new muxer take the place of the current ones. */
    method Swap(new': Mux, configPort: int, net: Net)
      requires Live(View()) && Unserved(Infos(new'.proxies))
      requires forall p :: p in proxies ==> p !in new'.proxies
      modifies this, proxies
      modifies new'.proxies
      ensures View() == Swapped(old(View()), old(Infos(new'.proxies)), net)
      ensures proxies == old(SwappedObjects(proxies, Infos(proxies), new'.proxies, Infos(new'.proxies)))
    {
      ghost var s, newInfos := View(), Infos(new'.proxies);
      var list, bound, shut := Reload(proxies, again, closed, new'.proxies, s, newInfos, configPort, net);
      proxies, again, closed := list, bound, shut;
    }
  }

  lemma UnservedAppended(ps: seq<Info>, p: Info)
    requires Unserved(ps) && Sound(p) && p.listener.None? && Find(ps, p.port).None?
    ensures Unserved(ps + [p])
  {
    FindSome(ps, p.port);
  }

  /** Routers have no say in whether a list is unserved. */
  lemma UnservedRerouted(ps: seq<Info>, qs: seq<Info>)
    requires |ps| == |qs| && forall i :: 0 <= i < |ps| ==> qs[i] == ps[i].(router := qs[i].router)
    requires forall i :: 0 <= i < |ps| ==> ps[i].router.Some? ==> qs[i].router.Some?
    ensures Unserved(ps) ==> Unserved(qs)
  {
  }

  method Reload(all: seq<Proxy>, again: map<int, Listener>, closed: set<nat>, news: seq<Proxy>, ghost s: State,
                ghost newInfos: seq<Info>, configPort: int, net: Net)
    returns (list: seq<Proxy>, bound: map<int, Listener>, shut: set<nat>)
    requires s == State(Infos(all), again, closed) && newInfos == Infos(news) && Live(s) && Unserved(newInfos)
    requires forall p :: p in all ==> p !in news
    modifies all, news
    ensures list == SwappedObjects(all, s.proxies, news, newInfos)
    ensures State(Infos(list), bound, shut) == Swapped(s, newInfos, net)
  {
    SurvivorsMergeable(all, news, s, newInfos);
    var kept;
    kept, bound, shut := DropUnused(all, again, closed, news, configPort);
    list := TakeNew(kept, news, Infos(kept), newInfos, configPort);
    ListIsMerged(all, news, s, newInfos, list);
    bound := ServeList(list, bound, net);
  }
}

/** How deep each mesh node is from the cabled ones (src/apply/meshOrder.ts, meshDepths), on any
    routing tables, loops included. */
module MeshOrder {
  import opened Wrappers

  datatype Route = Route(originator: string, nexthop: string)

  /** A node's MACs and best routes. */
  datatype View = View(macs: seq<string>, routes: seq<Route>)

  /** Each node's view, by hostname. */
  type Views = seq<(string, View)>

  /** A hostname by MAC, the last that has it; none is the empty text. */
  function HostOf(views: Views, mac: string): string {
    if views == [] then ""
    else
      var last := views[|views| - 1];
      if mac in last.1.macs then last.0 else HostOf(views[..|views| - 1], mac)
  }

  /** A node is known by its first interface's MAC, its next hop by the one on the link. */
  predicate Same(views: Views, a: string, b: string) {
    a == b || (HostOf(views, a) != "" && HostOf(views, a) == HostOf(views, b))
  }

  /** The next hop a table gives, the last it gives; none when it is empty. */
  function Via(routes: seq<Route>, mac: string): Option<string> {
    if routes == [] then None
    else
      var last := routes[|routes| - 1];
      if last.originator == mac then (if last.nexthop == "" then None else Some(last.nexthop)) else Via(routes[..|routes| - 1], mac)
  }

  function Originators(routes: seq<Route>): set<string> {
    set i | 0 <= i < |routes| :: routes[i].originator
  }

  /** A node as the table names it, of the same host as `mac`: the first there. */
  function FirstSame(views: Views, routes: seq<Route>, mac: string): Option<string> {
    if routes == [] then None
    else if Same(views, routes[0].originator, mac) then (if routes[0].originator == "" then None else Some(routes[0].originator))
    else FirstSame(views, routes[1..], mac)
  }

  /** One gateway's table: its direct neighbours, and the node each other is reached through. */
  predicate Direct(views: Views, routes: seq<Route>, mac: string) {
    Via(routes, mac).Some? && Same(views, Via(routes, mac).value, mac)
  }

  function Hop(views: Views, routes: seq<Route>, mac: string): Option<string> {
    if Via(routes, mac).None? || Direct(views, routes, mac) then None else FirstSame(views, routes, Via(routes, mac).value)
  }

  lemma {:induction false} ViaIsRouted(routes: seq<Route>, mac: string)
    requires Via(routes, mac).Some?
    ensures mac in Originators(routes)
    decreases |routes|
  {
    if routes[|routes| - 1].originator != mac {
      ViaIsRouted(routes[..|routes| - 1], mac);
      var i :| 0 <= i < |routes| - 1 && routes[..|routes| - 1][i].originator == mac;
      assert routes[i].originator == mac;
    }
  }

  /** The depth, or None for no end: at each hop one routed address more is seen. */
  function Depth(views: Views, routes: seq<Route>, mac: string, seen: set<string>): Option<nat>
    decreases Originators(routes) - seen
  {
    if Via(routes, mac).None? || mac in seen then None
    else if Direct(views, routes, mac) then Some(1)
    else
      var hop := FirstSame(views, routes, Via(routes, mac).value);
      if hop.None? then None
      else
        ViaIsRouted(routes, mac);
        assert mac in Originators(routes) - seen && mac !in Originators(routes) - (seen + {mac});
        match Depth(views, routes, hop.value, seen + {mac})
        case None => None
        case Some(d) => Some(1 + d)
  }

  // ----- A depth is a path -----

  /** A way to the gateway: hop by hop, the last a direct neighbour. */
  predicate IsPath(views: Views, routes: seq<Route>, path: seq<string>) {
    && path != []
    && (forall i :: 0 <= i < |path| - 1 ==> Hop(views, routes, path[i]) == Some(path[i + 1]))
    && Direct(views, routes, path[|path| - 1])
  }

  lemma {:induction false} DepthIsPath(views: Views, routes: seq<Route>, mac: string, seen: set<string>) returns (path: seq<string>)
    requires Depth(views, routes, mac, seen).Some?
    ensures IsPath(views, routes, path) && path[0] == mac && |path| == Depth(views, routes, mac, seen).value
    decreases Originators(routes) - seen
  {
    if Direct(views, routes, mac) {
      path := [mac];
    } else {
      var hop := Hop(views, routes, mac).value;
      ViaIsRouted(routes, mac);
      assert mac in Originators(routes) - seen && mac !in Originators(routes) - (seen + {mac});
      var rest := DepthIsPath(views, routes, hop, seen + {mac});
      path := [mac] + rest;
      assert forall i :: 1 <= i < |path| - 1 ==> path[i] == rest[i - 1] && path[i + 1] == rest[i];
    }
  }

  /** Two paths from one node are one. */
  lemma {:induction false} PathOnce(views: Views, routes: seq<Route>, a: seq<string>, b: seq<string>)
    requires IsPath(views, routes, a) && IsPath(views, routes, b) && a[0] == b[0]
    ensures a == b
    decreases |a|
  {
    assert |a| > 1 ==> Hop(views, routes, a[0]) == Some(a[1]);
    assert |b| > 1 ==> Hop(views, routes, b[0]) == Some(b[1]);
    if |a| > 1 && |b| > 1 {
      PathRest(views, routes, a);
      PathRest(views, routes, b);
      PathOnce(views, routes, a[1..], b[1..]);
      assert a == [a[0]] + a[1..] && b == [b[0]] + b[1..];
    }
  }

  lemma {:induction false} PathRest(views: Views, routes: seq<Route>, path: seq<string>)
    requires IsPath(views, routes, path) && |path| > 1
    ensures IsPath(views, routes, path[1..]) && Hop(views, routes, path[0]) == Some(path[1])
  {
    var rest := path[1..];
    forall i | 0 <= i < |rest| - 1 ensures Hop(views, routes, rest[i]) == Some(rest[i + 1]) {
      var next := i + 1;
      assert rest[i] == path[next] && rest[next] == path[next + 1];
    }
  }

  /** A path never comes back to a node: it would go round for ever. */
  lemma {:induction false} PathSuffix(views: Views, routes: seq<Route>, path: seq<string>, k: nat)
    requires IsPath(views, routes, path) && k < |path|
    ensures IsPath(views, routes, path[k..])
    decreases k
  {
    if k > 0 {
      PathRest(views, routes, path);
      PathSuffix(views, routes, path[1..], k - 1);
      assert path[1..][k - 1..] == path[k..];
    } else {
      assert path[0..] == path;
    }
  }

  lemma {:induction false} PathDistinct(views: Views, routes: seq<Route>, path: seq<string>, k: nat)
    requires IsPath(views, routes, path) && 0 < k < |path|
    ensures path[k] != path[0]
  {
    PathSuffix(views, routes, path, k);
    if path[k] == path[0] {
      PathOnce(views, routes, path, path[k..]);
      assert false;
    }
  }

  lemma {:induction false} PathIsDepth(views: Views, routes: seq<Route>, path: seq<string>, seen: set<string>)
    requires IsPath(views, routes, path) && forall i :: 0 <= i < |path| ==> path[i] !in seen
    ensures Depth(views, routes, path[0], seen) == Some(|path|)
    decreases |path|
  {
    if |path| > 1 {
      PathRest(views, routes, path);
      forall i | 0 <= i < |path| - 1 ensures path[1..][i] !in seen + {path[0]} { PathDistinct(views, routes, path, i + 1); }
      PathIsDepth(views, routes, path[1..], seen + {path[0]});
    }
  }

  /** A depth is finite just when there is a path, and is its length: on any table, loops included. */
  lemma {:induction false} DepthIsExact(views: Views, routes: seq<Route>, mac: string, d: nat)
    ensures Depth(views, routes, mac, {}) == Some(d)
      <==> exists path :: IsPath(views, routes, path) && path[0] == mac && |path| == d
  {
    if Depth(views, routes, mac, {}) == Some(d) {
      var path := DepthIsPath(views, routes, mac, {});
    }
    if path :| IsPath(views, routes, path) && path[0] == mac && |path| == d {
      PathIsDepth(views, routes, path, {});
    }
  }

  /** A node's next hop is exactly one less deep, whatever had been seen on the way to it. */
  lemma {:induction false} HopIsOneLess(views: Views, routes: seq<Route>, mac: string)
    requires Depth(views, routes, mac, {}).Some? && !Direct(views, routes, mac)
    ensures Hop(views, routes, mac).Some?
    ensures Depth(views, routes, Hop(views, routes, mac).value, {}) == Some(Depth(views, routes, mac, {}).value - 1)
  {
    var path := DepthIsPath(views, routes, mac, {});
    PathRest(views, routes, path);
    PathIsDepth(views, routes, path[1..], {});
  }

  // ----- Over every gateway -----

  function ViewOf(views: Views, host: string): seq<Route> {
    if views == [] then []
    else
      var last := views[|views| - 1];
      if last.0 == host then last.1.routes else ViewOf(views[..|views| - 1], host)
  }

  /** A host's depth as one gateway's table has it, by one of its originators. */
  ghost predicate Seen(views: Views, gateway: string, host: string, d: nat) {
    exists i :: 0 <= i < |ViewOf(views, gateway)| && SeenAt(views, ViewOf(views, gateway), i, host, d)
  }

  predicate SeenAt(views: Views, routes: seq<Route>, i: nat, host: string, d: nat)
    requires i < |routes|
  {
    host != "" && HostOf(views, routes[i].originator) == host && Depth(views, routes, routes[i].originator, {}) == Some(d)
  }

  ghost predicate SeenByAny(views: Views, gateways: seq<string>, host: string, d: nat) {
    exists g :: 0 <= g < |gateways| && Seen(views, gateways[g], host, d)
  }

  /** The least depth any of these gateways has for each host, and none for the others. */
  ghost predicate IsLeast(views: Views, gateways: seq<string>, best: map<string, nat>) {
    && (forall host :: host in best ==> SeenByAny(views, gateways, host, best[host]))
    && forall host, d :: SeenByAny(views, gateways, host, d) ==> host in best && best[host] <= d
  }

  method MeshDepths(views: Views, cabled: seq<string>) returns (best: map<string, nat>)
    ensures forall i :: 0 <= i < |cabled| ==> cabled[i] in best && best[cabled[i]] == 0
    ensures forall host :: host in best && host !in cabled ==> SeenByAny(views, cabled, host, best[host])
    ensures forall host, d :: SeenByAny(views, cabled, host, d) ==> host in best && best[host] <= d
  {
    best := map[];
    var g := 0;
    while g < |cabled|
      invariant 0 <= g <= |cabled|
      invariant IsLeast(views, cabled[..g], best)
    {
      best := OverGateway(views, cabled, g, best);
      g := g + 1;
    }
    assert cabled[..g] == cabled;
    best := WithCabled(cabled, best);
  }

  /** The cabled nodes at depth 0, whatever a table says. */
  method WithCabled(cabled: seq<string>, least: map<string, nat>) returns (best: map<string, nat>)
    ensures forall i :: 0 <= i < |cabled| ==> cabled[i] in best && best[cabled[i]] == 0
    ensures forall host :: host in least ==> host in best && best[host] <= least[host]
    ensures forall host :: host in best && host !in cabled ==> host in least && best[host] == least[host]
  {
    best := least;
    for i := 0 to |cabled|
      invariant forall j :: 0 <= j < i ==> cabled[j] in best && best[cabled[j]] == 0
      invariant forall host :: host in least ==> host in best && best[host] <= least[host]
      invariant forall host :: host in best && host !in cabled ==> host in least && best[host] == least[host]
    {
      best := best[cabled[i] := 0];
    }
  }

  lemma {:induction false} GatewaysGrow(views: Views, cabled: seq<string>, g: nat, host: string, d: nat)
    requires g < |cabled|
    ensures SeenByAny(views, cabled[..g + 1], host, d) <==> SeenByAny(views, cabled[..g], host, d) || Seen(views, cabled[g], host, d)
  {
    var less, more := cabled[..g], cabled[..g + 1];
    assert more[g] == cabled[g] && forall k :: 0 <= k < g ==> less[k] == more[k];
  }

  /** No route yet looked at is shallower than what is known. */
  ghost predicate LeastSoFar(views: Views, routes: seq<Route>, i: nat, best: map<string, nat>)
    requires i <= |routes|
  {
    forall k, host, d | 0 <= k < i && SeenAt(views, routes, k, host, d) :: host in best && best[host] <= d
  }

  /** The loop over one gateway's routes. */
  method OverGateway(views: Views, cabled: seq<string>, g: nat, before: map<string, nat>) returns (best: map<string, nat>)
    requires g < |cabled| && IsLeast(views, cabled[..g], before)
    ensures IsLeast(views, cabled[..g + 1], best)
  {
    var routes := ViewOf(views, cabled[g]);
    best := before;
    var i := 0;
    while i < |routes|
      invariant 0 <= i <= |routes|
      invariant forall host :: host in best ==> SeenByAny(views, cabled[..g], host, best[host]) || Seen(views, cabled[g], host, best[host])
      invariant forall host :: host in before ==> host in best && best[host] <= before[host]
      invariant LeastSoFar(views, routes, i, best)
    {
      var host := HostOf(views, routes[i].originator);
      var d := Depth(views, routes, routes[i].originator, {});
      if host != "" && d.Some? {
        assert SeenAt(views, routes, i, host, d.value);
        assert Seen(views, cabled[g], host, d.value);
        best := best[host := if host in best && best[host] < d.value then best[host] else d.value];
      }
      i := i + 1;
    }
    GatewayDone(views, cabled, g, before, best);
  }

  lemma {:induction false} GatewayDone(views: Views, cabled: seq<string>, g: nat, before: map<string, nat>, best: map<string, nat>)
    requires g < |cabled| && IsLeast(views, cabled[..g], before)
    requires forall host :: host in best ==> SeenByAny(views, cabled[..g], host, best[host]) || Seen(views, cabled[g], host, best[host])
    requires forall host :: host in before ==> host in best && best[host] <= before[host]
    requires LeastSoFar(views, ViewOf(views, cabled[g]), |ViewOf(views, cabled[g])|, best)
    ensures IsLeast(views, cabled[..g + 1], best)
  {
    forall host | host in best ensures SeenByAny(views, cabled[..g + 1], host, best[host]) {
      GatewaysGrow(views, cabled, g, host, best[host]);
    }
    var gateways := cabled[..g + 1];
    forall host, d | SeenByAny(views, gateways, host, d) ensures host in best && best[host] <= d {
      GatewaysGrow(views, cabled, g, host, d);
    }
  }

  lemma {:induction false} FirstSameIsRouted(views: Views, routes: seq<Route>, mac: string) returns (i: nat)
    requires FirstSame(views, routes, mac).Some?
    ensures i < |routes| && routes[i].originator == FirstSame(views, routes, mac).value
    decreases |routes|
  {
    if Same(views, routes[0].originator, mac) {
      i := 0;
    } else {
      var k := FirstSameIsRouted(views, routes[1..], mac);
      i := k + 1;
    }
  }

  /** Deepest first never cuts a node off: where a host's least depth is over a node not next to the
      gateway, the host it is reached through there has a lesser one. */
  lemma {:induction false} ReachedThroughShallower(views: Views, cabled: seq<string>, best: map<string, nat>, g: nat, i: nat, host: string)
    requires IsLeast(views, cabled, best) && g < |cabled| && i < |ViewOf(views, cabled[g])| && host in best
    requires SeenAt(views, ViewOf(views, cabled[g]), i, host, best[host])
    requires var routes := ViewOf(views, cabled[g]); !Direct(views, routes, routes[i].originator)
    ensures var routes := ViewOf(views, cabled[g]);
      var hop := Hop(views, routes, routes[i].originator);
      hop.Some? && var through := HostOf(views, hop.value); through != "" ==> through in best && best[through] < best[host]
  {
    var routes := ViewOf(views, cabled[g]);
    var mac := routes[i].originator;
    HopIsOneLess(views, routes, mac);
    var hop := Hop(views, routes, mac).value;
    var k := FirstSameIsRouted(views, routes, Via(routes, mac).value);
    var through := HostOf(views, hop);
    if through != "" {
      assert SeenAt(views, routes, k, through, best[host] - 1);
      assert Seen(views, cabled[g], through, best[host] - 1);
      assert SeenByAny(views, cabled, through, best[host] - 1);
    }
  }
}

/** What a mesh table says, read plainly (src/apply/meshOrder.ts): of two entries for one MAC the last
    counts, a next hop is the table's first node of that host, and a chain's nodes are as deep as they
    are far along it. */
module MeshLaws {
  import opened Wrappers
  import opened MeshOrder

  // ----- Which entry counts -----

  /** The last host that has a MAC. */
  lemma {:induction false} HostIsLast(views: Views, mac: string, i: nat)
    requires i < |views| && mac in views[i].1.macs
    requires forall j :: i < j < |views| ==> mac !in views[j].1.macs
    ensures HostOf(views, mac) == views[i].0
    decreases |views|
  {
    if i < |views| - 1 { HostIsLast(views[..|views| - 1], mac, i); }
  }

  lemma {:induction false} NoHost(views: Views, mac: string)
    requires forall j :: 0 <= j < |views| ==> mac !in views[j].1.macs
    ensures HostOf(views, mac) == ""
    decreases |views|
  {
    if views != [] { NoHost(views[..|views| - 1], mac); }
  }

  /** A host's last table; none if it has none. */
  lemma {:induction false} ViewIsLast(views: Views, i: nat)
    requires i < |views| && forall j :: i < j < |views| ==> views[j].0 != views[i].0
    ensures ViewOf(views, views[i].0) == views[i].1.routes
    decreases |views|
  {
    if i < |views| - 1 { ViewIsLast(views[..|views| - 1], i); }
  }

  /** A node's last entry. */
  lemma {:induction false} ViaIsLast(routes: seq<Route>, i: nat)
    requires i < |routes| && routes[i].nexthop != ""
    requires forall j :: i < j < |routes| ==> routes[j].originator != routes[i].originator
    ensures Via(routes, routes[i].originator) == Some(routes[i].nexthop)
    decreases |routes|
  {
    if i < |routes| - 1 { ViaIsLast(routes[..|routes| - 1], i); }
  }

  /** The first node of the next hop's host. */
  lemma {:induction false} HopIsFirst(views: Views, routes: seq<Route>, mac: string, i: nat)
    requires i < |routes| && Same(views, routes[i].originator, mac) && routes[i].originator != ""
    requires forall j :: 0 <= j < i ==> !Same(views, routes[j].originator, mac)
    ensures FirstSame(views, routes, mac) == Some(routes[i].originator)
    decreases i
  {
    if i > 0 { HopIsFirst(views, routes[1..], mac, i - 1); }
  }

  // ----- A chain -----

  /** Nodes in a line from a gateway, each a host with a MAC it is known by and one on its links, and
      reached over the link of the one before. */
  ghost predicate IsChain(views: Views, routes: seq<Route>, macs: seq<string>, links: seq<string>) {
    && |macs| == |links| == |routes|
    && (forall i :: 0 <= i < |macs| ==> macs[i] != "" && links[i] != "")
    && (forall i :: 0 <= i < |macs| ==> HostOf(views, macs[i]) == HostOf(views, links[i]) != "")
    && (forall i, j :: 0 <= i < j < |macs| ==> HostOf(views, macs[i]) != HostOf(views, macs[j]))
    && forall i :: 0 <= i < |routes| ==> routes[i] == Route(macs[i], links[if i == 0 then 0 else i - 1])
  }

  lemma {:induction false} ChainStep(views: Views, routes: seq<Route>, macs: seq<string>, links: seq<string>, k: nat)
    requires IsChain(views, routes, macs, links) && k < |macs|
    ensures if k == 0 then Direct(views, routes, macs[0]) else Hop(views, routes, macs[k]) == Some(macs[k - 1])
  {
    assert routes[k].originator == macs[k];
    forall j | k < j < |routes| ensures routes[j].originator != routes[k].originator {
      assert routes[j].originator == macs[j];
    }
    ViaIsLast(routes, k);
    if k > 0 {
      var link := links[k - 1];
      assert HostOf(views, link) == HostOf(views, macs[k - 1]);
      assert !Same(views, link, macs[k]);
      forall j | 0 <= j < k - 1 ensures !Same(views, routes[j].originator, link) {
        assert routes[j].originator == macs[j];
      }
      assert routes[k - 1].originator == macs[k - 1];
      HopIsFirst(views, routes, link, k - 1);
    }
  }

  lemma {:induction false} ChainPath(views: Views, routes: seq<Route>, macs: seq<string>, links: seq<string>, k: nat) returns (path: seq<string>)
    requires IsChain(views, routes, macs, links) && k < |macs|
    ensures IsPath(views, routes, path) && path[0] == macs[k] && |path| == k + 1
    decreases k
  {
    ChainStep(views, routes, macs, links, k);
    if k == 0 {
      path := [macs[0]];
    } else {
      var rest := ChainPath(views, routes, macs, links, k - 1);
      path := [macs[k]] + rest;
      StepPath(views, routes, macs[k], rest);
    }
  }

  lemma {:induction false} StepPath(views: Views, routes: seq<Route>, mac: string, rest: seq<string>)
    requires IsPath(views, routes, rest) && Hop(views, routes, mac) == Some(rest[0])
    ensures IsPath(views, routes, [mac] + rest)
  {
    var path := [mac] + rest;
    forall i | 0 <= i < |path| - 1 ensures Hop(views, routes, path[i]) == Some(path[i + 1]) {
      if i > 0 { assert path[i] == rest[i - 1] && path[i + 1] == rest[i]; }
    }
  }

  /** In a chain each node is as deep as it is far from the gateway, the first at 1. */
  lemma {:induction false} ChainDepth(views: Views, routes: seq<Route>, macs: seq<string>, links: seq<string>, k: nat)
    requires IsChain(views, routes, macs, links) && k < |macs|
    ensures Depth(views, routes, macs[k], {}) == Some(k + 1)
  {
    var path := ChainPath(views, routes, macs, links, k);
    PathIsDepth(views, routes, path, {});
  }
}

/** What fitting lines to a device's ports promises (src/engine/ports.ts): a VLAN a line, a line a
    reference, and a device an interface. */
module PortsLaws {
  import opened Wrappers
  import opened Text
  import opened Ports

  predicate DistinctVlans(lines: seq<SwitchLine>, vlans: seq<int>) {
    && (forall i, j :: 0 <= i < j < |lines| ==> lines[i].vlan != lines[j].vlan)
    && forall i :: 0 <= i < |lines| ==> lines[i].vlan !in vlans
  }

  predicate OneUntagged(lines: seq<SwitchLine>) {
    forall i, j :: 0 <= i < j < |lines| && !lines[i].tagged && !lines[j].tagged ==> lines[i].port != lines[j].port
  }

  predicate DistinctPorts(ports: seq<string>) {
    forall i, j :: 0 <= i < j < |ports| ==> ports[i] != ports[j]
  }

  // ----- Tagged lines -----

  predicate IsTaggedLine(l: SwitchLine, ports: seq<string>, lines: seq<Line>) {
    l.tagged && l.port in ports && l.vlan > 0 && Line(l.port, Some(l.vlan)) in lines
  }

  lemma {:induction false} TaggedMembers(ports: seq<string>, lines: seq<Line>, l: SwitchLine)
    ensures l in Tagged(ports, lines) <==> IsTaggedLine(l, ports, lines)
    decreases |ports|
  {
    if ports != [] {
      var last := ports[|ports| - 1];
      TaggedMembers(ports[..|ports| - 1], lines, l);
      var vlans := Unique(VlansOn(lines, last));
      TaggedOnMembers(last, vlans, l);
      assert ports == ports[..|ports| - 1] + [last];
      assert Tagged(ports, lines) == Tagged(ports[..|ports| - 1], lines) + TaggedOn(last, vlans);
      VlansMembers(lines, last, l.vlan);
    }
  }

  lemma {:induction false} VlansMembers(lines: seq<Line>, port: string, vlan: int)
    ensures vlan in Unique(VlansOn(lines, port)) <==> vlan > 0 && Line(port, Some(vlan)) in lines
  {
    var vlans := VlansOn(lines, port);
    assert vlan in Unique(vlans) <==> vlan in vlans;
    VlansFound(lines, port, vlan);
  }

  lemma {:induction false} VlansFound(lines: seq<Line>, port: string, vlan: int)
    ensures vlan in VlansOn(lines, port) <==> vlan > 0 && Line(port, Some(vlan)) in lines
    decreases |lines|
  {
    if lines != [] {
      var less, last := lines[..|lines| - 1], lines[|lines| - 1];
      VlansFound(less, port, vlan);
      assert lines == less + [last];
    }
  }

  lemma {:induction false} TaggedOnMembers(port: string, vlans: seq<int>, l: SwitchLine)
    ensures l in TaggedOn(port, vlans) <==> l.tagged && l.port == port && l.vlan in vlans
  {
    if l.tagged && l.port == port && l.vlan in vlans {
      var i :| 0 <= i < |vlans| && vlans[i] == l.vlan;
      assert TaggedOn(port, vlans)[i] == l;
    }
  }

  lemma {:induction false} SwitchPortsDistinct(board: Board, ports: seq<string>)
    requires DistinctPorts(ports)
    ensures DistinctPorts(SwitchPorts(board, ports))
    decreases |ports|
  {
    if ports != [] { SwitchPortsDistinct(board, ports[..|ports| - 1]); }
  }

  lemma {:induction false} TaggedDistinct(ports: seq<string>, lines: seq<Line>)
    requires DistinctPorts(ports)
    ensures forall i, j :: 0 <= i < j < |Tagged(ports, lines)| ==> Tagged(ports, lines)[i] != Tagged(ports, lines)[j]
    decreases |ports|
  {
    if ports != [] {
      var less, port := ports[..|ports| - 1], ports[|ports| - 1];
      var a, b := Tagged(less, lines), TaggedOn(port, Unique(VlansOn(lines, port)));
      TaggedDistinct(less, lines);
      forall i | 0 <= i < |a| ensures a[i].port != port {
        TaggedMembers(less, lines, a[i]);
      }
    }
  }

  // ----- All lines -----

  lemma {:induction false} UntaggedAdded(board: Board, net: Network, ports: seq<string>, tagged: seq<SwitchLine>)
    requires DistinctPorts(ports) && DistinctVlans(tagged, net.vlans) && forall i :: 0 <= i < |tagged| ==> tagged[i].tagged
    ensures var lines := WithUntagged(board, net, ports, tagged);
      && DistinctVlans(lines, net.vlans) && OneUntagged(lines)
      && tagged <= lines
      && forall i :: |tagged| <= i < |lines| ==> !lines[i].tagged && lines[i].port in ports
    decreases |ports|
  {
    if ports != [] {
      var less, port := ports[..|ports| - 1], ports[|ports| - 1];
      UntaggedAdded(board, net, less, tagged);
      var before := WithUntagged(board, net, less, tagged);
      var taken := net.vlans + Vlans(before);
      var vlan := FirstFree(taken, 2);
      forall i | 0 <= i < |before| ensures before[i].vlan != vlan {
        assert Vlans(before)[i] == before[i].vlan && before[i].vlan in taken;
      }
      assert forall v :: v in net.vlans ==> v in taken;
    }
  }

  predicate HasUntagged(lines: seq<SwitchLine>, port: string) {
    exists i :: 0 <= i < |lines| && lines[i].port == port && !lines[i].tagged
  }

  /** Each port that needs an untagged line has one. */
  lemma {:induction false} UntaggedThere(board: Board, net: Network, ports: seq<string>, tagged: seq<SwitchLine>, port: string)
    requires port in ports && (!HasTagged(tagged, port) || HasBare(board, net.interfaces, port))
    ensures HasUntagged(WithUntagged(board, net, ports, tagged), port)
    decreases |ports|
  {
    var lines := WithUntagged(board, net, ports, tagged);
    if ports[|ports| - 1] == port {
      assert lines[|lines| - 1].port == port;
    } else {
      var less := WithUntagged(board, net, ports[..|ports| - 1], tagged);
      UntaggedThere(board, net, ports[..|ports| - 1], tagged, port);
      var i :| 0 <= i < |less| && less[i].port == port && !less[i].tagged;
      assert lines[i] == less[i];
    }
  }

  /** The parts of an accepted fit. */
  lemma {:induction false} Accepted(board: Board, net: Network) returns (lines: seq<Line>, ports: seq<string>, tagged: seq<SwitchLine>)
    requires Drawn(net) && SwitchLines(board, net).Ok?
    ensures AllThere(board, net.refs) && lines == Lines(board, net.refs)
    ensures ports == LinePorts(board, lines) && DistinctPorts(ports) && tagged == Tagged(ports, lines)
    ensures DistinctVlans(tagged, net.vlans) && forall i :: 0 <= i < |tagged| ==> tagged[i].tagged
    ensures SwitchLines(board, net) == Ok(WithUntagged(board, net, ports, tagged))
  {
    lines := Lines(board, net.refs);
    ports := LinePorts(board, lines);
    tagged := Tagged(ports, lines);
    SwitchPortsDistinct(board, Unique(PortsOf(lines)));
    TaggedDistinct(ports, lines);
    forall i | 0 <= i < |tagged| ensures tagged[i].tagged { TaggedMembers(ports, lines, tagged[i]); }
    assert forall i, j :: 0 <= i < j < |tagged| && tagged[i].vlan == tagged[j].vlan ==> tagged[i] == tagged[j];
  }

  /** Whenever a fit is accepted, no two of the switch's lines have one VLAN, none has a network's,
      and no port has two untagged lines. */
  lemma {:induction false} LinesApart(board: Board, net: Network)
    requires Drawn(net) && SwitchLines(board, net).Ok?
    ensures DistinctVlans(SwitchLines(board, net).value, net.vlans) && OneUntagged(SwitchLines(board, net).value)
  {
    var lines, ports, tagged := Accepted(board, net);
    UntaggedAdded(board, net, ports, tagged);
  }

  predicate Fits(l: SwitchLine, port: string, tagged: Option<bool>, vlan: Option<int>) {
    l.port == port && (tagged.Some? ==> l.tagged == tagged.value) && (vlan.Some? ==> l.vlan == vlan.value)
  }

  lemma {:induction false} FindLineFinds(lines: seq<SwitchLine>, port: string, tagged: Option<bool>, vlan: Option<int>)
    ensures var found := FindLine(lines, port, tagged, vlan);
      && (found.Some? ==> Fits(found.value, port, tagged, vlan) && found.value in lines)
      && (found.None? ==> forall i :: 0 <= i < |lines| ==> !Fits(lines[i], port, tagged, vlan))
    decreases |lines|
  {
    if lines != [] { FindLineFinds(lines[1..], port, tagged, vlan); }
  }

  lemma {:induction false} PortOfLine(board: Board, lines: seq<Line>, line: Line)
    requires line in lines
    ensures line.port in LinePorts(board, lines) <==> OnSwitch(board, line.port)
  {
    var i :| 0 <= i < |lines| && lines[i] == line;
    assert PortsOf(lines)[i] == line.port;
  }

  /** A reference on the switch is a line there just when its VLAN is not 0 (written 0, it is taken
      for none where lines are made, and for one where they are looked up). */
  lemma {:induction false} ReferencesResolve(board: Board, net: Network, k: nat)
    requires Drawn(net) && SwitchLines(board, net).Ok? && k < |net.refs|
    requires AllThere(board, net.refs) && OnSwitch(board, Lines(board, net.refs)[k].port)
    ensures LineFor(SwitchLines(board, net).value, Lines(board, net.refs)[k]).Some? <==> Lines(board, net.refs)[k].vlan != Some(0)
  {
    var lines, ports, tagged := Accepted(board, net);
    var all, line := SwitchLines(board, net).value, lines[k];
    UntaggedAdded(board, net, ports, tagged);
    PortOfLine(board, lines, line);
    if line.vlan.Some? {
      var vlan := line.vlan.value;
      FindLineFinds(all, line.port, Some(true), Some(vlan));
      if vlan != 0 {
        TaggedMembers(ports, lines, SwitchLine(line.port, vlan, true));
        var i :| 0 <= i < |tagged| && tagged[i] == SwitchLine(line.port, vlan, true);
        assert Fits(all[i], line.port, Some(true), Some(vlan));
      } else {
        forall l | l in all ensures !Fits(l, line.port, Some(true), Some(0)) { TaggedNotZero(ports, lines, tagged, all, l); }
      }
    } else {
      BareThere(board, net, ports, tagged, line.port);
      FindLineFinds(all, line.port, None, None);
    }
  }

  lemma {:induction false} TaggedNotZero(ports: seq<string>, lines: seq<Line>, tagged: seq<SwitchLine>, all: seq<SwitchLine>, l: SwitchLine)
    requires tagged == Tagged(ports, lines) && tagged <= all && l in all
    requires forall i :: |tagged| <= i < |all| ==> !all[i].tagged
    ensures l.tagged ==> l.vlan > 0
  {
    var i :| 0 <= i < |all| && all[i] == l;
    if i < |tagged| { TaggedMembers(ports, lines, tagged[i]); }
  }

  lemma {:induction false} BareThere(board: Board, net: Network, ports: seq<string>, tagged: seq<SwitchLine>, port: string)
    requires port in ports && DistinctPorts(ports) && DistinctVlans(tagged, net.vlans) && forall i :: 0 <= i < |tagged| ==> tagged[i].tagged
    ensures exists i :: 0 <= i < |WithUntagged(board, net, ports, tagged)| && WithUntagged(board, net, ports, tagged)[i].port == port
  {
    var all := WithUntagged(board, net, ports, tagged);
    UntaggedAdded(board, net, ports, tagged);
    if HasTagged(tagged, port) {
      var i :| 0 <= i < |tagged| && tagged[i].port == port;
      assert all[i].port == port;
    } else {
      UntaggedThere(board, net, ports, tagged, port);
    }
  }

  // ----- A device an interface -----

  lemma {:induction false} VlanTextOnce(a: int, b: int)
    requires VlanText(a) == VlanText(b)
    ensures a == b
  {
    assert VlanText(a)[0] == VlanText(b)[0];
    assert a >= 0 ==> VlanText(a)[0] != '-';
    assert b >= 0 ==> VlanText(b)[0] != '-';
    if a >= 0 && b >= 0 {
      NumberOfDecimal(a);
      NumberOfDecimal(b);
    } else {
      NumberOfDecimal(-a);
      NumberOfDecimal(-b);
      assert VlanText(a)[1..] == Decimal(-a) && VlanText(b)[1..] == Decimal(-b);
    }
  }

  /** The VLANs of an accepted fit's lines tell them apart. */
  lemma {:induction false} SameVlanSameLine(lines: seq<SwitchLine>, vlans: seq<int>, a: SwitchLine, b: SwitchLine)
    requires DistinctVlans(lines, vlans) && a in lines && b in lines && a.vlan == b.vlan
    ensures a == b
  {
    var i :| 0 <= i < |lines| && lines[i] == a;
    var j :| 0 <= j < |lines| && lines[j] == b;
  }

  /** Names without a dot, and the CPU's device no port's. */
  predicate PlainBoard(board: Board) {
    && (forall i :: 0 <= i < |board.ports| ==> '.' !in board.ports[i].name)
    && (CpuDevice(board.ports).Some? ==> '.' !in CpuDevice(board.ports).value && !IsPhysical(board, CpuDevice(board.ports).value))
  }

  /** A line the config may give an interface: on a port that is there, its VLAN not written 0. */
  predicate GivenLine(board: Board, net: Network, k: nat)
    requires k < |net.interfaces|
  {
    && net.interfaces[k].line.Some? && LineOf(board, net.interfaces[k].line.value).Some?
    && net.interfaces[k].line.value.vlan != Some(0)
  }

  function LineGiven(board: Board, net: Network, k: nat): Line
    requires k < |net.interfaces| && GivenLine(board, net, k)
  {
    LineOf(board, net.interfaces[k].line.value).value
  }

  /** An interface's line on the switch: found, on its port, and tagged just when its VLAN says so. */
  lemma {:induction false} GivenFound(board: Board, net: Network, k: nat) returns (found: SwitchLine)
    requires Drawn(net) && SwitchLines(board, net).Ok? && k < |net.interfaces| && GivenLine(board, net, k)
    requires OnSwitch(board, LineGiven(board, net, k).port)
    ensures LineFor(SwitchLines(board, net).value, LineGiven(board, net, k)) == Some(found)
    ensures found in SwitchLines(board, net).value && found.port == LineGiven(board, net, k).port
    ensures LineGiven(board, net, k).vlan.Some? ==> found.tagged && found.vlan == LineGiven(board, net, k).vlan.value
    ensures LineGiven(board, net, k).vlan.None? ==> !found.tagged
  {
    var lines, ports, tagged := Accepted(board, net);
    var all, line := SwitchLines(board, net).value, LineGiven(board, net, k);
    var at :| 0 <= at < |net.refs| && net.refs[at] == net.interfaces[k].line.value;
    assert lines[at] == line;
    ReferencesResolve(board, net, at);
    found := LineFor(all, line).value;
    if line.vlan.Some? {
      FindLineFinds(all, line.port, Some(true), Some(line.vlan.value));
    } else {
      PortOfLine(board, lines, line);
      UntaggedThere(board, net, ports, tagged, line.port);
      var i :| 0 <= i < |all| && all[i].port == line.port && !all[i].tagged;
      assert Fits(all[i], line.port, Some(false), None);
      FindLineFinds(all, line.port, Some(false), None);
    }
  }

  lemma {:induction false} GivenThere(board: Board, net: Network, k: nat)
    requires Drawn(net) && SwitchLines(board, net).Ok? && k < |net.interfaces| && GivenLine(board, net, k)
    ensures IsPhysical(board, LineGiven(board, net, k).port)
  {
    var at :| 0 <= at < |net.refs| && net.refs[at] == net.interfaces[k].line.value;
  }

  /** Two interfaces on lines, the first of them named, never share a device, if the board's names
      are plain. */
  lemma {:induction false} DevicesApart(board: Board, net: Network, i: nat, j: nat)
    requires Drawn(net) && SwitchLines(board, net).Ok? && PlainBoard(board)
    requires i < j < |net.interfaces| && GivenLine(board, net, i) && GivenLine(board, net, j) && IsNamed(net.interfaces[i])
    requires LineDevice(board, SwitchLines(board, net).value, LineGiven(board, net, i)).Some?
    ensures LineDevice(board, SwitchLines(board, net).value, LineGiven(board, net, i))
      != LineDevice(board, SwitchLines(board, net).value, LineGiven(board, net, j))
  {
    var a, b := LineGiven(board, net, i), LineGiven(board, net, j);
    assert LineKey(a) != LineKey(b);
    GivenThere(board, net, i);
    GivenThere(board, net, j);
    if OnSwitch(board, a.port) && OnSwitch(board, b.port) {
      var x := GivenFound(board, net, i);
      var y := GivenFound(board, net, j);
      LinesApart(board, net);
      if x.vlan == y.vlan { SameVlanSameLine(SwitchLines(board, net).value, net.vlans, x, y); }
      DevicesOnSwitchApart(CpuDevice(board.ports).value, x.vlan, y.vlan);
    } else if OnSwitch(board, a.port) {
      var x := GivenFound(board, net, i);
      OffSwitchApart(board, b, x.vlan);
    } else if OnSwitch(board, b.port) {
      var y := GivenFound(board, net, j);
      if CpuDevice(board.ports).Some? { OffSwitchApart(board, a, y.vlan); }
    }
  }

  lemma {:induction false} DevicesOnSwitchApart(cpu: string, a: int, b: int)
    requires a != b
    ensures cpu + "." + VlanText(a) != cpu + "." + VlanText(b)
  {
    assert (cpu + "." + VlanText(a))[|cpu| + 1..] == VlanText(a);
    assert (cpu + "." + VlanText(b))[|cpu| + 1..] == VlanText(b);
    if VlanText(a) == VlanText(b) { VlanTextOnce(a, b); }
  }

  /** A port's own device is never the CPU's for a VLAN. */
  lemma {:induction false} OffSwitchApart(board: Board, line: Line, vlan: int)
    requires PlainBoard(board) && IsPhysical(board, line.port) && CpuDevice(board.ports).Some?
    ensures LineKey(line) != CpuDevice(board.ports).value + "." + VlanText(vlan)
  {
    var cpu := CpuDevice(board.ports).value;
    var device := cpu + "." + VlanText(vlan);
    assert device[|cpu|] == '.';
    if IsTagged(line.vlan) {
      var key := line.port + "." + Decimal(line.vlan.value);
      assert key[|line.port|] == '.';
      assert forall i :: 0 <= i < |cpu| ==> device[i] == cpu[i];
      assert forall i :: 0 <= i < |line.port| ==> key[i] == line.port[i];
      assert cpu == device[..|cpu|] && line.port == key[..|line.port|];
      assert key == device ==> |cpu| == |line.port|;
    }
  }
}

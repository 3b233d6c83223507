/** Which switch lines there are, on which VLANs, and how the switch and the interfaces name them
    (src/engine/ports.ts, fitPorts). */
module LinesLaws {
  import opened Wrappers
  import opened Text
  import opened Ports
  import opened PortsLaws
  import opened FreePorts
  import opened FreePortsLaws

  // ----- Which lines there are -----

  /** A placeholder on the port. */
  predicate IsOnPort(board: Board, net: Network, port: string) {
    exists k :: 0 <= k < |net.refs| && RefersTo(board, net.refs[k], port)
  }

  predicate RefersTo(board: Board, ref: LinePort, port: string) {
    LineOf(board, ref).Some? && LineOf(board, ref).value.port == port
  }

  /** A placeholder for that VLAN on the port. */
  predicate IsOnVlan(board: Board, net: Network, port: string, vlan: int) {
    vlan > 0 && exists k :: 0 <= k < |net.refs| && RefersTo(board, net.refs[k], port) && LineOf(board, net.refs[k]).value.vlan == Some(vlan)
  }

  predicate HasVlan(board: Board, net: Network, port: string) {
    exists k :: 0 <= k < |net.refs| && RefersTo(board, net.refs[k], port) && IsTagged(LineOf(board, net.refs[k]).value.vlan)
  }

  /** An interface on the port with no VLAN. */
  predicate HasBareInterface(board: Board, net: Network, port: string) {
    exists i :: 0 <= i < |net.interfaces| && net.interfaces[i].line.Some? && RefersTo(board, net.interfaces[i].line.value, port)
      && LineOf(board, net.interfaces[i].line.value).value.vlan.None?
  }

  lemma {:induction false} RefIsLine(board: Board, net: Network, line: Line)
    requires AllThere(board, net.refs)
    ensures line in Lines(board, net.refs) <==> exists k :: 0 <= k < |net.refs| && RefersTo(board, net.refs[k], line.port) && LineOf(board, net.refs[k]) == Some(line)
  {
    var lines := Lines(board, net.refs);
    if k :| 0 <= k < |net.refs| && RefersTo(board, net.refs[k], line.port) && LineOf(board, net.refs[k]) == Some(line) {
      assert lines[k] == line;
    }
    if line in lines {
      var k :| 0 <= k < |lines| && lines[k] == line;
      assert RefersTo(board, net.refs[k], line.port);
    }
  }

  /** The tagged lines are the VLANs that placeholders ask for on the switch's ports. */
  lemma {:induction false} TaggedAre(board: Board, net: Network, port: string, vlan: int)
    requires Drawn(net) && SwitchLines(board, net).Ok?
    ensures SwitchLine(port, vlan, true) in SwitchLines(board, net).value <==> OnSwitch(board, port) && IsOnVlan(board, net, port, vlan)
  {
    var lines, ports, tagged := Accepted(board, net);
    var all, l := SwitchLines(board, net).value, SwitchLine(port, vlan, true);
    UntaggedAdded(board, net, ports, tagged);
    if l in all {
      var i :| 0 <= i < |all| && all[i] == l;
      assert tagged[i] == l;
    }
    if l in tagged {
      var i :| 0 <= i < |tagged| && tagged[i] == l;
      assert all[i] == l;
    }
    TaggedMembers(ports, lines, l);
    if vlan > 0 {
      var line := Line(port, Some(vlan));
      RefIsLine(board, net, line);
      if line in lines { PortOfLine(board, lines, line); }
    }
  }

  lemma {:induction false} PortsAre(board: Board, net: Network, port: string)
    requires AllThere(board, net.refs)
    ensures port in LinePorts(board, Lines(board, net.refs)) <==> OnSwitch(board, port) && IsOnPort(board, net, port)
  {
    var lines := Lines(board, net.refs);
    var ports := PortsOf(lines);
    if port in ports {
      var k :| 0 <= k < |ports| && ports[k] == port;
      assert RefersTo(board, net.refs[k], port);
    }
    if k :| 0 <= k < |net.refs| && RefersTo(board, net.refs[k], port) { assert ports[k] == port; }
  }

  lemma {:induction false} TaggedHere(board: Board, net: Network, lines: seq<Line>, ports: seq<string>, port: string)
    requires AllThere(board, net.refs) && lines == Lines(board, net.refs) && port in ports
    ensures HasTagged(Tagged(ports, lines), port) <==> HasVlan(board, net, port)
  {
    var tagged := Tagged(ports, lines);
    if HasTagged(tagged, port) {
      var i :| 0 <= i < |tagged| && tagged[i].port == port;
      TaggedMembers(ports, lines, tagged[i]);
      RefIsLine(board, net, Line(port, Some(tagged[i].vlan)));
    }
    if k :| 0 <= k < |net.refs| && RefersTo(board, net.refs[k], port) && IsTagged(LineOf(board, net.refs[k]).value.vlan) {
      var l := SwitchLine(port, lines[k].vlan.value, true);
      assert lines[k] == Line(port, Some(l.vlan));
      TaggedMembers(ports, lines, l);
      var i :| 0 <= i < |tagged| && tagged[i] == l;
    }
  }

  lemma {:induction false} UntaggedOnly(board: Board, net: Network, ports: seq<string>, tagged: seq<SwitchLine>, port: string)
    requires forall i :: 0 <= i < |tagged| ==> tagged[i].tagged
    ensures HasUntagged(WithUntagged(board, net, ports, tagged), port) ==> port in ports && (!HasTagged(tagged, port) || HasBare(board, net.interfaces, port))
    decreases |ports|
  {
    if ports != [] {
      var less := WithUntagged(board, net, ports[..|ports| - 1], tagged);
      UntaggedOnly(board, net, ports[..|ports| - 1], tagged, port);
      var all := WithUntagged(board, net, ports, tagged);
      if HasUntagged(all, port) {
        var i :| 0 <= i < |all| && all[i].port == port && !all[i].tagged;
        if i < |less| { assert less[i] == all[i]; }
      }
    }
  }

  /** A port has an untagged line just when it is the switch's, some placeholder is on it, and either none
      asks for a VLAN there or an interface is on the port bare. */
  lemma {:induction false} UntaggedAre(board: Board, net: Network, port: string)
    requires Drawn(net) && SwitchLines(board, net).Ok?
    ensures HasUntagged(SwitchLines(board, net).value, port)
      <==> OnSwitch(board, port) && IsOnPort(board, net, port) && (!HasVlan(board, net, port) || HasBareInterface(board, net, port))
  {
    var lines, ports, tagged := Accepted(board, net);
    PortsAre(board, net, port);
    UntaggedOnly(board, net, ports, tagged, port);
    BareIs(board, net, port);
    if port in ports {
      TaggedHere(board, net, lines, ports, port);
      if !HasTagged(tagged, port) || HasBare(board, net.interfaces, port) { UntaggedThere(board, net, ports, tagged, port); }
    }
  }

  lemma {:induction false} BareIs(board: Board, net: Network, port: string)
    ensures HasBare(board, net.interfaces, port) <==> HasBareInterface(board, net, port)
  {
    if i :| 0 <= i < |net.interfaces| && net.interfaces[i].line.Some? && LineOf(board, net.interfaces[i].line.value) == Some(Line(port, None)) {
      assert RefersTo(board, net.interfaces[i].line.value, port);
    }
  }

  predicate IsTaken(net: Network, lines: seq<SwitchLine>, n: int) {
    n in net.vlans || exists j :: 0 <= j < |lines| && lines[j].vlan == n
  }

  lemma {:induction false} LowestFrom(board: Board, net: Network, ports: seq<string>, tagged: seq<SwitchLine>, k: nat, n: int)
    requires (forall i :: 0 <= i < |tagged| ==> tagged[i].tagged) && k < |WithUntagged(board, net, ports, tagged)|
    requires !WithUntagged(board, net, ports, tagged)[k].tagged && 2 <= n < WithUntagged(board, net, ports, tagged)[k].vlan
    ensures IsTaken(net, WithUntagged(board, net, ports, tagged), n)
    decreases |ports|
  {
    if ports != [] {
      var less, all := WithUntagged(board, net, ports[..|ports| - 1], tagged), WithUntagged(board, net, ports, tagged);
      if k < |less| {
        LowestFrom(board, net, ports[..|ports| - 1], tagged, k, n);
        if j :| 0 <= j < |less| && less[j].vlan == n { assert all[j].vlan == n; }
      } else {
        assert n in net.vlans + Vlans(less);
        if n !in net.vlans {
          var j :| 0 <= j < |less| && Vlans(less)[j] == n;
          assert all[j].vlan == n;
        }
      }
    }
  }

  lemma {:induction false} FromTwo(board: Board, net: Network, ports: seq<string>, tagged: seq<SwitchLine>, k: nat)
    requires (forall i :: 0 <= i < |tagged| ==> tagged[i].tagged) && k < |WithUntagged(board, net, ports, tagged)|
    requires !WithUntagged(board, net, ports, tagged)[k].tagged
    ensures WithUntagged(board, net, ports, tagged)[k].vlan >= 2
    decreases |ports|
  {
    if ports != [] && k < |WithUntagged(board, net, ports[..|ports| - 1], tagged)| {
      FromTwo(board, net, ports[..|ports| - 1], tagged, k);
    }
  }

  /** An untagged line's VLAN is 2 or more, and every one from 2 up to it is a network's or a line's. */
  lemma {:induction false} UntaggedIsLowest(board: Board, net: Network, k: nat, n: int)
    requires Drawn(net) && SwitchLines(board, net).Ok? && k < |SwitchLines(board, net).value| && !SwitchLines(board, net).value[k].tagged
    ensures SwitchLines(board, net).value[k].vlan >= 2
    ensures 2 <= n < SwitchLines(board, net).value[k].vlan ==> IsTaken(net, SwitchLines(board, net).value, n)
  {
    var lines, ports, tagged := Accepted(board, net);
    FromTwo(board, net, ports, tagged, k);
    if 2 <= n < SwitchLines(board, net).value[k].vlan { LowestFrom(board, net, ports, tagged, k, n); }
  }

  // ----- Which line a reference is -----

  lemma {:induction false} FirstFound(lines: seq<SwitchLine>, port: string, tagged: Option<bool>, vlan: Option<int>, k: nat)
    requires k < |lines| && Fits(lines[k], port, tagged, vlan) && forall j :: 0 <= j < k ==> !Fits(lines[j], port, tagged, vlan)
    ensures FindLine(lines, port, tagged, vlan) == Some(lines[k])
    decreases k
  {
    if k > 0 { FirstFound(lines[1..], port, tagged, vlan, k - 1); }
  }

  /** A placeholder with a VLAN is that tagged line; ... */
  lemma {:induction false} VlanIsItsLine(lines: seq<SwitchLine>, port: string, vlan: nat)
    requires SwitchLine(port, vlan, true) in lines
    ensures LineFor(lines, Line(port, Some(vlan))) == Some(SwitchLine(port, vlan, true))
  {
    FindLineFinds(lines, port, Some(true), Some(vlan));
  }

  /** ... a bare one the port's untagged line, or if there is none its first. */
  lemma {:induction false} BareIsUntagged(lines: seq<SwitchLine>, port: string, k: nat)
    requires k < |lines| && lines[k].port == port
    requires if HasUntagged(lines, port) then OneUntagged(lines) && !lines[k].tagged else forall j :: 0 <= j < k ==> lines[j].port != port
    ensures LineFor(lines, Line(port, None)) == Some(lines[k])
  {
    FindLineFinds(lines, port, Some(false), None);
    if HasUntagged(lines, port) {
      var found := FindLine(lines, port, Some(false), None);
      assert Fits(lines[k], port, Some(false), None);
      var j :| 0 <= j < |lines| && lines[j] == found.value;
      assert j == k;
    } else {
      FirstFound(lines, port, None, None, k);
    }
  }

  // ----- Which ports of the board -----

  /** The CPU's port is the first that has a device. */
  lemma {:induction false} CpuIsFirst(ports: seq<Port>, k: nat)
    requires k < |ports| && ports[k].cpuDevice.Some? && forall j :: 0 <= j < k ==> ports[j].cpuDevice.None?
    ensures CpuDevice(ports) == ports[k].cpuDevice && CpuPort(ports) == Some(ports[k].name)
    decreases k
  {
    if k > 0 { CpuIsFirst(ports[1..], k - 1); }
  }

  /** The WAN port is the first the board says is, the CPU's aside. */
  lemma {:induction false} WanIsFirst(ports: seq<Port>, k: nat)
    requires k < |ports| && ports[k].isWan && ports[k].cpuDevice.None?
    requires forall j :: 0 <= j < k ==> !ports[j].isWan || ports[j].cpuDevice.Some?
    ensures WanPort(ports) == Some(ports[k].name)
    decreases k
  {
    if k > 0 { WanIsFirst(ports[1..], k - 1); }
  }

  // ----- Names -----

  /** A line on the switch is on the device the CPU's port has for its VLAN: the one a network on that VLAN
      would be on, a VLAN of the CPU's. */
  lemma {:induction false} LineIsCpuVlan(board: Board, lines: seq<SwitchLine>, line: Line, vlan: nat)
    requires OnSwitch(board, line.port) && CpuDevice(board.ports).Some?
    requires LineFor(lines, line).Some? && LineFor(lines, line).value.vlan == vlan
    ensures LineDevice(board, lines, line).Some?
    ensures Resolved(board, lines, OnCpu(Some(vlan))) == Word(LineDevice(board, lines, line).value)
    ensures IsOn(LineDevice(board, lines, line).value, CpuDevice(board.ports).value)
    ensures Resolved(board, lines, OnCpu(None)) == Word(CpuDevice(board.ports).value)
  {
    var cpu := CpuDevice(board.ports).value;
    var device := cpu + "." + Decimal(vlan);
    assert device[..|cpu|] == cpu && device[|cpu| + 1..] == Decimal(vlan);
    assert cpu + "" == cpu;
  }

  /** Beside the switch a line is the port, or the VLAN on it. */
  lemma {:induction false} LineIsPortVlan(board: Board, lines: seq<SwitchLine>, line: Line)
    requires !OnSwitch(board, line.port)
    ensures LineDevice(board, lines, line).Some? && IsOn(LineDevice(board, lines, line).value, line.port)
    ensures LineDevice(board, lines, line).value == line.port <==> !IsTagged(line.vlan)
  {
    if IsTagged(line.vlan) {
      var device := line.port + "." + Decimal(line.vlan.value);
      assert device[..|line.port|] == line.port && device[|line.port| + 1..] == Decimal(line.vlan.value);
    } else {
      assert LineKey(line) == line.port + "" == line.port;
    }
  }

  /** The switch's own list of a VLAN: the CPU's number tagged, then these. */
  predicate IsCpu(board: Board, cpu: Port) {
    cpu in board.ports && CpuPort(board.ports) == Some(cpu.name) && cpu.switchPort.Some?
  }

  /** A port's number in a list, with the flag for tagged or bare. */
  function NumberOf(port: Port, tagged: bool): string
    requires port.switchPort.Some?
  {
    Decimal(port.switchPort.value) + if tagged then "t" else ""
  }

  lemma {:induction false} EntryIsNumber(board: Board, port: Port, tagged: bool)
    requires DistinctNames(board.ports) && NoColons(board.ports) && port in board.ports && port.switchPort.Some?
    ensures SwitchEntry(board.ports, port.name + if tagged then ":t" else "") == Some(NumberOf(port, tagged))
  {
    FlagRead(port.name, "t");
    NamedFirst(board.ports, port);
    assert port.name + ":t" == port.name + ":" + "t" && port.name + "" == port.name;
  }

  /** A line's switch VLAN, as the switch lists it: the CPU tagged, and the line's port, tagged just when
      the line is. */
  lemma {:induction false} LineIsListed(board: Board, fit: Fit, line: SwitchLine, cpu: Port, port: Port)
    requires DistinctNames(board.ports) && NoColons(board.ports) && IsCpu(board, cpu)
    requires port in board.ports && port.switchPort.Some? && port.name == line.port
    ensures LineVlan(line).vlan == line.vlan
    ensures VlanPorts(board, fit, LineVlan(line)) == Ok([NumberOf(cpu, true), NumberOf(port, line.tagged)])
  {
    EntryIsNumber(board, cpu, true);
    EntryIsNumber(board, port, line.tagged);
    var entry := line.port + if line.tagged then ":t" else "";
    OneWord(entry, fit.freeOnSwitch);
    TwoEntries(board.ports, cpu.name + ":t", entry);
  }

  lemma {:induction false} OneWord(entry: string, free: seq<string>)
    ensures Expanded([Word(entry)], free) == Ok([entry])
  {
    assert [Word(entry)][1..] == [];
    assert Expanded([], free) == Ok([]);
    assert [entry] + [] == [entry];
  }

  /** Free ports in a list, untagged or tagged. */
  function FreeEntries(free: seq<string>, tagged: bool): seq<string> {
    seq(|free|, i requires 0 <= i < |free| => free[i] + if tagged then ":t" else "")
  }

  /** Free ports that are the switch's. */
  predicate ArePorts(board: Board, free: seq<string>, ports: seq<Port>) {
    |ports| == |free| && forall i :: 0 <= i < |free| ==> ports[i] in board.ports && ports[i].switchPort.Some? && ports[i].name == free[i]
  }

  function Numbers(ports: seq<Port>, tagged: bool): seq<string>
    requires forall i :: 0 <= i < |ports| ==> ports[i].switchPort.Some?
  {
    if ports == [] then [] else [NumberOf(ports[0], tagged)] + Numbers(ports[1..], tagged)
  }

  lemma {:induction false} EntriesAreNumbers(board: Board, free: seq<string>, ports: seq<Port>, tagged: bool)
    requires DistinctNames(board.ports) && NoColons(board.ports) && ArePorts(board, free, ports)
    ensures SwitchEntries(board.ports, FreeEntries(free, tagged)) == Ok(Numbers(ports, tagged))
    decreases |free|
  {
    if free == [] {
      assert FreeEntries(free, tagged) == [];
    } else {
      EntryIsNumber(board, ports[0], tagged);
      EntriesAreNumbers(board, free[1..], ports[1..], tagged);
      assert FreeEntries(free, tagged)[1..] == FreeEntries(free[1..], tagged);
    }
  }

  lemma {:induction false} FreeExpands(free: seq<string>, tagged: bool)
    ensures Expanded([Free(tagged)], free) == Ok(FreeEntries(free, tagged))
  {
    var entries := if tagged then TaggedNames(free) else free;
    assert [Free(tagged)][1..] == [];
    assert Expanded([], free) == Ok([]);
    assert entries + [] == entries;
    forall i | 0 <= i < |free| ensures entries[i] == FreeEntries(free, tagged)[i] {
      if !tagged { assert free[i] + "" == free[i]; }
    }
    assert entries == FreeEntries(free, tagged);
  }

  /** A VLAN of all the switch's free ports lists the CPU tagged and each free port's number, tagged just
      when the placeholder says. */
  lemma {:induction false} FreeIsListed(board: Board, fit: Fit, vlan: int, tagged: bool, cpu: Port, ports: seq<Port>)
    requires DistinctNames(board.ports) && NoColons(board.ports) && IsCpu(board, cpu) && ArePorts(board, fit.freeOnSwitch, ports)
    ensures VlanPorts(board, fit, VlanSection(vlan, Some(One(Free(tagged)))))
      == Ok([NumberOf(cpu, true)] + Numbers(ports, tagged))
  {
    var free := fit.freeOnSwitch;
    EntryIsNumber(board, cpu, true);
    EntriesAreNumbers(board, free, ports, tagged);
    FreeExpands(free, tagged);
    assert ([cpu.name + ":t"] + FreeEntries(free, tagged))[1..] == FreeEntries(free, tagged);
  }
}

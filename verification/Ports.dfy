/** Internet lines on a device's ports (src/engine/ports.ts, fitPorts; src/engine/values.ts,
    firstFree): on a switch, each line gets a switch VLAN of its own. */
module Ports {
  import opened Wrappers
  import opened Text

  /** A port of the board: the CPU's has a device, a switch's a number there. */
  datatype Port = Port(name: string, cpuDevice: Option<string>, switchPort: Option<nat>, isWan: bool)

  datatype Board = Board(swConfig: bool, switchName: string, ports: seq<Port>)

  /** A line's placeholder: a port by name or the board's WAN port, with or without a VLAN. */
  datatype LinePort = LinePort(port: Option<string>, vlan: Option<nat>)

  datatype Line = Line(port: string, vlan: Option<nat>)

  datatype SwitchLine = SwitchLine(port: string, vlan: int, tagged: bool)

  /** An interface and, if its device is a line, that. */
  datatype Interface = Interface(name: Option<string>, line: Option<LinePort>)

  /** What a device's config says of lines: every placeholder in it, its interfaces, and the VLANs
      its networks have on the switch. */
  datatype Network = Network(refs: seq<LinePort>, interfaces: seq<Interface>, vlans: seq<int>)

  /** An interface's line is among the config's placeholders. */
  predicate Drawn(net: Network) {
    forall i :: 0 <= i < |net.interfaces| && net.interfaces[i].line.Some? ==> net.interfaces[i].line.value in net.refs
  }

  // ----- Free numbers -----

  function From(taken: seq<int>, from: int): set<int> {
    set n | n in taken && n >= from
  }

  /** The lowest number from `from` up not taken: one taken fewer is left at each step. */
  function FirstFree(taken: seq<int>, from: int): (n: int)
    ensures n >= from && n !in taken && forall k :: from <= k < n ==> k in taken
    decreases |From(taken, from)|
  {
    if from in taken then
      assert From(taken, from) == From(taken, from + 1) + {from};
      FirstFree(taken, from + 1)
    else from
  }

  // ----- Ports -----

  predicate OnSwitch(board: Board, name: string) {
    board.swConfig && exists i :: 0 <= i < |board.ports| && board.ports[i].name == name && board.ports[i].switchPort.Some?
  }

  predicate IsPhysical(board: Board, name: string) {
    exists i :: 0 <= i < |board.ports| && board.ports[i].name == name && board.ports[i].cpuDevice.None?
  }

  function WanPort(ports: seq<Port>): Option<string> {
    if ports == [] then None
    else if ports[0].isWan && ports[0].cpuDevice.None? then Some(ports[0].name)
    else WanPort(ports[1..])
  }

  function CpuDevice(ports: seq<Port>): Option<string> {
    if ports == [] then None else if ports[0].cpuDevice.Some? then ports[0].cpuDevice else CpuDevice(ports[1..])
  }

  /** The line of a placeholder; refused where it is the WAN port's and the board has none. */
  function LineOf(board: Board, p: LinePort): Option<Line> {
    if p.port.Some? then Some(Line(p.port.value, p.vlan))
    else if WanPort(board.ports).Some? then Some(Line(WanPort(board.ports).value, p.vlan))
    else None
  }

  predicate AllThere(board: Board, refs: seq<LinePort>) {
    forall i :: 0 <= i < |refs| ==> LineOf(board, refs[i]).Some? && IsPhysical(board, LineOf(board, refs[i]).value.port)
  }

  function Lines(board: Board, refs: seq<LinePort>): seq<Line>
    requires AllThere(board, refs)
  {
    seq(|refs|, i requires 0 <= i < |refs| => LineOf(board, refs[i]).value)
  }

  /** A VLAN there and not 0. */
  predicate IsTagged(vlan: Option<nat>) {
    vlan.Some? && vlan.value != 0
  }

  /** How a line is told from another: its port, and its VLAN if tagged. */
  function LineKey(line: Line): string {
    line.port + if IsTagged(line.vlan) then "." + Decimal(line.vlan.value) else ""
  }

  /** No two interfaces, the first of them named, on one line. */
  predicate NoneShared(board: Board, interfaces: seq<Interface>)
    requires forall i :: 0 <= i < |interfaces| && interfaces[i].line.Some? ==> LineOf(board, interfaces[i].line.value).Some?
  {
    forall i, j :: 0 <= i < j < |interfaces| && interfaces[i].line.Some? && interfaces[j].line.Some? && IsNamed(interfaces[i]) ==>
      LineKey(LineOf(board, interfaces[i].line.value).value) != LineKey(LineOf(board, interfaces[j].line.value).value)
  }

  predicate IsNamed(iface: Interface) {
    iface.name.Some? && iface.name.value != ""
  }

  // ----- Switch VLANs -----

  /** Each once, in the order first told. */
  function Unique<T(==,!new)>(items: seq<T>): (unique: seq<T>)
    ensures forall item :: item in unique <==> item in items
    ensures forall i, j :: 0 <= i < j < |unique| ==> unique[i] != unique[j]
  {
    if items == [] then []
    else
      var less, last := Unique(items[..|items| - 1]), items[|items| - 1];
      if last in less then less else less + [last]
  }

  function PortsOf(lines: seq<Line>): seq<string> {
    seq(|lines|, i requires 0 <= i < |lines| => lines[i].port)
  }

  function SwitchPorts(board: Board, ports: seq<string>): (onSwitch: seq<string>)
    ensures forall port :: port in onSwitch <==> port in ports && OnSwitch(board, port)
  {
    if ports == [] then []
    else SwitchPorts(board, ports[..|ports| - 1]) + (if OnSwitch(board, ports[|ports| - 1]) then [ports[|ports| - 1]] else [])
  }

  function VlansOn(lines: seq<Line>, port: string): seq<int> {
    if lines == [] then []
    else
      var last := lines[|lines| - 1];
      VlansOn(lines[..|lines| - 1], port) + (if last.port == port && IsTagged(last.vlan) then [last.vlan.value] else [])
  }

  function TaggedOn(port: string, vlans: seq<int>): seq<SwitchLine> {
    seq(|vlans|, i requires 0 <= i < |vlans| => SwitchLine(port, vlans[i], true))
  }

  function Tagged(ports: seq<string>, lines: seq<Line>): seq<SwitchLine> {
    if ports == [] then []
    else Tagged(ports[..|ports| - 1], lines) + TaggedOn(ports[|ports| - 1], Unique(VlansOn(lines, ports[|ports| - 1])))
  }

  /** A tagged line's VLAN is no network's, and on no other port. */
  predicate TaggedFit(tagged: seq<SwitchLine>, vlans: seq<int>) {
    && (forall i :: 0 <= i < |tagged| ==> tagged[i].vlan !in vlans)
    && forall i, j :: 0 <= i < |tagged| && 0 <= j < |tagged| && tagged[i].vlan == tagged[j].vlan ==> tagged[i].port == tagged[j].port
  }

  function Vlans(lines: seq<SwitchLine>): seq<int> {
    seq(|lines|, i requires 0 <= i < |lines| => lines[i].vlan)
  }

  predicate HasTagged(tagged: seq<SwitchLine>, port: string) {
    exists i :: 0 <= i < |tagged| && tagged[i].port == port
  }

  /** An interface on the bare port. */
  predicate HasBare(board: Board, interfaces: seq<Interface>, port: string) {
    exists i :: 0 <= i < |interfaces| && interfaces[i].line.Some? && LineOf(board, interfaces[i].line.value) == Some(Line(port, None))
  }

  /** The tagged lines, and a free VLAN untagged for each port that needs one. */
  function WithUntagged(board: Board, net: Network, ports: seq<string>, tagged: seq<SwitchLine>): seq<SwitchLine> {
    if ports == [] then tagged
    else
      var (less, port) := (WithUntagged(board, net, ports[..|ports| - 1], tagged), ports[|ports| - 1]);
      if HasTagged(tagged, port) && !HasBare(board, net.interfaces, port) then less
      else less + [SwitchLine(port, FirstFree(net.vlans + Vlans(less), 2), false)]
  }

  function LinePorts(board: Board, lines: seq<Line>): seq<string> {
    SwitchPorts(board, Unique(PortsOf(lines)))
  }

  /** The switch's lines; refused for a port that is not there, two interfaces on one line, or a VLAN
      on two ports or a network's. */
  function SwitchLines(board: Board, net: Network): Result<seq<SwitchLine>>
    requires Drawn(net)
  {
    if !AllThere(board, net.refs) then Err
    else
      if !NoneShared(board, net.interfaces) then Err
      else
        var lines := Lines(board, net.refs);
        var ports := LinePorts(board, lines);
        var tagged := Tagged(ports, lines);
        if !TaggedFit(tagged, net.vlans) then Err else Ok(WithUntagged(board, net, ports, tagged))
  }

  function FindLine(lines: seq<SwitchLine>, port: string, tagged: Option<bool>, vlan: Option<int>): Option<SwitchLine> {
    if lines == [] then None
    else if lines[0].port == port && (tagged.Some? ==> lines[0].tagged == tagged.value) && (vlan.Some? ==> lines[0].vlan == vlan.value) then Some(lines[0])
    else FindLine(lines[1..], port, tagged, vlan)
  }

  /** The switch line a reference is: a bare port its untagged one, or else its first. */
  function LineFor(lines: seq<SwitchLine>, line: Line): Option<SwitchLine> {
    if line.vlan.Some? then FindLine(lines, line.port, Some(true), Some(line.vlan.value))
    else if FindLine(lines, line.port, Some(false), None).Some? then FindLine(lines, line.port, Some(false), None)
    else FindLine(lines, line.port, None, None)
  }

  /** A line's device: the CPU's for its VLAN on the switch, else the port's own. */
  function LineDevice(board: Board, lines: seq<SwitchLine>, line: Line): Option<string> {
    if !OnSwitch(board, line.port) then Some(LineKey(line))
    else if LineFor(lines, line).None? || CpuDevice(board.ports).None? then None
    else Some(CpuDevice(board.ports).value + "." + VlanText(LineFor(lines, line).value.vlan))
  }

  /** A VLAN as it prints. */
  function VlanText(vlan: int): string {
    if vlan < 0 then "-" + Decimal(-vlan) else Decimal(vlan)
  }
}

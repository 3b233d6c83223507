/** What the free ports promise (src/engine/ports.ts:161-229): exactly when a port is free, and
    exactly when one taken as free is in another list too. */
module FreePortsLaws {
  import opened Wrappers
  import opened Text
  import opened Ports
  import opened PortsLaws
  import opened FreePorts

  /** Ports told apart by their names. */
  predicate DistinctNames(ports: seq<Port>) {
    forall i, j :: 0 <= i < j < |ports| ==> ports[i].name != ports[j].name
  }

  predicate AnyNamed(ports: seq<Port>, name: string) {
    exists i :: 0 <= i < |ports| && ports[i].name == name
  }

  predicate NoColons(ports: seq<Port>) {
    forall i :: 0 <= i < |ports| ==> ':' !in ports[i].name
  }

  /** No port without a name. */
  predicate AllNamed(ports: seq<Port>) {
    forall i :: 0 <= i < |ports| ==> ports[i].name != ""
  }

  /** What an accepted fit is made of. */
  lemma {:induction false} Accepts(board: Board, config: Config) returns (fit: Fit)
    requires AllDrawn(config) && FitPorts(board, config).Ok?
    ensures FitPorts(board, config) == Ok(fit) && SwitchLines(board, Net(config)) == Ok(fit.lines) && AllResolve(board, fit.lines, config)
    ensures fit.free == FreeDevices(board, board.ports, fit.devices, InterfaceDevices(board, fit.lines, config))
    ensures fit.freeOnSwitch == FreeSwitchPorts(board, board.ports, fit.lines, fit.vlans)
    ensures !TwoTakeFree(fit.devices)
  {
    fit := FitPorts(board, config).value;
  }

  // ----- An interface's port -----

  /** A device that is the port, or a VLAN on it. */
  predicate IsOn(device: string, name: string) {
    device == name || (|device| > |name| && device[..|name|] == name && device[|name|] == '.' && IsDecimal(device[|name| + 1..]))
  }

  lemma {:induction false} DigitsAtEnd(before: string, digits: string)
    requires forall i :: 0 <= i < |digits| ==> '0' <= digits[i] <= '9'
    ensures TrailingDigits(before + "." + digits) == |digits|
    decreases |digits|
  {
    var text := before + "." + digits;
    if digits == "" {
      assert text[|text| - 1] == '.';
    } else {
      assert text[..|text| - 1] == before + "." + digits[..|digits| - 1];
      DigitsAtEnd(before, digits[..|digits| - 1]);
    }
  }

  lemma {:induction false} TrailingAreDigits(text: string)
    ensures forall i :: |text| - TrailingDigits(text) <= i < |text| ==> '0' <= text[i] <= '9'
    decreases |text|
  {
    if text != "" { TrailingAreDigits(text[..|text| - 1]); }
  }

  /** The end of a device's name, cut where the source cuts it, leaves the port it is on. */
  lemma {:induction false} BaseIsPort(device: string, name: string)
    ensures device == name || BasePort(device) == name <==> IsOn(device, name)
  {
    TrailingAreDigits(device);
    if IsOn(device, name) && device != name {
      var digits := device[|name| + 1..];
      assert device == name + "." + digits;
      DigitsAtEnd(name, digits);
    }
  }

  /** An interface on the port: its device by name, or its line's. */
  predicate UsesPort(board: Board, device: Option<Value>, name: string) {
    && device.Some? && device.value.One?
    && match device.value.item
       case Word(text) => text != "" && IsOn(text, name)
       case OnLine(at) => LineOf(board, at).Some? && LineOf(board, at).value.port == name
       case OnSwitchName => board.switchName != "" && IsOn(board.switchName, name)
       case _ => false
  }

  predicate InterfaceOn(board: Board, config: Config, name: string) {
    exists k :: 0 <= k < |config.interfaces| && UsesPort(board, config.interfaces[k].device, name)
  }

  lemma {:induction false} KeyOnPort(line: Line)
    ensures IsOn(LineKey(line), line.port)
  {
    if IsTagged(line.vlan) {
      var key := line.port + "." + Decimal(line.vlan.value);
      assert key[..|line.port|] == line.port && key[|line.port| + 1..] == Decimal(line.vlan.value);
    }
  }

  /** Without dots in them, a device is on one port alone. */
  lemma {:induction false} OnOnePort(device: string, a: string, b: string)
    requires IsOn(device, a) && IsOn(device, b) && '.' !in a && '.' !in b
    ensures a == b
  {
    assert device[..|a|] == a && device[..|b|] == b;
  }

  lemma {:induction false} CpuOnItself(cpu: string, digits: string)
    requires IsDecimal(digits)
    ensures IsOn(cpu + "." + digits, cpu) && IsOn(cpu, cpu)
  {
    var device := cpu + "." + digits;
    assert device[..|cpu|] == cpu && device[|cpu| + 1..] == digits;
  }

  /** A line's device is on its own port off the switch, and on the CPU's on it. */
  lemma {:induction false} LineDeviceOn(board: Board, config: Config, at: LinePort, lines: seq<SwitchLine>)
    requires AllDrawn(config) && SwitchLines(board, Net(config)) == Ok(lines) && at in config.refs && RefResolves(board, lines, at)
    ensures var line := LineOf(board, at).value; var device := LineDevice(board, lines, line).value;
      && (device != "" <==> OnSwitch(board, line.port) || line.port != "" || IsTagged(line.vlan))
      && IsOn(device, if OnSwitch(board, line.port) then CpuDevice(board.ports).value else line.port)
  {
    var line := LineOf(board, at).value;
    if OnSwitch(board, line.port) {
      var found := LineFor(lines, line).value;
      var drawn, ports, tagged := Accepted(board, Net(config));
      FoundIsLine(lines, line);
      UntaggedAdded(board, Net(config), ports, tagged);
      VlansCount(board, Net(config), ports, tagged, drawn, found);
      CpuOnItself(CpuDevice(board.ports).value, Decimal(found.vlan));
    } else {
      KeyOnPort(line);
    }
  }

  lemma {:induction false} FoundIsLine(lines: seq<SwitchLine>, line: Line)
    requires LineFor(lines, line).Some?
    ensures LineFor(lines, line).value in lines && LineFor(lines, line).value.port == line.port
  {
    FindLineFinds(lines, line.port, Some(true), line.vlan);
    FindLineFinds(lines, line.port, Some(false), None);
    FindLineFinds(lines, line.port, None, None);
  }

  /** A switch line's VLAN is a plain number. */
  lemma {:induction false} VlansCount(board: Board, net: Network, ports: seq<string>, tagged: seq<SwitchLine>, lines: seq<Line>, l: SwitchLine)
    requires tagged == Tagged(ports, lines) && l in WithUntagged(board, net, ports, tagged)
    ensures l.vlan >= 0 && l.port in ports
  {
    UntaggedCounts(board, net, ports, tagged, l);
    if l in tagged { TaggedMembers(ports, lines, l); }
  }

  lemma {:induction false} UntaggedCounts(board: Board, net: Network, ports: seq<string>, tagged: seq<SwitchLine>, l: SwitchLine)
    requires l in WithUntagged(board, net, ports, tagged)
    ensures l in tagged || (l.vlan >= 0 && l.port in ports)
    decreases |ports|
  {
    if ports != [] {
      var less := ports[..|ports| - 1];
      if l in WithUntagged(board, net, less, tagged) {
        UntaggedCounts(board, net, less, tagged, l);
        assert forall port :: port in less ==> port in ports;
      }
    }
  }

  /** What an interface's device, as named, is on. */
  lemma {:induction false} DeviceIsOn(board: Board, config: Config, k: nat, lines: seq<SwitchLine>, port: Port)
    requires AllDrawn(config) && SwitchLines(board, Net(config)) == Ok(lines) && AllResolve(board, lines, config)
    requires k < |config.interfaces| && PlainBoard(board) && AllNamed(board.ports)
    requires port in board.ports && port.cpuDevice.None? && !OnSwitch(board, port.name)
    ensures var text := DeviceText(board, lines, config.interfaces[k].device);
      (text != "" && (text == port.name || BasePort(text) == port.name)) <==> UsesPort(board, config.interfaces[k].device, port.name)
  {
    var device := config.interfaces[k].device;
    var text := DeviceText(board, lines, device);
    BaseIsPort(text, port.name);
    if device.Some? && device.value.One? {
      assert ItemsOf(device)[0] == device.value.item;
      if device.value.item.OnLine? {
        LineOnPort(board, config, device.value.item.at, lines, port);
      } else if device.value.item.OnCpu? {
        CpuNotOn(board, device.value.item.vlan, port);
      }
    }
  }

  lemma {:induction false} CpuNotOn(board: Board, vlan: Option<nat>, port: Port)
    requires PlainBoard(board) && CpuDevice(board.ports).Some? && port in board.ports && port.cpuDevice.None?
    ensures !IsOn(CpuDevice(board.ports).value + if vlan.Some? then "." + Decimal(vlan.value) else "", port.name)
  {
    var cpu := CpuDevice(board.ports).value;
    var text := cpu + if vlan.Some? then "." + Decimal(vlan.value) else "";
    CpuOnItself(cpu, if vlan.Some? then Decimal(vlan.value) else "0");
    assert vlan.Some? ==> text == cpu + "." + Decimal(vlan.value);
    assert IsPhysical(board, port.name);
    if IsOn(text, port.name) { OnOnePort(text, cpu, port.name); }
  }

  lemma {:induction false} LineOnPort(board: Board, config: Config, at: LinePort, lines: seq<SwitchLine>, port: Port)
    requires AllDrawn(config) && SwitchLines(board, Net(config)) == Ok(lines) && at in config.refs && RefResolves(board, lines, at)
    requires PlainBoard(board) && AllNamed(board.ports) && port in board.ports && port.cpuDevice.None? && !OnSwitch(board, port.name)
    ensures var line := LineOf(board, at).value; var device := LineDevice(board, lines, line).value;
      && device != "" && (IsOn(device, port.name) <==> line.port == port.name)
  {
    var line := LineOf(board, at).value;
    var device := LineDevice(board, lines, line).value;
    LineDeviceOn(board, config, at, lines);
    var i :| 0 <= i < |config.refs| && config.refs[i] == at;
    assert IsPhysical(board, line.port) && IsPhysical(board, port.name);
    if IsOn(device, port.name) {
      OnOnePort(device, port.name, if OnSwitch(board, line.port) then CpuDevice(board.ports).value else line.port);
    }
  }

  // ----- Exactly when a port is free -----

  lemma {:induction false} FreeFrom(board: Board, ports: seq<Port>, devices: seq<DeviceSection>, interfaced: set<string>, port: Port)
    requires DistinctNames(ports) && port in ports
    ensures port.name in FreeDevices(board, ports, devices, interfaced)
      <==> port.cpuDevice.None? && !IsUsed(port.name, devices, interfaced) && !OnSwitch(board, port.name)
    decreases |ports|
  {
    if ports[0] == port {
      if port.name in FreeDevices(board, ports[1..], devices, interfaced) { FreeNamed(board, ports[1..], devices, interfaced, port.name); }
    } else {
      FreeFrom(board, ports[1..], devices, interfaced, port);
      var i :| 0 <= i < |ports| && ports[i] == port;
      assert ports[0].name != ports[i].name;
    }
  }

  lemma {:induction false} FreeNamed(board: Board, ports: seq<Port>, devices: seq<DeviceSection>, interfaced: set<string>, name: string)
    requires name in FreeDevices(board, ports, devices, interfaced)
    ensures AnyNamed(ports, name) && !IsUsed(name, devices, interfaced)
    decreases |ports|
  {
    if name in FreeDevices(board, ports[1..], devices, interfaced) {
      FreeNamed(board, ports[1..], devices, interfaced, name);
      var i :| 0 <= i < |ports| - 1 && ports[1..][i].name == name;
      assert ports[i + 1].name == name;
    } else {
      assert ports[0].name == name;
    }
  }

  /** A bridge has a list, and the port is in it. */
  predicate BridgeHas(devices: seq<DeviceSection>, name: string) {
    exists i, k :: 0 <= i < |devices| && 0 <= k < |ItemsOf(devices[i].ports)| && ItemsOf(devices[i].ports)[k] == Word(name)
      && devices[i].isBridge && devices[i].ports.value.Many?
  }

  lemma {:induction false} BridgedIs(devices: seq<DeviceSection>, name: string)
    ensures IsBridged(devices, name) <==> BridgeHas(devices, name)
  {
    if i :| 0 <= i < |devices| && Lists(devices[i], name) {
      var k :| 0 <= k < |ItemsOf(devices[i].ports)| && ItemsOf(devices[i].ports)[k] == Word(name);
      assert BridgeHas(devices, name);
    }
    if BridgeHas(devices, name) {
      var i, k :| 0 <= i < |devices| && 0 <= k < |ItemsOf(devices[i].ports)| && ItemsOf(devices[i].ports)[k] == Word(name)
        && devices[i].isBridge && devices[i].ports.value.Many?;
      assert Lists(devices[i], name);
    }
  }

  /** A port is free for a bridge just when it is no CPU's and not the switch's, no bridge's list has
      it, and no interface is on it: by its device's name, a VLAN on it, or its line. */
  lemma {:induction false} FreePortsAreFree(board: Board, config: Config, port: Port)
    requires AllDrawn(config) && FitPorts(board, config).Ok?
    requires DistinctNames(board.ports) && PlainBoard(board) && AllNamed(board.ports) && port in board.ports
    ensures var fit := FitPorts(board, config).value;
      port.name in fit.free <==>
        && port.cpuDevice.None? && !OnSwitch(board, port.name)
        && !BridgeHas(fit.devices, port.name) && !InterfaceOn(board, config, port.name)
  {
    var fit := Accepts(board, config);
    var lines, interfaced := fit.lines, InterfaceDevices(board, fit.lines, config);
    FreeFrom(board, board.ports, fit.devices, interfaced, port);
    BridgedIs(fit.devices, port.name);
    if port.cpuDevice.None? && !OnSwitch(board, port.name) {
      forall k | 0 <= k < |config.interfaces|
        ensures var text := DeviceText(board, lines, config.interfaces[k].device);
          (text in interfaced && (text == port.name || BasePort(text) == port.name)) <==> UsesPort(board, config.interfaces[k].device, port.name)
      {
        DeviceIsOn(board, config, k, lines, port);
      }
    }
  }

  // ----- The switch's -----

  lemma {:induction false} FreeSwitchFrom(board: Board, ports: seq<Port>, lines: seq<SwitchLine>, vlans: seq<VlanSection>, port: Port)
    requires DistinctNames(ports) && port in ports
    ensures port.name in FreeSwitchPorts(board, ports, lines, vlans) <==>
      && port.cpuDevice.None? && OnSwitch(board, port.name) && !IsListed(board.ports, vlans, SwitchNumber(port))
      && forall i :: 0 <= i < |lines| ==> lines[i].port != port.name
    decreases |ports|
  {
    if ports[0] == port {
      if port.name in FreeSwitchPorts(board, ports[1..], lines, vlans) { FreeSwitchNamed(board, ports[1..], lines, vlans, port.name); }
    } else {
      FreeSwitchFrom(board, ports[1..], lines, vlans, port);
      var i :| 0 <= i < |ports| && ports[i] == port;
      assert ports[0].name != ports[i].name;
    }
  }

  lemma {:induction false} FreeSwitchNamed(board: Board, ports: seq<Port>, lines: seq<SwitchLine>, vlans: seq<VlanSection>, name: string)
    requires name in FreeSwitchPorts(board, ports, lines, vlans)
    ensures AnyNamed(ports, name)
    decreases |ports|
  {
    if name in FreeSwitchPorts(board, ports[1..], lines, vlans) {
      FreeSwitchNamed(board, ports[1..], lines, vlans, name);
      var i :| 0 <= i < |ports| - 1 && ports[1..][i].name == name;
      assert ports[i + 1].name == name;
    } else {
      assert ports[0].name == name;
    }
  }

  /** A line of the config on the port: an interface's, or one named anywhere. */
  predicate CarriesLine(board: Board, config: Config, name: string) {
    exists i :: 0 <= i < |config.refs| && LineOf(board, config.refs[i]).Some? && LineOf(board, config.refs[i]).value.port == name
  }

  /** The switch has a line on a port just when the config does. */
  lemma {:induction false} LinesWhereDrawn(board: Board, config: Config, name: string)
    requires AllDrawn(config) && SwitchLines(board, Net(config)).Ok? && OnSwitch(board, name)
    ensures (exists i :: 0 <= i < |SwitchLines(board, Net(config)).value| && SwitchLines(board, Net(config)).value[i].port == name)
      <==> CarriesLine(board, config, name)
  {
    var net := Net(config);
    var all := SwitchLines(board, net).value;
    var lines, ports, tagged := Accepted(board, net);
    if CarriesLine(board, config, name) {
      var i :| 0 <= i < |config.refs| && LineOf(board, config.refs[i]).Some? && LineOf(board, config.refs[i]).value.port == name;
      assert lines[i].port == name;
      PortOfLine(board, lines, lines[i]);
      BareThere(board, net, ports, tagged, name);
    }
    if i :| 0 <= i < |all| && all[i].port == name {
      VlansCount(board, net, ports, tagged, lines, all[i]);
      assert name in Unique(PortsOf(lines));
      var j :| 0 <= j < |lines| && PortsOf(lines)[j] == name;
      assert LineOf(board, config.refs[j]).value == lines[j];
    }
  }

  /** A port is free for a switch VLAN just when it is the switch's and no CPU's, no line of the config
      is on it, and no word of a VLAN's list comes to its bare number there. */
  lemma {:induction false} FreeOnSwitch(board: Board, config: Config, port: Port)
    requires AllDrawn(config) && FitPorts(board, config).Ok? && DistinctNames(board.ports) && port in board.ports
    ensures var fit := FitPorts(board, config).value;
      port.name in fit.freeOnSwitch <==>
        && port.cpuDevice.None? && OnSwitch(board, port.name)
        && !CarriesLine(board, config, port.name) && !IsListed(board.ports, fit.vlans, SwitchNumber(port))
  {
    var fit := Accepts(board, config);
    FreeSwitchFrom(board, board.ports, fit.lines, fit.vlans, port);
    if OnSwitch(board, port.name) { LinesWhereDrawn(board, config, port.name); }
  }

  /** An interface's line leaves its port in no free-port list, tagged or not, on a switch or off it. */
  lemma {:induction false} LinePortNotFree(board: Board, config: Config, k: nat)
    requires AllDrawn(config) && FitPorts(board, config).Ok? && AllNamed(board.ports) && DistinctNames(board.ports)
    requires k < |config.interfaces| && LineAt(config.interfaces[k].device).Some?
    ensures LineOf(board, LineAt(config.interfaces[k].device).value).Some?
    ensures var name := LineOf(board, LineAt(config.interfaces[k].device).value).value.port;
      name !in FitPorts(board, config).value.free && name !in FitPorts(board, config).value.freeOnSwitch
  {
    var fit := Accepts(board, config);
    var device := config.interfaces[k].device;
    var at := LineAt(device).value;
    assert ItemsOf(device)[0] == OnLine(at);
    var i :| 0 <= i < |config.refs| && config.refs[i] == at;
    assert RefResolves(board, fit.lines, config.refs[i]);
    LineNotFree(board, config, k, fit, at);
  }

  lemma {:induction false} LineNotFree(board: Board, config: Config, k: nat, fit: Fit, at: LinePort)
    requires AllDrawn(config) && FitPorts(board, config) == Ok(fit) && AllNamed(board.ports) && DistinctNames(board.ports)
    requires k < |config.interfaces| && LineAt(config.interfaces[k].device) == Some(at) && at in config.refs && RefResolves(board, fit.lines, at)
    ensures LineOf(board, at).value.port !in fit.free && LineOf(board, at).value.port !in fit.freeOnSwitch
  {
    var _ := Accepts(board, config);
    var name := LineOf(board, at).value.port;
    var i :| 0 <= i < |config.refs| && config.refs[i] == at;
    assert IsPhysical(board, name) by {
      assert LineOf(board, Net(config).refs[i]).Some?;
    }
    var port :| port in board.ports && port.name == name;
    FreeOnSwitch(board, config, port);
    FreeFrom(board, board.ports, fit.devices, InterfaceDevices(board, fit.lines, config), port);
    if !OnSwitch(board, name) { LineUsed(board, config, k, fit.lines, at); }
  }

  lemma {:induction false} LineUsed(board: Board, config: Config, k: nat, lines: seq<SwitchLine>, at: LinePort)
    requires AllDrawn(config) && SwitchLines(board, Net(config)) == Ok(lines) && AllResolve(board, lines, config) && AllNamed(board.ports)
    requires k < |config.interfaces| && LineAt(config.interfaces[k].device) == Some(at) && at in config.refs && RefResolves(board, lines, at)
    requires IsPhysical(board, LineOf(board, at).value.port) && !OnSwitch(board, LineOf(board, at).value.port)
    ensures IsInterfaced(InterfaceDevices(board, lines, config), LineOf(board, at).value.port)
  {
    var line := LineOf(board, at).value;
    var text := LineDevice(board, lines, line).value;
    assert line.port != "" by {
      var i :| 0 <= i < |board.ports| && board.ports[i].name == line.port;
    }
    LineDeviceOn(board, config, at, lines);
    BaseIsPort(text, line.port);
    assert ItemsOf(config.interfaces[k].device)[0] == OnLine(at);
    assert DeviceText(board, lines, config.interfaces[k].device) == text;
    assert text in InterfaceDevices(board, lines, config);
  }

  // ----- What the lists become -----

  predicate IsTaggedName(name: string, free: seq<string>) {
    exists i :: 0 <= i < |free| && name == free[i] + ":t"
  }

  lemma {:induction false} ExpandedHolds(items: seq<Item>, free: seq<string>, name: string)
    requires Expanded(items, free).Ok?
    ensures name in Expanded(items, free).value
      <==> Word(name) in items || (Free(false) in items && name in free) || (Free(true) in items && IsTaggedName(name, free))
    decreases |items|
  {
    if items != [] {
      ExpandedHolds(items[1..], free, name);
      assert items == [items[0]] + items[1..];
      if items[0] == Free(true) {
        assert name in TaggedNames(free) ==> IsTaggedName(name, free);
        if i :| 0 <= i < |free| && name == free[i] + ":t" { assert TaggedNames(free)[i] == name; }
      }
    }
  }

  lemma {:induction false} TaggedHasColon(name: string, free: seq<string>)
    ensures IsTaggedName(name, free) ==> ':' in name
  {
    if i :| 0 <= i < |free| && name == free[i] + ":t" {
      assert name[|free[i]|] == ':';
    }
  }

  /** Whenever a config is accepted, a port that one device takes as free is another's too just when
      that one names it and is no bridge with a list: never two bridges' with lists, and never by
      taking the free ports twice. */
  lemma {:induction false} OneBridgeAPort(board: Board, config: Config, i: nat, j: nat, name: string)
    requires AllDrawn(config) && FitPorts(board, config).Ok? && NoColons(board.ports)
    requires var fit := FitPorts(board, config).value;
      && i < |fit.devices| && j < |fit.devices| && i != j
      && TakesFree(fit.devices[i].ports) && name in fit.free
      && DevicePorts(fit, fit.devices[i]).Ok? && DevicePorts(fit, fit.devices[j]).Ok?
    ensures var fit := FitPorts(board, config).value;
      && name in DevicePorts(fit, fit.devices[i]).value
      && (name in DevicePorts(fit, fit.devices[j]).value
          <==> Word(name) in ItemsOf(fit.devices[j].ports) && !(fit.devices[j].isBridge && fit.devices[j].ports.value.Many?))
  {
    var fit := Accepts(board, config);
    FreeNamed(board, board.ports, fit.devices, InterfaceDevices(board, fit.lines, config), name);
    TaggedHasColon(name, fit.free);
    ExpandedHolds(ItemsOf(fit.devices[i].ports), fit.free, name);
    ExpandedHolds(ItemsOf(fit.devices[j].ports), fit.free, name);
    assert !TakesFree(fit.devices[j].ports) by {
      assert i < j || j < i;
    }
    assert !Lists(fit.devices[j], name);
  }

  // ----- A switch's VLANs -----

  lemma {:induction false} EntriesHold(ports: seq<Port>, entries: seq<string>, text: string)
    requires SwitchEntries(ports, entries).Ok?
    ensures text in SwitchEntries(ports, entries).value <==> exists i :: 0 <= i < |entries| && SwitchEntry(ports, entries[i]) == Some(text)
    decreases |entries|
  {
    if entries != [] {
      EntriesHold(ports, entries[1..], text);
      if i :| 0 <= i < |entries| && SwitchEntry(ports, entries[i]) == Some(text) {
        if i > 0 { assert entries[1..][i - 1] == entries[i]; }
      }
    }
  }

  lemma {:induction false} NamedFirst(ports: seq<Port>, port: Port)
    requires DistinctNames(ports) && port in ports
    ensures PortNamed(ports, port.name) == Some(port)
    decreases |ports|
  {
    if ports[0] != port {
      var i :| 0 <= i < |ports| && ports[i] == port;
      assert ports[0].name != ports[i].name;
      NamedFirst(ports[1..], port);
    }
  }

  /** A flag for tagged shows in what the switch lists: never a bare number. */
  lemma {:induction false} TaggedNotNumber(ports: seq<Port>, entry: string, number: nat)
    requires 't' in EntryFlags(entry)
    ensures SwitchEntry(ports, entry) != Some(Decimal(number))
  {
    var listed := SwitchEntry(ports, entry);
    var flags := EntryFlags(entry);
    if listed.Some? {
      var i :| 0 <= i < |flags| && flags[i] == 't';
      assert listed.value[|listed.value| - |flags| + i] == 't';
      assert 't' in listed.value;
    }
  }

  lemma {:induction false} FlagRead(name: string, flags: string)
    requires ':' !in name && ':' !in flags
    ensures EntryName(name + ":" + flags) == name && EntryFlags(name + ":" + flags) == flags
    ensures EntryName(name) == name && EntryFlags(name) == ""
  {
    SplitFree(name, ':');
    SplitFree(flags, ':');
    SplitJoined(name, flags, ':');
    assert name + ":" + flags == name + [':'] + flags;
  }

  lemma {:induction false} TaggedFlag(name: string)
    requires ':' !in name
    ensures 't' in EntryFlags(name + ":t")
  {
    FlagRead(name, "t");
    assert name + ":t" == name + ":" + "t";
    assert "t"[0] == 't';
  }

  /** What an option that is one word comes to on the switch. */
  predicate WordIs(ports: seq<Port>, vlan: VlanSection, number: nat) {
    && vlan.ports.Some? && vlan.ports.value.One? && vlan.ports.value.item.Word?
    && SwitchEntry(ports, vlan.ports.value.item.text) == Some(Decimal(number))
  }

  /** Whenever a config is accepted, a free port's number stands bare (untagged) in a VLAN just when
      that takes the free ports, or its option is one word for it: never by a list's word. */
  lemma {:induction false} FreeListedWhere(board: Board, config: Config, v: nat, port: Port)
    requires AllDrawn(config) && FitPorts(board, config).Ok? && DistinctNames(board.ports) && NoColons(board.ports)
    requires var fit := FitPorts(board, config).value;
      && v < |fit.vlans| && VlanPorts(board, fit, fit.vlans[v]).Ok?
      && port in board.ports && port.switchPort.Some? && port.name in fit.freeOnSwitch
    ensures var fit := FitPorts(board, config).value;
      Decimal(port.switchPort.value) in VlanPorts(board, fit, fit.vlans[v]).value
      <==> TakesFree(fit.vlans[v].ports) || WordIs(board.ports, fit.vlans[v], port.switchPort.value)
  {
    var fit := Accepts(board, config);
    FreeOnSwitch(board, config, port);
    forall name | name in fit.freeOnSwitch ensures ':' !in name {
      FreeSwitchNamed(board, board.ports, fit.lines, fit.vlans, name);
    }
    FreeStandsWhere(board, fit, v, port);
  }

  lemma {:induction false} FreeStandsWhere(board: Board, fit: Fit, v: nat, port: Port)
    requires DistinctNames(board.ports) && NoColons(board.ports) && v < |fit.vlans| && VlanPorts(board, fit, fit.vlans[v]).Ok?
    requires port in board.ports && port.switchPort.Some? && port.name in fit.freeOnSwitch
    requires !IsListed(board.ports, fit.vlans, Decimal(port.switchPort.value))
    requires forall name :: name in fit.freeOnSwitch ==> ':' !in name
    ensures Decimal(port.switchPort.value) in VlanPorts(board, fit, fit.vlans[v]).value
      <==> TakesFree(fit.vlans[v].ports) || WordIs(board.ports, fit.vlans[v], port.switchPort.value)
  {
    var vlan, number := fit.vlans[v], port.switchPort.value;
    if TakesFree(vlan.ports) {
      TakenStandsBare(board, fit, vlan, port);
    } else if WordIs(board.ports, vlan, number) {
      WordStandsBare(board, fit, vlan, number);
    } else {
      forall entry | Word(entry) in ItemsOf(vlan.ports) && 't' !in EntryFlags(entry)
        ensures SwitchEntry(board.ports, entry) != Some(Decimal(number))
      {
        var k :| 0 <= k < |ItemsOf(vlan.ports)| && ItemsOf(vlan.ports)[k] == Word(entry);
        if vlan.ports.value.Many? { assert ListsEntry(fit.vlans[v], ItemsOf(fit.vlans[v].ports)[k]); }
      }
      NoneStandsBare(board, fit, vlan, number);
    }
  }

  lemma {:induction false} TakenStandsBare(board: Board, fit: Fit, vlan: VlanSection, port: Port)
    requires VlanPorts(board, fit, vlan).Ok? && DistinctNames(board.ports) && NoColons(board.ports)
    requires port in board.ports && port.switchPort.Some? && port.name in fit.freeOnSwitch && TakesFree(vlan.ports)
    ensures Decimal(port.switchPort.value) in VlanPorts(board, fit, vlan).value
  {
    var own := Expanded(ItemsOf(vlan.ports), fit.freeOnSwitch).value;
    ExpandedHolds(ItemsOf(vlan.ports), fit.freeOnSwitch, port.name);
    BareResolves(board.ports, port);
    OwnListed(board.ports, CpuPort(board.ports).value + ":t", own, port.name);
  }

  lemma {:induction false} WordStandsBare(board: Board, fit: Fit, vlan: VlanSection, number: nat)
    requires VlanPorts(board, fit, vlan).Ok? && WordIs(board.ports, vlan, number)
    ensures Decimal(number) in VlanPorts(board, fit, vlan).value
  {
    var items := ItemsOf(vlan.ports);
    assert items[0] == Word(items[0].text);
    ExpandedHolds(items, fit.freeOnSwitch, items[0].text);
    OwnListed(board.ports, CpuPort(board.ports).value + ":t", Expanded(items, fit.freeOnSwitch).value, items[0].text);
  }

  lemma {:induction false} NoneStandsBare(board: Board, fit: Fit, vlan: VlanSection, number: nat)
    requires VlanPorts(board, fit, vlan).Ok? && NoColons(board.ports) && !TakesFree(vlan.ports)
    requires forall name :: name in fit.freeOnSwitch ==> ':' !in name
    requires forall entry :: Word(entry) in ItemsOf(vlan.ports) && 't' !in EntryFlags(entry) ==> SwitchEntry(board.ports, entry) != Some(Decimal(number))
    ensures Decimal(number) !in VlanPorts(board, fit, vlan).value
  {
    var own := Expanded(ItemsOf(vlan.ports), fit.freeOnSwitch).value;
    var cpu := CpuPort(board.ports).value;
    CpuNamed(board.ports);
    TaggedFlag(cpu);
    TaggedNotNumber(board.ports, cpu + ":t", number);
    forall entry | entry in own ensures SwitchEntry(board.ports, entry) != Some(Decimal(number)) {
      ExpandedHolds(ItemsOf(vlan.ports), fit.freeOnSwitch, entry);
      if 't' in EntryFlags(entry) {
        TaggedNotNumber(board.ports, entry, number);
      } else if !(Word(entry) in ItemsOf(vlan.ports)) {
        var i :| 0 <= i < |fit.freeOnSwitch| && entry == fit.freeOnSwitch[i] + ":t";
        TaggedFlag(fit.freeOnSwitch[i]);
        assert false;
      }
    }
    EntriesHold(board.ports, [cpu + ":t"] + own, Decimal(number));
  }

  lemma {:induction false} OwnListed(ports: seq<Port>, first: string, own: seq<string>, entry: string)
    requires SwitchEntries(ports, [first] + own).Ok? && entry in own && SwitchEntry(ports, entry).Some?
    ensures SwitchEntry(ports, entry).value in SwitchEntries(ports, [first] + own).value
  {
    var k :| 0 <= k < |own| && own[k] == entry;
    assert ([first] + own)[k + 1] == entry;
    EntriesHold(ports, [first] + own, SwitchEntry(ports, entry).value);
  }

  lemma {:induction false} BareResolves(ports: seq<Port>, port: Port)
    requires DistinctNames(ports) && port in ports && port.switchPort.Some? && ':' !in port.name
    ensures SwitchEntry(ports, port.name) == Some(Decimal(port.switchPort.value))
  {
    FlagRead(port.name, "");
    NamedFirst(ports, port);
    assert Decimal(port.switchPort.value) + "" == Decimal(port.switchPort.value);
  }

  lemma {:induction false} CpuNamed(ports: seq<Port>)
    requires CpuPort(ports).Some?
    ensures AnyNamed(ports, CpuPort(ports).value)
    decreases |ports|
  {
    if ports[0].cpuDevice.None? {
      CpuNamed(ports[1..]);
      var i :| 0 <= i < |ports| - 1 && ports[1..][i].name == CpuPort(ports).value;
      assert ports[i + 1].name == CpuPort(ports).value;
    } else {
      assert ports[0].name == CpuPort(ports).value;
    }
  }

  // ----- Where a listed port is left free -----

  /** A switch with the CPU and one port more. */
  predicate SmallSwitch(cpu: Port, lan: Port) {
    && cpu.cpuDevice.Some? && lan.cpuDevice.None? && cpu.switchPort.Some? && lan.switchPort.Some?
    && cpu.name != lan.name && ':' !in cpu.name && ':' !in lan.name
  }

  function SmallBoard(cpu: Port, lan: Port): Board {
    Board(true, "", [cpu, lan])
  }

  /** Two VLANs: one taking the free ports, one as written. */
  function TwoVlans(written: Value): Config {
    Config([], [], [], [VlanSection(1, Some(One(Free(false)))), VlanSection(2, Some(written))])
  }

  lemma {:induction false} SmallNames(cpu: Port, lan: Port, flags: string)
    requires SmallSwitch(cpu, lan) && ':' !in flags
    ensures var ports := [cpu, lan];
      && SwitchEntry(ports, lan.name + ":" + flags) == Some(Decimal(lan.switchPort.value) + flags)
      && EntryFlags(lan.name + ":" + flags) == flags
      && SwitchEntry(ports, lan.name) == Some(Decimal(lan.switchPort.value))
      && SwitchEntry(ports, cpu.name + ":" + flags) == Some(Decimal(cpu.switchPort.value) + flags)
  {
    var ports := [cpu, lan];
    FlagRead(lan.name, flags);
    FlagRead(cpu.name, flags);
    NamedFirst(ports, lan);
    NamedFirst(ports, cpu);
    assert Decimal(lan.switchPort.value) + "" == Decimal(lan.switchPort.value);
  }

  /** Accepted, with the port free, unless a list's word comes to its number. */
  lemma {:induction false} SmallFits(cpu: Port, lan: Port, written: Value, entry: string)
    requires SmallSwitch(cpu, lan) && ItemsOf(Some(written)) == [Word(entry)] && SwitchEntry([cpu, lan], entry).Some?
    requires written.Many? ==> SwitchEntry([cpu, lan], entry) != Some(Decimal(lan.switchPort.value))
    ensures FitPorts(SmallBoard(cpu, lan), TwoVlans(written)).Ok?
    ensures var fit := FitPorts(SmallBoard(cpu, lan), TwoVlans(written)).value;
      fit.vlans == TwoVlans(written).vlans && fit.freeOnSwitch == [lan.name]
  {
    var board, config := SmallBoard(cpu, lan), TwoVlans(written);
    assert SwitchLines(board, Net(config)) == Ok([]);
    assert AllResolve(board, [], config);
    var vlans := SwitchVlans(board, [], config);
    WordsStay(board, Some(written), entry);
    assert vlans == config.vlans;
    var devices := Devices(board, [], config);
    assert !TwoTakeFree(devices);
    OneListed(board.ports, config.vlans, entry, Decimal(lan.switchPort.value));
    SmallFree(cpu, lan, vlans);
  }

  lemma {:induction false} WordsStay(board: Board, written: Option<Value>, entry: string)
    requires ItemsOf(written) == [Word(entry)]
    ensures ValueResolves(board, [], written) && WithPorts(board, [], written) == written
  {
    var items := ItemsOf(written);
    assert items[0] == Word(entry);
    assert written.value.Many? ==> WithPorts(board, [], written).value.items == items;
  }

  lemma {:induction false} OneListed(ports: seq<Port>, vlans: seq<VlanSection>, entry: string, number: string)
    requires |vlans| == 2 && ItemsOf(vlans[0].ports) == [Free(false)] && ItemsOf(vlans[1].ports) == [Word(entry)]
    requires SwitchEntry(ports, entry).Some?
    requires vlans[1].ports.value.Many? ==> SwitchEntry(ports, entry) != Some(number)
    ensures UntaggedOnSwitch(ports, vlans) && !IsListed(ports, vlans, number)
  {
  }

  lemma {:induction false} SmallFree(cpu: Port, lan: Port, vlans: seq<VlanSection>)
    requires SmallSwitch(cpu, lan) && !IsListed([cpu, lan], vlans, Decimal(lan.switchPort.value))
    ensures FreeSwitchPorts(SmallBoard(cpu, lan), [cpu, lan], [], vlans) == [lan.name]
  {
    var board := SmallBoard(cpu, lan);
    assert OnSwitch(board, lan.name) by { assert board.ports[1] == lan; }
    assert FreeSwitchPorts(board, [], [], vlans) == [];
    assert [lan][1..] == [] && [cpu, lan][1..] == [lan];
    assert FreeSwitchPorts(board, [lan], [], vlans) == [lan.name];
  }

  /** A port listed with any flag but `t` is free all the same: the flag stays on its number, so the
      number is not seen. It stands bare in one VLAN and flagged in another. */
  lemma {:induction false} FlaggedEntryLeavesFree(cpu: Port, lan: Port, flags: string)
    requires SmallSwitch(cpu, lan) && flags != "" && ':' !in flags && 't' !in flags
    ensures var board, config := SmallBoard(cpu, lan), TwoVlans(Many([Word(lan.name + ":" + flags)]));
      && FitPorts(board, config).Ok?
      && var fit := FitPorts(board, config).value;
      && lan.name in fit.freeOnSwitch
      && VlanPorts(board, fit, fit.vlans[0]) == Ok([Decimal(cpu.switchPort.value) + "t", Decimal(lan.switchPort.value)])
      && VlanPorts(board, fit, fit.vlans[1]) == Ok([Decimal(cpu.switchPort.value) + "t", Decimal(lan.switchPort.value) + flags])
  {
    var entry, number := lan.name + ":" + flags, Decimal(lan.switchPort.value);
    SmallNames(cpu, lan, flags);
    assert |number + flags| != |number|;
    SmallFits(cpu, lan, Many([Word(entry)]), entry);
    SmallVlans(cpu, lan, FitPorts(SmallBoard(cpu, lan), TwoVlans(Many([Word(entry)]))).value, entry);
  }

  /** A port named in an option that is one word, which a switch VLAN's may be, is free all the same:
      only lists are looked at. It stands bare, untagged, in both VLANs. */
  lemma {:induction false} WordOptionLeavesFree(cpu: Port, lan: Port)
    requires SmallSwitch(cpu, lan)
    ensures var board, config := SmallBoard(cpu, lan), TwoVlans(One(Word(lan.name)));
      && FitPorts(board, config).Ok?
      && var fit := FitPorts(board, config).value;
      && lan.name in fit.freeOnSwitch
      && VlanPorts(board, fit, fit.vlans[0]) == Ok([Decimal(cpu.switchPort.value) + "t", Decimal(lan.switchPort.value)])
      && VlanPorts(board, fit, fit.vlans[1]) == Ok([Decimal(cpu.switchPort.value) + "t", Decimal(lan.switchPort.value)])
  {
    SmallNames(cpu, lan, "");
    SmallFits(cpu, lan, One(Word(lan.name)), lan.name);
    SmallVlans(cpu, lan, FitPorts(SmallBoard(cpu, lan), TwoVlans(One(Word(lan.name)))).value, lan.name);
  }

  lemma {:induction false} SmallVlans(cpu: Port, lan: Port, fit: Fit, entry: string)
    requires SmallSwitch(cpu, lan) && fit.freeOnSwitch == [lan.name]
    requires |fit.vlans| == 2 && ItemsOf(fit.vlans[0].ports) == [Free(false)] && ItemsOf(fit.vlans[1].ports) == [Word(entry)]
    requires SwitchEntry([cpu, lan], entry).Some?
    ensures VlanPorts(SmallBoard(cpu, lan), fit, fit.vlans[0]) == Ok([Decimal(cpu.switchPort.value) + "t", Decimal(lan.switchPort.value)])
    ensures VlanPorts(SmallBoard(cpu, lan), fit, fit.vlans[1]) == Ok([Decimal(cpu.switchPort.value) + "t", SwitchEntry([cpu, lan], entry).value])
  {
    SmallNames(cpu, lan, "t");
    OneExpanded(Free(false), lan.name);
    OneExpanded(Word(entry), lan.name);
    CpuAndEntry(cpu, lan, lan.name);
    CpuAndEntry(cpu, lan, entry);
  }

  lemma {:induction false} OneExpanded(item: Item, name: string)
    requires item.Word? || item == Free(false)
    ensures Expanded([item], [name]) == Ok([if item.Word? then item.text else name])
  {
    assert [item][1..] == [];
    assert Expanded([], [name]) == Ok([]);
    var text := if item.Word? then item.text else name;
    assert [text] + [] == [text];
  }

  lemma {:induction false} CpuAndEntry(cpu: Port, lan: Port, entry: string)
    requires SmallSwitch(cpu, lan) && SwitchEntry([cpu, lan], entry).Some?
    ensures SwitchEntries([cpu, lan], [cpu.name + ":t"] + [entry])
      == Ok([Decimal(cpu.switchPort.value) + "t", SwitchEntry([cpu, lan], entry).value])
  {
    SmallNames(cpu, lan, "t");
    assert cpu.name + ":t" == cpu.name + ":" + "t";
    TwoEntries([cpu, lan], cpu.name + ":t", entry);
  }

  lemma {:induction false} TwoEntries(ports: seq<Port>, a: string, b: string)
    requires SwitchEntry(ports, a).Some? && SwitchEntry(ports, b).Some?
    ensures SwitchEntries(ports, [a] + [b]) == Ok([SwitchEntry(ports, a).value, SwitchEntry(ports, b).value])
  {
    var entries, x, y := [a] + [b], SwitchEntry(ports, a).value, SwitchEntry(ports, b).value;
    assert entries[0] == a && entries[1..] == [b] && [b][1..] == [];
    assert SwitchEntries(ports, []) == Ok([]);
    assert [y] + [] == [y] && [x] + [y] == [x, y];
    assert SwitchEntries(ports, [b]) == Ok([y]);
  }
}

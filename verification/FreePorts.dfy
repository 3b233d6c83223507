/** The ports nothing else uses (src/engine/ports.ts:128-229): a config's port lists with a
    placeholder for them, and what the lists become on a device. */
module FreePorts {
  import opened Wrappers
  import opened Text
  import opened Ports

  /** What may stand in an option, or in its list: a word as written, or a placeholder. */
  datatype Item = Word(text: string) | OnLine(at: LinePort) | OnCpu(vlan: Option<nat>) | OnSwitchName | Free(tagged: bool) | Other

  datatype Value = One(item: Item) | Many(items: seq<Item>)

  datatype InterfaceSection = InterfaceSection(name: Option<string>, device: Option<Value>)

  datatype DeviceSection = DeviceSection(isBridge: bool, ports: Option<Value>)

  datatype VlanSection = VlanSection(vlan: int, ports: Option<Value>)

  /** A device's resolved config: every line placeholder in it, and the network's sections. */
  datatype Config = Config(refs: seq<LinePort>, interfaces: seq<InterfaceSection>, devices: seq<DeviceSection>, vlans: seq<VlanSection>)

  function ItemsOf(value: Option<Value>): seq<Item> {
    match value
    case None => []
    case Some(One(item)) => [item]
    case Some(Many(items)) => items
  }

  predicate ItemsDrawn(items: seq<Item>, refs: seq<LinePort>) {
    forall i :: 0 <= i < |items| && items[i].OnLine? ==> items[i].at in refs
  }

  /** The sections' lines are among the config's placeholders. */
  predicate AllDrawn(config: Config) {
    && (forall i :: 0 <= i < |config.interfaces| ==> ItemsDrawn(ItemsOf(config.interfaces[i].device), config.refs))
    && (forall i :: 0 <= i < |config.devices| ==> ItemsDrawn(ItemsOf(config.devices[i].ports), config.refs))
    && (forall i :: 0 <= i < |config.vlans| ==> ItemsDrawn(ItemsOf(config.vlans[i].ports), config.refs))
  }

  // ----- Lines, the CPU's ports and the switch by name -----

  function LineAt(device: Option<Value>): Option<LinePort> {
    if device.Some? && device.value.One? && device.value.item.OnLine? then Some(device.value.item.at) else None
  }

  /** What a config says of lines. */
  function Net(config: Config): (net: Network)
    requires AllDrawn(config)
    ensures Drawn(net)
  {
    assert forall i :: 0 <= i < |config.interfaces| && LineAt(config.interfaces[i].device).Some? ==>
      ItemsOf(config.interfaces[i].device)[0].OnLine?;
    Network(
      config.refs,
      seq(|config.interfaces|, i requires 0 <= i < |config.interfaces| => Interface(config.interfaces[i].name, LineAt(config.interfaces[i].device))),
      seq(|config.vlans|, i requires 0 <= i < |config.vlans| => config.vlans[i].vlan))
  }

  predicate RefResolves(board: Board, lines: seq<SwitchLine>, at: LinePort) {
    LineOf(board, at).Some? && LineDevice(board, lines, LineOf(board, at).value).Some?
  }

  predicate Resolves(board: Board, lines: seq<SwitchLine>, item: Item) {
    && (item.OnLine? ==> RefResolves(board, lines, item.at))
    && (item.OnCpu? ==> CpuDevice(board.ports).Some?)
  }

  function Resolved(board: Board, lines: seq<SwitchLine>, item: Item): Item
    requires Resolves(board, lines, item)
  {
    match item
    case OnLine(at) => Word(LineDevice(board, lines, LineOf(board, at).value).value)
    case OnCpu(vlan) => Word(CpuDevice(board.ports).value + if vlan.Some? then "." + Decimal(vlan.value) else "")
    case OnSwitchName => Word(board.switchName)
    case _ => item
  }

  predicate ValueResolves(board: Board, lines: seq<SwitchLine>, value: Option<Value>) {
    forall i :: 0 <= i < |ItemsOf(value)| ==> Resolves(board, lines, ItemsOf(value)[i])
  }

  /** A value, each line, CPU port and switch in it by name. */
  function WithPorts(board: Board, lines: seq<SwitchLine>, value: Option<Value>): (named: Option<Value>)
    requires ValueResolves(board, lines, value)
    ensures |ItemsOf(named)| == |ItemsOf(value)|
    ensures forall i :: 0 <= i < |ItemsOf(value)| ==> ItemsOf(named)[i] == Resolved(board, lines, ItemsOf(value)[i])
  {
    var items := ItemsOf(value);
    match value
    case None => None
    case Some(One(item)) => assert items[0] == item; Some(One(Resolved(board, lines, item)))
    case Some(Many(_)) => Some(Many(seq(|items|, i requires 0 <= i < |items| => Resolved(board, lines, items[i]))))
  }

  predicate AllResolve(board: Board, lines: seq<SwitchLine>, config: Config) {
    && (forall i :: 0 <= i < |config.refs| ==> RefResolves(board, lines, config.refs[i]))
    && (forall i :: 0 <= i < |config.interfaces| ==> ValueResolves(board, lines, config.interfaces[i].device))
    && (forall i :: 0 <= i < |config.devices| ==> ValueResolves(board, lines, config.devices[i].ports))
    && (forall i :: 0 <= i < |config.vlans| ==> ValueResolves(board, lines, config.vlans[i].ports))
  }

  function Devices(board: Board, lines: seq<SwitchLine>, config: Config): seq<DeviceSection>
    requires AllResolve(board, lines, config)
  {
    seq(|config.devices|, i requires 0 <= i < |config.devices| =>
      DeviceSection(config.devices[i].isBridge, WithPorts(board, lines, config.devices[i].ports)))
  }

  /** The switch VLAN a line gets. */
  function LineVlan(line: SwitchLine): VlanSection {
    VlanSection(line.vlan, Some(Many([Word(line.port + if line.tagged then ":t" else "")])))
  }

  function SwitchVlans(board: Board, lines: seq<SwitchLine>, config: Config): seq<VlanSection>
    requires AllResolve(board, lines, config)
  {
    seq(|config.vlans|, i requires 0 <= i < |config.vlans| => VlanSection(config.vlans[i].vlan, WithPorts(board, lines, config.vlans[i].ports)))
    + seq(|lines|, i requires 0 <= i < |lines| => LineVlan(lines[i]))
  }

  // ----- Uses -----

  /** The ports' placeholder as such: every port nothing else uses, untagged. */
  predicate TakesFree(ports: Option<Value>) {
    Free(false) in ItemsOf(ports)
  }

  /** Two devices would each take every free port. */
  predicate TwoTakeFree(devices: seq<DeviceSection>) {
    exists i, j :: 0 <= i < j < |devices| && TakesFree(devices[i].ports) && TakesFree(devices[j].ports)
  }

  /** A bridge with a list: its words are uses. */
  predicate Counted(device: DeviceSection) {
    device.isBridge && device.ports.Some? && device.ports.value.Many?
  }

  predicate Lists(device: DeviceSection, name: string) {
    Counted(device) && Word(name) in ItemsOf(device.ports)
  }

  predicate IsBridged(devices: seq<DeviceSection>, name: string) {
    exists i :: 0 <= i < |devices| && Lists(devices[i], name)
  }

  /** A device's port: what is before a VLAN at its end. */
  function BasePort(device: string): string {
    var digits := TrailingDigits(device);
    if 0 < digits < |device| && device[|device| - digits - 1] == '.' then device[..|device| - digits - 1] else device
  }

  function TrailingDigits(text: string): (n: nat)
    ensures n <= |text|
  {
    if text == "" || !('0' <= text[|text| - 1] <= '9') then 0 else 1 + TrailingDigits(text[..|text| - 1])
  }

  /** The interfaces' devices that are there. */
  function InterfaceDevices(board: Board, lines: seq<SwitchLine>, config: Config): set<string>
    requires AllResolve(board, lines, config)
  {
    set i | 0 <= i < |config.interfaces| && DeviceText(board, lines, config.interfaces[i].device) != "" ::
      DeviceText(board, lines, config.interfaces[i].device)
  }

  function DeviceText(board: Board, lines: seq<SwitchLine>, device: Option<Value>): string
    requires ValueResolves(board, lines, device)
  {
    match WithPorts(board, lines, device)
    case Some(One(Word(text))) => text
    case _ => ""
  }

  predicate IsInterfaced(interfaced: set<string>, name: string) {
    exists device :: device in interfaced && (device == name || BasePort(device) == name)
  }

  predicate IsUsed(name: string, devices: seq<DeviceSection>, interfaced: set<string>) {
    IsBridged(devices, name) || IsInterfaced(interfaced, name)
  }

  /** The free ports that are devices. */
  function FreeDevices(board: Board, ports: seq<Port>, devices: seq<DeviceSection>, interfaced: set<string>): seq<string> {
    if ports == [] then []
    else
      var port := ports[0];
      (if port.cpuDevice.None? && !IsUsed(port.name, devices, interfaced) && !OnSwitch(board, port.name) then [port.name] else [])
      + FreeDevices(board, ports[1..], devices, interfaced)
  }

  /** A switch VLAN's entry, its flags after a colon: `lan1:t` is lan1 tagged. */
  function EntryName(entry: string): string {
    Split(entry, ':')[0]
  }

  function EntryFlags(entry: string): string {
    if |Split(entry, ':')| > 1 then Split(entry, ':')[1] else ""
  }

  function PortNamed(ports: seq<Port>, name: string): Option<Port> {
    if ports == [] then None else if ports[0].name == name then Some(ports[0]) else PortNamed(ports[1..], name)
  }

  /** An entry as the switch lists it, by the port's number; a number as written; None for a port that
      is not the switch's. */
  function SwitchEntry(ports: seq<Port>, entry: string): Option<string> {
    match PortNamed(ports, EntryName(entry))
    case None => Some(EntryName(entry) + EntryFlags(entry))
    case Some(port) => if port.switchPort.Some? then Some(Decimal(port.switchPort.value) + EntryFlags(entry)) else None
  }

  function SwitchNumber(port: Port): string {
    if port.switchPort.Some? then Decimal(port.switchPort.value) else "undefined"
  }

  /** A word of a VLAN's list without the flag for tagged. A list's alone: one word is no list. */
  predicate ListsUntagged(vlan: VlanSection, entry: string) {
    vlan.ports.Some? && vlan.ports.value.Many? && Word(entry) in vlan.ports.value.items && 't' !in EntryFlags(entry)
  }

  /** Every such word is one of the switch's. */
  predicate UntaggedOnSwitch(ports: seq<Port>, vlans: seq<VlanSection>) {
    forall i :: 0 <= i < |vlans| ==> forall k :: 0 <= k < |ItemsOf(vlans[i].ports)| ==>
      ListsEntry(vlans[i], ItemsOf(vlans[i].ports)[k]) ==> SwitchEntry(ports, ItemsOf(vlans[i].ports)[k].text).Some?
  }

  predicate ListsEntry(vlan: VlanSection, item: Item) {
    item.Word? && ListsUntagged(vlan, item.text)
  }

  /** A number some VLAN's list has untagged. */
  predicate IsListed(ports: seq<Port>, vlans: seq<VlanSection>, number: string) {
    exists i, k :: 0 <= i < |vlans| && 0 <= k < |ItemsOf(vlans[i].ports)|
      && ListsEntry(vlans[i], ItemsOf(vlans[i].ports)[k]) && SwitchEntry(ports, ItemsOf(vlans[i].ports)[k].text) == Some(number)
  }

  /** The switch's free ports: carrying no line, untagged in no VLAN's list. */
  function FreeSwitchPorts(board: Board, ports: seq<Port>, lines: seq<SwitchLine>, vlans: seq<VlanSection>): seq<string> {
    if ports == [] then []
    else
      var port := ports[0];
      (if port.cpuDevice.None? && OnSwitch(board, port.name) && !IsListed(board.ports, vlans, SwitchNumber(port))
          && (forall i :: 0 <= i < |lines| ==> lines[i].port != port.name)
       then [port.name] else [])
      + FreeSwitchPorts(board, ports[1..], lines, vlans)
  }

  // ----- A device's ports, fitted -----

  datatype Fit = Fit(lines: seq<SwitchLine>, devices: seq<DeviceSection>, vlans: seq<VlanSection>, free: seq<string>, freeOnSwitch: seq<string>)

  /** Refused where the lines are, a placeholder is on no port, two devices take the free ports, or a
      VLAN lists a port that is not the switch's. */
  function FitPorts(board: Board, config: Config): Result<Fit>
    requires AllDrawn(config)
  {
    match SwitchLines(board, Net(config))
    case Err => Err
    case Ok(lines) =>
      if !AllResolve(board, lines, config) then Err
      else
        var devices, vlans := Devices(board, lines, config), SwitchVlans(board, lines, config);
        if TwoTakeFree(devices) || !UntaggedOnSwitch(board.ports, vlans) then Err
        else
          Ok(Fit(lines, devices, vlans,
                 FreeDevices(board, board.ports, devices, InterfaceDevices(board, lines, config)),
                 FreeSwitchPorts(board, board.ports, lines, vlans)))
  }

  // ----- What port lists become -----

  function TaggedNames(names: seq<string>): seq<string> {
    seq(|names|, i requires 0 <= i < |names| => names[i] + ":t")
  }

  /** A list's words, the free ports in place of their placeholder; refused with another. */
  function Expanded(items: seq<Item>, free: seq<string>): Result<seq<string>> {
    if items == [] then Ok([])
    else if !items[0].Word? && !items[0].Free? then Err
    else
      match Expanded(items[1..], free)
      case Err => Err
      case Ok(rest) => Ok((if items[0].Word? then [items[0].text] else if items[0].tagged then TaggedNames(free) else free) + rest)
  }

  /** A device's ports. */
  function DevicePorts(fit: Fit, device: DeviceSection): Result<seq<string>> {
    Expanded(ItemsOf(device.ports), fit.free)
  }

  function CpuPort(ports: seq<Port>): Option<string> {
    if ports == [] then None else if ports[0].cpuDevice.Some? then Some(ports[0].name) else CpuPort(ports[1..])
  }

  /** The entries as the switch lists them; refused with one that is not the switch's. */
  function SwitchEntries(ports: seq<Port>, entries: seq<string>): Result<seq<string>> {
    if entries == [] then Ok([])
    else
      match SwitchEntries(ports, entries[1..])
      case Err => Err
      case Ok(rest) => if SwitchEntry(ports, entries[0]).Some? then Ok([SwitchEntry(ports, entries[0]).value] + rest) else Err
  }

  /** A switch VLAN's ports: the CPU's tagged, then its own. */
  function VlanPorts(board: Board, fit: Fit, vlan: VlanSection): Result<seq<string>> {
    if vlan.ports.None? || CpuPort(board.ports).None? then Err
    else
      match Expanded(ItemsOf(vlan.ports), fit.freeOnSwitch)
      case Err => Err
      case Ok(entries) => SwitchEntries(board.ports, [CpuPort(board.ports).value + ":t"] + entries)
  }
}

/** When a declaration applies: a condition tree, and what it is worth on a device
    (src/plan/when.ts). */
module When {
  import opened Wrappers

  datatype Literal = Text(text: string) | Flag(on: bool)

  datatype Order = Lt | Le | Gt | Ge

  datatype When =
    | Always
    | Is(fact: string, value: Literal, negated: bool)
    | OneOf(fact: string, values: seq<Literal>)
    | Compare(fact: string, order: Order, release: string)
    | All(of: seq<When>)
    | Any(of: seq<When>)
    | Not(inner: When)

  /** What a fact is on a device: a text, a boolean or number as its text, or several. */
  datatype Known = Said(text: string) | Counted(text: string) | Several(texts: seq<string>)

  /** A device to ask: each fact it has, and how two releases compare, if both are releases. */
  datatype Device = Device(lookup: string -> Option<Known>, compare: (string, string) -> Option<int>)

  function LiteralText(value: Literal): string {
    match value
    case Text(text) => text
    case Flag(on) => if on then "true" else "false"
  }

  /** A value wanted is the fact's, or one of its several, by text. */
  predicate Matches(known: Option<Known>, wanted: seq<Literal>) {
    known.Some? &&
    var texts := if known.value.Several? then known.value.texts else [known.value.text];
    exists i :: 0 <= i < |wanted| && LiteralText(wanted[i]) in texts
  }

  predicate Ordered(device: Device, known: Option<Known>, order: Order, release: string) {
    known.Some? && known.value.Said? &&
    var compared := (device.compare)(known.value.text, release);
    compared.Some? &&
    match order
      case Lt => compared.value < 0
      case Le => compared.value <= 0
      case Gt => compared.value > 0
      case Ge => compared.value >= 0
  }

  predicate Evaluate(node: When, device: Device) {
    match node
    case Always => true
    case All(of) => forall i :: 0 <= i < |of| ==> Evaluate(of[i], device)
    case Any(of) => exists i :: 0 <= i < |of| && Evaluate(of[i], device)
    case Not(inner) => !Evaluate(inner, device)
    case Compare(fact, order, release) => Ordered(device, (device.lookup)(fact), order, release)
    case Is(fact, value, negated) => Matches((device.lookup)(fact), [value]) != negated
    case OneOf(fact, values) => Matches((device.lookup)(fact), values)
  }

  // ----- Joining -----

  datatype Kind = AllOf | AnyOf

  predicate IsKind(node: When, kind: Kind) {
    match kind
    case AllOf => node.All?
    case AnyOf => node.Any?
  }

  function Of(kind: Kind, of: seq<When>): When {
    match kind
    case AllOf => All(of)
    case AnyOf => Any(of)
  }

  /** The conditions joined, without `always` and with those of the kind opened. */
  function Flat(kind: Kind, of: seq<When>): seq<When> {
    if of == [] then []
    else
      (if of[0].Always? then [] else if IsKind(of[0], kind) then of[0].of else [of[0]])
      + Flat(kind, of[1..])
  }

  function Joined(kind: Kind, of: seq<When>): When {
    if kind.AnyOf? && Always in of then Always
    else
      var flat := Flat(kind, of);
      if flat == [] then (if kind.AllOf? then Always else Not(Always))
      else if |flat| == 1 then flat[0]
      else Of(kind, flat)
  }

  predicate EachHolds(of: seq<When>, device: Device) {
    forall i :: 0 <= i < |of| ==> Evaluate(of[i], device)
  }

  predicate OneHolds(of: seq<When>, device: Device) {
    exists i :: 0 <= i < |of| && Evaluate(of[i], device)
  }

  lemma {:induction false} EveryJoined(a: seq<When>, b: seq<When>, device: Device)
    ensures EachHolds(a + b, device) <==> EachHolds(a, device) && EachHolds(b, device)
    ensures OneHolds(a + b, device) <==> OneHolds(a, device) || OneHolds(b, device)
  {
    assert forall i :: 0 <= i < |a| ==> (a + b)[i] == a[i];
    assert forall i :: 0 <= i < |b| ==> (a + b)[|a| + i] == b[i];
  }

  lemma {:induction false} FlatKeeps(kind: Kind, of: seq<When>, device: Device)
    ensures kind.AllOf? ==> (EachHolds(Flat(kind, of), device) <==> EachHolds(of, device))
    ensures kind.AnyOf? && Always !in of ==> (OneHolds(Flat(kind, of), device) <==> OneHolds(of, device))
    decreases |of|
  {
    if of != [] {
      var first := if of[0].Always? then [] else if IsKind(of[0], kind) then of[0].of else [of[0]];
      FlatKeeps(kind, of[1..], device);
      EveryJoined(first, Flat(kind, of[1..]), device);
      EveryJoined([of[0]], of[1..], device);
      assert [of[0]] + of[1..] == of;
      assert [of[0]][0] == of[0];
    }
  }

  /** Joined conditions hold just when each does (all), or one does (any): flattening and absorbing
      change no value. */
  lemma {:induction false} JoinedKeepsValue(kind: Kind, of: seq<When>, device: Device)
    ensures kind.AllOf? ==> (Evaluate(Joined(kind, of), device) <==> EachHolds(of, device))
    ensures kind.AnyOf? ==> (Evaluate(Joined(kind, of), device) <==> OneHolds(of, device))
  {
    FlatKeeps(kind, of, device);
    if kind.AnyOf? && Always in of {
      var i :| 0 <= i < |of| && of[i] == Always;
      assert Evaluate(of[i], device);
    } else {
      var flat := Flat(kind, of);
      if |flat| == 1 { assert flat == [flat[0]]; }
    }
  }

  // ----- The shape of a tree -----

  /** No nesting of a kind in itself, and two or more in each join: what parsing returns. */
  predicate Shaped(node: When) {
    match node
    case All(of) => |of| >= 2 && forall i :: 0 <= i < |of| ==> !of[i].All? && Shaped(of[i])
    case Any(of) => |of| >= 2 && forall i :: 0 <= i < |of| ==> !of[i].Any? && Shaped(of[i])
    case Not(inner) => Shaped(inner)
    case OneOf(_, values) => values != []
    case _ => true
  }

  predicate AllShaped(of: seq<When>) {
    forall i :: 0 <= i < |of| ==> Shaped(of[i])
  }

  lemma {:induction false} FlatShaped(kind: Kind, of: seq<When>)
    requires AllShaped(of)
    ensures AllShaped(Flat(kind, of)) && forall i :: 0 <= i < |Flat(kind, of)| ==> !IsKind(Flat(kind, of)[i], kind)
    decreases |of|
  {
    if of != [] {
      FlatShaped(kind, of[1..]);
      assert Shaped(of[0]);
    }
  }

  /** Joining shaped trees makes a shaped one. */
  lemma {:induction false} JoinedShaped(kind: Kind, of: seq<When>)
    requires AllShaped(of)
    ensures Shaped(Joined(kind, of))
  {
    FlatShaped(kind, of);
  }
}

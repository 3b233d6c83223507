/** What a condition means on a device, test by test (src/plan/when.ts, evaluate). */
module WhenLaws {
  import opened Wrappers
  import opened Text
  import opened When
  import Releases

  predicate Holds(fact: string, order: Order, release: string, device: Device) {
    Evaluate(Compare(fact, order, release), device)
  }

  // ----- Releases -----

  /** A device whose fact is a release, against another one: `<` just when its own is the earlier, `>` the
      later; one of `<` and `>=`, and of `<=` and `>`; and the loose ones take in the equal. */
  lemma {:induction false} OrderMeans(fact: string, release: string, device: Device, own: string, compared: int)
    requires (device.lookup)(fact) == Some(Said(own)) && (device.compare)(own, release) == Some(compared)
    ensures Holds(fact, Lt, release, device) <==> compared < 0
    ensures Holds(fact, Gt, release, device) <==> compared > 0
    ensures Holds(fact, Lt, release, device) != Holds(fact, Ge, release, device)
    ensures Holds(fact, Gt, release, device) != Holds(fact, Le, release, device)
    ensures Holds(fact, Le, release, device) <==> Holds(fact, Lt, release, device) || compared == 0
    ensures Holds(fact, Ge, release, device) <==> Holds(fact, Gt, release, device) || compared == 0
  {
  }

  /** What is no release, or no text, is in no order to one. */
  lemma {:induction false} NoOrder(fact: string, order: Order, release: string, device: Device)
    requires var known := (device.lookup)(fact);
      known.None? || !known.value.Said? || (device.compare)(known.value.text, release).None?
    ensures !Holds(fact, order, release, device)
  {
  }

  function Turned(order: Order): Order {
    match order
    case Lt => Gt
    case Gt => Lt
    case Le => Ge
    case Ge => Le
  }

  /** Asked the other way round, of a device that has the other release. */
  lemma {:induction false} OrderTurns(fact: string, order: Order, a: Device, own: string, b: Device, other: string)
    requires (a.lookup)(fact) == Some(Said(own)) && (b.lookup)(fact) == Some(Said(other))
    requires (a.compare)(own, other).Some? && (b.compare)(other, own) == Some(-(a.compare)(own, other).value)
    ensures Holds(fact, order, other, a) <==> Holds(fact, Turned(order), own, b)
  {
  }

  /** On a device that compares releases as releases are compared: older, newer or the same rank. */
  lemma {:induction false} OnReleases(fact: string, release: string, device: Device, own: string)
    requires (device.lookup)(fact) == Some(Said(own)) && device.compare == Releases.Compared
    ensures var (x, y) := (Releases.RankOf(own), Releases.RankOf(release));
      && (Holds(fact, Lt, release, device) <==> x.Some? && y.Some? && Releases.Older(x.value, y.value))
      && (Holds(fact, Gt, release, device) <==> x.Some? && y.Some? && Releases.Older(y.value, x.value))
      && (Holds(fact, Le, release, device) <==> x.Some? && y.Some? && !Releases.Older(y.value, x.value))
      && (Holds(fact, Ge, release, device) <==> x.Some? && y.Some? && !Releases.Older(x.value, y.value))
  {
    if Releases.RankOf(own).Some? && Releases.RankOf(release).Some? {
      Releases.ComparedIs(own, release);
      OrderMeans(fact, release, device, own, Releases.Compared(own, release).value);
    } else {
      NoOrder(fact, Lt, release, device);
      NoOrder(fact, Gt, release, device);
      NoOrder(fact, Le, release, device);
      NoOrder(fact, Ge, release, device);
    }
  }

  // ----- Equality and membership -----

  predicate IsSaid(fact: string, value: Literal, device: Device) {
    Evaluate(Is(fact, value, false), device)
  }

  /** By text: a name or number its own, a flag `true` or `false`; one of several; what is absent is
      nothing. */
  lemma {:induction false} IsMeans(fact: string, value: Literal, device: Device)
    ensures var known := (device.lookup)(fact);
      var text := if value.Flag? then (if value.on then "true" else "false") else value.text;
      && (known.None? ==> !IsSaid(fact, value, device))
      && (known.Some? && known.value.Several? ==> (IsSaid(fact, value, device) <==> text in known.value.texts))
      && (known.Some? && !known.value.Several? ==> (IsSaid(fact, value, device) <==> known.value.text == text))
  {
    assert [value][0] == value;
  }

  /** `!=` is not `==`; IN is `==` to one of them. */
  lemma {:induction false} IsVariants(fact: string, value: Literal, values: seq<Literal>, device: Device)
    ensures Evaluate(Is(fact, value, true), device) <==> !IsSaid(fact, value, device)
    ensures Evaluate(OneOf(fact, values), device) <==> exists i :: 0 <= i < |values| && IsSaid(fact, values[i], device)
  {
    forall i | 0 <= i < |values|
      ensures IsSaid(fact, values[i], device) <==> Matches((device.lookup)(fact), [values[i]])
    {
    }
    assert forall i :: 0 <= i < |values| ==> [values[i]][0] == values[i];
    if Evaluate(OneOf(fact, values), device) {
      var known := (device.lookup)(fact);
      var texts := if known.value.Several? then known.value.texts else [known.value.text];
      var i :| 0 <= i < |values| && LiteralText(values[i]) in texts;
      assert IsSaid(fact, values[i], device);
    }
  }

  // ----- Joins -----

  /** Nothing asked holds; nothing to choose from does not; one more is asked too, or may be chosen. */
  lemma {:induction false} JoinsMean(of: seq<When>, node: When, device: Device)
    ensures Evaluate(Always, device) && Evaluate(All([]), device) && !Evaluate(Any([]), device)
    ensures Evaluate(All(of + [node]), device) <==> Evaluate(All(of), device) && Evaluate(node, device)
    ensures Evaluate(Any(of + [node]), device) <==> Evaluate(Any(of), device) || Evaluate(node, device)
    ensures Evaluate(Not(node), device) <==> !Evaluate(node, device)
  {
    EveryJoined(of, [node], device);
    assert [node][0] == node;
    assert Evaluate(All(of), device) <==> EachHolds(of, device);
    assert Evaluate(Any(of), device) <==> OneHolds(of, device);
  }
}

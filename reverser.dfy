/** The generator calls a feature describes to the seed reverser, what it
    means for a seed to satisfy them, and the device that records them. */
module Reverser {
  import opened JavaRandom

  /** One `nextInt` call of the generator, as the reverser sees it. */
  datatype Call =
    /** `NextInt.withValue(bound, value)`: the draw is known to be `value`. */
    | Exact(bound: nat, value: int)
    /** `NextInt.consume(bound, count)`: `count` draws whose values do not matter. */
    | Consume(bound: nat, count: nat)
    /** `FilteredSkip.filter(r -> r.nextInt(bound) != excluded)`: one draw,
        checked after the algebraic search: the seed is kept only when the
        drawn value differs from `excluded`. */
    | Filter(bound: nat, excluded: int)
  {
    /** Every bound is one `nextInt` answers from the top bits of the state. */
    predicate WellFormed()
    {
      IsTopBitsBound(bound)
    }

    /** How many draws the call takes from the generator. */
    function Draws(): nat
    {
      if Consume? then count else 1
    }
  }

  predicate AllWellFormed(calls: seq<Call>)
  {
    forall i :: 0 <= i < |calls| ==> calls[i].WellFormed()
  }

  /** Replaying `calls` from state `s` meets every exact value and every
      filter. */
  predicate Satisfies(calls: seq<Call>, s: Seed)
    requires AllWellFormed(calls)
    decreases |calls|
  {
    if calls == [] then true
    else
      var c := calls[0];
      assert c.WellFormed();
      match c
      case Exact(bound, value) =>
        NextIntFrom(s, bound) == value && Satisfies(calls[1..], Step(s))
      case Consume(_, count) =>
        Satisfies(calls[1..], Advance(s, count))
      case Filter(bound, excluded) =>
        NextIntFrom(s, bound) != excluded && Satisfies(calls[1..], Step(s))
  }

  /** Total number of draws the calls take. */
  function TotalDraws(calls: seq<Call>): nat
  {
    if calls == [] then 0 else calls[0].Draws() + TotalDraws(calls[1..])
  }

  /** Replaying `a + b` is replaying `a` and then replaying `b` from the
      state `a` leaves behind. */
  lemma {:induction false} SatisfiesAppend(a: seq<Call>, b: seq<Call>, s: Seed)
    requires AllWellFormed(a) && AllWellFormed(b)
    ensures AllWellFormed(a + b)
    ensures Satisfies(a + b, s)
        <==> Satisfies(a, s) && Satisfies(b, Advance(s, TotalDraws(a)))
    decreases |a|
  {
    if a != [] {
      assert (a + b)[0] == a[0] && (a + b)[1..] == a[1..] + b;
      var next := Advance(s, a[0].Draws());
      assert a[0].WellFormed();
      SatisfiesAppend(a[1..], b, next);
      AdvanceAdd(s, a[0].Draws(), TotalDraws(a[1..]));
    } else {
      assert a + b == b;
    }
  }

  /** `ReverserDevice`: collects the calls of one generator, in order. Its
      solver is not part of this model: callers receive it as a function
      from the recorded calls to the stream of solutions. */
  class ReverserDevice {
    var calls: seq<Call>

    constructor ()
      ensures calls == []
    {
      calls := [];
    }

    method AddCall(c: Call)
      modifies this
      ensures calls == old(calls) + [c]
    {
      calls := calls + [c];
    }
  }
}

/**
 * The furnace: a two-state on/off machine that books fuel only when it is
 * switched off, and produces heat at a constant rate while it is on.
 */
module Furnaces {
  import opened Wrappers

  /** The furnace's configuration: heat per fuel unit, fuel per second, fuel per start. */
  datatype Burner = Burner(joulesPerFuel: real, burnRate: real, startupUse: real)

  /** The furnace's mutable state; `onTime` is None until the first switch-on. */
  datatype FurnaceState = FurnaceState(on: bool, onTime: Option<real>, fuelBurned: real)

  /** A switch-on time is recorded whenever the furnace is on. */
  predicate Consistent(s: FurnaceState) {
    s.on ==> s.onTime.Some?
  }

  /** Rates that make every burn cost fuel rather than return it. */
  predicate NonNegativeRates(b: Burner) {
    0.0 <= b.burnRate && 0.0 <= b.startupUse
  }

  /** Fuel booked for a burn that started at `onTime` and ends at `offTime`. */
  function BurnCharge(b: Burner, onTime: real, offTime: real): (fuel: real)
    ensures 0.0 <= b.burnRate && onTime <= offTime ==> b.startupUse <= fuel
    ensures NonNegativeRates(b) && onTime <= offTime ==> 0.0 <= fuel
    ensures onTime == offTime ==> fuel == b.startupUse
  {
    b.startupUse + (offTime - onTime) * b.burnRate
  }

  /** State after a switch-on request at time t; a running furnace ignores it. */
  function TurnedOn(s: FurnaceState, t: real): (r: FurnaceState)
    requires Consistent(s)
    ensures r.on && Consistent(r)
    ensures r.fuelBurned == s.fuelBurned
    ensures s.on ==> r == s
    ensures !s.on ==> r.onTime == Some(t)
  {
    if !s.on then s.(on := true, onTime := Some(t)) else s
  }

  /**
   * State after a switch-off request at time t: a running furnace books the
   * fuel of the burn since its switch-on time and stops; the switch-on time
   * stays recorded. A furnace that is off ignores the request.
   */
  function TurnedOff(b: Burner, s: FurnaceState, t: real): (r: FurnaceState)
    requires Consistent(s)
    ensures !r.on && Consistent(r)
    ensures r.onTime == s.onTime
    ensures !s.on ==> r == s
    ensures s.on ==> r.fuelBurned == s.fuelBurned + BurnCharge(b, s.onTime.value, t)
  {
    if s.on then
      s.(fuelBurned := s.fuelBurned + BurnCharge(b, s.onTime.value, t), on := false)
    else
      s
  }

  /** Heat produced over dt seconds: the fuel burned in that time times its heat content. */
  function HeatOutput(b: Burner, s: FurnaceState, dt: real): (heat: real)
    ensures !s.on ==> heat == 0.0
    ensures s.on ==> heat == (dt * b.burnRate) * b.joulesPerFuel
    ensures 0.0 <= dt && 0.0 <= b.burnRate && 0.0 <= b.joulesPerFuel ==> 0.0 <= heat
  {
    if s.on then dt * b.burnRate * b.joulesPerFuel else 0.0
  }

  /** A switching request, with the time at which it is made. */
  datatype Switch = SwitchOn(at: real) | SwitchOff(at: real)

  function Apply(b: Burner, s: FurnaceState, e: Switch): (r: FurnaceState)
    requires Consistent(s)
    ensures Consistent(r)
    ensures r.fuelBurned != s.fuelBurned ==> s.on && e.SwitchOff?
  {
    match e
    case SwitchOn(t) => TurnedOn(s, t)
    case SwitchOff(t) => TurnedOff(b, s, t)
  }

  /** State after a sequence of switching requests, in order. */
  function Replay(b: Burner, s: FurnaceState, events: seq<Switch>): (r: FurnaceState)
    requires Consistent(s)
    ensures Consistent(r)
    decreases |events|
  {
    if events == [] then s else Replay(b, Apply(b, s, events[0]), events[1..])
  }

  /** Every switch-off in `events` comes no earlier than the switch-on it ends. */
  predicate Punctual(b: Burner, s: FurnaceState, events: seq<Switch>)
    requires Consistent(s)
    decreases |events|
  {
    events == [] ||
    ((events[0].SwitchOff? && s.on ==> s.onTime.value <= events[0].at) &&
     Punctual(b, Apply(b, s, events[0]), events[1..]))
  }

  /** Fuel burned never decreases over a punctual sequence of requests. */
  lemma {:induction false} FuelNeverDecreases(b: Burner, s: FurnaceState, events: seq<Switch>)
    requires Consistent(s) && NonNegativeRates(b) && Punctual(b, s, events)
    ensures s.fuelBurned <= Replay(b, s, events).fuelBurned
    decreases |events|
  {
    if events != [] {
      FuelNeverDecreases(b, Apply(b, s, events[0]), events[1..]);
    }
  }

  /** A switch-on followed by a switch-off books exactly one burn between the two times. */
  lemma OnThenOffBooksOneBurn(b: Burner, s: FurnaceState, t0: real, t1: real)
    requires Consistent(s) && !s.on
    ensures Replay(b, s, [SwitchOn(t0), SwitchOff(t1)]).fuelBurned == s.fuelBurned + BurnCharge(b, t0, t1)
    ensures !Replay(b, s, [SwitchOn(t0), SwitchOff(t1)]).on
  {
    var on := TurnedOn(s, t0);
    assert Replay(b, on, [SwitchOff(t1)]) == Replay(b, TurnedOff(b, on, t1), []);
    assert [SwitchOn(t0), SwitchOff(t1)][1..] == [SwitchOff(t1)];
  }

  /** Repeating a switching request changes nothing: only the first one takes effect. */
  lemma SwitchingIsIdempotent(b: Burner, s: FurnaceState, t: real, t': real)
    requires Consistent(s)
    ensures TurnedOn(TurnedOn(s, t), t') == TurnedOn(s, t)
    ensures TurnedOff(b, TurnedOff(b, s, t), t') == TurnedOff(b, s, t)
  {
  }

  class Furnace {
    var on: bool
    var onTime: Option<real>
    var fuelBurned: real
    const joulesPerFuel: real
    const burnRate: real := 1.0
    const startupUse: real := 1.0

    function Config(): Burner {
      Burner(joulesPerFuel, burnRate, startupUse)
    }

    function State(): FurnaceState
      reads this
    {
      FurnaceState(on, onTime, fuelBurned)
    }

    predicate Valid()
      reads this
    {
      Consistent(State())
    }

    /** A new furnace is off, has burned nothing, and has never been switched on. */
    constructor (jpf: real)
      ensures Valid()
      ensures !on && onTime == None && fuelBurned == 0.0
      ensures joulesPerFuel == jpf && burnRate == 1.0 && startupUse == 1.0
    {
      fuelBurned := 0.0;
      joulesPerFuel := jpf;
      on := false;
      onTime := None;
    }

    method TurnOn(time: real)
      requires Valid()
      modifies this
      ensures Valid()
      ensures State() == TurnedOn(old(State()), time)
      ensures old(on) ==> unchanged(this)
      ensures !old(on) ==> on && onTime == Some(time) && fuelBurned == old(fuelBurned)
    {
      if !on {
        on := true;
        onTime := Some(time);
      }
    }

    /** Heat output over `dt` seconds; a query that changes nothing. */
    method Output(dt: real) returns (heat: real)
      ensures heat == HeatOutput(Config(), State(), dt)
    {
      if on {
        heat := dt * burnRate * joulesPerFuel;
      } else {
        heat := 0.0;
      }
    }

    method TurnOff(time: real)
      requires Valid()
      modifies this
      ensures Valid()
      ensures State() == TurnedOff(Config(), old(State()), time)
      ensures !old(on) ==> unchanged(this)
      ensures old(on) ==> !on && onTime == old(onTime)
      ensures old(on) ==> fuelBurned == old(fuelBurned) + startupUse + (time - old(onTime).value) * burnRate
    {
      if on {
        fuelBurned := fuelBurned + (startupUse + (time - onTime.value) * burnRate);
        on := false;
      }
    }
  }
}

/**
 * The thermostat: owns a building, a furnace and a climate, and advances
 * them in lockstep by fixed ticks of simulated time.
 */
module Thermostats {
  import opened Wrappers
  import opened Buildings
  import opened Furnaces
  import opened Climates

  /** The constants a tick depends on. */
  datatype Plant = Plant(eflux: real, specHeat: real, burner: Burner, tickSize: real)

  /** The state a tick changes: building temperature, furnace state, clock. */
  datatype Snapshot = Snapshot(temp: real, furnace: FurnaceState, clock: real)

  /**
   * One tick with exterior temperature `outside`: decay toward the exterior,
   * add the heat the furnace produced in its state before the tick, switch
   * the furnace off at the tick's start time, and advance the clock. None is
   * the division by zero raised for a zero specific heat.
   */
  function Step(p: Plant, outside: real, s: Snapshot): (r: Option<Snapshot>)
    requires Consistent(s.furnace)
    ensures r.Some? <==> p.specHeat != 0.0
    ensures r.Some? ==> r.value.clock == s.clock + p.tickSize
    ensures r.Some? ==> !r.value.furnace.on && Consistent(r.value.furnace)
    ensures r.Some? ==> r.value.furnace.onTime == s.furnace.onTime
    ensures r.Some? ==>
      (r.value.temp - Decayed(s.temp, outside, p.eflux, p.tickSize)) * p.specHeat
        == HeatOutput(p.burner, s.furnace, p.tickSize)
    ensures r.Some? && !s.furnace.on ==>
      r.value.furnace == s.furnace && r.value.temp == Decayed(s.temp, outside, p.eflux, p.tickSize)
    ensures r.Some? && s.furnace.on ==>
      r.value.furnace.fuelBurned == s.furnace.fuelBurned + BurnCharge(p.burner, s.furnace.onTime.value, s.clock)
  {
    var inside := Decayed(s.temp, outside, p.eflux, p.tickSize);
    var heat := HeatOutput(p.burner, s.furnace, p.tickSize);
    match Heated(inside, heat, p.specHeat)
    case None => None
    case Some(t) => Some(Snapshot(t, TurnedOff(p.burner, s.furnace, s.clock), s.clock + p.tickSize))
  }

  /** The state after n ticks under climate c, or None once a tick fails. */
  function Run(p: Plant, c: Climate, s: Snapshot, n: nat): (r: Option<Snapshot>)
    requires Consistent(s.furnace)
    ensures r.Some? ==> Consistent(r.value.furnace)
    decreases n
  {
    if n == 0 then Some(s)
    else
      match Step(p, c.Temp(s.clock), s)
      case None => None
      case Some(s') => Run(p, c, s', n - 1)
  }

  /** A run fails exactly when it has at least one tick and the specific heat is zero. */
  lemma {:induction false} RunFailsIff(p: Plant, c: Climate, s: Snapshot, n: nat)
    requires Consistent(s.furnace)
    ensures Run(p, c, s, n).None? <==> 0 < n && p.specHeat == 0.0
    decreases n
  {
    if 0 < n && p.specHeat != 0.0 {
      RunFailsIff(p, c, Step(p, c.Temp(s.clock), s).value, n - 1);
    }
  }

  /** Each tick advances the clock by exactly one tick size. */
  lemma {:induction false} RunAdvancesClock(p: Plant, c: Climate, s: Snapshot, n: nat)
    requires Consistent(s.furnace)
    ensures Run(p, c, s, n).Some? ==> Run(p, c, s, n).value.clock == s.clock + (n as real) * p.tickSize
    decreases n
  {
    if 0 < n && p.specHeat != 0.0 {
      RunAdvancesClock(p, c, Step(p, c.Temp(s.clock), s).value, n - 1);
      assert (n as real) * p.tickSize == ((n - 1) as real) * p.tickSize + p.tickSize;
    }
  }

  /**
   * After the first tick the furnace is off and stays exactly as the first
   * tick left it: the ticks never switch it on, so at most one burn is booked.
   */
  lemma {:induction false} RunKeepsFurnaceOff(p: Plant, c: Climate, s: Snapshot, n: nat)
    requires Consistent(s.furnace) && 0 < n
    ensures Run(p, c, s, n).Some? ==>
      !Run(p, c, s, n).value.furnace.on &&
      Run(p, c, s, n).value.furnace == Step(p, c.Temp(s.clock), s).value.furnace
    ensures Run(p, c, s, n).Some? && !s.furnace.on ==> Run(p, c, s, n).value.furnace == s.furnace
    decreases n
  {
    if 1 < n && p.specHeat != 0.0 {
      RunKeepsFurnaceOff(p, c, Step(p, c.Temp(s.clock), s).value, n - 1);
    }
  }

  /**
   * Fuel burned never decreases over any number of ticks, provided the rates
   * are non-negative and a running furnace was switched on no later than the
   * first tick's start time.
   */
  lemma RunFuelNeverDecreases(p: Plant, c: Climate, s: Snapshot, n: nat)
    requires Consistent(s.furnace) && NonNegativeRates(p.burner)
    requires s.furnace.on ==> s.furnace.onTime.value <= s.clock
    ensures Run(p, c, s, n).Some? ==> s.furnace.fuelBurned <= Run(p, c, s, n).value.furnace.fuelBurned
  {
    if 0 < n {
      RunKeepsFurnaceOff(p, c, s, n);
    }
  }

  /**
   * With the furnace off and a stable decay step, the building temperature
   * never leaves a band that holds its start temperature and every exterior
   * temperature.
   */
  lemma {:induction false} UnheatedStaysInBand(p: Plant, c: Climate, s: Snapshot, n: nat, lo: real, hi: real)
    requires Consistent(s.furnace) && !s.furnace.on
    requires 0.0 <= p.eflux * p.tickSize <= 1.0
    requires lo <= s.temp <= hi
    requires forall t :: lo <= c.Temp(t) <= hi
    ensures Run(p, c, s, n).Some? ==> lo <= Run(p, c, s, n).value.temp <= hi
    decreases n
  {
    if 0 < n && p.specHeat != 0.0 {
      var s' := Step(p, c.Temp(s.clock), s).value;
      assert Between(s'.temp, s.temp, c.Temp(s.clock));
      UnheatedStaysInBand(p, c, s', n - 1, lo, hi);
    }
  }

  /**
   * With a sine that stays in [-1, 1], an unheated building never gets colder
   * than the colder of its start temperature and the climate's minimum, nor
   * warmer than the warmer of its start temperature and the climate's maximum.
   */
  lemma UnheatedFollowsClimate(p: Plant, c: Climate, s: Snapshot, n: nat)
    requires Consistent(s.furnace) && !s.furnace.on
    requires 0.0 <= p.eflux * p.tickSize <= 1.0
    requires UnitRange(c.sine)
    ensures Run(p, c, s, n).Some? ==>
      Min(s.temp, c.minTemp) <= Run(p, c, s, n).value.temp <= Max(s.temp, c.maxTemp)
  {
    var lo, hi := Min(s.temp, c.minTemp), Max(s.temp, c.maxTemp);
    forall t ensures lo <= c.Temp(t) <= hi {
    }
    UnheatedStaysInBand(p, c, s, n, lo, hi);
  }

  function Min(x: real, y: real): real { if x <= y then x else y }
  function Max(x: real, y: real): real { if x <= y then y else x }

  class Thermostat {
    const building: Building
    const furnace: Furnace
    const climate: Climate
    var time: real
    const tickSize: real := 60.0

    predicate Valid()
      reads furnace
    {
      furnace.Valid()
    }

    function PlantOf(): Plant {
      Plant(building.eflux, building.specHeat, furnace.Config(), tickSize)
    }

    function State(): Snapshot
      reads this, building, furnace
    {
      Snapshot(building.temp, furnace.State(), time)
    }

    /** The target temperature is accepted and ignored; the clock starts at 0. */
    constructor (targetTemp: real, building: Building, furnace: Furnace, climate: Climate)
      requires furnace.Valid()
      ensures Valid()
      ensures this.building == building && this.furnace == furnace && this.climate == climate
      ensures time == 0.0 && tickSize == 60.0
    {
      this.building := building;
      this.furnace := furnace;
      this.climate := climate;
      time := 0.0;
    }

    /**
     * One tick. `ok` is false where the source raises ZeroDivisionError from
     * the building's heat update; the exterior exchange has then already
     * happened and nothing else has.
     */
    method Tick() returns (ok: bool)
      requires Valid()
      modifies this, building, furnace
      ensures Valid()
      ensures ok <==> building.specHeat != 0.0
      ensures Step(PlantOf(), climate.Temp(old(time)), old(State())) == if ok then Some(State()) else None
      ensures ok ==> time == old(time) + tickSize && !furnace.on
      ensures !ok ==>
        time == old(time) && furnace.State() == old(furnace.State()) &&
        building.temp == Decayed(old(building.temp), climate.Temp(old(time)), building.eflux, tickSize)
    {
      var dt := tickSize;
      var exterior := climate.Temp(time);
      building.ExternFluxTick(exterior, dt);
      var heat := furnace.Output(dt);
      ok := building.InternFluxTick(heat);
      if !ok {
        return;
      }
      // The control branch of the source tests a literal false, so the
      // switch-on is unreachable and every tick switches the furnace off.
      furnace.TurnOff(time);
      time := time + dt;
    }
  }
}

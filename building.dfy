/**
 * The building: one thermal mass whose average temperature exchanges heat
 * with the outside (explicit Euler decay) and absorbs heat from the furnace.
 */
module Buildings {
  import opened Wrappers

  /** x lies on the closed segment between a and b, whichever is larger. */
  predicate Between(x: real, a: real, b: real) {
    (a <= x <= b) || (b <= x <= a)
  }

  function Dist(x: real, y: real): real {
    if x <= y then y - x else x - y
  }

  /**
   * Temperature after exchanging heat with an exterior at `outside` for `dt`
   * seconds at rate `eflux`: the gap to the exterior shrinks by the factor
   * 1 - eflux * dt, so a stable step never overshoots the exterior.
   */
  function Decayed(temp: real, outside: real, eflux: real, dt: real): (r: real)
    ensures r - outside == (1.0 - eflux * dt) * (temp - outside)
    ensures 0.0 <= eflux * dt <= 1.0 ==> Between(r, temp, outside)
    ensures 0.0 <= eflux * dt <= 1.0 ==> Dist(r, outside) <= Dist(temp, outside)
    ensures 0.0 < eflux * dt <= 1.0 && temp != outside ==> Dist(r, outside) < Dist(temp, outside)
  {
    var k := eflux * dt;
    assert eflux * (temp - outside) * dt == k * (temp - outside);
    if 0.0 <= k <= 1.0 then
      Shrink(1.0 - k, temp - outside);
      temp - eflux * (temp - outside) * dt
    else
      temp - eflux * (temp - outside) * dt
  }

  /** Scaling a gap g by a factor c in [0, 1] keeps it on the same side and no longer. */
  lemma Shrink(c: real, g: real)
    requires 0.0 <= c <= 1.0
    ensures Between(c * g, 0.0, g)
    ensures c < 1.0 && g != 0.0 ==> Dist(c * g, 0.0) < Dist(g, 0.0)
  {
  }

  /**
   * Temperature after absorbing `joules` into a mass of specific heat
   * `specHeat`; None stands for the division by zero the source raises when
   * the specific heat is zero.
   */
  function Heated(temp: real, joules: real, specHeat: real): (r: Option<real>)
    ensures r.None? <==> specHeat == 0.0
    ensures r.Some? ==> (r.value - temp) * specHeat == joules
    ensures r.Some? && joules == 0.0 ==> r.value == temp
    ensures r.Some? && 0.0 <= joules && 0.0 < specHeat ==> temp <= r.value
  {
    if specHeat == 0.0 then None else Some(temp + joules / specHeat)
  }

  class Building {
    var temp: real
    const eflux: real
    const specHeat: real

    constructor (temp: real, eflux: real, specHeat: real)
      ensures this.temp == temp && this.eflux == eflux && this.specHeat == specHeat
    {
      this.temp := temp;
      this.eflux := eflux;
      this.specHeat := specHeat;
    }

    /** Exchange heat with the exterior at `outside` for `dt` seconds. */
    method ExternFluxTick(outside: real, dt: real)
      modifies this
      ensures temp == Decayed(old(temp), outside, eflux, dt)
    {
      temp := temp - eflux * (temp - outside) * dt;
    }

    /**
     * Absorb `joules` from the furnace. `ok` is false where the source raises
     * ZeroDivisionError (a zero specific heat); the temperature is then untouched.
     */
    method InternFluxTick(joules: real) returns (ok: bool)
      modifies this
      ensures ok <==> specHeat != 0.0
      ensures Heated(old(temp), joules, specHeat) == if ok then Some(temp) else None
      ensures !ok ==> temp == old(temp)
    {
      if specHeat == 0.0 {
        return false;
      }
      temp := temp + joules / specHeat;
      ok := true;
    }
  }
}

/**
 * The climate: a 24-hour sinusoidal exterior temperature whose minimum
 * (-10 C) falls six hours into the day and whose maximum (10 C) falls half a
 * day later. The host's sine function is a parameter of the model.
 */
module Climates {
  /** The host's value of pi. */
  const Pi: real := 3.141592653589793

  /** Every value of f lies in [-1, 1], as a sine's do. */
  ghost predicate UnitRange(f: real -> real) {
    forall x :: -1.0 <= f(x) <= 1.0
  }

  /**
   * f repeats after every 2 * Pi. This describes an idealised sine: Pi is the
   * finite literal above, so the true sine does not repeat after exactly 2 * Pi.
   */
  ghost predicate RepeatsAfterTwoPi(f: real -> real) {
    forall x, y :: y == x + 2.0 * Pi ==> f(y) == f(x)
  }

  class Climate {
    const minTime: real := 6.0 * 60.0 * 60.0
    const minTemp: real := -10.0
    const maxTemp: real := 10.0
    const period: real := 60.0 * 60.0 * 24.0
    /** The host's sine function. */
    const sine: real -> real

    constructor (sine: real -> real)
      ensures this.sine == sine
    {
      this.sine := sine;
    }

    function Amplitude(): real { maxTemp - minTemp }
    function Offset(): real { (maxTemp + minTemp) * 0.5 }
    function Scale(): real { 2.0 * Pi / period }

    /** The argument handed to the sine at `time`. */
    function Angle(time: real): real {
      Pi * 0.5 + Scale() * (minTime + time)
    }

    /**
     * Exterior temperature at `time`. It stays within [minTemp, maxTemp]
     * whenever the sine stays within [-1, 1], and reaches each extreme exactly
     * where the sine does.
     */
    function Temp(time: real): (r: real)
      ensures UnitRange(sine) ==> minTemp <= r <= maxTemp
      ensures r == minTemp <==> sine(Angle(time)) == -1.0
      ensures r == maxTemp <==> sine(Angle(time)) == 1.0
      ensures r == Offset() <==> sine(Angle(time)) == 0.0
    {
      Offset() + Amplitude() * 0.5 * sine(Angle(time))
    }

    /** One period later, the sine's argument has advanced by exactly 2 * Pi. */
    lemma AngleAdvancesByTwoPi(time: real)
      ensures Angle(time + period) == Angle(time) + 2.0 * Pi
    {
    }

    /** The exterior temperature repeats every period. */
    lemma TempIsPeriodic(time: real)
      requires RepeatsAfterTwoPi(sine)
      ensures Temp(time + period) == Temp(time)
    {
      AngleAdvancesByTwoPi(time);
    }

    /**
     * The coldest moment is minTime, the warmest half a period later. The
     * hypotheses on the sine describe an idealised sine: the true sine is not
     * exactly -1 at 1.5 * Pi nor exactly 1 at 2.5 * Pi for this finite Pi.
     */
    lemma Extremes()
      ensures Angle(minTime) == 1.5 * Pi && Angle(minTime + period * 0.5) == 2.5 * Pi
      ensures sine(1.5 * Pi) == -1.0 ==> Temp(minTime) == minTemp
      ensures sine(2.5 * Pi) == 1.0 ==> Temp(minTime + period * 0.5) == maxTemp
    {
    }

    /** At time 0 the sine is evaluated at Pi, so the exterior sits at the midpoint. */
    lemma MidnightIsMidpoint()
      ensures Angle(0.0) == Pi
      ensures sine(Pi) == 0.0 ==> Temp(0.0) == 0.0
    {
    }
  }
}

# Thermostat simulation kernel in Dafny

This project models the simulation kernel of a small discrete-time building-heating
simulator (`thermostat.py`). The kernel has four parts:

- a **building**: one thermal mass whose temperature decays toward the exterior
  (explicit Euler) and rises with the heat it absorbs;
- a **furnace**: an on/off machine that produces heat at a constant rate while on
  and books fuel only when it is switched off;
- a **climate**: a 24-hour sinusoid for the exterior temperature;
- a **thermostat**: it advances the three in lockstep, one 60-second tick at a time.

Each Python class is a Dafny class (`building.dfy`, `furnace.dfy`, `climate.dfy`,
`thermostat.dfy`). The fields the source writes after construction are `var`;
the rest are `const`. Methods that change state have `modifies` clauses.
Each mutating method is proved equal to a pure step function on a
value snapshot: `Decayed`/`Heated`, `TurnedOn`/`TurnedOff`, and `Step`. The
properties that span many calls are lemmas about those functions:

- `Replay` folds a sequence of switch requests;
- `Run` iterates ticks.

All quantities are Dafny `real`s.

Three behaviours of the code are modelled as written:

- **Switch-on is unreachable.** The thermostat's docstring says it controls the
  furnace's on/off (thermostat.py:88). But the branch at thermostat.py:106 tests a
  literal `False`, so every tick switches the furnace off.
- **Switch-off keeps the on time.** Switching off leaves the recorded switch-on
  time in place (thermostat.py:64-66).
- **The target is ignored.** The thermostat accepts a target temperature and never
  stores it (thermostat.py:89-95).

A zero specific heat makes the building's heat update raise `ZeroDivisionError`.
The model handles this as an error result:

- `InternFluxTick` and `Tick` return `ok == false`;
- `Heated`, `Step` and `Run` return `None`;
- what a tick has already done at that point (the exterior exchange) stays done.

`climate.temp` calls the host's `math.sin`. The model takes it as the class
parameter `sine: real -> real` and uses `math.pi` as the literal
3.141592653589793. The climate's range, periodicity and extremes are proved under
stated assumptions about `sine`.

## Model

| member | source | states |
|---|---|---|
| `Buildings.Decayed` | thermostat.py:27-29 | The gap to the exterior is scaled by `1 - eflux*dt`. When `0 <= eflux*dt <= 1`, the new temperature lies between the old one and the exterior (no overshoot), no farther from the exterior, and strictly closer when `eflux*dt > 0` |
| `Buildings.Heated` | thermostat.py:30-32 | Fails exactly when the specific heat is zero. Otherwise `(temp' - temp) * specHeat == joules`, zero heat leaves the temperature unchanged, and non-negative heat never cools the building |
| `Buildings.Building.constructor` | thermostat.py:22-26 | Stores the temperature, eflux and specific heat as given |
| `Buildings.Building.ExternFluxTick` | thermostat.py:27-29 | The new temperature is `Decayed` of the old one, the exterior temperature and the step |
| `Buildings.Building.InternFluxTick` | thermostat.py:30-32 | `ok` holds iff the specific heat is non-zero. The new temperature is what `Heated` gives. On failure the temperature is untouched |
| `Furnaces.BurnCharge` | thermostat.py:65 | A burn that ends no earlier than it started costs at least the startup fuel. It costs non-negative fuel under non-negative rates, and exactly the startup fuel when it has zero length |
| `Furnaces.TurnedOn` | thermostat.py:50-54 | The furnace is on afterwards and fuel is unchanged. A running furnace is left exactly as it was. A stopped one records the switch-on time |
| `Furnaces.TurnedOff` | thermostat.py:61-66 | The furnace is off afterwards and the recorded on time is kept. A stopped furnace is unchanged. A running one books exactly `BurnCharge(onTime, t)` more fuel |
| `Furnaces.HeatOutput` | thermostat.py:55-60 | Zero when off. When on, the fuel burned in `dt` at `burnRate` times `joulesPerFuel`. Non-negative for non-negative inputs |
| `Furnaces.Apply` | thermostat.py:50-66 | One switch request keeps the on-time invariant. It changes the fuel only when it is a switch-off of a running furnace |
| `Furnaces.Replay` | thermostat.py:50-66 | Any sequence of switch requests keeps the invariant that a running furnace has a recorded on time |
| `Furnaces.FuelNeverDecreases` | thermostat.py:44-47 | Under non-negative rates, fuel burned never decreases over any sequence of requests whose switch-offs come no earlier than their switch-ons |
| `Furnaces.OnThenOffBooksOneBurn` | thermostat.py:50-66 | From off, `turn_on(t0)` then `turn_off(t1)` books exactly `startup_use + (t1 - t0) * burnrate_s` and leaves the furnace off |
| `Furnaces.SwitchingIsIdempotent` | thermostat.py:50-66 | A second `turn_on` or `turn_off` right after the first changes nothing |
| `Furnaces.Furnace.constructor` | thermostat.py:41-49 | A new furnace is off, has burned no fuel and has no on time. It has the given joules per fuel unit, a burn rate of 1.0 and a startup use of 1.0 |
| `Furnaces.Furnace.TurnOn` | thermostat.py:50-54 | The new state is `TurnedOn` of the old one. A running furnace is unchanged. Otherwise the furnace is on with `onTime == time` and fuel is unchanged |
| `Furnaces.Furnace.Output` | thermostat.py:55-60 | Returns `HeatOutput` of the current state and changes nothing |
| `Furnaces.Furnace.TurnOff` | thermostat.py:61-66 | The new state is `TurnedOff` of the old one. A running furnace adds `startup_use + (time - ontime_s) * burnrate_s` to its fuel, stops, and keeps its on time. A stopped one is unchanged |
| `Climates.Climate.constructor` | thermostat.py:70-75 | Fixes the minimum at 6 h, -10 C to 10 C and a 24 h period. Stores the host sine |
| `Climates.Climate.Temp` | thermostat.py:76-82 | With a sine bounded by [-1, 1], the exterior lies in [minTemp, maxTemp]. It equals minTemp, maxTemp or the midpoint exactly where the sine is -1, 1 or 0 |
| `Climates.Climate.AngleAdvancesByTwoPi` | thermostat.py:81-82 | One period later the sine's argument is larger by exactly 2π |
| `Climates.Climate.TempIsPeriodic` | thermostat.py:76-82 | With a sine that repeats after 2π, the exterior temperature repeats every period |
| `Climates.Climate.Extremes` | thermostat.py:71-82 | The coldest point is at `min_time` (argument 3π/2) and the warmest half a period later (argument 5π/2) |
| `Climates.Climate.MidnightIsMidpoint` | thermostat.py:72-82 | At time 0 the sine's argument is π, so the exterior temperature is 0 wherever the sine vanishes there |
| `Thermostats.Step` | thermostat.py:96-110 | Fails iff the specific heat is zero. Otherwise: the clock advances by the tick size; the furnace ends off with its on time kept; the heat added on top of the decay is the output of the furnace's pre-tick state; a stopped furnace is unchanged and the building only decays; a running one books the burn up to the tick's start time |
| `Thermostats.Run` | thermostat.py:96-110 | Repeated ticks keep the furnace's on-time invariant |
| `Thermostats.RunFailsIff` | thermostat.py:30-32 | A run of ticks fails iff it has at least one tick and the specific heat is zero |
| `Thermostats.RunAdvancesClock` | thermostat.py:110 | After n ticks the clock reads its start plus n tick sizes |
| `Thermostats.RunKeepsFurnaceOff` | thermostat.py:106-109 | After one or more ticks the furnace is off and stays exactly as the first tick left it, so at most one burn is booked. A furnace that starts off is never touched |
| `Thermostats.RunFuelNeverDecreases` | thermostat.py:101-110 | Under non-negative rates, and when a running furnace was switched on no later than the first tick, fuel burned never decreases over any number of ticks |
| `Thermostats.UnheatedStaysInBand` | thermostat.py:101-110 | With the furnace off and `0 <= eflux*tick <= 1`, the building temperature stays in any band that holds its start and every exterior temperature |
| `Thermostats.UnheatedFollowsClimate` | thermostat.py:76-110 | With the sine bounded by [-1, 1], an unheated building stays between min(start, -10) and max(start, 10) |
| `Thermostats.Thermostat.constructor` | thermostat.py:89-95 | Stores the building, furnace and climate. Ignores the target. Starts the clock at 0 with 60-second ticks. Establishes the thermostat's invariant from the furnace's |
| `Thermostats.Thermostat.Tick` | thermostat.py:96-110 | The new state is what `Step` gives for the exterior temperature at the pre-tick time. On success the clock advances by one tick and the furnace is off. On a zero specific heat only the exterior exchange has happened |

## Left out

- `run` (thermostat.py:112-127): the reporting driver that prints one line per tick, loops until an end time and flushes the furnace at the end. It is I/O, not kernel logic. `Run` covers only the repeated ticks.
- The body of `math.sin`: it is the parameter `sine`. Range, periodicity and extremes are proved only under the stated assumptions on it.
- The cache fields `amplitude`, `offset`, `phase` and `scale` that `climate.temp` writes as a side effect. They are recomputed identically on every call, and nothing else reads them. The model computes them as functions.
- IEEE floating-point rounding: every quantity is a real. For example, `sin(math.pi)` is not exactly 0 in floats.
- Python's dynamic typing: the initial integer zeros of `fuel_burned` and `time` are the real 0.0. Non-numeric arguments are not modelled.
- Reassigning attributes from outside the kernel: these are `const` in the model. They are the burn rate, startup use, tick size and climate parameters; the building's eflux and specific heat; the furnace's joules per fuel unit; and the thermostat's references to its building, furnace and climate. The source never reassigns them after construction.
- The dead `turn_on` call in `tick`'s `if False` branch. It is unreachable, so `Tick` calls only `TurnOff`.

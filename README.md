# Weather-balloon flight simulator, modelled in Dafny

This project models the core of a weather-balloon ascent and descent simulator. It covers five parts:
- A piecewise standard atmosphere (`Air.py`), giving temperature, pressure and air density as functions of altitude.
- The sphere geometry and physical constants (`Universe.py`) and the Celsius/Kelvin helpers (`Utils.py`).
- The balloon object (`Balloon.py`). It turns the state vector (altitude, vertical velocity, helium mass) into its derivative. Along the way it keeps a one-way `burst` latch, a ground-contact counter `touchdown`, the envelope mass and the drag coefficient.
- The classical fourth-order Runge-Kutta step (`Integrator.py`).
- The driver (`Simulator.py`). It steps the state across a grid of time points, reports progress before each step and collects the state after each step.

Everything is exact arithmetic over `real`. The power operator and the exponential have no closed form there. They are an abstract `Transcendental.Ops` value. `Transcendental.Valid` states the only facts the core needs about them:
- a positive base raised to any power is positive;
- an exponential is positive;
- `x ** (1/3)` is the non-negative cube root of a non-negative `x`.

The modules are:

- `Utils`, `Universe`, `Air`: pure functions, with lemmas on their band structure and round trips.
- `Dynamics`: every method of the balloon as a state-passing function. It goes from the runtime fields before the call to an `Out` value, which holds the fields after the call and the returned value. Calls are chained in the order Python evaluates them, so a latch set by one call is seen by the next one. Within one `Model` evaluation this holds even inside a single expression such as the buoyancy's.
- `Balloon`: the class itself. The constructor's attributes are `const`s and the written attributes are `var` fields. Each method runs the source statements and is proved equal to its `Dynamics` function.
- `Integrator`: RK4 over a model with hidden state `S`. This state is threaded through the four evaluations. A stateful derivative such as `balloon.Model` can therefore latch `burst` at a trial stage, and add one to `touchdown` at each stage rather than once per step.
- `Simulator`: `np.arange`, the stepping loop (an imperative `for` loop proved against the recursive `Run`) and the progress reports.
- `Flight`: `balloon.Model` plugged into the integrator and the driver. It shows what one step and one run do to the balloon's flags and counters.

Notes on the source's behaviour:
- From 25 km up, the temperature is `-131.21 + 0.00299·h` °C, that is `141.94 + 0.00299·h` K.
- The temperature is continuous at 25 km: both formulas give 216.69 K there.
- The temperature jumps at 11 km: just below, the formula gives more than −56.35 °C; at 11 km it gives −56.46 °C. `Air.JumpAt11km` proves that the gap exceeds 0.1 K.
- The trajectory holds the post-step states only, one per time point. The initial state is not among them.
- The valve band and the instant burst latch are hard-coded.
- The constructor validates nothing, and nothing guards against NaN or infinity.

## Model

| member | source | states |
|---|---|---|
| `Utils.Kelvin` | Utils.py:5-9 | The Kelvin value is the Celsius value plus 273.15. It is positive exactly when the Celsius value is above −273.15. |
| `Utils.Celcius` | Utils.py:12-16 | The Celsius value is 273.15 below the Kelvin value. It is negative exactly when the Kelvin value is below 273.15. |
| `Utils.CelciusOfKelvin` | Utils.py:5-16 | Converting to Kelvin and back gives the original Celsius value. |
| `Utils.KelvinOfCelcius` | Utils.py:5-16 | Converting to Celsius and back gives the original Kelvin value. |
| `Utils.KelvinStrictlyIncreasing` | Utils.py:9 | The conversion keeps strict order. |
| `Universe.VolSphere` | Universe.py:13-14 | A sphere's volume has the sign of its radius and is 0 for radius 0. |
| `Universe.VolSphereStrictlyIncreasing` | Universe.py:14 | On non-negative radii a larger radius gives a strictly larger volume, so a larger burst diameter gives a larger burst threshold. |
| `Universe.RadiusSphere` | Universe.py:16-17 | For a non-negative volume, the radius is the non-negative cube root of 3/(4π) times the volume. |
| `Universe.RadiusOfVolume` | Universe.py:13-17 | `radius_sphere(vol_sphere(r)) = r` for every r ≥ 0. |
| `Universe.VolumeOfRadius` | Universe.py:13-17 | `vol_sphere(radius_sphere(v)) = v` for every v ≥ 0. |
| `Universe.RadiusSign` | Universe.py:16-17 | The radius of a non-negative volume is non-negative, and it is 0 exactly for volume 0. |
| `Air.LayerOf` | Air.py:46-52 | The three layers are altitude < 11 km, 11 km ≤ altitude < 25 km and altitude ≥ 25 km, each selected exactly on its interval. |
| `Air.Temperature` | Air.py:41-54 | The temperature is strictly positive at every altitude, and at least 216.69 K, so the division in `density` is always defined. |
| `Air.Pressure` | Air.py:57-70 | The pressure is positive in every layer when the library functions are valid. |
| `Air.Density` | Air.py:73-82 | Air density is positive at every altitude. The diagnostic print does not touch the returned value. |
| `Air.DensityIdealGas` | Air.py:77-79 | Density times 0.2869·T equals pressure·1e-3, the ideal-gas relation in kPa. |
| `Air.TroposphereTemperature` | Air.py:46-47 | Below 11 km, T = 288.19 − 0.00649·h K and is strictly decreasing. |
| `Air.LowerStratosphereTemperature` | Air.py:48-49 | On [11 km, 25 km), T is the constant 216.69 K. |
| `Air.UpperStratosphereTemperature` | Air.py:51-52 | From 25 km up, T = 141.94 + 0.00299·h K and is strictly increasing. |
| `Air.ContinuousAt25km` | Air.py:48-52 | At 25 km the upper formula gives exactly the 216.69 K of the layer below. |
| `Air.JumpAt11km` | Air.py:46-49 | Every altitude below 11 km is more than 0.1 K warmer than 11 km itself, so T jumps at 11 km. |
| `Air.SameLayers` | Air.py:41-70 | Temperature and pressure choose their formulas by the same two thresholds. The table gives the formula of each layer. |
| `Dynamics.Create` | Balloon.py:47-67 | The constructor's runtime state is not burst, no touchdowns and no evaluations. The envelope mass is converted from grams. The radii are half the diameters, and the expected helium mass is volume·`p_he`. |
| `Dynamics.InitialRadius` | Balloon.py:62 | The initial radius is the non-negative radius of a sphere holding the initial volume. |
| `Dynamics.GasVolume` | Balloon.py:91-93 | The gas volume satisfies V·P·M_He = m·R·T. It is positive exactly when the gas mass is, and zero exactly when the gas mass is. |
| `Dynamics.Volume` | Balloon.py:80-98 | Once burst, `volume` returns 0 and changes nothing. Otherwise it returns the ideal-gas volume and latches `burst` exactly when that volume exceeds `vol_sphere(r_f)`. |
| `Dynamics.VolumeAfterBurst` | Balloon.py:82-83 | After burst every `volume` call returns 0 and leaves the state as it was. |
| `Dynamics.VolumeOnBurstingCall` | Balloon.py:85-98 | For a non-negative burst diameter, the call that latches `burst` still returns the computed, positive volume. |
| `Dynamics.Drag` | Balloon.py:100-111 | After burst, `drag` only overwrites the drag coefficient with the parachute's. Before burst, it changes exactly what its `volume` call changes. |
| `Dynamics.DragOpposesMotion` | Balloon.py:109-111 | With non-negative coefficients, drag·velocity ≤ 0: drag opposes motion and is 0 at rest. |
| `Dynamics.DragAfterBurst` | Balloon.py:102-104 | After burst, drag uses the parachute coefficient and the area π·r_p². |
| `Dynamics.DragSwitchIdempotent` | Balloon.py:102-104 | A second `drag` call after burst changes nothing further. |
| `Dynamics.Mass` | Balloon.py:113-123 | After burst, `mass` zeroes `m_balloon` and creates `m_gas = 0` and returns payload + the gas argument. Before burst it returns payload + envelope + gas and changes nothing. |
| `Dynamics.MassAfterBurst` | Balloon.py:118-122 | After burst, the envelope mass stays 0. Repeating the call changes nothing, and the gas argument still counts. |
| `Dynamics.Weight` | Balloon.py:125-128 | Weight is −mass·g, so it is ≤ 0 whenever the mass is non-negative. |
| `Dynamics.WeightPointsDown` | Balloon.py:128 | With non-negative masses the weight is ≤ 0. |
| `Dynamics.Density` | Balloon.py:130-137 | After burst the gas density is 0 and nothing changes. Before burst it changes exactly what its `volume` call changes. |
| `Dynamics.GasDensityBeforeBurst` | Balloon.py:130-137 | Before burst the gas density is P·M_He/(R·T), whatever the gas mass. |
| `Dynamics.Buoyancy` | Balloon.py:139-141 | Buoyancy is 0 after burst. It changes exactly what `volume` changes. |
| `Dynamics.BuoyancyBeforeBurst` | Balloon.py:139-141 | Without burst, buoyancy = g·V·(ρ_air − ρ_He). |
| `Dynamics.BuoyancyOnBurstingCall` | Balloon.py:139-141 | On the call that latches burst, the gas density already reads 0, so buoyancy = g·V·ρ_air. |
| `Dynamics.ZeroAfterBurst` | Balloon.py:130-162 | After burst, gas density, buoyancy and valve flow are all 0. |
| `Dynamics.Acceleration` | Balloon.py:143-150 | `acceleration` latches `burst` exactly when it was set or the gas overfills. After burst, the envelope mass is 0, the drag coefficient is the parachute's and `m_gas = 0`. Without burst, no field changes. The counters never change. |
| `Dynamics.AccelerationIsNetForce` | Balloon.py:143-146 | Below the contact threshold, acceleration × mass = buoyancy + weight + drag. |
| `Dynamics.AccelerationAtContact` | Balloon.py:147-149 | Once `touchdown ≥ 4`, the acceleration is −velocity/0.5 = −2·velocity. |
| `Dynamics.AccelerationAfterBurst` | Balloon.py:143-146 | After burst and before contact, the acceleration is −g + drag/(payload + gas). |
| `Dynamics.Valve` | Balloon.py:152-162 | `valve` changes exactly what its `density` call changes. |
| `Dynamics.ValveClosed` | Balloon.py:152-162 | The flow is 0 at or below 20 km, above 22 km, and after burst. |
| `Dynamics.ValveOpen` | Balloon.py:152-162 | In (20 km, 22 km] before burst, the flow is −0.6·velocity·ρ_He. |
| `Dynamics.Recordings` | Balloon.py:182-187 | The diagnostic calls latch `burst` exactly when the gas overfills. They leave both counters alone and move the other fields only one way. |
| `Dynamics.Model` | Balloon.py:166-193 | The derivative has 3 components and its first is the velocity. `touchdown` grows by exactly 1 when altitude < 1e-3 and by 0 otherwise. `_i` grows by 1. `burst` is latched exactly when it was set or the gas overfills. At ≥ 4 touchdowns the velocity slope is −v/0.5. The gas slope is 0 whenever the balloon is burst after the evaluation, including the evaluation that latches burst: `valve`'s `density` call sees the latch that `acceleration` set. The envelope mass and drag coefficient switch exactly at burst. |
| `Balloon.Balloon.constructor` | Balloon.py:47-67 | The object's settings and fields are those of `Dynamics.Create`. |
| `Balloon.Balloon.Volume` | Balloon.py:80-98 | The method's new fields and result are those of `Dynamics.Volume`. |
| `Balloon.Balloon.Drag` | Balloon.py:100-111 | The method's new fields and result are those of `Dynamics.Drag`. |
| `Balloon.Balloon.Mass` | Balloon.py:113-123 | The method's new fields and result are those of `Dynamics.Mass`. |
| `Balloon.Balloon.Weight` | Balloon.py:125-128 | The method's new fields and result are those of `Dynamics.Weight`. |
| `Balloon.Balloon.Density` | Balloon.py:130-137 | The method's new fields and result are those of `Dynamics.Density`. |
| `Balloon.Balloon.Buoyancy` | Balloon.py:139-141 | The method's new fields and result are those of `Dynamics.Buoyancy`. |
| `Balloon.Balloon.Acceleration` | Balloon.py:143-150 | The method's new fields and result are those of `Dynamics.Acceleration`. |
| `Balloon.Balloon.Valve` | Balloon.py:152-162 | The method's new fields and result are those of `Dynamics.Valve`. |
| `Balloon.Balloon.Record` | Balloon.py:182-187 | The diagnostic calls leave the fields as `Dynamics.Recordings` says. |
| `Balloon.Balloon.Model` | Balloon.py:166-193 | The new fields and the derivative are those of `Dynamics.Model`, and the fields only move one way. |
| `Integrator.Stages` | Integrator.py:19-22 | There are exactly four evaluations. Each starts from the model state the previous one left, and each returns a derivative of the state's length. |
| `Integrator.RK4` | Integrator.py:10-28 | The step succeeds exactly when the input has 3 components, and then it returns 3 components. Any other length is a shape error. |
| `Integrator.StagePoints` | Integrator.py:19-22 | The stages are evaluated at (t, s), (t+dt/2, s+k1·dt/2), (t+dt/2, s+k2·dt/2) and (t+dt, s+k3·dt). |
| `Integrator.RK4Combination` | Integrator.py:23-26 | Each component is s + dt·(k1 + 2k2 + 2k3 + k4)/6. The model's state after the step is the one its fourth evaluation left. |
| `Integrator.StepCount` | Integrator.py:19-22 | A counter in the model's state grows by the sum of its four per-evaluation increments, trial points included. |
| `Integrator.FourEvaluations` | Integrator.py:19-22 | The model is called exactly four times per step. |
| `Integrator.StepLatch` | Integrator.py:19-22 | A one-way flag is set after the step exactly when it was set before or one of the four evaluations triggered it. |
| `Integrator.ZeroStep` | Integrator.py:23-26 | With dt = 0 the state is unchanged. |
| `Integrator.ConstantDerivative` | Integrator.py:23-26 | If the model always returns c, the step gives s + dt·c. |
| `Integrator.ZeroDerivative` | Integrator.py:23-26 | If the model always returns the zero vector, the state is unchanged. |
| `Integrator.LinearComponent` | Integrator.py:19-26 | A component that obeys y' = λ·y is multiplied by 1 + z + z²/2 + z³/6 + z⁴/24, where z = λ·dt. |
| `Integrator.FrozenComponent` | Integrator.py:19-26 | A component whose slope is always 0 is left unchanged. |
| `Integrator.LinearDecay` | Integrator.py:19-26 | A decaying linear component with −2 ≤ λ·dt < 0 keeps its sign and shrinks strictly. |
| `Simulator.TimePoints` | Simulator.py:22 | A zero step is an error. Any other step gives the `arange` grid. |
| `Simulator.TimeGridForward` | Simulator.py:22 | With step > 0, the grid holds exactly the points start + i·step below `end`, and it is empty when end ≤ start. |
| `Simulator.TimeGridBackward` | Simulator.py:22 | With step < 0, the grid holds exactly the points start + i·step above `end`. |
| `Simulator.Run` | Simulator.py:24-28 | A successful run collects exactly one state per time point. |
| `Simulator.Simulate` | Simulator.py:17-29 | The loop returns exactly the specified trajectory, time grid, model state and callback state. The start, end, step and callback default to 0 s, 30 s, 1 s and the silent callback. |
| `Simulator.FractionsIncreasing` | Simulator.py:25-26 | For any two positions i < j of the n progress values, 0 ≤ i/n < j/n < 1: the values are strictly increasing. |
| `Simulator.FractionsInUnitInterval` | Simulator.py:25-26 | For every n, including n = 1, each of the n progress values i/n lies in [0, 1). |
| `Simulator.Silent` | Simulator.py:10-14 | The default callback `s` returns the callback state unchanged. |
| `Simulator.SilentReport` | Simulator.py:10-14 | The default callback `s` leaves its state unchanged, however many times it is called. |
| `Simulator.RunShape` | Simulator.py:24-29 | A run succeeds exactly when it is empty or the initial vector has 3 components. It then has one entry per time point. A non-empty run ends in its last entry, and an empty run ends at the initial vector. |
| `Simulator.RunPrefix` | Simulator.py:24-28 | A later step never rewrites the entries collected before it. |
| `Simulator.EntryIsStep` | Simulator.py:25-28 | Entry i is `RK4(model, previous, time[i], step)`, where `previous` is the initial state for i = 0 and entry i−1 otherwise. |
| `Simulator.EvaluationsPerRun` | Simulator.py:25-27 | Across a run of n points, an evaluation counter grows by exactly 4·n. |
| `Simulator.RunKeepsFlag` | Simulator.py:25-28 | A one-way flag that is set at the start is still set at the end of the run. |
| `Simulator.RunHoldsComponent` | Simulator.py:25-28 | A component with slope always 0 keeps its initial value in every collected entry. |
| `Simulator.SimulateShape` | Simulator.py:22-29 | `Simulate` succeeds exactly when the step is non-zero and the grid is empty or the state has 3 components. It then returns n entries and n time points, and the callback receives exactly the n values i/n. |
| `Simulator.EmptyHorizon` | Simulator.py:22-29 | With a positive step and end ≤ start, neither the callback nor the model is called and the trajectory is empty. |
| `Flight.Step` | Balloon.py:166-193 | The bound method `balloon.Model` never changes the balloon's settings, and it evolves the runtime fields as `Dynamics.Model` does. |
| `Flight.TouchdownCounts` | Balloon.py:172-173 | Each evaluation adds exactly 1 to `touchdown` at altitude < 1e-3 and 0 elsewhere. |
| `Flight.EvaluationsCount` | Balloon.py:192 | Each evaluation adds exactly 1 to `_i`. |
| `Flight.BurstLatches` | Balloon.py:95-96 | After an evaluation the balloon is burst exactly when it was before or its gas overfilled the envelope. |
| `Flight.ValveShutAfterBurst` | Balloon.py:162 | Once burst, the balloon stays burst and the gas-mass slope is 0. |
| `Flight.ContactLaw` | Balloon.py:147-149 | Once `touchdown ≥ 4` it stays so, and the velocity slope is −2·v. |
| `Flight.AltitudeFollowsVelocity` | Balloon.py:175 | The altitude slope is the current velocity. |
| `Flight.StepIsBalloonLike` | Balloon.py:166-193 | `balloon.Model` has all five of the properties above at once. |
| `Flight.StepFlags` | Integrator.py:19-22 | For any model with the touchdown, `_i` and burst properties of `Step`: in one RK4 step, `touchdown` grows by the number of ground-level stages, `_i` by 4, and burst latches if any stage overfilled. |
| `Flight.GasHeldAfterBurst` | Integrator.py:19-26 | For any model whose gas slope is 0 once burst: a step from a burst state leaves the gas mass unchanged. |
| `Flight.ContactStep` | Integrator.py:19-26 | For any model that obeys the contact law once `touchdown ≥ 4`: a step multiplies the velocity by RK4's growth factor for v' = −2v. |
| `Flight.ContactDecay` | Balloon.py:147-149 | For any model that obeys the contact law once `touchdown ≥ 4`: a step with 0 < dt ≤ 1 s keeps the velocity's sign and strictly shrinks it. |
| `Flight.BalloonStepFlags` | Integrator.py:19-22 | In one RK4 step of `balloon.Model`, `touchdown` grows by the number of the four evaluations made below 1e-3 m, and `_i` grows by 4. The balloon is burst afterwards exactly when it was before or a stage, trial states included, overfilled. |
| `Flight.BalloonGasHeld` | Balloon.py:162 | A step of a burst `balloon.Model` keeps it burst and leaves the gas mass exactly as it was. |
| `Flight.BalloonContactDecay` | Balloon.py:147-149 | After four ground contacts, a step of `balloon.Model` scales the velocity by RK4's growth factor for v' = −2v. For a step with 0 < dt ≤ 1 s, the velocity keeps its sign and strictly shrinks. |
| `Flight.RunEvaluations` | Simulator.py:25-27 | Over a run of n points `balloon.Model` is evaluated exactly 4·n times. |
| `Flight.RunAfterBurst` | Simulator.py:25-28 | A run that starts burst ends burst. Every collected entry carries the initial gas mass. |

## Left out

- Printing: the constructor's report, the high-density diagnostic in `density` and the driver's banner. They are output only, and none of them affects a returned value.
- `Instrument.probe`: the recorder is not part of this model. The calls in `Model` whose values it records are kept only for their effect on the balloon's fields (`Dynamics.Recordings`).
- `Local`: this module, imported by the driver, is not part of this model.
- `Visualization.py`, `main.py` and `Geolocation.py`: plotting, the program entry point, and a file that holds only comments.
- Floating point: all arithmetic is over exact reals. Rounding, NaN and infinity are not modelled. In particular, the length of the `arange` grid is computed exactly, without floating-point rounding of (end − start)/step.
- The power operator and the exponential are abstract. No claim is made about their values beyond positivity and the cube-root law. A negative base under `**` (a complex result in Python) is not distinguished. RK4's order of convergence is not stated, only its exact one-step algebra.
- `Dynamics.Density`, `Dynamics.Buoyancy`, `Dynamics.Valve`: these require a non-zero gas mass before burst. Dividing by a zero volume gives infinity or NaN in the source, and the model excludes it.
- `Dynamics.Acceleration`: requires both payload + gas and payload + envelope + gas to be non-zero. `acceleration` divides by whichever of the two `mass` returns, and that depends on whether `burst` is set by then. A zero divisor gives infinity or NaN in the source, and the model excludes it.
- `Dynamics.Model`: requires a state of at least three components, a non-zero gas mass before burst, and non-zero payload + gas and payload + envelope + gas. It also requires valid library functions. The reasons are those given for `Dynamics.Acceleration`.
- `Integrator.RK4`: requires the model to be defined at all four stages and to return a derivative of the state's length. numpy broadcasting of a differently shaped derivative is not modelled.
- `Simulator.Simulate`: the callback's own state `c0` is an extra parameter. It comes before the parameters that keep the source's defaults (0 s, 30 s, 1 s and the silent callback), so it moves them one position along. It requires every step of the run to be evaluable, as `Integrator.RK4` does. The progress callback is a function that threads a state of its own. A callback that raises, or has other effects, is not modelled.
- The Python attribute `m_gas`, which `mass` creates after burst, is the field `mGas`. `None` means the attribute has not been created.
- numpy reshaping (`ravel`, `reshape`, `vstack`, `state[:, 0]`): state vectors are `seq<real>`, and only the length-3 check is kept.
- Declared constants that the formulas do not use (`p_sl0`–`p_sl2`, `T_sl0`, `T_sl2`, `L_sl0`, `L_sl2`, `M`, `BoltzC`) are defined but appear in no property. `Air.py` also declares `R` and `g`, which duplicate `Universe.R` and `Universe.G`.

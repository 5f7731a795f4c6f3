# Multilayer insulation: steady 1D heat conduction, modelled in Dafny

This project models the calculation core of `Isolierung_logic.py` from the
*Berechnungstool-Isolierung* repository. The core computes the steady-state,
one-dimensional temperature distribution through a stack of plane insulation
layers. The left (inner) surface is held at a fixed temperature `T_left`. The
right (outer) surface gives heat to ambient air at `T_inf` by convection with
coefficient `h`.

The stack is a series resistance network:

- each layer has the resistance `R_i = t_i / k_i`, with the thickness converted from mm to m;
- the convective film has the resistance `R_conv = 1/h`;
- the flux density is `q = (T_left - T_inf) / (sum R_i + R_conv)`;
- the interface temperatures come from walking left to right and subtracting
  `q R_i` at each layer; `T_inf` is appended at the end.

All quantities are Dafny `real`s.

Modules, one per part of the source:

- `Errors` (errors.dfy): the `ValueError` kinds the core raises, and a `Result` type.
- `Sums` (sums.dfy): Python's `sum` over reals, and facts about prefix sums.
- `Layers` (layers.dfy): the `Layer` record and its validating initialiser.
- `MultiLayer` (multilayer.dfy): `Results`, `MultiLayerModel`, its initialiser,
  the resistances, the flux, `solve` as a method with a loop, and the profile lemmas.
- `ResultLists` (result_lists.dfy): `_temperature_positions` as a method with a
  loop, and `_temperature_labels` with the decimal rendering of interface numbers.
- `Compute` (compute.dfy): `compute_multilayer`, which validates the lists,
  builds the layers, solves, and assembles a typed result record.
- `Scenarios` (scenarios.dfy): the single-layer closed form and a worked two-layer wall.

Design decisions:

- `Layer` and `MultiLayerModel` are datatypes. The source assigns their fields
  only while constructing them, in `__post_init__` and `__init__`, and never
  updates them afterwards.
- Their checks are functions that return `Result`: `NewLayer` and `NewModel`.
  The raised `ValueError`s become `Err` values, one constructor per message.
- `Valid()` states what a constructed object guarantees. Functions that divide
  by `k` or by the total resistance require it.
- `solve` and `_temperature_positions` update local lists step by step, so they
  are methods with loops. Each is proved equal to a closed-form specification
  function (`InterfaceProfile`, `Cumulative`), and the properties are proved as
  lemmas about those functions.
- In the source, the list comprehension in `compute_multilayer` raises at the
  first invalid pair. `BuildLayers` is the recursive function for it: its
  contract names the first rejected pair as the one whose error is returned.

Where the design description of the system and the code disagree, the model follows the code:

- The description puts a temperature-dependent conductivity, an interpolator, a
  cell discretiser and a fixed-point iteration in the core. None of these
  exists in `Isolierung_logic.py`, which solves the linear, constant-conductivity
  network only.
- The description gives a single layer's interface temperatures as
  `[T_left, T_left - q L/k]`. The code also appends `T_inf`, so `n` layers give
  `n + 2` temperatures (`Scenarios.SingleLayer`).
- The description's two-layer example quotes `q ≈ -14.13 W/m²`. The code's sign
  convention gives `q = +9000/637 ≈ 14.13 W/m²` when `T_left > T_inf`
  (`Scenarios.WallScenario`).
- The description calls positions "running sums of thicknesses". The code keeps
  them in millimetres, and when there are more temperatures than surfaces it
  repeats the last position once for the ambient point.

## Model

| member | source | states |
|---|---|---|
| `Layers.NewLayer` | Isolierung_logic.py:23-28 | A layer is built exactly when thickness > 0 and k > 0. A non-positive thickness is reported first, then a non-positive k. A built layer keeps its inputs, and its metre thickness times 1000 is the mm thickness, so 0 < t_m < t_mm. |
| `Layers.NewLayerOfValid` | Isolierung_logic.py:23-28 | Every valid layer is exactly what the initialiser builds from its own mm thickness and k. |
| `Layers.Layer.Resistance` | Isolierung_logic.py:62 | A constructed layer's conduction resistance is strictly positive. |
| `Layers.ResistanceFromMillimetres` | Isolierung_logic.py:28 | The resistance in input units is t_mm / (1000 k). |
| `MultiLayer.NewModel` | Isolierung_logic.py:51-59 | An empty layer list fails with NoLayers. Otherwise h <= 0 fails with NonPositiveHeatTransfer. Otherwise the model keeps its arguments, and it is valid when its layers are. |
| `MultiLayer.MultiLayerModel.ConductionResistances` | Isolierung_logic.py:61-62 | One resistance per layer, in layer order, each the layer's own resistance and strictly positive. |
| `MultiLayer.MultiLayerModel.ConvectionResistance` | Isolierung_logic.py:66 | R_conv is positive and R_conv · h = 1. |
| `MultiLayer.MultiLayerModel.TotalResistance` | Isolierung_logic.py:67 | R_total is strictly greater than R_conv, which is greater than 0. |
| `MultiLayer.MultiLayerModel.Flux` | Isolierung_logic.py:68 | q · R_total = T_left - T_inf. |
| `MultiLayer.FluxSign` | Isolierung_logic.py:68 | q > 0, q < 0 and q = 0 exactly when T_left > T_inf, T_left < T_inf and T_left = T_inf. |
| `MultiLayer.MultiLayerModel.Solve` | Isolierung_logic.py:64-75 | Reports the model's resistances, R_conv and q. The temperature list is the closed-form profile InterfaceProfile. The loop keeps T_curr = T_left - q·(R_1+…+R_i). |
| `MultiLayer.InterfaceProfile` | Isolierung_logic.py:69-74 | n+2 entries: T_left first, T_left - q·(R_1+…+R_i) at entry i for 1 ≤ i ≤ n, T_inf last. |
| `MultiLayer.ProfileIsWalk` | Isolierung_logic.py:71-73 | The closed form is the left-to-right walk: entry i+1 = entry i - q·R_i for every layer. |
| `MultiLayer.Profile` | Isolierung_logic.py:64-75 | The profile of a valid n-layer model has n+2 entries. |
| `MultiLayer.OuterSurfaceTemperature` | Isolierung_logic.py:66-74 | The outer-surface entry n equals T_inf + q·R_conv, so the appended T_inf agrees with the convective drop. |
| `MultiLayer.InterfaceDifference` | Isolierung_logic.py:69-74 | Between interfaces i < j ≤ n, the temperatures differ by q times a strictly positive resistance sum. |
| `MultiLayer.ProfileOrder` | Isolierung_logic.py:68-74 | For any entries i < j, including the ambient one: q > 0 makes entry j lower, q < 0 makes it higher, q = 0 makes them equal. |
| `MultiLayer.ProfileMonotone` | Isolierung_logic.py:68-74 | For a profile whose outer surface sits q·R_conv above ambient: q > 0 makes the list strictly decreasing, q < 0 makes it strictly increasing, and q = 0 makes every entry equal T_left. |
| `MultiLayer.ProfileDecreasing` | Isolierung_logic.py:68-74 | If T_left > T_inf, then q > 0 and the whole list strictly decreases. |
| `MultiLayer.ProfileIncreasing` | Isolierung_logic.py:68-74 | If T_left < T_inf, then q < 0 and the whole list strictly increases. |
| `MultiLayer.ProfileConstant` | Isolierung_logic.py:68-74 | If T_left = T_inf, then q = 0 and every entry equals T_left. |
| `ResultLists.Cumulative` | Isolierung_logic.py:114-115 | n+1 positions; position i is the sum of the first i thicknesses. |
| `ResultLists.CumulativeSteps` | Isolierung_logic.py:114-115 | Positions start at 0.0, end at the total thickness, and each is the previous one plus one layer's thickness. |
| `ResultLists.CumulativeIncreasing` | Isolierung_logic.py:114-115 | For positive thicknesses the positions strictly increase. |
| `ResultLists.TemperaturePositions` | Isolierung_logic.py:112-118 | The result is the running sums. A copy of the last position (the total thickness) is appended exactly when num_temperatures > n+1. |
| `ResultLists.NatToString` | Isolierung_logic.py:123 | The decimal rendering of an int is a non-empty digit string with no leading zero. |
| `ResultLists.DecimalRoundTrip` | Isolierung_logic.py:123 | Reading back the rendering of n gives n. |
| `ResultLists.NatToStringInjective` | Isolierung_logic.py:123 | Different interface numbers give different renderings. |
| `ResultLists.TemperatureLabels` | Isolierung_logic.py:121-125 | max(n,0)+2 labels: the inner-surface label, then "Grenzfläche i" at index i for 1 ≤ i ≤ n, then the ambient label. |
| `ResultLists.LabelsDistinct` | Isolierung_logic.py:121-125 | No two labels are equal. |
| `Compute.BuildLayers` | Isolierung_logic.py:90 | The build succeeds exactly when every pair is a valid layer, and then layer i is the one built from pair i. Otherwise the error is that of the first rejected pair. |
| `Compute.ComputeMultilayer` | Isolierung_logic.py:78-104 | Error order: lengths differ, then the list is empty, then the first invalid layer, then h <= 0. Success happens exactly when all inputs are valid. q, the temperatures and R_total are those of the solved model. Positions are the running sums plus the repeated total, labels are TemperatureLabels(n), and T_left and T_inf are passed through. Temperatures, positions and labels all have length n+2. |
| `Compute.ResistancesOfInputs` | Isolierung_logic.py:90-99 | For valid inputs the layer resistances are t_i/(1000 k_i), and R_total is their sum plus 1/h. |
| `Scenarios.SingleLayer` | Isolierung_logic.py:64-75 | One layer: q = (T_left - T_inf)/(R + 1/h) and the profile is T_left, T_left - q·R, T_inf. |
| `Scenarios.WallScenario` | Isolierung_logic.py:64-75 | 50 mm at 0.04 W/(m K) and 100 mm at 0.12 W/(m K), from 20 °C to -10 °C with h = 25. Then R_total = 637/300, q = 9000/637, and the profile is 20, 1490/637, -6010/637, -10. |

## Left out

- SQLite persistence (`_ensure_db`, `_execute_db`, `save_project`, `load_project`, `delete_project`, `get_all_project_names`, `_project_from_row`, `_DB_PATH`, `_DB_INITIALIZED`) and the `Project` record. These are database I/O and JSON serialisation through library calls.
- `Isolierung_ui.py` (Tkinter input forms and matplotlib plots) and `Isolierung_main.py` (the entry point). They are presentation only; their input checks repeat the core's.
- IEEE floating-point arithmetic. Every quantity is an exact `real`, and no rounding is modelled.
- The result dictionary with string keys becomes the typed record `MultilayerResult`.
- The human-readable error message strings. Each message is a constructor of `ValueError`.
- The mutability of Python dataclass fields after construction. The source never uses it, and the model treats layers and models as values.
- Temperature-dependent conductivity, interpolation, cell subdivision and an iterative solver. They are not part of the code that was modelled.

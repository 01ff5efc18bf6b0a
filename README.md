# SEIRD model simulation: the exact core

This project models, in Dafny, the exact (non-floating) logic of the SEIRD/SEIR
epidemic simulation scripts `archivedcomplexmodel.py` and `simplemodel.py`,
over Dafny's unbounded `int` and exact `real`:

- `wrappers.dfy` (`Wrappers`): `Option` for Python's `None`, `Result` for a
  value or the exception a call raises.
- `compartments.dfy` (`Compartments`): a compartmental right-hand side read as
  a flow network (each flow leaves one compartment and enters another). This is
  the reference definition both models are checked against, with the proof that
  every such network conserves total population.
- `series.dfy` (`Series`): the daily-difference tables of `calc_deltas`, with
  `Integrate` as their inverse.
- `archived_model.dfy` (`ArchivedModel`): the class `SEIRDModel`
  (`__init__`, `calc_deltas`, `differentials`), the clamping of solver time to
  a day of the tables, Python list indexing, the per-day rates alpha, beta,
  gamma and delta derived from the differences, and the SEIRD equations.
- `load_data.dfy` (`LoadData`): the filter-and-append loop of `loadData` over
  already-parsed day records.
- `driver.dfy` (`Driver`): loading the lists and building the archived model
  from them, the step the archived script's main block takes.
- `simple_model.dfy` (`SimpleModel`): `get_consts` and the `sim`
  right-hand side of the constant-coefficient SEIR model.

Main results:
- With the day's rates derived from the data, `differentials` returns exactly
  the observed daily changes `[-(de+di+dr+dd), de, di, dr, dd]`. When the
  series conserve N on every day, as `loadData` makes them, these changes are
  the five difference tables themselves, S included.
- Both right-hand sides are flow networks, so their derivatives sum to zero.
- A series is recovered from its first value and its difference table, and
  vice versa.
- `loadData` returns five equal-length lists. On every kept day the five
  entries add up to N, and each list holds the record fields, missing or
  falsy ones counted 0.

Modelling choices:
- The series are lists of integer counts (`seq<int>`). The solver's state and
  time are `real`.
- `int(t)` truncates toward zero (`Trunc`). The clamp compares `t` with the
  length of the exposed table only, as the code does. A list index is valid
  from `-len` to `len - 1`, with negative indices counted from the end
  (`PyIndex`). An index outside that range is `IndexError`.
- A zero denominator in `differentials` (e, s, i or N equal to 0) is reported
  as `UndefinedRate`. The source's numpy floats would give inf or NaN there,
  and reals cannot hold those. `TimeRates` keeps the non-zero denominators as
  its precondition.
- `get_consts`'s arguments are Python floats, so a period of 0 raises
  Python's division error. This is modelled as `ZeroDivision`.
- A day record of `loadData` is its parsed year and month plus the `total`
  entry, a dictionary from field name to an optional integer. The dictionary
  is truthy when it is present and not empty. The region key `"MH"` is fixed
  in the code, so the record list stands for that region's entries in file
  order.
- Facts about the code that the model keeps:
  - `loadData` returns every day in the year and months window whose `total`
    entry is a non-empty dictionary, in file order.
  - The hyperparameters hard-coded in simplemodel.py's main block give
    beta = 2.4/3.3 = 8/11 (`HardCodedConsts`).
  - `sim` integrates S directly, as one of the four derivatives.
  - The archived model's transmission term is `beta*s*i/N`.
  - A zero denominator in `differentials` yields inf or NaN under numpy; the
    model reports it as `UndefinedRate`.
  - `calc_deltas` computes `S_diff`, but `differentials` never reads it.

## Model

| member | source | states |
|---|---|---|
| `Compartments.FlowRhsConserves` | archivedcomplexmodel.py:47-54 | any flow network's derivatives sum to zero (population conservation, shared by both models) |
| `Series.Deltas` | archivedcomplexmodel.py:24-28 | the table has the series' length, or length 1 for an empty series; entry 0 is 0 and entry k is `X[k] - X[k-1]` |
| `Series.DeltasTelescope` | archivedcomplexmodel.py:24-28 | `X[0]` plus the difference entries 1..k equals `X[k]` |
| `Series.IntegrateDeltas` | archivedcomplexmodel.py:24-28 | a non-empty series is recovered from its first value and its difference table |
| `Series.DeltasIntegrate` | archivedcomplexmodel.py:24-28 | conversely, every table starting with 0 is the difference table of the series it integrates to |
| `ArchivedModel.Trunc` | archivedcomplexmodel.py:36 | `int(t)` truncates toward zero: floor for non-negative t, within one above t for negative t |
| `ArchivedModel.ClampIndexInRange` | archivedcomplexmodel.py:36 | of `ClampIndex`, the model of line 36: for t >= 0 and a non-empty table the day used is floor(t) when t < len, else len-1, and always a valid index |
| `ArchivedModel.DifferentialsPastEnd` | archivedcomplexmodel.py:36 | every time at or past the table's end gives the same result as the last day, time len-1 |
| `ArchivedModel.PyIndex` | archivedcomplexmodel.py:39 | a list lookup succeeds exactly for indices -len..len-1, and then reads the element at the index taken modulo len |
| `ArchivedModel.TimeRates` | archivedcomplexmodel.py:41-45 | defined only for non-zero e, s and i; each rate is the one that reproduces its observed change (`alpha*e == di+dr+dd`, `beta*s*i == (de+di+dr+dd)*N`, `gamma*i == dr`, `delta*i == dd`) |
| `ArchivedModel.SeirdRhs` | archivedcomplexmodel.py:47-54 | for N != 0, five derivatives that sum to zero |
| `ArchivedModel.SeirdRhsIsFlowNetwork` | archivedcomplexmodel.py:47-54 | the SEIRD equations are the flow network S->E, E->I, I->R, I->D, and sum to zero |
| `ArchivedModel.TimeRatesReproduceObserved` | archivedcomplexmodel.py:39-54 | with the derived rates the derivative vector is exactly `[-(de+di+dr+dd), de, di, dr, dd]` |
| `ArchivedModel.SEIRDModel.constructor` | archivedcomplexmodel.py:8-18 | stores N and the five series and builds their difference tables |
| `ArchivedModel.SEIRDModel.CalcDeltas` | archivedcomplexmodel.py:20-28 | each difference table becomes that of its series; nothing else changes |
| `ArchivedModel.SEIRDModel.Differentials` | archivedcomplexmodel.py:30-54 | a returned vector has five derivatives summing to zero and is only returned when s, e, i and N are non-zero |
| `ArchivedModel.DifferentialsAtDay` | archivedcomplexmodel.py:35-54 | for difference tables of one non-empty length, t >= 0 and non-zero denominators the result is the clamped day's observed change |
| `ArchivedModel.DifferentialsUndefined` | archivedcomplexmodel.py:41-48 | for equal-length series and t >= 0 a zero e, s, i or N gives `UndefinedRate`, never an index error |
| `ArchivedModel.ObservedChangeIsTables` | archivedcomplexmodel.py:24-28 | for series that conserve N on every day a day's observed change `[-(de+di+dr+dd), de, di, dr, dd]` is that day's entry of the five tables, S included |
| `ArchivedModel.DifferentialsMatchTables` | archivedcomplexmodel.py:24-54 | for series that conserve N on every day the result is `[S_diff, E_diff, I_diff, R_diff, D_diff]` at the clamped day |
| `LoadData.Field` | archivedcomplexmodel.py:90-93 | a non-zero value is the record's own field value; a present non-null field is taken as is, anything else counts 0 |
| `LoadData.KeptMembers` | archivedcomplexmodel.py:86-89 | of `Kept`, the loop's filter with the test `Selected` of lines 88-89: a record is kept exactly when it is in the input, has a truthy `total` and a date in the year and months |
| `LoadData.KeptAppend` | archivedcomplexmodel.py:86-89 | filtering distributes over concatenation, so kept days stay in input order |
| `Driver.LoadModel` | archivedcomplexmodel.py:129-132 | the model built from `loadData`'s lists has their contents, consistent difference tables, and series that conserve N on every day, so `DifferentialsMatchTables` applies to it |
| `LoadData.LoadData` | archivedcomplexmodel.py:71-95 | five lists with one entry per kept day, holding the fields (falsy counted 0), and susceptible + tested + confirmed + recovered + deceased == N on every day |
| `SimpleModel.GetConsts` | simplemodel.py:15-27 | a missing argument gives the missing-hyperparameter error, a zero period the division error, and the call succeeds exactly when all three are present and both periods are non-zero, with `alpha*incub == 1`, `gamma*infec == 1`, `beta == R0*gamma` |
| `SimpleModel.GetConstsRecoversR0` | simplemodel.py:24-27 | `beta * infec == R0` |
| `SimpleModel.GetConstsInverse` | simplemodel.py:24-27 | any constants with non-zero alpha and gamma are produced from the periods 1/alpha, 1/gamma and R0 = beta/gamma |
| `SimpleModel.HardCodedConsts` | simplemodel.py:77-80 | a worked example, not a property: the main block's hard-coded 5.1, 3.3 and 2.4 give alpha 10/51, beta 8/11 and gamma 10/33 |
| `SimpleModel.Sim` | simplemodel.py:89-106 | fails exactly when alpha, beta, gamma or u is missing; otherwise four derivatives that sum to zero |
| `SimpleModel.SimIsFlowNetwork` | simplemodel.py:101-106 | the SEIR equations are the flow network S->E (infection), E->I, I->R (recovery), each leaving one compartment and entering the next with equal magnitude |
| `SimpleModel.SimFlows` | simplemodel.py:89-106 | with every constant given, `sim` returns exactly that flow network's derivatives |

## Left out

- `SEIRDModel.run` and the `odeint` calls: they go into scipy's adaptive floating-point ODE solver, which is foreign code.
- Opening the data file, `json.load` and `strptime` in `loadData`: this is I/O. The model starts from the parsed records of region `"MH"`.
- Plotting (`plot_compare`, `plot_results`) and the interactive prompts (`get_hyperparams`, `get_initials`): these are user interface and console I/O.
- The `__main__` blocks: they are wiring code. `HardCodedConsts` records only the constants the simple model's block passes to `get_consts`, and `Driver.LoadModel` only the step that builds the archived model from `loadData`'s lists.
- complexmodel.py: it is plotting plus a driver for a `tdseird.SEIRD` class that is not part of this model. No parameter estimation or least-squares code is modelled, because none is in the modelled files.
- IEEE floating point: rounding, overflow, inf and NaN are not modelled. Arithmetic is exact over `real`.
- `SimpleModel.GetConsts`: string arguments, as `input` returns them, are not modelled; the arguments are numbers or `None`. The interactive path of the main block fails earlier anyway, unpacking four values into five names at simplemodel.py:75.
- `LoadData.LoadData`: the defaults year=2021 and months=[10] are not modelled; both are parameters, and the only caller passes both.
- `LoadData.LoadData`: JSON field values are taken as integers; float counts and non-numeric values are not modelled.

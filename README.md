# Parametric building-energy study: template filling and experiment design

This project models the two computational parts of a small EnergyPlus
parametric-study toolkit and proves properties of them in Dafny.

**Filling an input-file template (`src/idf.py`).** `modifyIDF` walks an
ordered parameter dictionary over the text of an EnergyPlus input file:

- the key `wwr` substitutes the twenty window coordinates and opening areas
  of a single-zone box building, then its internal-mass area;
- the key `ach_50` converts a blower-door air-change rate into a flow
  coefficient for the zone volume;
- every other key `k` replaces the token `@k@` with `str(v)`;
- after the loop the daylighting reference point (the plan centre) is
  always substituted.

Python's `str.replace`, dictionary lookup with `KeyError`, and scalar `+`,
`*` and `/` over int, float, bool and str are modelled on the operand types
the core uses (modules `Values` and `Text`). Errors are results, not
preconditions. The inputs known to us on which the model and Python
raise differently are listed under "## Left out"; the libraries the
samplers call (numpy, pandas, scikit-optimize) are not part of this model, so
their own input validation is covered only where that section says so.
The window geometry (`Geometry`) and the infiltration formulas
(`Infiltration`) are real-valued functions.

**Building the experiment table (`src/sampling.py`).**

- `fullFactorialSampling` is the Cartesian product of the variables' value
  lists, in `itertools.product` order, with the run count multiplied out in
  a loop (`Product`, `Sampling`).
- `randomSampling`, `latinHypercubeSampling` and `statisticalSampling`
  dispatch on each variable's `type` or `method` tag and build one column
  (or one hypercube dimension) per variable, in dictionary order.
- The random generators are an oracle (`Sampling.Draws`) asked for the draw
  of column c, row j. The oracle promises only membership or range.

The two loop shapes the samplers share are generic (`Loops`). One appends
a result per variable and stops at the first exception. The other stores a
result per variable under its name. `Sampling.RandomSampling` and
`Sampling.LatinHypercubeSampling` run the appending loop
(`Loops.CollectEach`) and `Sampling.StatisticalSampling` the storing loop
(`Loops.StoreEach`), each with its own loop body. fullFactorialSampling
builds its lists with comprehensions (src/sampling.py:172, 182), so
`Sampling.FullFactorialSampling` uses the function `Loops.Collect`; its one
loop is the run-count multiplication (`Sampling.MultiplyOut`).

The text is `seq<char>`. A dictionary is a sequence of (key, value) pairs in
insertion order. A table is its column names plus its rows. Opaque parts of
the Python run time are parameters (`Idf.Runtime`):

- `str()`;
- `x ** 0.5`;
- the constants `50 ** 0.67`, `(1.204 / 2) ** 0.5` and `10 ** 0.17`.

Behaviours of the code worth knowing:

- modifyIDF's docstring (src/idf.py:13) says a token without a parameter
  leaves the contents as they are. That holds for the loop, but with an
  empty parameter dictionary the daylighting step still looks up `length`
  and raises `KeyError` (`Idf.UnsetTokenWithoutDimensions`).
- In statisticalSampling as written (src/sampling.py:44), a variable whose
  method is none of the five raises `KeyError('uniform')` unless it has a
  "uniform" entry. With such an entry, other than "uniform", it is silently
  left out (`Sampling.StatisticalColumnAsWritten`). With the branch
  corrected (see "## Findings"), it is always left out
  (`Sampling.StatisticalColumnByMethod`).
- fullFactorialSampling's docstring (src/sampling.py:166) says an error is
  raised unless every parameter is constant or categorical. The code never
  checks the type: any variable with a `values` list takes part in the
  product. `Sampling.FactorialFrame` follows the code.
- modifyIDF's docstring (src/idf.py:10-12) says the values are injected where
  the `@name@` tokens are. `Idf.PlainStepFills`, `Idf.FlowStepFills`,
  `Idf.WindowStepFillsMass` and `Idf.ResolveFillsDaylight` prove it for a
  token the left-to-right scan meets once. Python's `str.replace` can,
  however, leave a token in the text: the value it puts in can join the
  characters around it into a new occurrence of the token
  (`Text.ReplaceCanRecreateKey`).

## Model

| member | source | states |
|---|---|---|
| Values.Add | src/idf.py:147 | Python `a + b`: for numbers the value is the sum, an int exactly when both operands are int or bool; two strings concatenate; a string with a number is a TypeError |
| Values.Mul | src/idf.py:30 | Python `a * b`: for numbers the value is the product, an int exactly when both are integral; a string times an int repeats it; anything else is a TypeError |
| Values.RepeatAt | src/idf.py:147 | a string repeated n times holds, at position i, character `i % len(s)` of the string, so it is n copies of it one after another |
| Values.Div | src/idf.py:231-232 | true division by a non-zero constant gives the float whose product with the divisor is the operand; a string is a TypeError |
| Values.Lookup | src/idf.py:66-69 | `d[k]` is the value of the first pair with key k, and raises KeyError(k) exactly when no pair has that key |
| Values.Put | src/sampling.py:34 | after `d[k] = v`, k maps to v, every other key keeps its value, and a new key is appended at the end |
| Values.MinOf | src/sampling.py:132 | `min` of a non-empty list of numbers is one of its elements and no element is smaller; an empty list is a ValueError |
| Values.MaxOf | src/sampling.py:133 | `max` of a non-empty list of numbers is one of its elements and no element is larger; an empty list is a ValueError |
| Values.MinOfFirst | src/sampling.py:132 | of equal smallest elements `min` returns the first: every element before the one returned is strictly larger (which decides, say, whether `min([1, 1.0])` is the int or the float) |
| Values.MaxOfFirst | src/sampling.py:133 | of equal largest elements `max` returns the first: every element before the one returned is strictly smaller |
| Text.ReplaceLength | src/idf.py:42 | `s.replace(key, val)` changes the length by `s.count(key) * (len(val) - len(key))` |
| Text.CountZeroIff | src/idf.py:42 | the count of non-overlapping occurrences is zero exactly when the key does not occur |
| Text.ReplaceUnchangedIff | src/idf.py:42 | replacing leaves the text unchanged exactly when the key does not occur or is replaced by itself |
| Text.ReplaceSole | src/idf.py:42 | when the scan meets the key at one place only, the result keeps the text before it, puts the value where the key was, and keeps the text after it |
| Text.ReplaceCanRecreateKey | src/idf.py:42 | replacing does not always remove the key: `"@x@xVw@w@".replace("@xVw@", "V")` is `"@xVw@"` |
| Text.ReplaceAbsent | src/idf.py:13 | replacing a token that does not occur returns the existing contents |
| Geometry.WindowCoordinates | src/idf.py:155-178 | the window is centred on the wall (`l0 + l1 == l_surface`, `z0 + z1 == z_surface`) and alpha times the wall's size along both axes |
| Geometry.WindowAreaIsWwr | src/idf.py:162-174 | with `alpha * alpha == wwr` the window area is wwr times the wall area |
| Geometry.OversizedWindowNotClamped | src/idf.py:175-176 | nothing clamps the window: wwr above one puts its lower edge below the floor |
| Geometry.FacadeOf | src/idf.py:83 | the opening area is `(z1 - z0) * 0.15 == alpha * height * 0.15` and the window is centred on its wall |
| Geometry.WindowLayout | src/idf.py:72-133 | north and south windows are identical, east and west are identical, all four share z0 and z1 and the same opening area `alpha * height * openingWidth` |
| Geometry.DaylightPoint | src/idf.py:231-232 | the reference point is the plan centre: twice x is the width, twice y the length |
| Geometry.ExampleDaylightPoint | src/idf.py:229-238 | a plan 5 wide and 8 long has its reference point at (2.5, 4.0) |
| Infiltration.FlowCoefficient | src/idf.py:181-191 | `c_zone * n_zones * 50**n * 3600 == ACH * V` |
| Infiltration.FlowLinearInAch | src/idf.py:188-190 | the coefficient is additive and homogeneous in the air-change rate |
| Infiltration.FlowLinearInVolume | src/idf.py:188-190 | the coefficient is additive and homogeneous in the volume |
| Infiltration.FlowSplitAcrossZones | src/idf.py:190 | n_zones zones each get 1/n_zones of the whole-building coefficient |
| Infiltration.EffectiveLeakageArea | src/idf.py:203 | `ELA * C_D == c_r * (rho/2)**0.5 * 10**(n - 0.5)` |
| Infiltration.LeakageShares | src/idf.py:205-218 | the five surface shares sum to ELA; north equals south and east equals west; each share is ELA times its area's fraction of the envelope; a zero-area envelope is a ZeroDivisionError |
| Idf.Token | src/idf.py:41 | a parameter's token is its name, unchanged, between two `@` |
| Idf.SubstituteAllAbsent | src/idf.py:73-86 | a straight-line series of replacements none of whose tokens occurs leaves the text unchanged |
| Idf.FacadeSubsSubstitutes | src/idf.py:72-86 | one orientation replaces its five tokens (two corners along the wall, two up it, the opening area), in that order, each by the `str()` of its own number |
| Idf.WindowSubsSubstitutes | src/idf.py:72-136 | windowGeometry replaces exactly its twenty tokens, North, East, South, West, in order, each by the `str()` of its own coordinate or opening area |
| Idf.WindowGeometry | src/idf.py:52-139 | windowGeometry succeeds exactly when width, length, height and wwr are all present and numeric and wwr is not negative; width is looked up first; a negative wwr has a complex root and raises TypeError at the comparison `z_0 < 0` |
| Idf.WindowGeometryValue | src/idf.py:66-136 | with numeric inputs it substitutes the layout of windows scaled by `wwr ** 0.5` |
| Idf.WindowLayoutCoversWwr | src/idf.py:162-174 | with an exact square root, each window covers wwr of its wall (north/south on width by height, east/west on length by height) |
| Idf.PartitionArea | src/idf.py:147 | `(length + width) * height` is that area and is an int exactly when the three dimensions are |
| Idf.InternalMassValue | src/idf.py:141-152 | with numeric dimensions internalMass substitutes the partition area for `@internalMass@` |
| Idf.ExampleInternalMass | src/idf.py:147-150 | a box 5 wide, 8 long and 3 high gets an internal mass of 39 |
| Idf.FlowCoefficientStep | src/idf.py:28-32 | the `ach_50` step succeeds exactly when height, length, width and the rate are numeric; height is looked up first |
| Idf.ZoneVolume | src/idf.py:30 | the zone volume is `height * length * width` |
| Idf.FlowCoefficientStepValue | src/idf.py:28-32 | the `ach_50` step substitutes the one-zone flow coefficient of that volume for `@flowCoefficient@` |
| Idf.EffectiveLeakageAreaStep | src/idf.py:193-227 | the leakage-area substitution raises exactly when the envelope area is zero, and otherwise replaces the five `@ELA_*@` tokens by the `str()` of the surface shares of the effective leakage area |
| Idf.DaylightingReferencePoint | src/idf.py:229-240 | succeeds exactly for numeric length and width, and substitutes the plan centre for the two reference tokens |
| Idf.StepOkIff | src/idf.py:23-42 | whether a loop pass raises depends only on the dictionary, never on the text |
| Idf.ResolveFromOkIff | src/idf.py:23-42 | the loop from entry i on raises exactly when some later entry's pass would |
| Idf.ResolveOkIff | src/idf.py:23-46 | modifyIDF succeeds exactly when every pass succeeds and length and width are present and numeric, whatever the template holds |
| Idf.WindowStepAbsent | src/idf.py:24-26 | a `wwr` pass over text without window or internal-mass tokens changes nothing |
| Idf.PlainStepFills | src/idf.py:40-42 | a plain parameter's pass puts `str(v)` where its `@k@` token was, keeping the text around it |
| Idf.FlowStepFills | src/idf.py:28-32 | the `ach_50` pass puts the flow coefficient of the zone volume where `@flowCoefficient@` was |
| Idf.WindowStepFillsMass | src/idf.py:24-26 | in a text without window tokens, the `wwr` pass puts `str((length + width) * height)` where `@internalMass@` was |
| Idf.DaylightFills | src/idf.py:229-240 | daylightingReferencePoint puts `str(width / 2)` where `@daylightReference_x@` was |
| Idf.ResolveFillsDaylight | src/idf.py:8-46 | modifyIDF on a template no parameter touches returns it with half the width in place of `@daylightReference_x@` |
| Idf.StepAbsent | src/idf.py:24-42 | a pass whose tokens are all absent leaves the text unchanged |
| Idf.ResolveFromAbsent | src/idf.py:23-42 | a loop whose passes find none of their tokens leaves the text unchanged |
| Idf.ResolveTokenFree | src/idf.py:23-46 | a template holding none of the tokens the parameters and the daylighting step fill comes back unchanged |
| Idf.NegativeWwrRaises | src/idf.py:162-175 | any dictionary with a numeric, negative wwr makes modifyIDF raise, whatever the template and the other entries |
| Idf.UnsetTokenWithoutDimensions | src/idf.py:46 | with an empty dictionary modifyIDF raises KeyError('length') rather than returning the template |
| Idf.ApplyParameter | src/idf.py:24-42 | one pass of the loop, with its three branches, computes the pass function |
| Idf.ModifyIdf | src/idf.py:8-46 | the loop followed by the daylighting step computes modifyIDF's result or its exception |
| Loops.Collect | src/sampling.py:115-155 | an appending loop succeeds exactly when every pass does, then holds each pass's result in order; otherwise it raises the first pass's exception |
| Loops.CollectErrPersists | src/sampling.py:155 | once a pass raises, the later passes do not change the outcome |
| Loops.CollectEach | src/sampling.py:68-88 | the appending loop computes Collect |
| Loops.Store | src/sampling.py:28-50 | a storing loop succeeds exactly when every pass does |
| Loops.StoreErrPersists | src/sampling.py:28-50 | once a pass raises, the later passes do not change the outcome |
| Loops.StoreEach | src/sampling.py:28-52 | the storing loop computes Store |
| Loops.StoreAbsent | src/sampling.py:28-50 | a name that none of the entries has is never stored |
| Loops.StoreEntry | src/sampling.py:30-50 | with distinct names, each name ends up holding its own entry's result, or nothing |
| Product.CartesianProductSize | src/sampling.py:172-184 | the product has `prod(len(values_i))` rows: one row for no lists |
| Product.EmptyListNoRows | src/sampling.py:184 | an empty value list anywhere leaves no row |
| Product.CartesianProductAt | src/sampling.py:184 | row `a * S + b` is entry a of the first list in front of row b of the rest: the first list varies slowest, the last fastest |
| Product.CartesianProductMembers | src/sampling.py:184 | a row is in the product exactly when it picks one entry from each list, in order |
| Product.ExampleProduct | src/sampling.py:184 | `product([1, 2], [3, 4])` is `(1,3), (1,4), (2,3), (2,4)` |
| Sampling.Copies | src/sampling.py:124 | `[x] * n` has n entries, all x |
| Sampling.Transpose | src/sampling.py:158-159 | row i of the transposed table holds entry i of every column; no columns give no rows |
| Sampling.RandomColumn | src/sampling.py:118-155 | every column has n entries; a missing tag is KeyError('type') and a tag outside the listed ones raises |
| Sampling.RandomChoiceColumn | src/sampling.py:120-121 | a discrete, categorical or bool column holds n members of the values, and fails only without a list or with an empty one when n > 0 |
| Sampling.RandomConstantColumn | src/sampling.py:123-124 | a constant column is values[0] repeated n times, and fails exactly without a non-empty list |
| Sampling.RandomSingleValueColumn | src/sampling.py:127-144 | an int or float variable with one value repeats it n times |
| Sampling.RandomIntColumn | src/sampling.py:131-139 | otherwise an int column holds integers from min(values) up to but excluding max(values) |
| Sampling.RandomFloatColumn | src/sampling.py:145-153 | otherwise a float column holds floats in [min(values), max(values)), or min(values) when all are equal; it succeeds exactly for two or more numbers |
| Sampling.RandomFrame | src/sampling.py:100-161 | the table succeeds exactly when every column does; its columns are the variable names in order, it has n rows (none without variables), and entry (i, j) is draw i of variable j |
| Sampling.RandomSampling | src/sampling.py:100-161 | the appending loop and the transpose compute that table |
| Sampling.LhsTagDimension | src/sampling.py:71-90 | discrete, constant, categorical and bool variables become Categorical(values); a missing tag is KeyError('type'); other tags raise |
| Sampling.LhsNumericDimension | src/sampling.py:79-88 | int variables become Integer(min, max) and float variables Real(min, max) of their values; both need a non-empty list of numbers |
| Sampling.LhsPoints | src/sampling.py:93-94 | the generator gives n points with one entry per dimension |
| Sampling.LhsFrame | src/sampling.py:54-98 | the table succeeds exactly when every dimension does, with the variable names as columns and n rows |
| Sampling.LhsFrameEntries | src/sampling.py:71-96 | every entry lies in its dimension: a member of a categorical list, an integer or a float between min and max of the values |
| Sampling.LatinHypercubeSampling | src/sampling.py:54-98 | the appending loop and the generator compute that table |
| Sampling.DrawnColumn | src/sampling.py:32-42 | discrete, normal and skew columns have n entries; a discrete column holds members of the values |
| Sampling.UniformColumn | src/sampling.py:44-46 | the uniform column, bounded by max(range), succeeds exactly for a non-empty list of numbers and has n entries |
| Sampling.UniformColumnRange | src/sampling.py:44-46 | every uniform draw lies in [min(range), max(range)), or is min(range) when the range is one number |
| Sampling.StatisticalColumn | src/sampling.py:32-50 | every column has n entries; a missing method is KeyError('method') |
| Sampling.StatisticalColumnByMethod | src/sampling.py:32-50 | each method's column: the drawn columns, the uniform one, the whole values field repeated n times for a constant, and nothing for any other method |
| Sampling.StatisticalColumnAsWritten | src/sampling.py:32-50 | as written, discrete, normal and skew agree with the intended code; any other method raises KeyError('uniform') without a "uniform" entry, and an unknown method with a "uniform" entry other than "uniform" is left out |
| Sampling.ConstantNeedsUniformKey | src/sampling.py:44-50 | a constant variable raises KeyError('uniform') as written where the intended code repeats its values |
| Sampling.UniformRangeBroadcast | src/sampling.py:44-46 | range [0, 10] with five runs raises ValueError as written where the intended code draws five floats in [0, 10) |
| Sampling.StatisticalTable | src/sampling.py:12-52 | the parameters dictionary succeeds exactly when every variable's column does |
| Sampling.StatisticalEntries | src/sampling.py:28-50 | each variable's name holds its own column, or nothing for an unknown method; no other name is present |
| Sampling.StatisticalSampling | src/sampling.py:12-52 | the storing loop computes the parameters dictionary |
| Sampling.FactorialFrame | src/sampling.py:163-189 | the table succeeds exactly when every variable has a values list, and is their Cartesian product with the variable names as columns |
| Sampling.FactorialFrameContents | src/sampling.py:172-187 | it has `prod(len(values_i))` rows, exactly the picks of one value per variable |
| Sampling.MultiplyOut | src/sampling.py:175-177 | the loop `n *= i` computes the product of the counts |
| Sampling.FullFactorialSampling | src/sampling.py:163-189 | the method computes that table, and the run count it multiplies out equals the table's number of rows |

## Left out

- Reading the template and writing the filled file in `modifyIDF` (src/idf.py:17-18, 49-50): the model maps template text to filled text.
- The `print` of the run count and the pandas packaging: a DataFrame is a list of column names and a list of rows.
- The running of EnergyPlus, the parallel driver and the result parsing in the other source files: process plumbing and I/O outside this model.
- Idf.Runtime: `str()` of a number, `wwr ** 0.5`, `50 ** 0.67`, `(rho / 2) ** 0.5` and `10 ** (n - 0.5)` are opaque parameters. Floating-point rounding is not modelled; the arithmetic is on exact reals.
- Idf.EffectiveLeakageAreaStep: the source disables this call. It sits inside a string literal, and its commented call passes height where length is expected. It is modelled on its own and not wired into Idf.ModifyIdf.
- Sampling.Draws: the random generators are an oracle per (column, row) with only a membership or range promise. Their distributions, the generator state and the order in which numbers are consumed are not modelled.
- Sampling.LhsPoints: the stratification and the `maximin` criterion of scikit-optimize's `Lhs.generate` are not modelled. Nor is its validation of dimensions.
- Sampling.LhsNumericDimension: a one-value or all-equal int or float list gives Integer(low, high) or Real(low, high) with low == high. scikit-optimize rejects that with a ValueError, but the model accepts it. An empty categorical list is accepted too; see Sampling.LhsTagDimension.
- Sampling.DrawnColumn: the normal and skew-normal draws promise nothing beyond their count. The skew-normal location is `mu - sigma`, as in the code, which does not make the mean mu.
- Sampling.ValuesList: a string `values` field is a TypeError here, where Python would iterate its characters. Any other non-list field is a TypeError too.
- Values.MinOf: a list mixing strings, or holding only strings, is a TypeError here. Python would compare strings with each other before a later step raises. The same holds for Values.MaxOf.
- Sampling.RandomIntColumn: `randint` with non-integral bounds is modelled as a TypeError. The model also draws for bounds of any size, where `np.random.randint` raises ValueError once min(values) or max(values) falls outside the 64-bit integer range.
- Sampling.LhsTagDimension: a discrete, constant, categorical or bool variable gives Categorical(values) for whatever `values` holds. scikit-optimize's `Categorical` iterates its argument, so a number there (`"values": 5`) raises TypeError and an empty list is rejected, while the model accepts both. The checks inside `Categorical` are not part of this model.
- The number of runs n is a `nat`: a negative n is not modelled.

## Findings

| source | as written | input that shows it | evidently intended | confidence | as-written member | corrected member |
|---|---|---|---|---|---|---|
| src/sampling.py:44 | `elif input["uniform"] == "uniform":` tests an entry named "uniform" rather than the method, so every method past skew raises KeyError('uniform') unless the variable has such an entry | `{"method": "constant", "values": [1]}` | `elif input["method"] == "uniform":` | not executed | Sampling.ConstantNeedsUniformKey | Sampling.StatisticalColumn |
| src/sampling.py:45 | `np.random.uniform(min(input["range"]), input["range"], n)` passes the whole range list as the upper bound, which numpy broadcasts against n draws | `{"method": "uniform", "uniform": "uniform", "range": [0, 10]}` with n = 5 | `np.random.uniform(min(input["range"]), max(input["range"]), n)` | not executed | Sampling.UniformRangeBroadcast | Sampling.UniformColumnRange |

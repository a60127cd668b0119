/** Experiment design: the tables of parameter values the simulations are
    run with. Each variable is described by a specification dictionary (its
    "type" or "method" tag and its "values", "range", "mu", "sigma" or "skew"
    fields); each sampling scheme turns the variables into one column apiece.
    The random generators are oracles that only promise membership or range. */
module Sampling {
  import opened Values
  import opened Loops
  import Product

  /** A dimension of the Latin hypercube, as scikit-optimize describes it. */
  datatype Dimension = Categorical(categories: Field) | Integer(low: Value, high: Value) | Real(low: Value, high: Value)

  /** The random generators, each asked for the draw of column c, row j. */
  datatype Draws = Draws(
    choose: (nat, nat, nat) -> nat,                 // random.choices: an index into a population of m
    randint: (nat, nat, int, int) -> int,           // np.random.randint(low, high)
    uniform: (nat, nat, real, real) -> real,        // np.random.uniform(low, high)
    normal: (nat, nat, real, real) -> real,         // np.random.normal(mu, sigma)
    skewnorm: (nat, nat, real, real, real) -> real, // skewnorm.rvs(a, loc, scale)
    lhs: (nat, nat, Dimension) -> Value)            // Lhs.generate's entry for dimension c of point j

  /** What the generators promise: a chosen index is in the population,
      randint stays in [low, high), uniform in [low, high) (exactly low when
      the two meet), and a hypercube point lies in its dimension. */
  ghost predicate ValidDraws(d: Draws)
  {
    && (forall c, j, m :: m > 0 ==> d.choose(c, j, m) < m)
    && (forall c, j, lo, hi :: lo < hi ==> lo <= d.randint(c, j, lo, hi) < hi)
    && (forall c, j, lo, hi :: lo <= hi ==>
          lo <= d.uniform(c, j, lo, hi) <= hi && (lo < hi ==> d.uniform(c, j, lo, hi) < hi))
    && (forall c, j, items :: |items| > 0 ==> d.lhs(c, j, Categorical(List(items))) in items)
    && (forall c, j, lo, hi :: IsIntegral(lo) && IsIntegral(hi) && AsInt(lo) <= AsInt(hi) ==>
          d.lhs(c, j, Integer(lo, hi)).Int? && AsInt(lo) <= d.lhs(c, j, Integer(lo, hi)).i <= AsInt(hi))
    && (forall c, j, lo, hi :: IsNumber(lo) && IsNumber(hi) && AsReal(lo) <= AsReal(hi) ==>
          d.lhs(c, j, Real(lo, hi)).Float? && AsReal(lo) <= d.lhs(c, j, Real(lo, hi)).f <= AsReal(hi))
  }

  /** A point that lies in its dimension whenever the dimension has one. */
  function LowestPoint(dim: Dimension): Value
  {
    match dim
    case Categorical(List(items)) => if |items| > 0 then items[0] else Int(0)
    case Categorical(_) => Int(0)
    case Integer(lo, _) => if IsIntegral(lo) then Int(AsInt(lo)) else Int(0)
    case Real(lo, _) => if IsNumber(lo) then Float(AsReal(lo)) else Float(0.0)
  }

  type Rng = d: Draws | ValidDraws(d)
    witness Draws((c, j, m) => 0, (c, j, lo, hi) => lo, (c, j, lo, hi) => lo,
                  (c, j, mu, sigma) => mu, (c, j, a, loc, scale) => loc, (c, j, dim) => LowestPoint(dim))

  /** A pandas DataFrame: column names and rows. */
  datatype Frame<T> = Frame(columns: seq<string>, rows: seq<seq<T>>)

  /** A string tag, as in `v["type"] == "int"`. */
  function Tag(s: string): Field
  {
    Atom(Str(s))
  }

  const ChoiceTags: seq<Field> := [Tag("discrete"), Tag("categorical"), Tag("bool"), TypeObj(BoolType)]
  const IntTags: seq<Field> := [TypeObj(IntType), Tag("int")]
  const FloatTags: seq<Field> := [TypeObj(FloatType), Tag("float")]

  /** `spec[key] in tags` */
  predicate Tagged(spec: Dict<Field>, key: string, tags: seq<Field>)
  {
    Get(spec, key).Some? && Get(spec, key).value in tags
  }

  /** The variable's "values" field is a list. */
  predicate HasValueList(spec: Dict<Field>)
  {
    Get(spec, "values").Some? && Get(spec, "values").value.List?
  }

  /** The entries of the "values" list (none when there is no list). */
  function Items(spec: Dict<Field>): seq<Value>
  {
    if HasValueList(spec) then Get(spec, "values").value.items else []
  }

  /** `spec["values"]` used as a list; anything but a list is a TypeError. */
  function ValuesList(spec: Dict<Field>): (r: Result<seq<Value>>)
    ensures r.Ok? <==> HasValueList(spec)
    ensures r.Ok? ==> r.value == Items(spec)
    ensures Get(spec, "values").None? ==> r == Err(KeyError("values"))
  {
    var f :- Lookup(spec, "values");
    if f.List? then Ok(f.items) else Err(TypeError)
  }

  /** `[x] * n` */
  function Copies<T>(x: T, n: nat): (r: seq<T>)
    ensures |r| == n && forall y <- r :: y == x
  {
    seq(n, _ => x)
  }

  /** x is no smaller than the least number of xs. */
  predicate AtLeastMin(x: real, xs: seq<Value>)
  {
    exists y <- xs :: IsNumber(y) && AsReal(y) <= x
  }

  /** x is no greater than the greatest number of xs. */
  predicate AtMostMax(x: real, xs: seq<Value>)
  {
    exists y <- xs :: IsNumber(y) && x <= AsReal(y)
  }

  /** x is below the greatest number of xs. */
  predicate BelowMax(x: real, xs: seq<Value>)
  {
    exists y <- xs :: IsNumber(y) && x < AsReal(y)
  }

  /** All the numbers of xs are the same. */
  predicate AllEqual(xs: seq<Value>)
  {
    forall y <- xs, z <- xs :: IsNumber(y) && IsNumber(z) ==> AsReal(y) == AsReal(z)
  }

  /** `pd.DataFrame(columns).T`: row i holds entry i of every column; no
      columns at all give no rows. */
  function Transpose<T>(cols: seq<seq<T>>, n: nat): (rows: seq<seq<T>>)
    requires forall col <- cols :: |col| == n
    ensures |rows| == (if |cols| == 0 then 0 else n)
    ensures forall i :: 0 <= i < |rows| ==> |rows[i]| == |cols| && forall j :: 0 <= j < |cols| ==> rows[i][j] == cols[j][i]
  {
    if |cols| == 0 then []
    else seq(n, i requires 0 <= i < n => seq(|cols|, j requires 0 <= j < |cols| => cols[j][i]))
  }

  // ---------------------------------------------------------------- randomSampling

  const RandomTags: seq<Field> := ChoiceTags + [Tag("constant")] + IntTags + FloatTags

  /** The column randomSampling draws for the variable spec, the c-th one. */
  function RandomColumn(spec: Dict<Field>, n: nat, c: nat, rng: Rng): (r: Result<seq<Value>>)
    ensures r.Ok? ==> |r.value| == n
    ensures Get(spec, "type").None? ==> r == Err(KeyError("type"))
    ensures Get(spec, "type").Some? && Get(spec, "type").value !in RandomTags ==> r == Err(Unsupported(Get(spec, "type").value))
  {
    var tag :- Lookup(spec, "type");
    if tag in ChoiceTags then
      var vals :- ValuesList(spec);
      if |vals| == 0 && n > 0 then Err(IndexError)
      else Ok(seq(n, j requires 0 <= j < n => if |vals| == 0 then Int(0) else vals[rng.choose(c, j, |vals|)]))
    else if tag == Tag("constant") then
      var vals :- ValuesList(spec);
      if |vals| == 0 then Err(IndexError) else Ok(Copies(vals[0], n))
    else if tag in IntTags then
      var vals :- ValuesList(spec);
      if |vals| == 1 then Ok(Copies(vals[0], n))
      else
        var lo :- MinOf(vals);
        var hi :- MaxOf(vals);
        if !(IsIntegral(lo) && IsIntegral(hi)) then Err(TypeError)
        else if AsInt(lo) >= AsInt(hi) then Err(ValueError)
        else Ok(seq(n, j requires 0 <= j < n => Int(rng.randint(c, j, AsInt(lo), AsInt(hi)))))
    else if tag in FloatTags then
      var vals :- ValuesList(spec);
      if |vals| == 1 then Ok(Copies(vals[0], n))
      else
        var lo :- MinOf(vals);
        var hi :- MaxOf(vals);
        Ok(seq(n, j requires 0 <= j < n => Float(rng.uniform(c, j, AsReal(lo), AsReal(hi)))))
    else
      Err(Unsupported(tag))
  }

  /** A discrete, categorical or bool column holds n members of the values
      list, and fails only when there is no list or it is empty and n > 0. */
  lemma RandomChoiceColumn(spec: Dict<Field>, n: nat, c: nat, rng: Rng)
    requires Tagged(spec, "type", ChoiceTags)
    ensures var r := RandomColumn(spec, n, c, rng);
      && (r.Ok? <==> HasValueList(spec) && (n == 0 || |Items(spec)| > 0))
      && (r.Ok? ==> forall x <- r.value :: x in Items(spec))
  {
  }

  /** A constant column is the first of the values repeated n times. */
  lemma RandomConstantColumn(spec: Dict<Field>, n: nat, c: nat, rng: Rng)
    requires Get(spec, "type") == Some(Tag("constant"))
    ensures var r := RandomColumn(spec, n, c, rng);
      && (r.Ok? <==> HasValueList(spec) && |Items(spec)| > 0)
      && (r.Ok? ==> r.value == Copies(Items(spec)[0], n))
  {
  }

  /** An int or float variable with a single value repeats it n times. */
  lemma RandomSingleValueColumn(spec: Dict<Field>, n: nat, c: nat, rng: Rng)
    requires Tagged(spec, "type", IntTags + FloatTags)
    requires HasValueList(spec) && |Items(spec)| == 1
    ensures RandomColumn(spec, n, c, rng) == Ok(Copies(Items(spec)[0], n))
  {
    assert Get(spec, "type").value in IntTags || Get(spec, "type").value in FloatTags;
  }

  /** Otherwise an int column holds integers in [min(values), max(values)). */
  lemma RandomIntColumn(spec: Dict<Field>, n: nat, c: nat, rng: Rng)
    requires Tagged(spec, "type", IntTags) && |Items(spec)| != 1
    ensures var r := RandomColumn(spec, n, c, rng);
      r.Ok? ==> forall x <- r.value :: x.Int? && AtLeastMin(x.i as real, Items(spec)) && BelowMax(x.i as real, Items(spec))
  {
    var r := RandomColumn(spec, n, c, rng);
    if r.Ok? {
      var vals := Items(spec);
      var lo, hi := MinOf(vals).value, MaxOf(vals).value;
      forall x <- r.value
        ensures x.Int? && AtLeastMin(x.i as real, vals) && BelowMax(x.i as real, vals)
      {
        var j :| 0 <= j < n && r.value[j] == x;
        assert x == Int(rng.randint(c, j, AsInt(lo), AsInt(hi)));
        assert IsNumber(lo) && AsReal(lo) <= x.i as real;
        assert IsNumber(hi) && x.i as real < AsReal(hi);
      }
    }
  }

  /** Otherwise a float column holds floats in [min(values), max(values)),
      or min(values) itself when all the values are equal. */
  lemma RandomFloatColumn(spec: Dict<Field>, n: nat, c: nat, rng: Rng)
    requires Tagged(spec, "type", FloatTags) && |Items(spec)| != 1
    ensures var r := RandomColumn(spec, n, c, rng);
      && (r.Ok? <==> HasValueList(spec) && |Items(spec)| > 1 && forall x <- Items(spec) :: IsNumber(x))
      && (r.Ok? ==> forall x <- r.value ::
            x.Float? && AtLeastMin(x.f, Items(spec)) && AtMostMax(x.f, Items(spec))
            && (BelowMax(x.f, Items(spec)) || AllEqual(Items(spec))))
  {
    var r := RandomColumn(spec, n, c, rng);
    if r.Ok? {
      var vals := Items(spec);
      var lo, hi := MinOf(vals).value, MaxOf(vals).value;
      forall x <- r.value
        ensures x.Float? && AtLeastMin(x.f, vals) && AtMostMax(x.f, vals) && (BelowMax(x.f, vals) || AllEqual(vals))
      {
        var j :| 0 <= j < n && r.value[j] == x;
        assert x == Float(rng.uniform(c, j, AsReal(lo), AsReal(hi)));
        assert IsNumber(lo) && AsReal(lo) <= x.f;
        assert IsNumber(hi) && x.f <= AsReal(hi);
        if AsReal(lo) < AsReal(hi) {
          assert x.f < AsReal(hi);
        }
      }
    }
  }

  /** The loop body of randomSampling as a function of the position and the entry. */
  function RandomColumnOf(n: nat, rng: Rng): (nat, (string, Dict<Field>)) -> Result<seq<Value>>
  {
    (c: nat, p: (string, Dict<Field>)) => RandomColumn(p.1, n, c, rng)
  }

  /** randomSampling's table: one column per variable, keyed by the variable
      names in order, each row holding one draw of every variable. */
  function RandomFrame(parameters: Dict<Dict<Field>>, n: nat, rng: Rng): (r: Result<Frame<Value>>)
    ensures r.Ok? <==> forall j :: 0 <= j < |parameters| ==> RandomColumn(parameters[j].1, n, j, rng).Ok?
    ensures r.Ok? ==>
      && r.value.columns == Keys(parameters)
      && |r.value.rows| == (if |parameters| == 0 then 0 else n)
      && forall i :: 0 <= i < |r.value.rows| ==>
           |r.value.rows[i]| == |parameters|
           && forall j :: 0 <= j < |parameters| ==> r.value.rows[i][j] == RandomColumn(parameters[j].1, n, j, rng).value[i]
  {
    var cols :- Collect(parameters, RandomColumnOf(n, rng), |parameters|);
    Ok(Frame(Keys(parameters), Transpose(cols, n)))
  }

  lemma RandomFrameOf(parameters: Dict<Dict<Field>>, n: nat, rng: Rng)
    ensures var cols := Collect(parameters, RandomColumnOf(n, rng), |parameters|);
      && (cols.Ok? ==> forall col <- cols.value :: |col| == n)
      && RandomFrame(parameters, n, rng)
         == if cols.Ok? then Ok(Frame(Keys(parameters), Transpose(cols.value, n))) else Err(cols.error)
  {
    var f := RandomColumnOf(n, rng);
    var cols := Collect(parameters, f, |parameters|);
    if cols.Ok? {
      forall col <- cols.value ensures |col| == n {
        var j :| 0 <= j < |cols.value| && cols.value[j] == col;
        assert f(j, parameters[j]) == Ok(col);
      }
    }
  }

  /** randomSampling: append one column per variable, then transpose. */
  method RandomSampling(parameters: Dict<Dict<Field>>, n: nat, rng: Rng) returns (r: Result<Frame<Value>>)
    ensures r == RandomFrame(parameters, n, rng)
  {
    var randomValues := CollectEach(parameters, RandomColumnOf(n, rng));
    RandomFrameOf(parameters, n, rng);
    if randomValues.Err? {
      return Err(randomValues.error);
    }
    r := Ok(Frame(Keys(parameters), Transpose(randomValues.value, n)));
  }

  // ---------------------------------------------------------------- latinHypercubeSampling

  const CategoricalTags: seq<Field> := [Tag("discrete"), Tag("constant"), Tag("categorical"), Tag("bool"), TypeObj(BoolType)]

  /** The dimension latinHypercubeSampling describes a variable by. */
  function LhsDimension(spec: Dict<Field>): Result<Dimension>
  {
    var tag :- Lookup(spec, "type");
    if tag in CategoricalTags then
      var values :- Lookup(spec, "values");
      Ok(Categorical(values))
    else if tag in IntTags then
      var vals :- ValuesList(spec);
      var lo :- MinOf(vals);
      var hi :- MaxOf(vals);
      Ok(Integer(lo, hi))
    else if tag in FloatTags then
      var vals :- ValuesList(spec);
      var lo :- MinOf(vals);
      var hi :- MaxOf(vals);
      Ok(Real(lo, hi))
    else
      Err(Unsupported(tag))
  }

  /** A missing tag is a KeyError and a tag outside the listed ones raises;
      discrete, constant, categorical and bool variables become
      Categorical(values), whatever values holds. */
  lemma LhsTagDimension(spec: Dict<Field>)
    ensures var r := LhsDimension(spec);
      && (Get(spec, "type").None? ==> r == Err(KeyError("type")))
      && (Tagged(spec, "type", CategoricalTags) ==>
            && (r.Ok? <==> Get(spec, "values").Some?)
            && (r.Ok? ==> r.value == Categorical(Get(spec, "values").value)))
      && (Get(spec, "type").Some? && Get(spec, "type").value !in CategoricalTags + IntTags + FloatTags ==>
            r == Err(Unsupported(Get(spec, "type").value)))
  {
  }

  /** An int variable becomes Integer(min(values), max(values)) and a float
      variable Real(min(values), max(values)); both need a non-empty list
      of numbers. */
  lemma LhsNumericDimension(spec: Dict<Field>)
    requires Tagged(spec, "type", IntTags + FloatTags)
    ensures var r := LhsDimension(spec);
      && (r.Ok? <==> HasValueList(spec) && |Items(spec)| > 0 && forall x <- Items(spec) :: IsNumber(x))
      && (r.Ok? ==> (r.value.Integer? <==> Tagged(spec, "type", IntTags)))
      && (r.Ok? ==> !r.value.Categorical? && r.value.low in Items(spec) && r.value.high in Items(spec)
                    && forall x <- Items(spec) :: AsReal(r.value.low) <= AsReal(x) <= AsReal(r.value.high))
  {
    assert Get(spec, "type").value in IntTags || Get(spec, "type").value in FloatTags;
  }

  function LhsDimensionOf(): (nat, (string, Dict<Field>)) -> Result<Dimension>
  {
    (c: nat, p: (string, Dict<Field>)) => LhsDimension(p.1)
  }

  /** The n points the hypercube generator gives for the dimensions. */
  function LhsPoints(dims: seq<Dimension>, n: nat, rng: Rng): (rows: seq<seq<Value>>)
    ensures |rows| == n && forall j :: 0 <= j < n ==> |rows[j]| == |dims|
  {
    seq(n, j requires 0 <= j < n => seq(|dims|, c requires 0 <= c < |dims| => rng.lhs(c, j, dims[c])))
  }

  /** latinHypercubeSampling's table: one dimension per variable, the
      generated points as rows, the variable names as columns. */
  function LhsFrame(variables: Dict<Dict<Field>>, n: nat, rng: Rng): (r: Result<Frame<Value>>)
    ensures r.Ok? <==> forall j :: 0 <= j < |variables| ==> LhsDimension(variables[j].1).Ok?
    ensures r.Ok? ==> r.value.columns == Keys(variables) && |r.value.rows| == n
  {
    var dims :- Collect(variables, LhsDimensionOf(), |variables|);
    Ok(Frame(Keys(variables), LhsPoints(dims, n, rng)))
  }

  /** Every entry of the table lies in its variable's dimension: a member of
      a non-empty categorical list, an integer between min(values) and
      max(values), or a float between them. */
  lemma LhsFrameEntries(variables: Dict<Dict<Field>>, n: nat, rng: Rng, i: int, j: int)
    requires LhsFrame(variables, n, rng).Ok?
    requires 0 <= i < n && 0 <= j < |variables|
    ensures var spec, x := variables[j].1, LhsFrame(variables, n, rng).value.rows[i][j];
      && (Tagged(spec, "type", CategoricalTags) && HasValueList(spec) && |Items(spec)| > 0 ==> x in Items(spec))
      && (Tagged(spec, "type", IntTags) && (forall y <- Items(spec) :: IsIntegral(y)) ==>
            x.Int? && AtLeastMin(x.i as real, Items(spec)) && AtMostMax(x.i as real, Items(spec)))
      && (Tagged(spec, "type", FloatTags) ==>
            x.Float? && AtLeastMin(x.f, Items(spec)) && AtMostMax(x.f, Items(spec)))
  {
    var spec := variables[j].1;
    var dims := Collect(variables, LhsDimensionOf(), |variables|).value;
    var d := LhsDimension(spec).value;
    assert dims[j] == d;
    var x := rng.lhs(j, i, d);
    assert LhsFrame(variables, n, rng).value.rows[i][j] == x;
    if Tagged(spec, "type", IntTags) || Tagged(spec, "type", FloatTags) {
      assert Tagged(spec, "type", IntTags + FloatTags);
      LhsNumericDimension(spec);
      assert d.low in Items(spec) && d.high in Items(spec);
      if Tagged(spec, "type", IntTags) && (forall y <- Items(spec) :: IsIntegral(y)) {
        assert d.Integer?;
        assert AsInt(d.low) <= AsInt(d.high);
      }
    }
  }

  lemma LhsFrameOf(variables: Dict<Dict<Field>>, n: nat, rng: Rng)
    ensures var dims := Collect(variables, LhsDimensionOf(), |variables|);
      LhsFrame(variables, n, rng) == if dims.Ok? then Ok(Frame(Keys(variables), LhsPoints(dims.value, n, rng))) else Err(dims.error)
  {
  }

  /** latinHypercubeSampling: append one dimension per variable, then generate. */
  method LatinHypercubeSampling(variables: Dict<Dict<Field>>, n: nat, rng: Rng) returns (r: Result<Frame<Value>>)
    ensures r == LhsFrame(variables, n, rng)
  {
    var lhsInstructions := CollectEach(variables, LhsDimensionOf());
    LhsFrameOf(variables, n, rng);
    if lhsInstructions.Err? {
      return Err(lhsInstructions.error);
    }
    r := Ok(Frame(Keys(variables), LhsPoints(lhsInstructions.value, n, rng)));
  }

  // ---------------------------------------------------------------- statisticalSampling

  /** The methods tested before the uniform branch. */
  const DrawnMethods: seq<Field> := [Tag("discrete"), Tag("normal"), Tag("skew")]

  /** A field used as a number; anything else is a TypeError. */
  function NumberOf(f: Field): (r: Result<real>)
    ensures r.Ok? <==> f.Atom? && IsNumber(f.v)
    ensures r.Ok? ==> r.value == AsReal(f.v)
  {
    if f.Atom? && IsNumber(f.v) then Ok(AsReal(f.v)) else Err(TypeError)
  }

  /** `spec["range"]` used as a list. */
  function RangeList(spec: Dict<Field>): (r: Result<seq<Value>>)
    ensures r.Ok? <==> Get(spec, "range").Some? && Get(spec, "range").value.List?
    ensures r.Ok? ==> r.value == Get(spec, "range").value.items
  {
    var f :- Lookup(spec, "range");
    if f.List? then Ok(f.items) else Err(TypeError)
  }

  /** The discrete, normal and skew columns: n picks from the values, or n
      draws from a normal or skew-normal distribution whose scale must not
      be negative. The skew-normal location is mu - sigma. */
  function DrawnColumn(spec: Dict<Field>, how: Field, n: nat, c: nat, rng: Rng): (r: Result<seq<Field>>)
    requires how in DrawnMethods
    ensures r.Ok? ==> |r.value| == n
    ensures r.Ok? && how == Tag("discrete") ==> forall x <- r.value :: x.Atom? && x.v in Items(spec)
  {
    if how == Tag("discrete") then
      var vals :- ValuesList(spec);
      if |vals| == 0 && n > 0 then Err(IndexError)
      else Ok(seq(n, j requires 0 <= j < n => Atom(if |vals| == 0 then Int(0) else vals[rng.choose(c, j, |vals|)])))
    else if how == Tag("normal") then
      var mu :- Lookup(spec, "mu");
      var sigma :- Lookup(spec, "sigma");
      var m :- NumberOf(mu);
      var s :- NumberOf(sigma);
      if s < 0.0 then Err(ValueError)
      else Ok(seq(n, j requires 0 <= j < n => Atom(Float(rng.normal(c, j, m, s)))))
    else
      var a :- Lookup(spec, "skew");
      var mu :- Lookup(spec, "mu");
      var sigma :- Lookup(spec, "sigma");
      var m :- NumberOf(mu);
      var s :- NumberOf(sigma);
      var skew :- NumberOf(a);
      if s < 0.0 then Err(ValueError)
      else Ok(seq(n, j requires 0 <= j < n => Atom(Float(rng.skewnorm(c, j, skew, m - s, s)))))
  }

  /** The uniform column as intended: n draws between min(range) and max(range). */
  function UniformColumn(spec: Dict<Field>, n: nat, c: nat, rng: Rng): (r: Result<seq<Field>>)
    ensures r.Ok? <==> RangeList(spec).Ok? && |RangeList(spec).value| > 0 && forall x <- RangeList(spec).value :: IsNumber(x)
    ensures r.Ok? ==> |r.value| == n
  {
    var range :- RangeList(spec);
    var lo :- MinOf(range);
    var hi :- MaxOf(range);
    Ok(seq(n, j requires 0 <= j < n => Atom(Float(rng.uniform(c, j, AsReal(lo), AsReal(hi))))))
  }

  /** Every uniform draw lies in [min(range), max(range)), or is min(range)
      when all of the range is one number. */
  lemma UniformColumnRange(spec: Dict<Field>, n: nat, c: nat, rng: Rng)
    requires UniformColumn(spec, n, c, rng).Ok?
    ensures var range := RangeList(spec).value;
      forall x <- UniformColumn(spec, n, c, rng).value ::
        x.Atom? && x.v.Float? && AtLeastMin(x.v.f, range) && AtMostMax(x.v.f, range)
        && (BelowMax(x.v.f, range) || AllEqual(range))
  {
    var range := RangeList(spec).value;
    var col := UniformColumn(spec, n, c, rng).value;
    var lo, hi := MinOf(range).value, MaxOf(range).value;
    forall x <- col
      ensures x.Atom? && x.v.Float? && AtLeastMin(x.v.f, range) && AtMostMax(x.v.f, range)
              && (BelowMax(x.v.f, range) || AllEqual(range))
    {
      var j :| 0 <= j < n && col[j] == x;
      var f := rng.uniform(c, j, AsReal(lo), AsReal(hi));
      assert x == Atom(Float(f));
      assert IsNumber(lo) && AsReal(lo) <= f;
      assert IsNumber(hi) && f <= AsReal(hi);
      if AsReal(lo) < AsReal(hi) {
        assert f < AsReal(hi);
      }
    }
  }

  /** statisticalSampling's column for one variable, with the uniform branch
      as intended (tested on the method, bounded by max(range)); None when
      the method is none of the five, which leaves the variable out. */
  function StatisticalColumn(spec: Dict<Field>, n: nat, c: nat, rng: Rng): (r: Result<Option<seq<Field>>>)
    ensures r.Ok? && r.value.Some? ==> |r.value.value| == n
    ensures Get(spec, "method").None? ==> r == Err(KeyError("method"))
  {
    var how :- Lookup(spec, "method");
    if how in DrawnMethods then
      var col :- DrawnColumn(spec, how, n, c, rng);
      Ok(Some(col))
    else if how == Tag("uniform") then
      var col :- UniformColumn(spec, n, c, rng);
      Ok(Some(col))
    else if how == Tag("constant") then
      var values :- Lookup(spec, "values");
      Ok(Some(Copies(values, n)))
    else
      Ok(None)
  }

  /** Each method's column: a discrete, normal or skew column when its
      draws succeed, the uniform column, the values field repeated n times
      for a constant (a list stays a list), and nothing for any other method. */
  lemma StatisticalColumnByMethod(spec: Dict<Field>, n: nat, c: nat, rng: Rng)
    ensures var r := StatisticalColumn(spec, n, c, rng);
      && (Tagged(spec, "method", DrawnMethods) ==>
            var d := DrawnColumn(spec, Get(spec, "method").value, n, c, rng);
            (r.Ok? <==> d.Ok?) && (r.Ok? ==> r.value == Some(d.value)))
      && (Get(spec, "method") == Some(Tag("uniform")) ==>
            (r.Ok? <==> UniformColumn(spec, n, c, rng).Ok?)
            && (r.Ok? ==> r.value == Some(UniformColumn(spec, n, c, rng).value)))
      && (Get(spec, "method") == Some(Tag("constant")) ==>
            (r.Ok? <==> Get(spec, "values").Some?)
            && (r.Ok? ==> r.value == Some(Copies(Get(spec, "values").value, n))))
      && (Get(spec, "method").Some? && Get(spec, "method").value !in DrawnMethods + [Tag("uniform"), Tag("constant")] ==>
            r == Ok(None))
  {
  }

  /** statisticalSampling's column as the code has it: every method past
      skew first looks up `spec["uniform"]`, and when that is "uniform" the
      upper bound is the whole range list, broadcast against n draws. */
  function StatisticalColumnAsWritten(spec: Dict<Field>, n: nat, c: nat, rng: Rng): (r: Result<Option<seq<Field>>>)
    ensures Tagged(spec, "method", DrawnMethods) ==> r == StatisticalColumn(spec, n, c, rng)
    ensures Get(spec, "method").Some? && Get(spec, "method").value !in DrawnMethods && Get(spec, "uniform").None? ==>
      r == Err(KeyError("uniform"))
    ensures Get(spec, "method").Some? && Get(spec, "method").value !in DrawnMethods + [Tag("constant")]
            && Get(spec, "uniform").Some? && Get(spec, "uniform").value != Tag("uniform") ==>
      r == Ok(None)
  {
    var how :- Lookup(spec, "method");
    if how in DrawnMethods then
      var col :- DrawnColumn(spec, how, n, c, rng);
      Ok(Some(col))
    else
      var u :- Lookup(spec, "uniform");
      if u == Tag("uniform") then
        var range :- RangeList(spec);
        var lo :- MinOf(range);
        if |range| != n && |range| != 1 then Err(ValueError)
        else
          Ok(Some(seq(n, j requires 0 <= j < n =>
            Atom(Float(rng.uniform(c, j, AsReal(lo), AsReal(range[if |range| == 1 then 0 else j])))))))
      else if how == Tag("constant") then
        var values :- Lookup(spec, "values");
        Ok(Some(Copies(values, n)))
      else
        Ok(None)
  }

  /** A constant variable without a "uniform" entry raises KeyError('uniform')
      as written, where the intended code repeats its values. */
  lemma ConstantNeedsUniformKey(n: nat, rng: Rng)
    ensures var spec := [("method", Tag("constant")), ("values", List([Int(1)]))];
      && StatisticalColumnAsWritten(spec, n, 0, rng) == Err(KeyError("uniform"))
      && StatisticalColumn(spec, n, 0, rng) == Ok(Some(Copies(List([Int(1)]), n)))
  {
    var spec := [("method", Tag("constant")), ("values", List([Int(1)]))];
    assert Get(spec, "method") == Some(Tag("constant"));
    assert Get(spec, "uniform").None?;
  }

  /** A uniform variable over the range [0, 10] with five runs: as written the
      two-element upper bound cannot be broadcast to five draws (ValueError);
      the intended code draws five floats in [0, 10). */
  lemma UniformRangeBroadcast(rng: Rng)
    ensures var spec := [("method", Tag("uniform")), ("uniform", Tag("uniform")), ("range", List([Int(0), Int(10)]))];
      && StatisticalColumnAsWritten(spec, 5, 0, rng) == Err(ValueError)
      && StatisticalColumn(spec, 5, 0, rng).Ok?
      && forall x <- StatisticalColumn(spec, 5, 0, rng).value.value :: x.Atom? && x.v.Float? && 0.0 <= x.v.f < 10.0
  {
    var spec := [("method", Tag("uniform")), ("uniform", Tag("uniform")), ("range", List([Int(0), Int(10)]))];
    assert Get(spec, "method") == Some(Tag("uniform"));
    assert Get(spec, "uniform") == Some(Tag("uniform"));
    var range := [Int(0), Int(10)];
    assert Get(spec, "range") == Some(List(range));
    assert MinOf(range) == Ok(Int(0)) by {
      assert range[..1] == [Int(0)];
    }
    assert MaxOf(range) == Ok(Int(10)) by {
      assert range[..1] == [Int(0)];
    }
  }

  /** The loop body of statisticalSampling as a function of the position and the specification. */
  function StatisticalColumnOf(n: nat, rng: Rng): (nat, Dict<Field>) -> Result<Option<seq<Field>>>
  {
    (c: nat, spec: Dict<Field>) => StatisticalColumn(spec, n, c, rng)
  }

  /** statisticalSampling's parameters dictionary: each variable's column
      stored under its name, in order, variables with an unknown method
      left out; it fails exactly when some variable's column does. */
  function StatisticalTable(variables: Dict<Dict<Field>>, n: nat, rng: Rng): (r: Result<Dict<seq<Field>>>)
    ensures r.Ok? <==> forall j :: 0 <= j < |variables| ==> StatisticalColumn(variables[j].1, n, j, rng).Ok?
  {
    Store(variables, StatisticalColumnOf(n, rng), |variables|)
  }

  /** With distinct variable names, each variable's entry in the parameters
      is its own column, and a variable whose method is unknown has none;
      a name that is no variable's has no entry. */
  lemma StatisticalEntries(variables: Dict<Dict<Field>>, n: nat, rng: Rng, key: string)
    requires DistinctKeys(variables) && StatisticalTable(variables, n, rng).Ok?
    ensures forall j :: 0 <= j < |variables| ==>
      Get(StatisticalTable(variables, n, rng).value, variables[j].0) == StatisticalColumn(variables[j].1, n, j, rng).value
    ensures (forall j :: 0 <= j < |variables| ==> variables[j].0 != key) ==>
      Get(StatisticalTable(variables, n, rng).value, key).None?
  {
    var f := StatisticalColumnOf(n, rng);
    forall j | 0 <= j < |variables|
      ensures Get(Store(variables, f, |variables|).value, variables[j].0) == StatisticalColumn(variables[j].1, n, j, rng).value
    {
      StoreEntry(variables, f, |variables|, j);
    }
    if forall j :: 0 <= j < |variables| ==> variables[j].0 != key {
      StoreAbsent(variables, f, |variables|, key);
    }
  }

  /** statisticalSampling: fill the parameters dictionary one variable at a time. */
  method StatisticalSampling(variables: Dict<Dict<Field>>, n: nat, rng: Rng) returns (r: Result<Dict<seq<Field>>>)
    ensures r == StatisticalTable(variables, n, rng)
  {
    r := StoreEach(variables, StatisticalColumnOf(n, rng));
  }

  // ---------------------------------------------------------------- fullFactorialSampling

  function ValuesListOf(): (nat, (string, Dict<Field>)) -> Result<seq<Value>>
  {
    (c: nat, p: (string, Dict<Field>)) => ValuesList(p.1)
  }

  /** The variables' value lists, in order. */
  function ValueLists(parameters: Dict<Dict<Field>>): (lists: seq<seq<Value>>)
    ensures |lists| == |parameters| && forall j :: 0 <= j < |parameters| ==> lists[j] == Items(parameters[j].1)
  {
    seq(|parameters|, j requires 0 <= j < |parameters| => Items(parameters[j].1))
  }

  /** fullFactorialSampling's table: every combination of one value per
      variable, in itertools.product order, the variable names as columns. */
  function FactorialFrame(parameters: Dict<Dict<Field>>): (r: Result<Frame<Value>>)
    ensures r.Ok? <==> forall j :: 0 <= j < |parameters| ==> HasValueList(parameters[j].1)
    ensures r.Ok? ==> r.value == Frame(Keys(parameters), Product.CartesianProduct(ValueLists(parameters)))
  {
    var lists :- Collect(parameters, ValuesListOf(), |parameters|);
    assert lists == ValueLists(parameters);
    Ok(Frame(Keys(parameters), Product.CartesianProduct(lists)))
  }

  /** The table has one row per combination, prod(len(values)) of them, and
      its rows are exactly the picks of one value per variable. */
  lemma FactorialFrameContents(parameters: Dict<Dict<Field>>, row: seq<Value>)
    requires FactorialFrame(parameters).Ok?
    ensures var f := FactorialFrame(parameters).value;
      && f.columns == Keys(parameters)
      && |f.rows| == Product.ProductOf(Product.Lengths(ValueLists(parameters)))
      && (row in f.rows <==> |row| == |parameters| && forall j :: 0 <= j < |parameters| ==> row[j] in Items(parameters[j].1))
  {
    Product.CartesianProductSize(ValueLists(parameters));
    Product.CartesianProductMembers(ValueLists(parameters), row);
  }

  lemma FactorialFrameOf(parameters: Dict<Dict<Field>>)
    ensures var lists := Collect(parameters, ValuesListOf(), |parameters|);
      FactorialFrame(parameters) == if lists.Ok? then Ok(Frame(Keys(parameters), Product.CartesianProduct(lists.value))) else Err(lists.error)
  {
  }

  /** `n = 1; for i in ns: n *= i` */
  method MultiplyOut(ns: seq<int>) returns (p: int)
    ensures p == Product.ProductOf(ns)
  {
    p := 1;
    var k := 0;
    while k < |ns|
      invariant k <= |ns|
      invariant p == Product.ProductOf(ns[..k])
    {
      assert ns[..k + 1][..k] == ns[..k];
      p := p * ns[k];
      k := k + 1;
    }
    assert ns[..k] == ns;
  }

  /** fullFactorialSampling: the list lengths, their product as the number
      of runs, then the Cartesian product of the lists. */
  method FullFactorialSampling(parameters: Dict<Dict<Field>>) returns (r: Result<Frame<Value>>, nSimulations: int)
    ensures r == FactorialFrame(parameters)
    ensures r.Ok? ==> nSimulations == |r.value.rows|
  {
    FactorialFrameOf(parameters);
    var listOfValues := Collect(parameters, ValuesListOf(), |parameters|);
    if listOfValues.Err? {
      return Err(listOfValues.error), 0;
    }
    var nValues := Product.Lengths(listOfValues.value);
    nSimulations := MultiplyOut(nValues);
    Product.CartesianProductSize(listOfValues.value);
    r := Ok(Frame(Keys(parameters), Product.CartesianProduct(listOfValues.value)));
  }
}

/** modifyIDF: fill an EnergyPlus input-file template by replacing `@name@`
    tokens with parameter values, deriving window, internal-mass, infiltration
    and daylighting values from the building dimensions on the way.
    The template text comes in and the filled text comes out; reading and
    writing the files is not modelled. */
module Idf {
  import opened Values
  import Text
  import Geometry
  import Infiltration

  /** The parts of the Python run time the model leaves opaque. */
  datatype Runtime = Runtime(
    str: Value -> string,                   // Python's str() of a scalar
    sqrt: real -> real,                     // x ** 0.5
    pow50n: Infiltration.Positive,          // 50 ** 0.67, the default flow exponent
    rootHalfRho: Infiltration.Positive,     // (1.204 / 2) ** 0.5
    tenPow: Infiltration.Positive)          // 10 ** (0.67 - 0.5)

  /** The square-root oracle is exact on the non-negative reals. */
  ghost predicate ExactSqrt(rt: Runtime)
  {
    forall x :: 0.0 <= x ==> 0.0 <= rt.sqrt(x) && rt.sqrt(x) * rt.sqrt(x) == x
  }

  /** str() of a float the code computed. */
  function ShowReal(rt: Runtime, x: real): string
  {
    rt.str(Float(x))
  }

  /** The token `@name@` that stands for a parameter in the template. */
  function Token(name: string): (t: string)
    ensures |t| == |name| + 2 && t[0] == '@' && t[|t| - 1] == '@'
    ensures forall i :: 0 <= i < |name| ==> t[i + 1] == name[i]
  {
    "@" + name + "@"
  }

  /** A (token, text) pair to substitute. */
  type Substitution = (string, string)

  predicate NonEmptyTokens(subs: seq<Substitution>)
  {
    forall p <- subs :: |p.0| > 0
  }

  /** A straight-line series of `contents = contents.replace(token, text)`. */
  function SubstituteAll(contents: string, subs: seq<Substitution>): string
    requires NonEmptyTokens(subs)
    decreases |subs|
  {
    if |subs| == 0 then contents
    else SubstituteAll(Text.Replace(contents, subs[0].0, subs[0].1), subs[1..])
  }

  /** A series of substitutions none of whose tokens occur leaves the text unchanged. */
  lemma {:induction false} SubstituteAllAbsent(contents: string, subs: seq<Substitution>)
    requires NonEmptyTokens(subs)
    requires forall p <- subs :: !Text.Occurs(contents, p.0)
    ensures SubstituteAll(contents, subs) == contents
    decreases |subs|
  {
    if |subs| > 0 {
      assert subs[0] in subs;
      Text.ReplaceAbsent(contents, subs[0].0, subs[0].1);
      assert forall p <- subs[1..] :: p in subs;
      SubstituteAllAbsent(contents, subs[1..]);
    }
  }

  /** The five tokens of one orientation: window corners, then opening area. */
  function FacadeTokens(side: string, axis: string, tag: string): (ts: seq<string>)
    ensures |ts| == 5 && forall t <- ts :: |t| > 0
  {
    [ Token("window" + side + "_" + axis + "0"), Token("window" + side + "_" + axis + "1"),
      Token("window" + side + "_z0"), Token("window" + side + "_z1"),
      Token("windowOpeningArea_" + tag) ]
  }

  /** windowGeometry's twenty tokens, North, East, South, West. */
  function WindowTokens(): (ts: seq<string>)
    ensures |ts| == 20 && forall t <- ts :: |t| > 0
  {
    FacadeTokens("North", "x", "N") + FacadeTokens("East", "y", "E")
    + FacadeTokens("South", "x", "S") + FacadeTokens("West", "y", "W")
  }

  /** The numbers one orientation fills in: the window's corners along the
      wall, its bottom and top, and the opening area. */
  function FacadeNumbers(f: Geometry.Facade): seq<real>
  {
    [f.window.l0, f.window.l1, f.window.z0, f.window.z1, f.openingArea]
  }

  /** windowGeometry's twenty numbers, North, East, South, West. */
  function WindowNumbers(ws: Geometry.Windows): seq<real>
  {
    FacadeNumbers(ws.north) + FacadeNumbers(ws.east) + FacadeNumbers(ws.south) + FacadeNumbers(ws.west)
  }

  /** One orientation's tokens paired with the str() of its coordinates and opening area. */
  function FacadeSubs(side: string, axis: string, tag: string, f: Geometry.Facade, rt: Runtime): (subs: seq<Substitution>)
    ensures NonEmptyTokens(subs)
  {
    var ts := FacadeTokens(side, axis, tag);
    assert ts[0] in ts && ts[1] in ts && ts[2] in ts && ts[3] in ts && ts[4] in ts;
    [ (ts[0], ShowReal(rt, f.window.l0)), (ts[1], ShowReal(rt, f.window.l1)),
      (ts[2], ShowReal(rt, f.window.z0)), (ts[3], ShowReal(rt, f.window.z1)),
      (ts[4], ShowReal(rt, f.openingArea)) ]
  }

  /** The substitutions replace the tokens ts, in that order, token j by
      the text texts[j]. */
  predicate Substitutes(subs: seq<Substitution>, ts: seq<string>, texts: seq<string>)
  {
    |subs| == |ts| == |texts| && forall j :: 0 <= j < |subs| ==> subs[j].0 == ts[j] && subs[j].1 == texts[j]
  }

  /** The str() of each number, in order. */
  function Shown(xs: seq<real>, rt: Runtime): (texts: seq<string>)
    ensures |texts| == |xs| && forall j :: 0 <= j < |xs| ==> texts[j] == ShowReal(rt, xs[j])
  {
    if |xs| == 0 then [] else [ShowReal(rt, xs[0])] + Shown(xs[1..], rt)
  }

  lemma SubstitutesConcat(s1: seq<Substitution>, t1: seq<string>, x1: seq<string>,
                          s2: seq<Substitution>, t2: seq<string>, x2: seq<string>)
    requires Substitutes(s1, t1, x1) && Substitutes(s2, t2, x2)
    ensures Substitutes(s1 + s2, t1 + t2, x1 + x2)
  {
  }

  /** One orientation replaces its five tokens, in order, each by the str()
      of its own number. */
  lemma FacadeSubsSubstitutes(side: string, axis: string, tag: string, f: Geometry.Facade, rt: Runtime)
    ensures Substitutes(FacadeSubs(side, axis, tag, f, rt), FacadeTokens(side, axis, tag), Shown(FacadeNumbers(f), rt))
  {
  }

  /** windowGeometry's twenty substitutions, North, East, South, West. */
  function WindowSubs(ws: Geometry.Windows, rt: Runtime): (subs: seq<Substitution>)
    ensures NonEmptyTokens(subs)
  {
    FacadeSubs("North", "x", "N", ws.north, rt) + FacadeSubs("East", "y", "E", ws.east, rt)
    + FacadeSubs("South", "x", "S", ws.south, rt) + FacadeSubs("West", "y", "W", ws.west, rt)
  }

  /** Each of windowGeometry's twenty tokens receives the str() of its own
      coordinate or opening area. */
  lemma WindowSubsSubstitutes(ws: Geometry.Windows, rt: Runtime)
    ensures Substitutes(WindowSubs(ws, rt), WindowTokens(), Shown(WindowNumbers(ws), rt))
  {
    var north, tn := FacadeSubs("North", "x", "N", ws.north, rt), FacadeTokens("North", "x", "N");
    var east, te := FacadeSubs("East", "y", "E", ws.east, rt), FacadeTokens("East", "y", "E");
    var south, ts := FacadeSubs("South", "x", "S", ws.south, rt), FacadeTokens("South", "x", "S");
    var west, tw := FacadeSubs("West", "y", "W", ws.west, rt), FacadeTokens("West", "y", "W");
    var xn, xe, xs, xw := Shown(FacadeNumbers(ws.north), rt), Shown(FacadeNumbers(ws.east), rt),
                          Shown(FacadeNumbers(ws.south), rt), Shown(FacadeNumbers(ws.west), rt);
    FacadeSubsSubstitutes("North", "x", "N", ws.north, rt);
    FacadeSubsSubstitutes("East", "y", "E", ws.east, rt);
    FacadeSubsSubstitutes("South", "x", "S", ws.south, rt);
    FacadeSubsSubstitutes("West", "y", "W", ws.west, rt);
    SubstitutesConcat(north, tn, xn, east, te, xe);
    SubstitutesConcat(north + east, tn + te, xn + xe, south, ts, xs);
    SubstitutesConcat(north + east + south, tn + te + ts, xn + xe + xs, west, tw, xw);
    ShownConcat(FacadeNumbers(ws.north), FacadeNumbers(ws.east), rt);
    ShownConcat(FacadeNumbers(ws.north) + FacadeNumbers(ws.east), FacadeNumbers(ws.south), rt);
    ShownConcat(FacadeNumbers(ws.north) + FacadeNumbers(ws.east) + FacadeNumbers(ws.south), FacadeNumbers(ws.west), rt);
  }

  lemma ShownConcat(xs: seq<real>, ys: seq<real>, rt: Runtime)
    ensures Shown(xs + ys, rt) == Shown(xs, rt) + Shown(ys, rt)
  {
    assert forall j :: 0 <= j < |xs + ys| ==> Shown(xs + ys, rt)[j] == (Shown(xs, rt) + Shown(ys, rt))[j];
  }

  /** With an exact square root and a non-negative ratio, the north and
      south windows cover wwr of the width-by-height walls and the east and
      west windows wwr of the length-by-height walls. */
  lemma WindowLayoutCoversWwr(width: real, length: real, height: real, wwr: real, rt: Runtime)
    requires ExactSqrt(rt) && 0.0 <= wwr
    ensures var ws := Geometry.WindowLayout(width, length, height, rt.sqrt(wwr));
      && (ws.north.window.l1 - ws.north.window.l0) * (ws.north.window.z1 - ws.north.window.z0) == wwr * (width * height)
      && (ws.east.window.l1 - ws.east.window.l0) * (ws.east.window.z1 - ws.east.window.z0) == wwr * (length * height)
  {
    var alpha := rt.sqrt(wwr);
    Geometry.WindowAreaIsWwr(width, height, wwr, alpha);
    Geometry.WindowAreaIsWwr(length, height, wwr, alpha);
  }

  /** `inputs[k]` exists and is a number. */
  predicate NumberAt(inputs: Dict<Value>, k: string)
  {
    Get(inputs, k).Some? && IsNumber(Get(inputs, k).value)
  }

  /** What windowGeometry needs: the four dimensions present and numeric,
      and a ratio whose square root is real. */
  predicate WindowInputs(inputs: Dict<Value>)
  {
    && NumberAt(inputs, "width") && NumberAt(inputs, "length") && NumberAt(inputs, "height") && NumberAt(inputs, "wwr")
    && AsReal(Get(inputs, "wwr").value) >= 0.0
  }

  /** windowGeometry: look up width, length, height and wwr (in that order),
      then substitute the coordinates of the four centred windows and their
      opening areas. A negative wwr has a complex square root, and the
      comparison `z_0 < 0` then raises a TypeError. */
  function WindowGeometry(contents: string, inputs: Dict<Value>, rt: Runtime): (r: Result<string>)
    ensures r.Ok? <==> WindowInputs(inputs)
    ensures r.Err? && Get(inputs, "width").None? ==> r.error == KeyError("width")
    ensures (NumberAt(inputs, "width") && NumberAt(inputs, "length") && NumberAt(inputs, "height") && NumberAt(inputs, "wwr")
             && AsReal(Get(inputs, "wwr").value) < 0.0) ==> r == Err(TypeError)
  {
    var width :- Lookup(inputs, "width");
    var length :- Lookup(inputs, "length");
    var height :- Lookup(inputs, "height");
    var wwr :- Lookup(inputs, "wwr");
    if !(IsNumber(wwr) && IsNumber(width) && IsNumber(height) && IsNumber(length)) then Err(TypeError)
    else if AsReal(wwr) < 0.0 then Err(TypeError)
    else
      assert Get(inputs, "width") == Some(width) && Get(inputs, "length") == Some(length);
      assert Get(inputs, "height") == Some(height) && Get(inputs, "wwr") == Some(wwr);
      assert WindowInputs(inputs);
      var alpha := rt.sqrt(AsReal(wwr));
      var ws := Geometry.WindowLayout(AsReal(width), AsReal(length), AsReal(height), alpha);
      Ok(SubstituteAll(contents, WindowSubs(ws, rt)))
  }

  /** With the four dimensions numeric and wwr non-negative, windowGeometry
      substitutes the layout of the windows scaled by the square root of wwr. */
  lemma WindowGeometryValue(contents: string, inputs: Dict<Value>, rt: Runtime)
    requires WindowInputs(inputs)
    ensures WindowGeometry(contents, inputs, rt) == Ok(SubstituteAll(contents, WindowSubs(
      Geometry.WindowLayout(AsReal(Get(inputs, "width").value), AsReal(Get(inputs, "length").value),
                            AsReal(Get(inputs, "height").value), rt.sqrt(AsReal(Get(inputs, "wwr").value))), rt)))
  {
    assert Lookup(inputs, "width") == Ok(Get(inputs, "width").value);
    assert Lookup(inputs, "length") == Ok(Get(inputs, "length").value);
    assert Lookup(inputs, "height") == Ok(Get(inputs, "height").value);
    assert Lookup(inputs, "wwr") == Ok(Get(inputs, "wwr").value);
  }

  /** internalMass: `(length + width) * height` with Python's int/float/str
      arithmetic, substituted for `@internalMass@`. */
  function InternalMass(contents: string, inputs: Dict<Value>, rt: Runtime): (r: Result<string>)
  {
    var length :- Lookup(inputs, "length");
    var width :- Lookup(inputs, "width");
    var footprint :- Add(length, width);
    var height :- Lookup(inputs, "height");
    var area :- Mul(footprint, height);
    Ok(Text.Replace(contents, "@internalMass@", rt.str(area)))
  }

  /** `(length + width) * height` on numbers: the area of one partition along
      each axis of the footprint, an int exactly when the three dimensions are. */
  function PartitionArea(length: Value, width: Value, height: Value): (area: Value)
    requires IsNumber(length) && IsNumber(width) && IsNumber(height)
    ensures IsNumber(area)
    ensures AsReal(area) == (AsReal(length) + AsReal(width)) * AsReal(height)
    ensures area.Int? <==> IsIntegral(length) && IsIntegral(width) && IsIntegral(height)
  {
    var footprint := Add(length, width).value;
    var area := Mul(footprint, height).value;
    ProductOfSum(AsReal(area), AsReal(footprint), AsReal(length), AsReal(width), AsReal(height));
    area
  }

  lemma ProductOfSum(area: real, footprint: real, length: real, width: real, height: real)
    requires footprint == length + width && area == footprint * height
    ensures area == (length + width) * height
  {
  }

  /** With the three dimensions numeric, internalMass substitutes their partition area. */
  lemma InternalMassValue(contents: string, inputs: Dict<Value>, rt: Runtime, length: Value, width: Value, height: Value)
    requires Get(inputs, "length") == Some(length) && IsNumber(length)
    requires Get(inputs, "width") == Some(width) && IsNumber(width)
    requires Get(inputs, "height") == Some(height) && IsNumber(height)
    ensures InternalMass(contents, inputs, rt) == Ok(Text.Replace(contents, "@internalMass@", rt.str(PartitionArea(length, width, height))))
  {
    assert Lookup(inputs, "length") == Ok(length);
    assert Lookup(inputs, "width") == Ok(width);
    assert Lookup(inputs, "height") == Ok(height);
  }

  /** The worked example: a box 5 wide, 8 long and 3 high has 39 m2 of internal mass. */
  lemma ExampleInternalMass(contents: string, rt: Runtime)
    ensures var inputs := [("width", Int(5)), ("length", Int(8)), ("height", Int(3)), ("wwr", Float(0.3))];
      InternalMass(contents, inputs, rt) == Ok(Text.Replace(contents, "@internalMass@", rt.str(Int(39))))
  {
  }

  /** The `ach_50` branch: the zone volume `height * length * width`, then
      ACH_to_flowCoefficient with one zone, substituted for `@flowCoefficient@`. */
  function FlowCoefficientStep(contents: string, inputs: Dict<Value>, ach: Value, rt: Runtime): (r: Result<string>)
    ensures r.Ok? <==> NumberAt(inputs, "height") && NumberAt(inputs, "length") && NumberAt(inputs, "width") && IsNumber(ach)
    ensures r.Err? && Get(inputs, "height").None? ==> r.error == KeyError("height")
  {
    var height :- Lookup(inputs, "height");
    var length :- Lookup(inputs, "length");
    var floorArea :- Mul(height, length);
    var width :- Lookup(inputs, "width");
    var volume :- Mul(floorArea, width);
    var flow :- Mul(ach, volume);
    var q50 :- Div(flow, 3600.0);
    assert IsNumber(ach) && IsNumber(volume);
    var cZone := Infiltration.FlowCoefficient(AsReal(ach), AsReal(volume), 1, rt.pow50n);
    Ok(Text.Replace(contents, "@flowCoefficient@", ShowReal(rt, cZone)))
  }

  /** `height * length * width` on numbers: the zone volume. */
  function ZoneVolume(height: Value, length: Value, width: Value): (volume: Value)
    requires IsNumber(height) && IsNumber(length) && IsNumber(width)
    ensures IsNumber(volume)
    ensures AsReal(volume) == AsReal(height) * AsReal(length) * AsReal(width)
  {
    var floorArea := Mul(height, length).value;
    var volume := Mul(floorArea, width).value;
    ProductOfProduct(AsReal(volume), AsReal(floorArea), AsReal(height), AsReal(length), AsReal(width));
    volume
  }

  lemma ProductOfProduct(volume: real, floorArea: real, height: real, length: real, width: real)
    requires floorArea == height * length && volume == floorArea * width
    ensures volume == height * length * width
  {
  }

  /** The `ach_50` step substitutes the flow coefficient of the zone volume. */
  lemma FlowCoefficientStepValue(contents: string, inputs: Dict<Value>, ach: Value, rt: Runtime,
                                 height: Value, length: Value, width: Value)
    requires Get(inputs, "height") == Some(height) && IsNumber(height)
    requires Get(inputs, "length") == Some(length) && IsNumber(length)
    requires Get(inputs, "width") == Some(width) && IsNumber(width)
    requires IsNumber(ach)
    ensures FlowCoefficientStep(contents, inputs, ach, rt)
         == Ok(Text.Replace(contents, "@flowCoefficient@", ShowReal(rt,
              Infiltration.FlowCoefficient(AsReal(ach), AsReal(ZoneVolume(height, length, width)), 1, rt.pow50n))))
  {
    assert Lookup(inputs, "height") == Ok(height);
    assert Lookup(inputs, "length") == Ok(length);
    assert Lookup(inputs, "width") == Ok(width);
  }

  /** flowCoefficient_to_effectiveLeakageArea_10: the whole-building leakage
      area, shared over the five surfaces and substituted. */
  function EffectiveLeakageAreaStep(contents: string, cr: real, height: real, width: real, length: real, rt: Runtime): (r: Result<string>)
    ensures r.Err? <==> Infiltration.EnvelopeArea(height, width, length) == 0.0
    ensures r.Ok? ==>
      var shares := Infiltration.LeakageShares(Infiltration.EffectiveLeakageArea(cr, rt.rootHalfRho, rt.tenPow), height, width, length).value;
      r.value == SubstituteAll(contents,
        [ ("@ELA_North@", ShowReal(rt, shares.north)), ("@ELA_South@", ShowReal(rt, shares.south)),
          ("@ELA_East@", ShowReal(rt, shares.east)), ("@ELA_West@", ShowReal(rt, shares.west)),
          ("@ELA_Roof@", ShowReal(rt, shares.roof)) ])
  {
    var ela := Infiltration.EffectiveLeakageArea(cr, rt.rootHalfRho, rt.tenPow);
    var shares :- Infiltration.LeakageShares(ela, height, width, length);
    Ok(SubstituteAll(contents,
      [ ("@ELA_North@", ShowReal(rt, shares.north)),
        ("@ELA_South@", ShowReal(rt, shares.south)),
        ("@ELA_East@", ShowReal(rt, shares.east)),
        ("@ELA_West@", ShowReal(rt, shares.west)),
        ("@ELA_Roof@", ShowReal(rt, shares.roof)) ]))
  }

  /** daylightingReferencePoint: the plan centre (width / 2, length / 2). */
  function DaylightingReferencePoint(contents: string, length: Value, width: Value, rt: Runtime): (r: Result<string>)
    ensures r.Ok? <==> IsNumber(length) && IsNumber(width)
    ensures r.Ok? ==>
      var p := Geometry.DaylightPoint(AsReal(length), AsReal(width));
      r.value == SubstituteAll(contents, [("@daylightReference_x@", ShowReal(rt, p.0)),
                                          ("@daylightReference_y@", ShowReal(rt, p.1))])
  {
    var xCentre :- Div(width, 2.0);
    var yCentre :- Div(length, 2.0);
    Ok(SubstituteAll(contents, [("@daylightReference_x@", ShowReal(rt, xCentre)),
                                ("@daylightReference_y@", ShowReal(rt, yCentre))]))
  }

  /** One pass of modifyIDF's loop, for the entry (k, v). */
  function Step(contents: string, inputs: Dict<Value>, k: string, v: Value, rt: Runtime): Result<string>
  {
    if k == "wwr" then
      var c :- WindowGeometry(contents, inputs, rt);
      InternalMass(c, inputs, rt)
    else if k == "ach_50" then
      FlowCoefficientStep(contents, inputs, v, rt)
    else
      Ok(Text.Replace(contents, Token(k), rt.str(v)))
  }

  /** The loop from entry i on, starting from contents. */
  function ResolveFrom(contents: string, inputs: Dict<Value>, i: nat, rt: Runtime): Result<string>
    requires i <= |inputs|
    decreases |inputs| - i
  {
    if i == |inputs| then Ok(contents)
    else
      var c :- Step(contents, inputs, inputs[i].0, inputs[i].1, rt);
      ResolveFrom(c, inputs, i + 1, rt)
  }

  /** modifyIDF's text transformation: the loop, then the daylighting point. */
  function Resolve(template: string, inputs: Dict<Value>, rt: Runtime): Result<string>
  {
    var contents :- ResolveFrom(template, inputs, 0, rt);
    var length :- Lookup(inputs, "length");
    var width :- Lookup(inputs, "width");
    DaylightingReferencePoint(contents, length, width, rt)
  }

  /** What the entry (k, v) needs from the dictionary for its step not to raise. */
  predicate StepSucceeds(inputs: Dict<Value>, k: string, v: Value)
  {
    && (k == "wwr" ==> WindowInputs(inputs))
    && (k == "ach_50" ==>
          NumberAt(inputs, "height") && NumberAt(inputs, "length") && NumberAt(inputs, "width") && IsNumber(v))
  }

  /** Every step succeeds, and the daylighting point finds a numeric length and width. */
  predicate Resolvable(inputs: Dict<Value>)
  {
    && (forall j :: 0 <= j < |inputs| ==> StepSucceeds(inputs, inputs[j].0, inputs[j].1))
    && NumberAt(inputs, "length") && NumberAt(inputs, "width")
  }

  /** A step raises or not whatever the text it works on. */
  lemma StepOkIff(contents: string, inputs: Dict<Value>, k: string, v: Value, rt: Runtime)
    ensures Step(contents, inputs, k, v, rt).Ok? <==> StepSucceeds(inputs, k, v)
  {
    if k == "wwr" {
      var g := WindowGeometry(contents, inputs, rt);
      if g.Ok? {
        assert WindowInputs(inputs);
        InternalMassValue(g.value, inputs, rt, Get(inputs, "length").value, Get(inputs, "width").value, Get(inputs, "height").value);
        assert Step(contents, inputs, k, v, rt) == InternalMass(g.value, inputs, rt);
      } else {
        assert Step(contents, inputs, k, v, rt) == Err(g.error);
      }
    } else if k == "ach_50" {
      assert Step(contents, inputs, k, v, rt) == FlowCoefficientStep(contents, inputs, v, rt);
    }
  }

  lemma {:induction false} ResolveFromOkIff(contents: string, inputs: Dict<Value>, i: nat, rt: Runtime)
    requires i <= |inputs|
    ensures ResolveFrom(contents, inputs, i, rt).Ok? <==>
      forall j :: i <= j < |inputs| ==> StepSucceeds(inputs, inputs[j].0, inputs[j].1)
    decreases |inputs| - i
  {
    if i < |inputs| {
      var s := Step(contents, inputs, inputs[i].0, inputs[i].1, rt);
      StepOkIff(contents, inputs, inputs[i].0, inputs[i].1, rt);
      if s.Ok? {
        ResolveFromOkIff(s.value, inputs, i + 1, rt);
      }
    }
  }

  /** modifyIDF raises exactly when some step or the daylighting point does:
      length and width must always be present and numeric, whichever tokens
      the template holds. */
  lemma ResolveOkIff(template: string, inputs: Dict<Value>, rt: Runtime)
    ensures Resolve(template, inputs, rt).Ok? <==> Resolvable(inputs)
  {
    ResolveFromOkIff(template, inputs, 0, rt);
  }

  /** The tokens the step for key k can replace. */
  function StepTokens(k: string): (ts: seq<string>)
    ensures forall t <- ts :: |t| > 0
  {
    if k == "wwr" then WindowTokens() + ["@internalMass@"]
    else if k == "ach_50" then ["@flowCoefficient@"]
    else [Token(k)]
  }

  /** Window substitutions whose tokens are all absent change nothing. */
  lemma WindowSubsAbsent(contents: string, ws: Geometry.Windows, rt: Runtime)
    requires forall t <- WindowTokens() :: !Text.Occurs(contents, t)
    ensures SubstituteAll(contents, WindowSubs(ws, rt)) == contents
  {
    var subs := WindowSubs(ws, rt);
    WindowSubsSubstitutes(ws, rt);
    forall p <- subs ensures !Text.Occurs(contents, p.0) {
      var j :| 0 <= j < |subs| && subs[j] == p;
      assert WindowTokens()[j] in WindowTokens();
    }
    SubstituteAllAbsent(contents, subs);
  }

  /** The `wwr` step finds none of its tokens and changes nothing. */
  lemma WindowStepAbsent(contents: string, inputs: Dict<Value>, v: Value, rt: Runtime)
    requires StepSucceeds(inputs, "wwr", v)
    requires forall t <- WindowTokens() :: !Text.Occurs(contents, t)
    requires !Text.Occurs(contents, "@internalMass@")
    ensures Step(contents, inputs, "wwr", v, rt) == Ok(contents)
  {
    var ws := Geometry.WindowLayout(AsReal(Get(inputs, "width").value), AsReal(Get(inputs, "length").value),
                                    AsReal(Get(inputs, "height").value), rt.sqrt(AsReal(Get(inputs, "wwr").value)));
    WindowSubsAbsent(contents, ws, rt);
    WindowGeometryValue(contents, inputs, rt);
    var length, width, height := Get(inputs, "length").value, Get(inputs, "width").value, Get(inputs, "height").value;
    InternalMassValue(contents, inputs, rt, length, width, height);
    Text.ReplaceAbsent(contents, "@internalMass@", rt.str(PartitionArea(length, width, height)));
    assert WindowGeometry(contents, inputs, rt) == Ok(contents);
    assert InternalMass(contents, inputs, rt) == Ok(contents);
  }

  /** A step whose tokens are all absent leaves the text unchanged. */
  lemma StepAbsent(contents: string, inputs: Dict<Value>, k: string, v: Value, rt: Runtime)
    requires StepSucceeds(inputs, k, v)
    requires forall t <- StepTokens(k) :: !Text.Occurs(contents, t)
    ensures Step(contents, inputs, k, v, rt) == Ok(contents)
  {
    if k == "wwr" {
      forall t <- WindowTokens() ensures !Text.Occurs(contents, t) {
        assert t in StepTokens(k);
      }
      assert StepTokens(k)[20] == "@internalMass@";
      WindowStepAbsent(contents, inputs, v, rt);
    } else if k == "ach_50" {
      assert StepTokens(k)[0] == "@flowCoefficient@";
      var height, length, width := Get(inputs, "height").value, Get(inputs, "length").value, Get(inputs, "width").value;
      FlowCoefficientStepValue(contents, inputs, v, rt, height, length, width);
      var volume := AsReal(ZoneVolume(height, length, width));
      Text.ReplaceAbsent(contents, "@flowCoefficient@", ShowReal(rt, Infiltration.FlowCoefficient(AsReal(v), volume, 1, rt.pow50n)));
    } else {
      assert StepTokens(k)[0] == Token(k);
      Text.ReplaceAbsent(contents, Token(k), rt.str(v));
    }
  }

  lemma {:induction false} ResolveFromAbsent(contents: string, inputs: Dict<Value>, i: nat, rt: Runtime)
    requires i <= |inputs|
    requires forall j :: i <= j < |inputs| ==> StepSucceeds(inputs, inputs[j].0, inputs[j].1)
    requires forall j :: i <= j < |inputs| ==> forall t <- StepTokens(inputs[j].0) :: !Text.Occurs(contents, t)
    ensures ResolveFrom(contents, inputs, i, rt) == Ok(contents)
    decreases |inputs| - i
  {
    if i < |inputs| {
      StepAbsent(contents, inputs, inputs[i].0, inputs[i].1, rt);
      ResolveFromAbsent(contents, inputs, i + 1, rt);
    }
  }

  /** A template holding none of the tokens the parameters can fill comes
      back unchanged. */
  lemma ResolveTokenFree(template: string, inputs: Dict<Value>, rt: Runtime)
    requires Resolvable(inputs)
    requires forall j :: 0 <= j < |inputs| ==> forall t <- StepTokens(inputs[j].0) :: !Text.Occurs(template, t)
    requires !Text.Occurs(template, "@daylightReference_x@") && !Text.Occurs(template, "@daylightReference_y@")
    ensures Resolve(template, inputs, rt) == Ok(template)
  {
    ResolveFromAbsent(template, inputs, 0, rt);
    var length, width := Get(inputs, "length").value, Get(inputs, "width").value;
    var p := Geometry.DaylightPoint(AsReal(length), AsReal(width));
    SubstituteAllAbsent(template, [("@daylightReference_x@", ShowReal(rt, p.0)), ("@daylightReference_y@", ShowReal(rt, p.1))]);
  }

  /** A plain parameter's value takes the place of its token: the text
      before and after the token is kept. */
  lemma PlainStepFills(contents: string, inputs: Dict<Value>, k: string, v: Value, rt: Runtime, p: int)
    requires k != "wwr" && k != "ach_50" && Text.SoleAt(contents, Token(k), p)
    ensures Step(contents, inputs, k, v, rt) == Ok(contents[..p] + rt.str(v) + contents[p + |Token(k)|..])
  {
    Text.ReplaceSole(contents, Token(k), rt.str(v), p);
  }

  /** The `ach_50` pass puts the str() of the flow coefficient where
      `@flowCoefficient@` was. */
  lemma FlowStepFills(contents: string, inputs: Dict<Value>, ach: Value, rt: Runtime,
                      height: Value, length: Value, width: Value, p: int)
    requires Get(inputs, "height") == Some(height) && IsNumber(height)
    requires Get(inputs, "length") == Some(length) && IsNumber(length)
    requires Get(inputs, "width") == Some(width) && IsNumber(width)
    requires IsNumber(ach) && Text.SoleAt(contents, "@flowCoefficient@", p)
    ensures Step(contents, inputs, "ach_50", ach, rt)
         == Ok(contents[..p]
               + ShowReal(rt, Infiltration.FlowCoefficient(AsReal(ach), AsReal(ZoneVolume(height, length, width)), 1, rt.pow50n))
               + contents[p + |"@flowCoefficient@"|..])
  {
    FlowCoefficientStepValue(contents, inputs, ach, rt, height, length, width);
    var c := ShowReal(rt, Infiltration.FlowCoefficient(AsReal(ach), AsReal(ZoneVolume(height, length, width)), 1, rt.pow50n));
    Text.ReplaceSole(contents, "@flowCoefficient@", c, p);
  }

  /** In a text without window tokens, the `wwr` pass puts the str() of the
      partition area where `@internalMass@` was. */
  lemma WindowStepFillsMass(contents: string, inputs: Dict<Value>, v: Value, rt: Runtime, p: int)
    requires WindowInputs(inputs)
    requires forall t <- WindowTokens() :: !Text.Occurs(contents, t)
    requires Text.SoleAt(contents, "@internalMass@", p)
    ensures Step(contents, inputs, "wwr", v, rt)
         == Ok(contents[..p]
               + rt.str(PartitionArea(Get(inputs, "length").value, Get(inputs, "width").value, Get(inputs, "height").value))
               + contents[p + |"@internalMass@"|..])
  {
    var ws := Geometry.WindowLayout(AsReal(Get(inputs, "width").value), AsReal(Get(inputs, "length").value),
                                    AsReal(Get(inputs, "height").value), rt.sqrt(AsReal(Get(inputs, "wwr").value)));
    WindowSubsAbsent(contents, ws, rt);
    WindowGeometryValue(contents, inputs, rt);
    var length, width, height := Get(inputs, "length").value, Get(inputs, "width").value, Get(inputs, "height").value;
    InternalMassValue(contents, inputs, rt, length, width, height);
    Text.ReplaceSole(contents, "@internalMass@", rt.str(PartitionArea(length, width, height)), p);
    assert WindowGeometry(contents, inputs, rt) == Ok(contents);
  }

  /** The daylighting step puts the str() of the plan centre's x, half the
      width, where `@daylightReference_x@` was, provided the filled text holds
      no `@daylightReference_y@` for the second replacement to change. */
  lemma DaylightFills(contents: string, length: Value, width: Value, rt: Runtime, p: int)
    requires IsNumber(length) && IsNumber(width)
    requires Text.SoleAt(contents, "@daylightReference_x@", p)
    requires !Text.Occurs(contents[..p] + ShowReal(rt, Geometry.DaylightPoint(AsReal(length), AsReal(width)).0)
                          + contents[p + |"@daylightReference_x@"|..], "@daylightReference_y@")
    ensures DaylightingReferencePoint(contents, length, width, rt)
         == Ok(contents[..p] + ShowReal(rt, Geometry.DaylightPoint(AsReal(length), AsReal(width)).0)
               + contents[p + |"@daylightReference_x@"|..])
  {
    var pt := Geometry.DaylightPoint(AsReal(length), AsReal(width));
    var sx, sy := ShowReal(rt, pt.0), ShowReal(rt, pt.1);
    var filled := contents[..p] + sx + contents[p + |"@daylightReference_x@"|..];
    var subs := [("@daylightReference_x@", sx), ("@daylightReference_y@", sy)];
    Text.ReplaceSole(contents, "@daylightReference_x@", sx, p);
    Text.ReplaceAbsent(filled, "@daylightReference_y@", sy);
    assert SubstituteAll(contents, subs) == SubstituteAll(filled, subs[1..]);
    assert SubstituteAll(filled, subs[1..]) == SubstituteAll(filled, []);
  }

  /** In a template no parameter's pass touches, modifyIDF's result is the
      template with half the width where `@daylightReference_x@` was. */
  lemma ResolveFillsDaylight(template: string, inputs: Dict<Value>, rt: Runtime, p: int)
    requires Resolvable(inputs)
    requires forall j :: 0 <= j < |inputs| ==> forall t <- StepTokens(inputs[j].0) :: !Text.Occurs(template, t)
    requires Text.SoleAt(template, "@daylightReference_x@", p)
    requires !Text.Occurs(template[..p]
               + ShowReal(rt, Geometry.DaylightPoint(AsReal(Get(inputs, "length").value), AsReal(Get(inputs, "width").value)).0)
               + template[p + |"@daylightReference_x@"|..], "@daylightReference_y@")
    ensures Resolve(template, inputs, rt)
         == Ok(template[..p]
               + ShowReal(rt, Geometry.DaylightPoint(AsReal(Get(inputs, "length").value), AsReal(Get(inputs, "width").value)).0)
               + template[p + |"@daylightReference_x@"|..])
  {
    ResolveFromAbsent(template, inputs, 0, rt);
    var length, width := Get(inputs, "length").value, Get(inputs, "width").value;
    assert Lookup(inputs, "length") == Ok(length) && Lookup(inputs, "width") == Ok(width);
    DaylightFills(template, length, width, rt, p);
    assert Resolve(template, inputs, rt) == DaylightingReferencePoint(template, length, width, rt);
  }

  /** A token with no parameter is not an error in itself, but the daylighting
      point always looks up length: with an empty dictionary modifyIDF raises
      KeyError('length') instead of returning "@unset@ done". */
  lemma UnsetTokenWithoutDimensions(rt: Runtime)
    ensures Resolve("@unset@ done", [], rt) == Err(KeyError("length"))
  {
  }

  /** A negative window-to-wall ratio makes modifyIDF raise rather than
      fill in a window, whatever the template and the other parameters. */
  lemma NegativeWwrRaises(template: string, inputs: Dict<Value>, rt: Runtime)
    requires NumberAt(inputs, "wwr") && AsReal(Get(inputs, "wwr").value) < 0.0
    ensures Resolve(template, inputs, rt).Err?
  {
    var j :| 0 <= j < |inputs| && inputs[j].0 == "wwr";
    assert !StepSucceeds(inputs, inputs[j].0, inputs[j].1);
    ResolveOkIff(template, inputs, rt);
  }

  /** One parameter of modifyIDF's loop: the window geometry and internal
      mass for `wwr`, the flow coefficient for `ach_50`, the plain token
      otherwise. */
  method ApplyParameter(contents: string, inputs: Dict<Value>, k: string, v: Value, rt: Runtime) returns (r: Result<string>)
    ensures r == Step(contents, inputs, k, v, rt)
  {
    if k == "wwr" {
      var g := WindowGeometry(contents, inputs, rt);
      if g.Err? { return Err(g.error); }
      InternalMassValue(g.value, inputs, rt, Get(inputs, "length").value, Get(inputs, "width").value, Get(inputs, "height").value);
      r := Ok(InternalMass(g.value, inputs, rt).value);
    } else if k == "ach_50" {
      r := FlowCoefficientStep(contents, inputs, v, rt);
    } else {
      r := Ok(Text.Replace(contents, Token(k), rt.str(v)));
    }
  }

  lemma ResolveFromStep(contents: string, inputs: Dict<Value>, i: nat, rt: Runtime, next: string)
    requires i < |inputs| && Step(contents, inputs, inputs[i].0, inputs[i].1, rt) == Ok(next)
    ensures ResolveFrom(contents, inputs, i, rt) == ResolveFrom(next, inputs, i + 1, rt)
  {
  }

  lemma ResolveFromFails(contents: string, inputs: Dict<Value>, i: nat, rt: Runtime)
    requires i < |inputs| && Step(contents, inputs, inputs[i].0, inputs[i].1, rt).Err?
    ensures ResolveFrom(contents, inputs, i, rt) == Err(Step(contents, inputs, inputs[i].0, inputs[i].1, rt).error)
  {
  }

  /** modifyIDF without the file reads and writes. */
  method ModifyIdf(template: string, inputs: Dict<Value>, rt: Runtime) returns (r: Result<string>)
    ensures r == Resolve(template, inputs, rt)
  {
    var contents := template;
    var i := 0;
    while i < |inputs|
      invariant 0 <= i <= |inputs|
      invariant ResolveFrom(template, inputs, 0, rt) == ResolveFrom(contents, inputs, i, rt)
    {
      var (k, v) := inputs[i];
      var next := ApplyParameter(contents, inputs, k, v, rt);
      if next.Err? {
        ResolveFromFails(contents, inputs, i, rt);
        return Err(next.error);
      }
      ResolveFromStep(contents, inputs, i, rt, next.value);
      contents := next.value;
      i := i + 1;
    }
    var length := Lookup(inputs, "length");
    if length.Err? { return Err(length.error); }
    var width := Lookup(inputs, "width");
    if width.Err? { return Err(width.error); }
    r := DaylightingReferencePoint(contents, length.value, width.value, rt);
  }
}

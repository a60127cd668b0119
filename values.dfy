/** Python values as the building-simulation scripts see them: the scalars a
    parameter dictionary holds, the fields of a variable specification, the
    exceptions the scripts can raise, and the built-ins `d[k]`, `min` and `max`. */
module Values {
  import Arith

  datatype Option<T> = None | Some(value: T)

  /** A Python scalar. `bool` is kept apart from `int` for `str()`, but behaves
      as the integer 0 or 1 in arithmetic, as in Python. */
  datatype Value = Int(i: int) | Float(f: real) | Str(s: string) | Bool(b: bool)

  /** The Python type objects a specification may use as its "type" tag. */
  datatype PyType = BoolType | IntType | FloatType

  /** One field of a variable specification: a scalar, a list, or a type object. */
  datatype Field = Atom(v: Value) | List(items: seq<Value>) | TypeObj(t: PyType)

  /** The exceptions the core raises. */
  datatype Error =
    | KeyError(key: string)  // a dictionary entry that is not there
    | TypeError              // an operand of a type the operation does not accept
    | IndexError             // `xs[0]` or a random choice from an empty list
    | ValueError             // `min`/`max` of an empty list, an empty `randint` range, a broadcast mismatch
    | ZeroDivisionError
    | Unsupported(tag: Field) // the explicit `raise Exception(...)` for an unknown type tag

  /** Either a value or the exception that interrupted the computation. */
  datatype Result<T> = Ok(value: T) | Err(error: Error) {
    predicate IsFailure() { Err? }
    function PropagateFailure<U>(): Result<U> requires Err? { Err(error) }
    function Extract(): T requires Ok? { value }
  }

  predicate IsNumber(v: Value) { !v.Str? }

  predicate IsIntegral(v: Value) { v.Int? || v.Bool? }

  /** The number a numeric value stands for. */
  function AsReal(v: Value): real
    requires IsNumber(v)
  {
    match v
    case Int(i) => i as real
    case Float(f) => f
    case Bool(b) => if b then 1.0 else 0.0
  }

  function AsInt(v: Value): (r: int)
    requires IsIntegral(v)
    ensures AsReal(v) == r as real
  {
    match v
    case Int(i) => i
    case Bool(b) => if b then 1 else 0
  }

  /** `s * n` for a string: n copies of s, none when n <= 0. */
  function Repeat(s: string, n: int): (r: string)
    ensures |r| == if n <= 0 then 0 else n * |s|
    decreases n
  {
    if n <= 0 then "" else s + Repeat(s, n - 1)
  }

  /** Character i of n copies of s is character i mod |s| of s. */
  lemma {:induction false} RepeatAt(s: string, n: int, i: int)
    requires 0 <= i < |Repeat(s, n)|
    ensures 0 < |s| && Repeat(s, n)[i] == s[i % |s|]
    decreases n
  {
    if i >= |s| {
      RepeatAt(s, n - 1, i - |s|);
      Arith.ModShift(i, |s|);
    }
  }

  /** Python's `a + b` on scalars: int if both operands are int or bool,
      float if either is a float, concatenation for two strings. */
  function Add(a: Value, b: Value): (r: Result<Value>)
    ensures r.Err? <==> a.Str? != b.Str?
    ensures r.Err? ==> r.error == TypeError
    ensures r.Ok? ==> (IsNumber(r.value) <==> IsNumber(a))
    ensures r.Ok? && IsNumber(a) ==>
      AsReal(r.value) == AsReal(a) + AsReal(b)
      && (r.value.Int? <==> IsIntegral(a) && IsIntegral(b))
    ensures r.Ok? && a.Str? ==> r.value == Str(a.s + b.s)
  {
    if IsIntegral(a) && IsIntegral(b) then Ok(Int(AsInt(a) + AsInt(b)))
    else if IsNumber(a) && IsNumber(b) then Ok(Float(AsReal(a) + AsReal(b)))
    else if a.Str? && b.Str? then Ok(Str(a.s + b.s))
    else Err(TypeError)
  }

  /** Python's `a * b` on scalars: a product of numbers, or a string repeated
      an integer number of times. */
  function Mul(a: Value, b: Value): (r: Result<Value>)
    ensures r.Ok? <==> (IsNumber(a) && IsNumber(b)) || (a.Str? && IsIntegral(b)) || (IsIntegral(a) && b.Str?)
    ensures r.Err? ==> r.error == TypeError
    ensures r.Ok? ==> (IsNumber(r.value) <==> IsNumber(a) && IsNumber(b))
    ensures r.Ok? && IsNumber(a) && IsNumber(b) ==>
      AsReal(r.value) == AsReal(a) * AsReal(b)
      && (r.value.Int? <==> IsIntegral(a) && IsIntegral(b))
    ensures r.Ok? && a.Str? ==> r.value == Str(Repeat(a.s, AsInt(b)))
    ensures r.Ok? && b.Str? ==> r.value == Str(Repeat(b.s, AsInt(a)))
  {
    if IsIntegral(a) && IsIntegral(b) then Ok(Int(AsInt(a) * AsInt(b)))
    else if IsNumber(a) && IsNumber(b) then Ok(Float(AsReal(a) * AsReal(b)))
    else if a.Str? && IsIntegral(b) then Ok(Str(Repeat(a.s, AsInt(b))))
    else if IsIntegral(a) && b.Str? then Ok(Str(Repeat(b.s, AsInt(a))))
    else Err(TypeError)
  }

  /** Python's true division `a / d` by a non-zero constant: always a float. */
  function Div(a: Value, d: real): (r: Result<real>)
    requires d != 0.0
    ensures r.Ok? <==> IsNumber(a)
    ensures r.Err? ==> r.error == TypeError
    ensures r.Ok? ==> r.value * d == AsReal(a)
  {
    if IsNumber(a) then Ok(AsReal(a) / d) else Err(TypeError)
  }

  /** A Python dict in insertion order. */
  type Dict<T> = seq<(string, T)>

  function Keys<T>(d: Dict<T>): (ks: seq<string>)
    ensures |ks| == |d| && forall j :: 0 <= j < |d| ==> ks[j] == d[j].0
  {
    seq(|d|, j requires 0 <= j < |d| => d[j].0)
  }

  /** `d.get(k)`: the entry of the first pair whose key is k. */
  function Get<T>(d: Dict<T>, k: string): (r: Option<T>)
    ensures r.None? <==> forall j :: 0 <= j < |d| ==> d[j].0 != k
    ensures r.Some? ==> (k, r.value) in d
  {
    if |d| == 0 then None
    else if d[0].0 == k then Some(d[0].1)
    else Get(d[1..], k)
  }

  /** `d[k]`, which raises KeyError when k is absent. */
  function Lookup<T>(d: Dict<T>, k: string): (r: Result<T>)
    ensures r.Err? <==> Get(d, k).None?
    ensures r.Err? ==> r.error == KeyError(k)
    ensures r.Ok? ==> r.value == Get(d, k).value
  {
    match Get(d, k)
    case Some(v) => Ok(v)
    case None => Err(KeyError(k))
  }

  /** `d[k] = v`: an existing key keeps its place and takes the new value,
      a new key goes at the end. */
  function Put<T>(d: Dict<T>, k: string, v: T): (r: Dict<T>)
    ensures Get(r, k) == Some(v)
    ensures forall k' :: k' != k ==> Get(r, k') == Get(d, k')
    ensures Get(d, k).None? ==> r == d + [(k, v)]
  {
    if |d| == 0 then [(k, v)]
    else if d[0].0 == k then
      var r := [(k, v)] + d[1..];
      assert r[1..] == d[1..];
      r
    else
      var rest := Put(d[1..], k, v);
      var r := [d[0]] + rest;
      assert r[0] == d[0] && r[1..] == rest;
      r
  }

  /** Python's `min(xs)` on a list of numbers: the first element no other
      element is strictly below (MinOfFirst). A non-number in the list is
      modelled as a TypeError. */
  function MinOf(xs: seq<Value>): (r: Result<Value>)
    ensures r.Ok? <==> |xs| > 0 && forall x <- xs :: IsNumber(x)
    ensures r.Err? && |xs| == 0 ==> r.error == ValueError
    ensures r.Err? && |xs| > 0 ==> r.error == TypeError
    ensures r.Ok? ==> r.value in xs && forall x <- xs :: AsReal(r.value) <= AsReal(x)
  {
    if |xs| == 0 then Err(ValueError)
    else if !IsNumber(xs[|xs| - 1]) then Err(TypeError)
    else if |xs| == 1 then Ok(xs[0])
    else
      var m :- MinOf(xs[..|xs| - 1]);
      var last := xs[|xs| - 1];
      assert xs == xs[..|xs| - 1] + [last];
      Ok(if AsReal(last) < AsReal(m) then last else m)
  }

  /** Python's `max(xs)` on a list of numbers: the first element no other
      element is strictly above (MaxOfFirst). */
  function MaxOf(xs: seq<Value>): (r: Result<Value>)
    ensures r.Ok? <==> |xs| > 0 && forall x <- xs :: IsNumber(x)
    ensures r.Err? && |xs| == 0 ==> r.error == ValueError
    ensures r.Err? && |xs| > 0 ==> r.error == TypeError
    ensures r.Ok? ==> r.value in xs && forall x <- xs :: AsReal(x) <= AsReal(r.value)
  {
    if |xs| == 0 then Err(ValueError)
    else if !IsNumber(xs[|xs| - 1]) then Err(TypeError)
    else if |xs| == 1 then Ok(xs[0])
    else
      var m :- MaxOf(xs[..|xs| - 1]);
      var last := xs[|xs| - 1];
      assert xs == xs[..|xs| - 1] + [last];
      Ok(if AsReal(m) < AsReal(last) then last else m)
  }
  /** One step of min's scan: the result for xs is the result for all but
      the last element, unless the last one is strictly below. */
  lemma MinOfStep(xs: seq<Value>)
    requires |xs| > 1 && MinOf(xs).Ok?
    ensures MinOf(xs[..|xs| - 1]).Ok? && IsNumber(xs[|xs| - 1])
    ensures var m, last := MinOf(xs[..|xs| - 1]).value, xs[|xs| - 1];
      MinOf(xs) == Ok(if AsReal(last) < AsReal(m) then last else m)
  {
    assert xs[|xs| - 1] in xs;
    assert forall x <- xs[..|xs| - 1] :: x in xs;
  }

  /** min keeps the first of equal smallest elements: the result sits at an
      index before which every element is strictly larger. */
  lemma {:induction false} MinOfFirst(xs: seq<Value>)
    requires MinOf(xs).Ok?
    ensures exists i :: 0 <= i < |xs| && xs[i] == MinOf(xs).value
              && forall j :: 0 <= j < i ==> AsReal(MinOf(xs).value) < AsReal(xs[j])
  {
    if |xs| == 1 {
      assert xs[0] == MinOf(xs).value;
    } else {
      var init, last := xs[..|xs| - 1], xs[|xs| - 1];
      MinOfStep(xs);
      MinOfFirst(init);
      var m := MinOf(init).value;
      var i :| 0 <= i < |init| && init[i] == m && forall j :: 0 <= j < i ==> AsReal(m) < AsReal(init[j]);
      if AsReal(last) < AsReal(m) {
        forall j | 0 <= j < |xs| - 1 ensures AsReal(last) < AsReal(xs[j]) {
          assert init[j] in init;
        }
        assert xs[|xs| - 1] == MinOf(xs).value;
        assert forall j :: 0 <= j < |xs| - 1 ==> AsReal(MinOf(xs).value) < AsReal(xs[j]);
      } else {
        assert xs[i] == MinOf(xs).value;
        assert forall j :: 0 <= j < i ==> xs[j] == init[j];
        assert forall j :: 0 <= j < i ==> AsReal(MinOf(xs).value) < AsReal(xs[j]);
      }
    }
  }

  /** One step of max's scan: the result for xs is the result for all but
      the last element, unless the last one is strictly above. */
  lemma MaxOfStep(xs: seq<Value>)
    requires |xs| > 1 && MaxOf(xs).Ok?
    ensures MaxOf(xs[..|xs| - 1]).Ok? && IsNumber(xs[|xs| - 1])
    ensures var m, last := MaxOf(xs[..|xs| - 1]).value, xs[|xs| - 1];
      MaxOf(xs) == Ok(if AsReal(m) < AsReal(last) then last else m)
  {
    assert xs[|xs| - 1] in xs;
    assert forall x <- xs[..|xs| - 1] :: x in xs;
  }

  /** max keeps the first of equal largest elements: the result sits at an
      index before which every element is strictly smaller. */
  lemma {:induction false} MaxOfFirst(xs: seq<Value>)
    requires MaxOf(xs).Ok?
    ensures exists i :: 0 <= i < |xs| && xs[i] == MaxOf(xs).value
              && forall j :: 0 <= j < i ==> AsReal(xs[j]) < AsReal(MaxOf(xs).value)
  {
    if |xs| == 1 {
      assert xs[0] == MaxOf(xs).value;
    } else {
      var init, last := xs[..|xs| - 1], xs[|xs| - 1];
      MaxOfStep(xs);
      MaxOfFirst(init);
      var m := MaxOf(init).value;
      var i :| 0 <= i < |init| && init[i] == m && forall j :: 0 <= j < i ==> AsReal(init[j]) < AsReal(m);
      if AsReal(m) < AsReal(last) {
        forall j | 0 <= j < |xs| - 1 ensures AsReal(xs[j]) < AsReal(last) {
          assert init[j] in init;
        }
        assert xs[|xs| - 1] == MaxOf(xs).value;
        assert forall j :: 0 <= j < |xs| - 1 ==> AsReal(xs[j]) < AsReal(MaxOf(xs).value);
      } else {
        assert xs[i] == MaxOf(xs).value;
        assert forall j :: 0 <= j < i ==> xs[j] == init[j];
        assert forall j :: 0 <= j < i ==> AsReal(xs[j]) < AsReal(MaxOf(xs).value);
      }
    }
  }
}

/** The parameter space and the candidate codec of tunning/tuning.py:
    parameters, the values a candidate vector holds, rounding and clamping,
    decode_candidate and random_value_for_param. */
module Params {

  /** A value held in a candidate vector or listed by a categorical parameter.
      Python ints and floats are both numbers here; anything else (a string
      from the configuration) is kept as its text. */
  datatype Value = Num(x: real) | Text(s: string)

  /** One tunable parameter, by its "type" field. A type other than
      "categorical" or "int" is kept as Unknown so that the errors the
      source raises for it can be modelled. */
  datatype Param =
    | Categorical(values: seq<Value>)
    | IntRange(min: int, max: int)
    | Unknown(kind: string)

  /** The exceptions the core raises. */
  datatype Error =
    | UnknownType      // ValueError: parameter type neither "categorical" nor "int"
    | IndexOutOfRange  // IndexError: indexing or choosing from an empty list of values
    | EmptyRange       // ValueError: randint(a, b) with a > b
    | EmptySequence    // ValueError: min() of an empty population
    | NotANumber       // TypeError: round() of a non-numeric value
    | NoneValue        // TypeError: None used where an individual or position is expected

  datatype Result<T> = Ok(value: T) | Err(error: Error)

  datatype Option<T> = None | Some(value: T)

  /** A parameter pattern search and PSO can start from: a categorical one
      with at least one value, or an int one. */
  predicate Usable(p: Param) {
    (p.Categorical? && |p.values| > 0) || p.IntRange?
  }

  predicate IsInt(x: real) {
    x == x.Floor as real
  }

  function Min(a: int, b: int): int { if a < b then a else b }

  /** max(lo, min(hi, x)) on integers, as the source writes every clamp. */
  function Clamp(lo: int, hi: int, x: int): (r: int)
    ensures lo <= hi ==> lo <= r <= hi
    ensures lo > hi ==> r == lo
    ensures lo <= x <= hi ==> r == x
  {
    var m := if hi < x then hi else x;
    if lo < m then m else lo
  }

  /** max(lo, min(hi, x)) on reals: the same clamp as Clamp, which is its
      instance on integers. Python applies the one expression to ints and
      floats alike; Dafny has no ordering shared by int and real, and the
      categorical clamps need an int to index with, so the clamp is written
      once for each. */
  function ClampReal(lo: real, hi: real, x: real): (r: real)
    ensures lo <= hi ==> lo <= r <= hi
    ensures lo > hi ==> r == lo
    ensures lo <= x <= hi ==> r == x
  {
    var m := if hi < x then hi else x;
    if lo < m then m else lo
  }

  /** Python's round() of a float to an int: to the nearest integer,
      halves to the even neighbour. */
  function Round(x: real): (r: int)
    ensures x - 0.5 <= r as real <= x + 0.5
    ensures IsInt(x) ==> r as real == x
  {
    var f := x.Floor;
    var d := x - f as real;
    if d < 0.5 then f
    else if d > 0.5 then f + 1
    else if f % 2 == 0 then f
    else f + 1
  }

  /** The token decode_candidate emits for one parameter and one component. */
  function DecodeOne(p: Param, v: Value): (r: Result<Value>)
    ensures p.Unknown? ==> r == Err(UnknownType)
    ensures p.IntRange? ==> (r.Ok? <==> v.Num?) && (r.Err? ==> r.error == NotANumber)
    ensures p.IntRange? && r.Ok? ==>
              r.value.Num? && IsInt(r.value.x) &&
              (p.min <= p.max ==> p.min as real <= r.value.x <= p.max as real)
    ensures p.IntRange? && v.Num? && p.min as real <= v.x <= p.max as real ==>
              v.x - 0.5 <= r.value.x <= v.x + 0.5
    ensures p.Categorical? && !v.Num? ==> r == Ok(v)
    ensures p.Categorical? && v.Num? ==>
              (r.Ok? <==> |p.values| > 0) && (r.Ok? ==> r.value in p.values) &&
              (r.Err? ==> r.error == IndexOutOfRange)
  {
    match p
    case Categorical(values) =>
      if !v.Num? then Ok(v)
      else if |values| == 0 then Err(IndexOutOfRange)
      else Ok(values[Clamp(0, |values| - 1, Round(v.x))])
    case IntRange(lo, hi) =>
      if !v.Num? then Err(NotANumber)
      else Ok(Num(Clamp(lo, hi, Round(v.x)) as real))
    case Unknown(_) => Err(UnknownType)
  }

  /** A numeric component of a categorical parameter is an index into its
      values: an index in range selects that value, one below the range the
      first value and one above it the last. */
  lemma DecodeCategoricalIndex(values: seq<Value>, k: int)
    requires |values| > 0
    ensures 0 <= k < |values| ==> DecodeOne(Categorical(values), Num(k as real)) == Ok(values[k])
    ensures k < 0 ==> DecodeOne(Categorical(values), Num(k as real)) == Ok(values[0])
    ensures k >= |values| ==> DecodeOne(Categorical(values), Num(k as real)) == Ok(values[|values| - 1])
  {
    assert Round(k as real) == k;
  }

  /** decode_candidate never leaves an in-range integer of an int parameter
      changed: decoding is the identity on valid values. */
  lemma DecodeIntFixesInRange(lo: int, hi: int, k: int)
    requires lo <= k <= hi
    ensures DecodeOne(IntRange(lo, hi), Num(k as real)) == Ok(Num(k as real))
  {
    assert Round(k as real) == k;
  }

  /** A categorical value that is itself a number is read as an index, not
      passed through: with values [16, 32, 64] the value 16 decodes to 64. */
  lemma NumericCategoricalValueReadAsIndex()
    ensures DecodeOne(Categorical([Num(16.0), Num(32.0), Num(64.0)]), Num(16.0)) == Ok(Num(64.0))
  {
    assert Round(16.0) == 16;
  }

  /** decode_candidate: one token per (parameter, component) pair that zip
      pairs up, in order, or the error of the first pair that fails. */
  function Decode(params: seq<Param>, cand: seq<Value>): (r: Result<seq<Value>>)
    ensures r.Ok? <==>
              forall i :: 0 <= i < |params| && i < |cand| ==> DecodeOne(params[i], cand[i]).Ok?
    ensures r.Ok? ==>
              |r.value| == Min(|params|, |cand|) &&
              forall i :: 0 <= i < |r.value| ==> DecodeOne(params[i], cand[i]) == Ok(r.value[i])
    ensures r.Err? ==>
              exists i :: 0 <= i < |params| && i < |cand| &&
                DecodeOne(params[i], cand[i]) == Err(r.error) &&
                forall j :: 0 <= j < i ==> DecodeOne(params[j], cand[j]).Ok?
    decreases |params|
  {
    if |params| == 0 || |cand| == 0 then Ok([])
    else
      match DecodeOne(params[0], cand[0])
      case Err(e) => Err(e)
      case Ok(token) =>
        match Decode(params[1..], cand[1..])
        case Err(e) => Err(e)
        case Ok(rest) => Ok([token] + rest)
  }

  /** zip stops at the shorter list: a vector no longer than the parameters
      decodes against them as against their first |cand|. */
  lemma {:induction false} DecodePrefix(params: seq<Param>, cand: seq<Value>)
    requires |cand| <= |params|
    ensures Decode(params[..|cand|], cand) == Decode(params, cand)
    decreases |cand|
  {
    if |cand| > 0 {
      var short := params[..|cand|];
      assert short[0] == params[0];
      assert short[1..] == params[1..][..|cand| - 1];
      DecodePrefix(params[1..], cand[1..]);
    }
  }

  /** Replacing one component by a value that decodes keeps the whole vector
      decodable. */
  lemma DecodeUpdate(params: seq<Param>, cand: seq<Value>, i: int, v: Value)
    requires Decode(params, cand).Ok?
    requires 0 <= i < |cand| && (i < |params| ==> DecodeOne(params[i], v).Ok?)
    ensures Decode(params, cand[i := v]).Ok?
  {
    var c := cand[i := v];
    forall j | 0 <= j < |params| && j < |c|
      ensures DecodeOne(params[j], c[j]).Ok?
    {
      if j != i {
        assert c[j] == cand[j];
      }
    }
  }

  /** The caller-supplied random draws: draw n is a number in [0, 1), as
      random.random() returns. */
  type Draws = nat -> real

  ghost predicate ValidDraws(rs: Draws) {
    forall n: nat :: 0.0 <= rs(n) < 1.0
  }

  /** The index a draw r in [0, 1) selects among n choices. */
  function Index(r: real, n: nat): (k: nat)
    requires 0.0 <= r < 1.0 && n > 0
    ensures k < n
  {
    assert r * n as real < n as real by {
      assert (1.0 - r) * n as real > 0.0;
    }
    (r * n as real).Floor
  }

  /** Every choice among n is selected by some draw. */
  lemma IndexCovers(n: nat, k: nat)
    requires k < n
    ensures exists r: real :: 0.0 <= r < 1.0 && Index(r, n) == k
  {
    var r := k as real / n as real;
    assert r * n as real == k as real;
    assert Index(r, n) == k;
  }

  /** random_value_for_param with its one draw r. */
  function RandomValue(p: Param, r: real): (v: Result<Value>)
    requires 0.0 <= r < 1.0
    ensures p.Unknown? ==> v == Err(UnknownType)
    ensures p.Categorical? ==>
              (v.Ok? <==> |p.values| > 0) && (v.Ok? ==> v.value in p.values) &&
              (v.Err? ==> v.error == IndexOutOfRange)
    ensures p.IntRange? ==>
              (v.Ok? <==> p.min <= p.max) && (v.Err? ==> v.error == EmptyRange) &&
              (v.Ok? ==> v.value.Num? && IsInt(v.value.x) &&
                         p.min as real <= v.value.x <= p.max as real)
  {
    match p
    case Categorical(values) =>
      if |values| == 0 then Err(IndexOutOfRange) else Ok(values[Index(r, |values|)])
    case IntRange(lo, hi) =>
      if lo > hi then Err(EmptyRange) else Ok(Num((lo + Index(r, hi - lo + 1)) as real))
    case Unknown(_) => Err(UnknownType)
  }

  /** random_value_for_param can draw every value of the parameter's domain. */
  lemma RandomValueCovers(p: Param, v: Value)
    requires (p.Categorical? && v in p.values) ||
             (p.IntRange? && v.Num? && IsInt(v.x) && p.min as real <= v.x <= p.max as real)
    ensures exists r: real :: 0.0 <= r < 1.0 && RandomValue(p, r) == Ok(v)
  {
    if p.Categorical? {
      var k :| 0 <= k < |p.values| && p.values[k] == v;
      IndexCovers(|p.values|, k);
      var r: real :| 0.0 <= r < 1.0 && Index(r, |p.values|) == k;
      assert RandomValue(p, r) == Ok(v);
    } else {
      var k := v.x.Floor - p.min;
      IndexCovers(p.max - p.min + 1, k);
      var r: real :| 0.0 <= r < 1.0 && Index(r, p.max - p.min + 1) == k;
      assert RandomValue(p, r) == Ok(v);
    }
  }
}

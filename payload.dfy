/**
  The provider's loosely typed payload and the few Python operations the
  normaliser applies to it: truthiness, iteration, subscripting (with negative
  indices), dict lookup, tuple unpacking, and the type checks pydantic makes
  when a value is stored in a string or list-of-strings field.

  Every operation that would raise in Python (KeyError, IndexError, TypeError,
  ValueError on unpacking, a pydantic ValidationError) yields `Malformed`:
  the caller wraps all of them into one request failure, so which one was
  raised first makes no difference to anything observable.
 */
module Payload {
  import opened Models

  /** A value of the provider's `extra_data` structure. */
  datatype Json =
    | Null
    | Bool(b: bool)
    | Int(i: int)
    | Float(x: real)
    | Str(s: string)
    | List(items: seq<Json>)

  /** The `extra_data` dict itself, keyed by section name. */
  type ExtraData = map<string, Json>

  /** A normalisation step: a value, or the exception it raised. */
  datatype Result<+T> = Ok(value: T) | Malformed {
    predicate IsFailure() { Malformed? }

    function PropagateFailure<U>(): Result<U>
      requires Malformed?
    {
      Malformed
    }

    function Extract(): T
      requires Ok?
    {
      value
    }
  }

  /** Python's `bool(v)`. */
  predicate Truthy(v: Json) {
    match v
    case Null => false
    case Bool(b) => b
    case Int(i) => i != 0
    case Float(x) => x != 0.0
    case Str(s) => s != []
    case List(xs) => xs != []
  }

  /** Python values usable as dict keys (a list is unhashable). */
  predicate Hashable(v: Json) {
    !v.List?
  }

  /** The one-character strings a Python loop over a string visits. */
  function Chars(s: string): (r: seq<Json>)
  {
    seq(|s|, k requires 0 <= k < |s| => Str([s[k]]))
  }

  /** What `for x in v` visits: a list's elements or a string's characters; any other value is not iterable. */
  function Items(v: Json): Result<seq<Json>> {
    match v
    case List(xs) => Ok(xs)
    case Str(s) => Ok(Chars(s))
    case _ => Malformed
  }

  /** Python's `v[i]`, where a negative `i` counts from the end. */
  function At(v: Json, i: int): (r: Result<Json>)
    ensures r.Ok? <==> Items(v).Ok? && -|Items(v).value| <= i < |Items(v).value|
    ensures r.Ok? && i < 0 ==> r.value == Items(v).value[|Items(v).value| + i]
    ensures r.Ok? && i >= 0 ==> r.value == Items(v).value[i]
  {
    var xs :- Items(v);
    if 0 <= i < |xs| then Ok(xs[i])
    else if -|xs| <= i < 0 then Ok(xs[|xs| + i])
    else Malformed
  }

  /** `extra_data[key]`: a missing section raises KeyError. */
  function Lookup(extra: ExtraData, key: string): (r: Result<Json>)
    ensures r.Ok? <==> key in extra
    ensures key in extra ==> r.value == extra[key]
  {
    if key in extra then Ok(extra[key]) else Malformed
  }

  /** `a, b, c, d = v`: exactly `n` items. */
  function UnpackExactly(v: Json, n: nat): (r: Result<seq<Json>>)
    ensures r.Ok? <==> Items(v).Ok? && |Items(v).value| == n
    ensures r.Ok? ==> r.value == Items(v).value
  {
    var xs :- Items(v);
    if |xs| == n then Ok(xs) else Malformed
  }

  /** `a, b, *rest = v`: at least `n` items. */
  function UnpackAtLeast(v: Json, n: nat): (r: Result<seq<Json>>)
    ensures r.Ok? <==> Items(v).Ok? && |Items(v).value| >= n
    ensures r.Ok? ==> r.value == Items(v).value
  {
    var xs :- Items(v);
    if |xs| >= n then Ok(xs) else Malformed
  }

  /** A value stored in a `str` field. */
  function AsStr(v: Json): Result<string> {
    if v.Str? then Ok(v.s) else Malformed
  }

  /** A value stored in an `Optional[str]` field: `None` stays absent. */
  function AsOptStr(v: Json): Result<Option<string>> {
    match v
    case Null => Ok(None)
    case Str(s) => Ok(Some(s))
    case _ => Malformed
  }

  /** The elements of a list that must hold only strings. */
  function Strings(xs: seq<Json>): (r: Result<seq<string>>)
    ensures r.Ok? <==> forall k :: 0 <= k < |xs| ==> xs[k].Str?
    ensures r.Ok? ==> |r.value| == |xs| && forall k :: 0 <= k < |xs| ==> xs[k] == Str(r.value[k])
  {
    if xs == [] then Ok([])
    else
      var first :- AsStr(xs[0]);
      var rest :- Strings(xs[1..]);
      Ok([first] + rest)
  }

  /** A value stored in a `list[str]` field. */
  function AsStrList(v: Json): Result<seq<string>> {
    if v.List? then Strings(v.items) else Malformed
  }

  /** A value stored in an `Optional[list[str]]` field: `None` stays absent. */
  function AsOptStrList(v: Json): Result<Option<seq<string>>> {
    if v.Null? then Ok(None)
    else
      var xs :- AsStrList(v);
      Ok(Some(xs))
  }

  /** `prefix` followed by the outcome `r` of the rest of a loop. */
  function Prepend<T>(prefix: seq<T>, r: Result<seq<T>>): Result<seq<T>> {
    match r
    case Ok(rest) => Ok(prefix + rest)
    case Malformed => Malformed
  }

  lemma PrependEmpty<T>(r: Result<seq<T>>)
    ensures Prepend([], r) == r
  {
    if r.Ok? {
      assert [] + r.value == r.value;
    }
  }

  lemma PrependConcat<T>(a: seq<T>, b: seq<T>, r: Result<seq<T>>)
    ensures Prepend(a + b, r) == Prepend(a, Prepend(b, r))
  {
    if r.Ok? {
      assert a + b + r.value == a + (b + r.value);
    }
  }
}

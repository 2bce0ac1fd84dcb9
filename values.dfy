/**
 * The loosely typed data the engine works on. Scenario instructions and
 * inventory items are YAML documents read into Python dicts, lists and
 * scalars; the engine inspects them with `in`, `[...]`, `.get`, iteration
 * and `+`. This module gives those values one datatype and models each of
 * those Python operations once, with Python's exceptions as `Err` results.
 */
module Values {

  datatype Option<+T> = None | Some(value: T)

  /** The Python exceptions the engine can raise. */
  datatype Error =
    | KeyError(key: Value)   // missing dictionary key, including an unset variable
    | TypeError              // an operation applied to a value of the wrong kind
    | AttributeError         // `.get` on a value that is not a dict
    | ValueError             // empty `randint` range, or a weighted pick that found nothing

  datatype Result<+T> = Ok(value: T) | Err(error: Error) {
    predicate IsFailure() { Err? }
    function PropagateFailure<U>(): Result<U>
      requires Err?
    {
      Err(error)
    }
    function Extract(): T
      requires Ok?
    {
      value
    }
  }

  /** A YAML value. Dicts keep their fields in insertion order, as Python dicts do. */
  datatype Value =
    | Null
    | Bool(b: bool)
    | Int(i: int)
    | Str(s: string)
    | List(items: seq<Value>)
    | Dict(fields: seq<Field>)

  datatype Field = Field(key: string, val: Value)

  /** The evaluation environment: variable name to value. Names are usually strings. */
  type Env = map<Value, Value>

  /** Whether a value can be a dict key: lists and dicts are unhashable. */
  predicate Hashable(v: Value)
  {
    !v.List? && !v.Dict?
  }

  /** Python truthiness. */
  predicate Truthy(v: Value)
  {
    match v
    case Null => false
    case Bool(b) => b
    case Int(i) => i != 0
    case Str(s) => s != ""
    case List(items) => items != []
    case Dict(fields) => fields != []
  }

  /** The value stored under `key`, if any. */
  function Lookup(fields: seq<Field>, key: string): (r: Option<Value>)
    ensures r.Some? ==> exists i :: 0 <= i < |fields| && fields[i] == Field(key, r.value)
    ensures r.None? ==> forall i :: 0 <= i < |fields| ==> fields[i].key != key
  {
    if fields == [] then None
    else if fields[0].key == key then Some(fields[0].val)
    else Lookup(fields[1..], key)
  }

  /** `key in v` for a dict `v`. */
  predicate HasKey(v: Value, key: string)
  {
    v.Dict? && Lookup(v.fields, key).Some?
  }

  /** `v.get(key, default)`. */
  function GetOr(v: Value, key: string, default: Value): Result<Value>
  {
    if !v.Dict? then Err(AttributeError)
    else match Lookup(v.fields, key)
      case Some(x) => Ok(x)
      case None => Ok(default)
  }

  /** `v[key]` with a string subscript. */
  function Index(v: Value, key: string): Result<Value>
  {
    if !v.Dict? then Err(TypeError)
    else match Lookup(v.fields, key)
      case Some(x) => Ok(x)
      case None => Err(KeyError(Str(key)))
  }

  /** Whether `t` occurs in `s` as a contiguous, case-sensitive substring. */
  predicate IsSubstring(t: string, s: string)
    decreases |s|
  {
    t <= s || (s != [] && IsSubstring(t, s[1..]))
  }

  /** Python's `x in container`: key test on dicts, membership on lists, substring test on strings. */
  function In(x: Value, container: Value): Result<bool>
  {
    match container
    case Dict(fields) =>
      if !Hashable(x) then Err(TypeError)
      else Ok(x.Str? && Lookup(fields, x.s).Some?)
    case List(items) => Ok(x in items)
    case Str(s) => if x.Str? then Ok(IsSubstring(x.s, s)) else Err(TypeError)
    case _ => Err(TypeError)
  }

  function Keys(fields: seq<Field>): (r: seq<Value>)
    ensures |r| == |fields|
    ensures forall i :: 0 <= i < |r| ==> r[i] == Str(fields[i].key)
  {
    if fields == [] then [] else [Str(fields[0].key)] + Keys(fields[1..])
  }

  function Chars(s: string): (r: seq<Value>)
    ensures |r| == |s|
    ensures forall i :: 0 <= i < |r| ==> r[i] == Str([s[i]])
  {
    if s == [] then [] else [Str([s[0]])] + Chars(s[1..])
  }

  /** What `for x in v` (and `len(v)`) sees: list items, a dict's keys, a string's characters. */
  function Iterate(v: Value): Result<seq<Value>>
  {
    match v
    case List(items) => Ok(items)
    case Dict(fields) => Ok(Keys(fields))
    case Str(s) => Ok(Chars(s))
    case _ => Err(TypeError)
  }

  /** The number a value stands for in arithmetic; `bool` is a subclass of `int` in Python. */
  function Numeric(v: Value): Result<int>
  {
    match v
    case Int(i) => Ok(i)
    case Bool(b) => Ok(if b then 1 else 0)
    case _ => Err(TypeError)
  }

  /** `a + b` where the engine always has a string on one side. */
  function Concat(a: Value, b: Value): Result<Value>
  {
    if a.Str? && b.Str? then Ok(Str(a.s + b.s)) else Err(TypeError)
  }

  /** Number of nodes of a value; the measure that instruction evaluation decreases. */
  function Size(v: Value): nat
    decreases v
  {
    match v
    case List(items) => 1 + SizeOfList(items)
    case Dict(fields) => 1 + SizeOfFields(fields)
    case _ => 1
  }

  function SizeOfList(vs: seq<Value>): nat
    decreases vs
  {
    if vs == [] then 0 else Size(vs[0]) + SizeOfList(vs[1..])
  }

  function SizeOfFields(fs: seq<Field>): nat
    decreases fs
  {
    if fs == [] then 0 else Size(fs[0].val) + SizeOfFields(fs[1..])
  }

  /** The size of the largest element of `vs` (0 for none). */
  function MaxSize(vs: seq<Value>): (m: nat)
    ensures forall i :: 0 <= i < |vs| ==> Size(vs[i]) <= m
    ensures vs == [] ==> m == 0
    ensures vs != [] ==> MaxSize(vs[1..]) <= m
  {
    if vs == [] then 0
    else
      var rest := MaxSize(vs[1..]);
      if Size(vs[0]) > rest then Size(vs[0]) else rest
  }

  lemma {:induction false} ElementSmallerThanList(vs: seq<Value>, i: nat)
    requires i < |vs|
    ensures Size(vs[i]) <= SizeOfList(vs)
    decreases vs
  {
    if i > 0 {
      ElementSmallerThanList(vs[1..], i - 1);
    }
  }

  lemma {:induction false} FieldSmallerThanDict(fs: seq<Field>, key: string)
    requires Lookup(fs, key).Some?
    ensures Size(Lookup(fs, key).value) < Size(Dict(fs))
    decreases fs
  {
    if fs[0].key != key {
      FieldSmallerThanDict(fs[1..], key);
    }
  }

  /** Every element a value iterates over is no larger than the value. */
  lemma IterateNoLarger(v: Value)
    requires Iterate(v).Ok?
    ensures MaxSize(Iterate(v).value) <= Size(v)
  {
    var cs := Iterate(v).value;
    if cs != [] {
      MaxSizeAttained(cs);
      var i :| 0 <= i < |cs| && Size(cs[i]) == MaxSize(cs);
      if v.List? {
        ElementSmallerThanList(v.items, i);
      }
    }
  }

  /** Some element attains the maximum size. */
  lemma MaxSizeAttained(vs: seq<Value>)
    requires vs != []
    ensures exists i :: 0 <= i < |vs| && Size(vs[i]) == MaxSize(vs)
  {
    if |vs| > 1 && Size(vs[0]) <= MaxSize(vs[1..]) {
      MaxSizeAttained(vs[1..]);
      var i :| 0 <= i < |vs[1..]| && Size(vs[1..][i]) == MaxSize(vs[1..]);
      assert Size(vs[i + 1]) == MaxSize(vs);
    } else {
      assert Size(vs[0]) == MaxSize(vs);
    }
  }

  /** A sequence whose elements all occur in another is no larger by `MaxSize`. */
  lemma MaxSizeOfSubset(ys: seq<Value>, xs: seq<Value>)
    requires forall y :: y in ys ==> y in xs
    ensures MaxSize(ys) <= MaxSize(xs)
  {
    if ys != [] {
      MaxSizeAttained(ys);
      var i :| 0 <= i < |ys| && Size(ys[i]) == MaxSize(ys);
      assert ys[i] in xs;
    }
  }
}

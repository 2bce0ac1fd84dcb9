/**
 * Template substitution inside instructions (`interpolate` in constraint/eval.py
 * and main.py). Every string of an instruction is rendered as a Jinja template
 * against the environment, except under the keys that hold nested instructions,
 * which are rendered later when those instructions are evaluated. Jinja itself is
 * not modelled: the rendering is a function handed in from outside.
 */
module Interpolation {
  import opened Values

  /** Renders a template string against the environment. */
  type Render = (string, Env) -> string

  /**
   * Keys whose values are copied unchanged. The dispatcher's key is
   * `choose_some_instructions` (plural), which is not among them.
   */
  const Exempt: set<string> := {"do", "choose_instruction", "choose_some_instruction"}

  function Interpolate(v: Value, env: Env, render: Render): Value
    decreases v
  {
    match v
    case Str(s) => Str(render(s, env))
    case Dict(fields) => Dict(InterpolateFields(fields, env, render))
    case List(items) => List(InterpolateList(items, env, render))
    case _ => v
  }

  function InterpolateFields(fs: seq<Field>, env: Env, render: Render): (r: seq<Field>)
    ensures |r| == |fs|
    decreases fs
  {
    if fs == [] then []
    else
      var val := if fs[0].key in Exempt then fs[0].val else Interpolate(fs[0].val, env, render);
      [Field(fs[0].key, val)] + InterpolateFields(fs[1..], env, render)
  }

  function InterpolateList(vs: seq<Value>, env: Env, render: Render): (r: seq<Value>)
    ensures |r| == |vs|
    decreases vs
  {
    if vs == [] then [] else [Interpolate(vs[0], env, render)] + InterpolateList(vs[1..], env, render)
  }

  /** A value with every string emptied: what interpolation cannot change. */
  function Shape(v: Value): Value
    decreases v
  {
    match v
    case Str(_) => Str("")
    case Dict(fields) => Dict(ShapeOfFields(fields))
    case List(items) => List(ShapeOfList(items))
    case _ => v
  }

  function ShapeOfFields(fs: seq<Field>): (r: seq<Field>)
    ensures |r| == |fs|
    ensures forall i :: 0 <= i < |fs| ==> r[i].key == fs[i].key
    decreases fs
  {
    if fs == [] then [] else [Field(fs[0].key, Shape(fs[0].val))] + ShapeOfFields(fs[1..])
  }

  function ShapeOfList(vs: seq<Value>): (r: seq<Value>)
    ensures |r| == |vs|
    decreases vs
  {
    if vs == [] then [] else [Shape(vs[0])] + ShapeOfList(vs[1..])
  }

  /**
   * Interpolation keeps the shape of an instruction: dicts keep their keys in order, lists
   * their lengths, non-string scalars their values; and it keeps the size.
   */
  lemma {:induction false} InterpolateKeepsShape(v: Value, env: Env, render: Render)
    ensures Shape(Interpolate(v, env, render)) == Shape(v)
    ensures Size(Interpolate(v, env, render)) == Size(v)
    decreases v
  {
    match v
    case Dict(fields) => InterpolateFieldsKeepShape(fields, env, render);
    case List(items) => InterpolateListKeepsShape(items, env, render);
    case _ =>
  }

  lemma {:induction false} InterpolateFieldsKeepShape(fs: seq<Field>, env: Env, render: Render)
    ensures ShapeOfFields(InterpolateFields(fs, env, render)) == ShapeOfFields(fs)
    ensures SizeOfFields(InterpolateFields(fs, env, render)) == SizeOfFields(fs)
    decreases fs
  {
    if fs != [] {
      InterpolateKeepsShape(fs[0].val, env, render);
      InterpolateFieldsKeepShape(fs[1..], env, render);
      var r := InterpolateFields(fs, env, render);
      assert r[1..] == InterpolateFields(fs[1..], env, render);
    }
  }

  lemma {:induction false} InterpolateListKeepsShape(vs: seq<Value>, env: Env, render: Render)
    ensures ShapeOfList(InterpolateList(vs, env, render)) == ShapeOfList(vs)
    ensures SizeOfList(InterpolateList(vs, env, render)) == SizeOfList(vs)
    decreases vs
  {
    if vs != [] {
      InterpolateKeepsShape(vs[0], env, render);
      InterpolateListKeepsShape(vs[1..], env, render);
      var r := InterpolateList(vs, env, render);
      assert r[1..] == InterpolateList(vs[1..], env, render);
    }
  }

  /**
   * In an interpolated dict, the value under an exempt key is the original value and the
   * value under any other key is the original value interpolated.
   */
  lemma {:induction false} InterpolatedField(fs: seq<Field>, env: Env, render: Render, key: string)
    ensures Lookup(InterpolateFields(fs, env, render), key).Some? <==> Lookup(fs, key).Some?
    ensures Lookup(fs, key).Some? ==>
              Lookup(InterpolateFields(fs, env, render), key).value
              == if key in Exempt then Lookup(fs, key).value else Interpolate(Lookup(fs, key).value, env, render)
    decreases fs
  {
    if fs != [] && fs[0].key != key {
      InterpolatedField(fs[1..], env, render, key);
      assert InterpolateFields(fs, env, render)[1..] == InterpolateFields(fs[1..], env, render);
    }
  }

  /** A rendering that returns every template unchanged leaves every instruction unchanged. */
  lemma {:induction false} PlainRenderIsIdentity(v: Value, env: Env, render: Render)
    requires forall s :: render(s, env) == s
    ensures Interpolate(v, env, render) == v
    decreases v
  {
    match v
    case Dict(fields) => PlainRenderFields(fields, env, render);
    case List(items) => PlainRenderList(items, env, render);
    case _ =>
  }

  lemma {:induction false} PlainRenderFields(fs: seq<Field>, env: Env, render: Render)
    requires forall s :: render(s, env) == s
    ensures InterpolateFields(fs, env, render) == fs
    decreases fs
  {
    if fs != [] {
      PlainRenderIsIdentity(fs[0].val, env, render);
      PlainRenderFields(fs[1..], env, render);
      assert fs == [fs[0]] + fs[1..];
    }
  }

  lemma {:induction false} PlainRenderList(vs: seq<Value>, env: Env, render: Render)
    requires forall s :: render(s, env) == s
    ensures InterpolateList(vs, env, render) == vs
    decreases vs
  {
    if vs != [] {
      PlainRenderIsIdentity(vs[0], env, render);
      PlainRenderList(vs[1..], env, render);
      assert vs == [vs[0]] + vs[1..];
    }
  }
}

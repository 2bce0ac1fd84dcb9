/**
 * Weighted and probabilistic selection (constraint/rng.py; the same code is
 * repeated in main.py). Python's `random` module is replaced by a stream of
 * natural numbers handed in from outside: every `randint`, `random()` and
 * shuffle step takes the next number of the stream and brings it into the
 * range the call asks for. Each operation has a specification function that
 * threads the stream position, a method written like the Python code, and
 * lemmas that say what the specification function computes.
 */
module Rng {
  import opened Values
  import opened Sequences

  /** Python's `random()` returns a multiple of 2^-53 in [0, 1). */
  const TwoTo53: nat := 0x20_0000_0000_0000

  /** A result together with the stream position after the draws it took. */
  datatype Drawn<+T> = Drawn(result: Result<T>, next: nat)

  /** `random.randint(1, sides)` read from position `at`; an empty range raises before drawing. */
  function RandIntAt(source: nat -> nat, at: nat, sides: int): Result<int>
  {
    if sides < 1 then Err(ValueError) else Ok(1 + source(at) % sides)
  }

  /** `random.random()` read from position `at`. */
  function ChanceAt(source: nat -> nat, at: nat): (x: real)
    ensures 0.0 <= x < 1.0
  {
    (source(at) % TwoTo53) as real / TwoTo53 as real
  }

  /** randint(1, sides) yields a number in [1, sides]; an empty range raises ValueError. */
  lemma RandIntInRange(source: nat -> nat, at: nat, sides: int)
    ensures sides < 1 ==> RandIntAt(source, at, sides) == Err(ValueError)
    ensures sides >= 1 ==> RandIntAt(source, at, sides).Ok? && 1 <= RandIntAt(source, at, sides).value <= sides
  {
  }

  /** Every number in [1, sides] is what randint yields when the stream holds one less than it. */
  lemma RandIntReaches(source: nat -> nat, at: nat, sides: int, r: int)
    requires 1 <= r <= sides && source(at) == r - 1
    ensures RandIntAt(source, at, sides) == Ok(r)
  {
  }

  /* ---------------- random.shuffle ---------------- */

  function Swap<T>(xs: seq<T>, i: nat, j: nat): (ys: seq<T>)
    requires i < |xs| && j < |xs|
    ensures |ys| == |xs|
  {
    xs[i := xs[j]][j := xs[i]]
  }

  /** Python's shuffle: for i from n-1 down to 1, swap position i with a drawn j in [0, i]. */
  function ShuffleFrom<T>(xs: seq<T>, i: nat, source: nat -> nat, at: nat): seq<T>
    requires i < |xs|
    decreases i
  {
    if i == 0 then xs
    else ShuffleFrom(Swap(xs, i, source(at) % (i + 1)), i - 1, source, at + 1)
  }

  /** How many draws shuffling `n` elements takes. */
  function ShuffleDraws(n: nat): nat
  {
    if n <= 1 then 0 else n - 1
  }

  function ShuffleAt<T>(xs: seq<T>, source: nat -> nat, at: nat): seq<T>
  {
    if |xs| <= 1 then xs else ShuffleFrom(xs, |xs| - 1, source, at)
  }

  lemma SwapPermutes<T>(xs: seq<T>, i: nat, j: nat)
    requires i < |xs| && j < |xs|
    ensures multiset(Swap(xs, i, j)) == multiset(xs)
  {
    if i != j {
      var ys := xs[i := xs[j]];
      assert multiset(ys) == multiset(xs) - multiset{xs[i]} + multiset{xs[j]};
      assert ys[j] == xs[j];
      assert multiset(ys[j := xs[i]]) == multiset(ys) - multiset{xs[j]} + multiset{xs[i]};
    }
  }

  lemma {:induction false} ShuffleFromPermutes<T>(xs: seq<T>, i: nat, source: nat -> nat, at: nat)
    requires i < |xs|
    ensures |ShuffleFrom(xs, i, source, at)| == |xs|
    ensures multiset(ShuffleFrom(xs, i, source, at)) == multiset(xs)
    decreases i
  {
    if i > 0 {
      var j := source(at) % (i + 1);
      SwapPermutes(xs, i, j);
      ShuffleFromPermutes(Swap(xs, i, j), i - 1, source, at + 1);
    }
  }

  /** Shuffling only reorders: the result is a permutation of the input. */
  lemma ShufflePermutes<T>(xs: seq<T>, source: nat -> nat, at: nat)
    ensures |ShuffleAt(xs, source, at)| == |xs|
    ensures multiset(ShuffleAt(xs, source, at)) == multiset(xs)
    ensures forall x :: x in ShuffleAt(xs, source, at) <==> x in xs
  {
    if |xs| > 1 {
      ShuffleFromPermutes(xs, |xs| - 1, source, at);
    }
    var ys := ShuffleAt(xs, source, at);
    forall x ensures x in ys <==> x in xs {
      assert x in ys <==> x in multiset(ys);
      assert x in xs <==> x in multiset(xs);
    }
  }

  /* ---------------- random state ---------------- */

  /** The state of Python's `random` module: the stream of draws and how much of it is used up. */
  class Random {
    const source: nat -> nat
    var used: nat

    constructor (source: nat -> nat)
      ensures this.source == source && used == 0
    {
      this.source := source;
      used := 0;
    }

    /** `random.randint(1, sides)`. */
    method RandInt(sides: int) returns (r: Result<int>)
      modifies this
      ensures r == RandIntAt(source, old(used), sides)
      ensures used == old(used) + (if r.Ok? then 1 else 0)
    {
      if sides < 1 {
        return Err(ValueError);
      }
      r := Ok(1 + source(used) % sides);
      used := used + 1;
    }

    /** `random.random()`. */
    method Uniform() returns (x: real)
      modifies this
      ensures x == ChanceAt(source, old(used)) && used == old(used) + 1
    {
      x := ChanceAt(source, used);
      used := used + 1;
    }

    /** `random.shuffle` applied to a fresh copy of `xs`. */
    method Shuffle<T>(xs: seq<T>) returns (ys: seq<T>)
      modifies this
      ensures ys == ShuffleAt(xs, source, old(used))
      ensures used == old(used) + ShuffleDraws(|xs|)
    {
      ys := xs;
      if |xs| <= 1 {
        return;
      }
      var i := |xs| - 1;
      while i > 0
        invariant 0 <= i < |xs| && |ys| == |xs|
        invariant used == old(used) + (|xs| - 1 - i)
        invariant ShuffleFrom(ys, i, source, used) == ShuffleFrom(xs, |xs| - 1, source, old(used))
      {
        var j := source(used) % (i + 1);
        used := used + 1;
        ys := Swap(ys, i, j);
        i := i - 1;
      }
    }
  }

  /* ---------------- choose_item ---------------- */

  /** The `odds` of each choice, `choice.get('odds', 1)`. */
  function OddsValues(cs: seq<Value>): (r: Result<seq<Value>>)
    ensures r.Ok? ==> |r.value| == |cs|
  {
    if cs == [] then Ok([])
    else
      var o :- GetOr(cs[0], "odds", Int(1));
      var rest :- OddsValues(cs[1..]);
      Ok([o] + rest)
  }

  /** The numbers `sum(...)` adds up; anything else is a TypeError. */
  function Numerics(vs: seq<Value>): (r: Result<seq<int>>)
    ensures r.Ok? ==> |r.value| == |vs|
  {
    if vs == [] then Ok([])
    else
      var n :- Numeric(vs[0]);
      var rest :- Numerics(vs[1..]);
      Ok([n] + rest)
  }

  /** The weights of `cs`, default 1. */
  function Weights(cs: seq<Value>): (r: Result<seq<int>>)
    ensures r.Ok? ==> |r.value| == |cs|
  {
    var vs :- OddsValues(cs);
    Numerics(vs)
  }

  function Sum(ws: seq<int>): int
  {
    if ws == [] then 0 else Sum(ws[..|ws| - 1]) + ws[|ws| - 1]
  }

  /** The running total after the weight at position `i`. */
  function Cumulative(ws: seq<int>, i: nat): int
    requires i < |ws|
  {
    Sum(ws[..i + 1])
  }

  /** The loop of choose_item from position `i` on, with `acc` the running total so far. */
  function PickFrom(ws: seq<int>, r: int, i: nat, acc: int): (k: Option<nat>)
    requires i <= |ws|
    ensures k.Some? ==> i <= k.value < |ws|
    decreases |ws| - i
  {
    if i == |ws| then None
    else if acc + ws[i] >= r then Some(i)
    else PickFrom(ws, r, i + 1, acc + ws[i])
  }

  /** The position choose_item returns for roll `r`, or None when it would raise. */
  function WeightedPick(ws: seq<int>, r: int): (k: Option<nat>)
    ensures k.Some? ==> k.value < |ws|
  {
    PickFrom(ws, r, 0, 0)
  }

  lemma {:induction false} PickFromIsFirstReaching(ws: seq<int>, r: int, i: nat)
    requires i <= |ws|
    requires forall j :: 0 <= j < i ==> Cumulative(ws, j) < r
    ensures match PickFrom(ws, r, i, Sum(ws[..i]))
      case Some(k) => Cumulative(ws, k) >= r && forall j :: 0 <= j < k ==> Cumulative(ws, j) < r
      case None => forall j :: 0 <= j < |ws| ==> Cumulative(ws, j) < r
    decreases |ws| - i
  {
    if i < |ws| {
      assert ws[..i + 1][..i] == ws[..i];
      assert Sum(ws[..i]) + ws[i] == Cumulative(ws, i);
      if Cumulative(ws, i) < r {
        PickFromIsFirstReaching(ws, r, i + 1);
      }
    }
  }

  /** choose_item returns the first choice whose running total of weights reaches the roll. */
  lemma WeightedPickIsFirstReaching(ws: seq<int>, r: int)
    ensures match WeightedPick(ws, r)
      case Some(k) => Cumulative(ws, k) >= r && forall j :: 0 <= j < k ==> Cumulative(ws, j) < r
      case None => forall j :: 0 <= j < |ws| ==> Cumulative(ws, j) < r
  {
    assert ws[..0] == [];
    PickFromIsFirstReaching(ws, r, 0);
  }

  /** The loop cannot run off the end when the roll is at most the total, whatever the signs of the weights. */
  lemma WeightedPickFindsOne(ws: seq<int>, r: int)
    requires ws != [] && r <= Sum(ws)
    ensures WeightedPick(ws, r).Some?
  {
    WeightedPickIsFirstReaching(ws, r);
    assert ws[..|ws|] == ws;
    assert Cumulative(ws, |ws| - 1) >= r;
  }

  /** `choose_item(choices)` drawing from position `at`. */
  function ChooseItemSpec(choices: Value, source: nat -> nat, at: nat): Drawn<Option<Value>>
  {
    match Iterate(choices)
    case Err(e) => Drawn(Err(e), at)
    case Ok(cs) =>
      if |cs| <= 1 then Drawn(Ok(if cs == [] then None else Some(cs[0])), at)
      else match Weights(cs)
        case Err(e) => Drawn(Err(e), at)
        case Ok(ws) =>
          match RandIntAt(source, at, Sum(ws))
          case Err(e) => Drawn(Err(e), at)
          case Ok(r) =>
            match WeightedPick(ws, r)
            case Some(k) => Drawn(Ok(Some(cs[k])), at + 1)
            case None => Drawn(Err(ValueError), at + 1)
  }

  /** An empty collection gives None and a one-element one gives its element, without a draw. */
  lemma ChooseItemShortBypass(cs: seq<Value>, source: nat -> nat, at: nat)
    requires |cs| <= 1
    ensures ChooseItemSpec(List(cs), source, at)
         == Drawn(Ok(if cs == [] then None else Some(cs[0])), at)
  {
  }

  /**
   * With two or more weighted choices summing to at least 1, choose_item draws one roll
   * r in [1, total] and returns the first choice whose running total reaches r; the
   * ValueError after the loop cannot happen.
   */
  lemma ChooseItemPicksFirstReaching(cs: seq<Value>, source: nat -> nat, at: nat)
    requires |cs| >= 2 && Weights(cs).Ok? && Sum(Weights(cs).value) >= 1
    ensures var ws := Weights(cs).value;
            var r := 1 + source(at) % Sum(ws);
            var d := ChooseItemSpec(List(cs), source, at);
            1 <= r <= Sum(ws) && d.next == at + 1 && d.result.Ok? && d.result.value.Some?
            && exists k :: 0 <= k < |cs| && d.result.value.value == cs[k]
                 && Cumulative(ws, k) >= r && forall j :: 0 <= j < k ==> Cumulative(ws, j) < r
  {
    var ws := Weights(cs).value;
    var r := 1 + source(at) % Sum(ws);
    WeightedPickFindsOne(ws, r);
    WeightedPickIsFirstReaching(ws, r);
    var k := WeightedPick(ws, r).value;
    assert ChooseItemSpec(List(cs), source, at).result.value.value == cs[k];
  }

  /** With a total weight below 1, `randint(1, total)` raises ValueError. */
  lemma ChooseItemEmptyRange(cs: seq<Value>, source: nat -> nat, at: nat)
    requires |cs| >= 2 && Weights(cs).Ok? && Sum(Weights(cs).value) < 1
    ensures ChooseItemSpec(List(cs), source, at) == Drawn(Err(ValueError), at)
  {
  }

  /** Whatever choose_item returns is an element of what it chose from. */
  lemma ChooseItemReturnsElement(choices: Value, source: nat -> nat, at: nat)
    requires ChooseItemSpec(choices, source, at).result.Ok?
    requires ChooseItemSpec(choices, source, at).result.value.Some?
    ensures Iterate(choices).Ok?
    ensures ChooseItemSpec(choices, source, at).result.value.value in Iterate(choices).value
  {
  }

  method ChooseItem(choices: Value, rnd: Random) returns (res: Result<Option<Value>>)
    modifies rnd
    ensures var d := ChooseItemSpec(choices, rnd.source, old(rnd.used));
            res == d.result && (res.Ok? ==> rnd.used == d.next)
  {
    var cs :- Iterate(choices);
    if |cs| <= 1 {
      return Ok(if cs == [] then None else Some(cs[0]));
    }
    var ws :- Weights(cs);
    var total := Sum(ws);
    var r :- rnd.RandInt(total);
    var acc := 0;
    for i := 0 to |cs|
      invariant acc == Sum(ws[..i])
      invariant WeightedPick(ws, r) == PickFrom(ws, r, i, acc)
    {
      assert ws[..i + 1][..i] == ws[..i];
      acc := acc + ws[i];
      if acc >= r {
        return Ok(Some(cs[i]));
      }
    }
    return Err(ValueError);
  }

  /* ---------------- maybe_choose_item ---------------- */

  /** `maybe_choose_item(choices, odds)`: one `random()` draw gates a choose_item. */
  function MaybeChooseItemSpec(choices: Value, odds: real, source: nat -> nat, at: nat): Drawn<Option<Value>>
  {
    if ChanceAt(source, at) < odds then ChooseItemSpec(choices, source, at + 1)
    else Drawn(Ok(None), at + 1)
  }

  /** A gate draw at or above the odds yields None; odds of 1.0 or more always reach choose_item. */
  lemma MaybeChooseItemGate(choices: Value, odds: real, source: nat -> nat, at: nat)
    ensures ChanceAt(source, at) >= odds ==> MaybeChooseItemSpec(choices, odds, source, at) == Drawn(Ok(None), at + 1)
    ensures odds >= 1.0 ==> MaybeChooseItemSpec(choices, odds, source, at) == ChooseItemSpec(choices, source, at + 1)
  {
  }

  /** Whatever maybe_choose_item returns is an element of what it chose from. */
  lemma MaybeChooseItemReturnsElement(choices: Value, odds: real, source: nat -> nat, at: nat)
    requires MaybeChooseItemSpec(choices, odds, source, at).result.Ok?
    requires MaybeChooseItemSpec(choices, odds, source, at).result.value.Some?
    ensures Iterate(choices).Ok?
    ensures MaybeChooseItemSpec(choices, odds, source, at).result.value.value in Iterate(choices).value
  {
    ChooseItemReturnsElement(choices, source, at + 1);
  }

  method MaybeChooseItem(choices: Value, odds: real, rnd: Random) returns (res: Result<Option<Value>>)
    modifies rnd
    ensures var d := MaybeChooseItemSpec(choices, odds, rnd.source, old(rnd.used));
            res == d.result && (res.Ok? ==> rnd.used == d.next)
  {
    var x := rnd.Uniform();
    if x < odds {
      res := ChooseItem(choices, rnd);
    } else {
      res := Ok(None);
    }
  }

  /* ---------------- choose_many_items ---------------- */

  /** `choice['odds']` as a number: choose_many_items has no default. */
  function RequiredOdds(c: Value): Result<int>
  {
    var o :- Index(c, "odds");
    Numeric(o)
  }

  function RequiredOddsAll(cs: seq<Value>): (r: Result<seq<int>>)
    ensures r.Ok? ==> |r.value| == |cs|
  {
    if cs == [] then Ok([])
    else
      var w :- RequiredOdds(cs[0]);
      var rest :- RequiredOddsAll(cs[1..]);
      Ok([w] + rest)
  }

  /** `roll <= odds * adjustment` with the adjustment written as a percentage: `pct / 100`. */
  predicate Passes(roll: int, w: int, pct: int)
  {
    100 * roll <= w * pct
  }

  /** The d100 roll taken at position `at`. */
  function D100(source: nat -> nat, at: nat): int
  {
    RandIntAt(source, at, 100).value
  }

  /** The loop of choose_many_items: each choice rolls first, then reads its odds. */
  function ChooseManyFrom(cs: seq<Value>, pct: int, source: nat -> nat, at: nat): Drawn<seq<Value>>
    decreases |cs|
  {
    if cs == [] then Drawn(Ok([]), at)
    else
      var roll := D100(source, at);
      match RequiredOdds(cs[0])
      case Err(e) => Drawn(Err(e), at + 1)
      case Ok(w) =>
        var rest := ChooseManyFrom(cs[1..], pct, source, at + 1);
        match rest.result
        case Err(_) => rest
        case Ok(ys) => Drawn(Ok(if Passes(roll, w, pct) then [cs[0]] + ys else ys), rest.next)
  }

  /** `choose_many_items(choices, pct / 100)` drawing from position `at`. */
  function ChooseManySpec(choices: Value, pct: int, source: nat -> nat, at: nat): Drawn<seq<Value>>
  {
    match Iterate(choices)
    case Err(e) => Drawn(Err(e), at)
    case Ok(cs) => ChooseManyFrom(cs, pct, source, at)
  }

  /** Which choices pass their roll, given their odds. */
  function KeepMask(ws: seq<int>, pct: int, source: nat -> nat, at: nat): (m: seq<bool>)
    ensures |m| == |ws|
  {
    seq(|ws|, k requires 0 <= k < |ws| => Passes(D100(source, at + k), ws[k], pct))
  }

  /**
   * choose_many_items keeps, in input order, exactly the choices whose d100 roll is at most
   * odds x adjustment, one roll per choice; it fails exactly when some choice has no numeric
   * `odds`, with that choice's error.
   */
  lemma {:induction false} ChooseManyFromKeepsPassing(cs: seq<Value>, pct: int, source: nat -> nat, at: nat)
    ensures ChooseManyFrom(cs, pct, source, at).result.Ok? <==> RequiredOddsAll(cs).Ok?
    ensures RequiredOddsAll(cs).Err? ==>
              ChooseManyFrom(cs, pct, source, at).result == Err(RequiredOddsAll(cs).error)
    ensures RequiredOddsAll(cs).Ok? ==>
              ChooseManyFrom(cs, pct, source, at)
              == Drawn(Ok(Select(cs, KeepMask(RequiredOddsAll(cs).value, pct, source, at))), at + |cs|)
    decreases |cs|
  {
    if cs != [] {
      ChooseManyFromKeepsPassing(cs[1..], pct, source, at + 1);
      if RequiredOddsAll(cs).Ok? {
        var ws := RequiredOddsAll(cs).value;
        assert ws[1..] == RequiredOddsAll(cs[1..]).value;
        assert RequiredOdds(cs[0]) == Ok(ws[0]);
        SelectKeepMaskCons(cs, ws, pct, source, at);
        var kept := Select(cs[1..], KeepMask(ws[1..], pct, source, at + 1));
        assert ChooseManyFrom(cs[1..], pct, source, at + 1) == Drawn(Ok(kept), at + |cs|);
        assert [] + kept == kept;
      }
    }
  }

  /** Selecting by the keep mask decides the first choice by the first roll. */
  lemma SelectKeepMaskCons(cs: seq<Value>, ws: seq<int>, pct: int, source: nat -> nat, at: nat)
    requires cs != [] && |ws| == |cs|
    ensures Select(cs, KeepMask(ws, pct, source, at))
            == (if Passes(D100(source, at), ws[0], pct) then [cs[0]] else [])
               + Select(cs[1..], KeepMask(ws[1..], pct, source, at + 1))
  {
    var mask := KeepMask(ws, pct, source, at);
    assert mask[1..] == KeepMask(ws[1..], pct, source, at + 1);
  }

  /** The result of choose_many_items is an order-preserving subsequence of its input. */
  lemma ChooseManyIsSubsequence(cs: seq<Value>, pct: int, source: nat -> nat, at: nat)
    requires ChooseManySpec(List(cs), pct, source, at).result.Ok?
    ensures IsSubsequence(ChooseManySpec(List(cs), pct, source, at).result.value, cs)
  {
    ChooseManyFromKeepsPassing(cs, pct, source, at);
    SelectIsSubsequence(cs, KeepMask(RequiredOddsAll(cs).value, pct, source, at));
  }

  /** Rolls are at most 100: a choice whose odds x adjustment is at least 100 is always kept. */
  lemma ChooseManyKeepsCertain(cs: seq<Value>, pct: int, source: nat -> nat, at: nat, k: nat)
    requires RequiredOddsAll(cs).Ok? && k < |cs| && RequiredOddsAll(cs).value[k] * pct >= 100 * 100
    ensures ChooseManySpec(List(cs), pct, source, at).result.Ok?
    ensures cs[k] in ChooseManySpec(List(cs), pct, source, at).result.value
  {
    var ws := RequiredOddsAll(cs).value;
    var mask := KeepMask(ws, pct, source, at);
    var roll := D100(source, at + k);
    assert 1 <= roll <= 100 by {
      RandIntInRange(source, at + k, 100);
    }
    KeepMaskAt(ws, pct, source, at, k);
    CertainPasses(roll, ws[k], pct);
    SelectKeepsMarked(cs, mask, k);
    ChooseManyFromKeepsPassing(cs, pct, source, at);
  }

  lemma KeepMaskAt(ws: seq<int>, pct: int, source: nat -> nat, at: nat, k: nat)
    requires k < |ws|
    ensures KeepMask(ws, pct, source, at)[k] == Passes(D100(source, at + k), ws[k], pct)
  {
  }

  lemma CertainPasses(roll: int, w: int, pct: int)
    requires roll <= 100 && w * pct >= 100 * 100
    ensures Passes(roll, w, pct)
  {
  }

  /** Rolls are at least 1: with adjustment 0 nothing is kept. */
  lemma ChooseManyKeepsNoneAtZero(cs: seq<Value>, source: nat -> nat, at: nat)
    requires RequiredOddsAll(cs).Ok?
    ensures ChooseManySpec(List(cs), 0, source, at).result == Ok([])
  {
    var mask := KeepMask(RequiredOddsAll(cs).value, 0, source, at);
    ChooseManyFromKeepsPassing(cs, 0, source, at);
    NoneMarked(mask);
    SelectLength(cs, mask);
  }

  lemma {:induction false} NoneMarked(mask: seq<bool>)
    requires forall i :: 0 <= i < |mask| ==> !mask[i]
    ensures Count(mask) == 0
  {
    if mask != [] {
      NoneMarked(mask[1..]);
    }
  }

  /** A choice without an `odds` key makes choose_many_items raise KeyError('odds'). */
  lemma ChooseManyNeedsOdds(c: Value, rest: seq<Value>, pct: int, source: nat -> nat, at: nat)
    requires c.Dict? && Lookup(c.fields, "odds").None?
    ensures ChooseManySpec(List([c] + rest), pct, source, at).result == Err(KeyError(Str("odds")))
  {
  }

  /** Every element choose_many_items returns is an element of what it chose from. */
  lemma ChooseManyReturnsElements(choices: Value, pct: int, source: nat -> nat, at: nat)
    requires ChooseManySpec(choices, pct, source, at).result.Ok?
    ensures Iterate(choices).Ok?
    ensures forall y :: y in ChooseManySpec(choices, pct, source, at).result.value ==> y in Iterate(choices).value
  {
    var cs := Iterate(choices).value;
    ChooseManyFromKeepsPassing(cs, pct, source, at);
  }

  /** Prefix `chosen` to a successful result. */
  function PrependOk(chosen: seq<Value>, d: Drawn<seq<Value>>): Drawn<seq<Value>>
  {
    match d.result
    case Ok(ys) => Drawn(Ok(chosen + ys), d.next)
    case Err(_) => d
  }

  method ChooseManyItems(choices: Value, pct: int, rnd: Random) returns (res: Result<seq<Value>>)
    modifies rnd
    ensures var d := ChooseManySpec(choices, pct, rnd.source, old(rnd.used));
            res == d.result && (res.Ok? ==> rnd.used == d.next)
  {
    var cs :- Iterate(choices);
    var chosen := [];
    assert cs[0..] == cs;
    assert forall ys: seq<Value> :: chosen + ys == ys;
    for i := 0 to |cs|
      invariant ChooseManyFrom(cs, pct, rnd.source, old(rnd.used))
                == PrependOk(chosen, ChooseManyFrom(cs[i..], pct, rnd.source, rnd.used))
    {
      assert cs[i..][1..] == cs[i + 1..];
      var drawn := rnd.RandInt(100);
      var roll := drawn.value;
      var w :- RequiredOdds(cs[i]);
      if Passes(roll, w, pct) {
        ghost var before := chosen;
        chosen := chosen + [cs[i]];
        assert forall ys: seq<Value> :: chosen + ys == before + ([cs[i]] + ys);
      }
    }
    assert cs[|cs|..] == [];
    assert chosen + [] == chosen;
    return Ok(chosen);
  }
}

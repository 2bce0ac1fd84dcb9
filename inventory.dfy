/**
 * The inventory (constraint/inventory.py; the same class is repeated in main.py):
 * a list of item dicts, filters by class and category that build new
 * inventories, and the selection of one or many items in which a list of
 * desired substrings overrides the random choice.
 */
module Inventories {
  import opened Values
  import opened Sequences
  import opened Rng

  /** One condition an instruction step can impose on items. */
  datatype Test = ClassIs(name: Value) | InCategory(category: Value) | NotInCategory(category: Value)

  /** Whether item `x` passes `t`, evaluated the way the comprehension conditions are. */
  function Check(t: Test, x: Value): Result<bool>
  {
    match t
    case ClassIs(name) =>
      var c :- Index(x, "class");
      Ok(c == name)
    case InCategory(category) =>
      var has :- In(Str("categories"), x);
      if !has then Ok(false)
      else
        var categories :- Index(x, "categories");
        In(category, categories)
    case NotInCategory(category) =>
      var has :- In(Str("categories"), x);
      if !has then Ok(true)
      else
        var categories :- Index(x, "categories");
        var inside :- In(category, categories);
        Ok(!inside)
  }

  /** Which positions of `xs` hold an item that passes `t`. */
  function CheckMask(t: Test, xs: seq<Value>): (m: seq<bool>)
    ensures |m| == |xs|
    ensures forall i :: 0 <= i < |xs| ==> m[i] == (Check(t, xs[i]) == Ok(true))
  {
    seq(|xs|, i requires 0 <= i < |xs| => Check(t, xs[i]) == Ok(true))
  }

  /** `[x for x in xs if <t holds for x>]`. */
  function FilterBy(xs: seq<Value>, t: Test): Result<seq<Value>>
  {
    if xs == [] then Ok([])
    else
      var keep :- Check(t, xs[0]);
      var rest :- FilterBy(xs[1..], t);
      Ok((if keep then [xs[0]] else []) + rest)
  }

  /** A filter fails exactly when its test fails on some item; otherwise it keeps, in order, the items that pass. */
  lemma {:induction false} FilterBySelects(xs: seq<Value>, t: Test)
    ensures FilterBy(xs, t).Ok? <==> forall i :: 0 <= i < |xs| ==> Check(t, xs[i]).Ok?
    ensures FilterBy(xs, t).Ok? ==> FilterBy(xs, t).value == Select(xs, CheckMask(t, xs))
    decreases |xs|
  {
    if xs != [] {
      FilterBySelects(xs[1..], t);
      assert CheckMask(t, xs)[1..] == CheckMask(t, xs[1..]);
      assert forall i :: 1 <= i < |xs| ==> xs[i] == xs[1..][i - 1];
      if FilterBy(xs, t).Ok? {
        var rest := Select(xs[1..], CheckMask(t, xs[1..]));
        assert [] + rest == rest;
      }
    }
  }

  lemma FilterByMembership(xs: seq<Value>, t: Test)
    requires FilterBy(xs, t).Ok?
    ensures forall y :: y in FilterBy(xs, t).value <==> y in xs && Check(t, y) == Ok(true)
  {
    FilterBySelects(xs, t);
    forall y
      ensures y in FilterBy(xs, t).value <==> y in xs && Check(t, y) == Ok(true)
    {
      SelectMembership(xs, CheckMask(t, xs), y);
    }
  }

  /** The items of an inventory file. Selections build new inventories and never change `data`. */
  datatype Inventory = Inventory(data: seq<Value>) {

    /** The inventory of the items that pass `t`, in their original order. */
    function Filter(t: Test): (r: Result<Inventory>)
      ensures r.Ok? <==> forall x :: x in data ==> Check(t, x).Ok?
      ensures r.Ok? ==> IsSubsequence(r.value.data, data)
      ensures r.Ok? ==> forall y :: y in r.value.data <==> y in data && Check(t, y) == Ok(true)
    {
      FilterBySelects(data, t);
      if FilterBy(data, t).Ok? then
        SelectIsSubsequence(data, CheckMask(t, data));
        FilterByMembership(data, t);
        Ok(Inventory(FilterBy(data, t).value))
      else
        Err(FilterBy(data, t).error)
    }

    /** `select_class`: items whose `class` equals `name`. */
    function SelectClass(name: Value): Result<Inventory>
    {
      Filter(ClassIs(name))
    }

    /** `select_category`: items that have a `categories` entry containing `category`. */
    function SelectCategory(category: Value): Result<Inventory>
    {
      Filter(InCategory(category))
    }

    /** `select_not_category`: items without `categories`, or whose categories lack `category`. */
    function SelectNotCategory(category: Value): Result<Inventory>
    {
      Filter(NotInCategory(category))
    }
  }

  /** Applying the tests one after another, as the rebinding of `selection` does. */
  function ApplyTests(inv: Inventory, ts: seq<Test>): Result<Inventory>
    decreases |ts|
  {
    if ts == [] then Ok(inv)
    else
      var s :- inv.Filter(ts[0]);
      ApplyTests(s, ts[1..])
  }

  /** Whether `x` passes every test of `ts`. */
  predicate PassesAll(ts: seq<Test>, x: Value)
  {
    forall j :: 0 <= j < |ts| ==> Check(ts[j], x) == Ok(true)
  }

  /** Successive filters keep, in order, exactly the items that pass all of them. */
  lemma {:induction false} ApplyTestsConjunctive(inv: Inventory, ts: seq<Test>)
    requires ApplyTests(inv, ts).Ok?
    ensures IsSubsequence(ApplyTests(inv, ts).value.data, inv.data)
    ensures forall y :: y in ApplyTests(inv, ts).value.data <==> y in inv.data && PassesAll(ts, y)
    decreases |ts|
  {
    if ts == [] {
      IsSubsequenceReflexive(inv.data);
    } else {
      var s := inv.Filter(ts[0]).value;
      ApplyTestsConjunctive(s, ts[1..]);
      IsSubsequenceTransitive(ApplyTests(inv, ts).value.data, s.data, inv.data);
      forall y
        ensures PassesAll(ts, y) <==> Check(ts[0], y) == Ok(true) && PassesAll(ts[1..], y)
      {
        if Check(ts[0], y) == Ok(true) && PassesAll(ts[1..], y) {
          forall j | 1 <= j < |ts| ensures Check(ts[j], y) == Ok(true) {
            assert ts[j] == ts[1..][j - 1];
          }
        }
      }
    }
  }

  /** `not_category` tests for each entry of a list of categories. */
  function NotTests(cs: seq<Value>): (ts: seq<Test>)
    ensures |ts| == |cs|
    ensures forall i :: 0 <= i < |cs| ==> ts[i] == NotInCategory(cs[i])
  {
    seq(|cs|, i requires 0 <= i < |cs| => NotInCategory(cs[i]))
  }

  /** The test a `class` key imposes, if present. */
  function ClassTests(step: Value): Result<seq<Test>>
  {
    var has :- In(Str("class"), step);
    if !has then Ok([])
    else
      var name :- Index(step, "class");
      Ok([ClassIs(name)])
  }

  /** The test a `category` key imposes, if present. */
  function CategoryTests(step: Value): Result<seq<Test>>
  {
    var has :- In(Str("category"), step);
    if !has then Ok([])
    else
      var category :- Index(step, "category");
      Ok([InCategory(category)])
  }

  /** The tests a `not_category` condition imposes: one for a string, one per entry otherwise. */
  function ConditionTests(condition: Value): Result<seq<Test>>
  {
    if condition.Str? then Ok([NotInCategory(condition)])
    else
      var cs :- Iterate(condition);
      Ok(NotTests(cs))
  }

  /** The tests a `not_category` key imposes, if present. */
  function NotCategoryTests(step: Value): Result<seq<Test>>
  {
    var has :- In(Str("not_category"), step);
    if !has then Ok([])
    else
      var condition :- Index(step, "not_category");
      ConditionTests(condition)
  }

  /** `select_by_instruction(step)`: class, then category, then each not_category. */
  function SelectByInstructionSpec(inv: Inventory, step: Value): Result<Inventory>
  {
    var t1 :- ClassTests(step);
    var s1 :- ApplyTests(inv, t1);
    var t2 :- CategoryTests(step);
    var s2 :- ApplyTests(s1, t2);
    var t3 :- NotCategoryTests(step);
    ApplyTests(s2, t3)
  }

  /** All the tests a step imposes. */
  function StepTests(step: Value): Result<seq<Test>>
  {
    var t1 :- ClassTests(step);
    var t2 :- CategoryTests(step);
    var t3 :- NotCategoryTests(step);
    Ok(t1 + t2 + t3)
  }

  lemma PassesAllAppend(a: seq<Test>, b: seq<Test>, x: Value)
    ensures PassesAll(a + b, x) <==> PassesAll(a, x) && PassesAll(b, x)
  {
    if PassesAll(a, x) && PassesAll(b, x) {
      forall j | 0 <= j < |a + b| ensures Check((a + b)[j], x) == Ok(true) {
        if j >= |a| {
          assert (a + b)[j] == b[j - |a|];
        }
      }
    }
    if PassesAll(a + b, x) {
      forall j | 0 <= j < |a| ensures Check(a[j], x) == Ok(true) {
        assert (a + b)[j] == a[j];
      }
      forall j | 0 <= j < |b| ensures Check(b[j], x) == Ok(true) {
        assert (a + b)[|a| + j] == b[j];
      }
    }
  }

  /**
   * A successful selection keeps, in inventory order, exactly the items that pass every
   * filter the step names; keys the step lacks impose nothing.
   */
  lemma SelectByInstructionConjunctive(inv: Inventory, step: Value)
    requires SelectByInstructionSpec(inv, step).Ok?
    ensures StepTests(step).Ok?
    ensures IsSubsequence(SelectByInstructionSpec(inv, step).value.data, inv.data)
    ensures forall y :: y in SelectByInstructionSpec(inv, step).value.data
                    <==> y in inv.data && PassesAll(StepTests(step).value, y)
  {
    var t1, t2, t3 := ClassTests(step).value, CategoryTests(step).value, NotCategoryTests(step).value;
    var s1 := ApplyTests(inv, t1).value;
    var s2 := ApplyTests(s1, t2).value;
    var r := ApplyTests(s2, t3).value;
    ApplyTestsConjunctive(inv, t1);
    ApplyTestsConjunctive(s1, t2);
    ApplyTestsConjunctive(s2, t3);
    IsSubsequenceTransitive(s2.data, s1.data, inv.data);
    IsSubsequenceTransitive(r.data, s2.data, inv.data);
    forall y ensures PassesAll(t1 + t2 + t3, y) <==> PassesAll(t1, y) && PassesAll(t2, y) && PassesAll(t3, y) {
      PassesAllAppend(t1 + t2, t3, y);
      PassesAllAppend(t1, t2, y);
    }
  }

  /** A string condition acts like a one-element list of categories. */
  lemma StringConditionIsSingleton(category: string)
    ensures ConditionTests(Str(category)) == ConditionTests(List([Str(category)]))
  {
    assert NotTests([Str(category)]) == [NotInCategory(Str(category))];
  }

  /** A step naming none of the three keys selects the whole inventory. */
  lemma AbsentKeysSelectAll(inv: Inventory, fields: seq<Field>)
    requires forall i :: 0 <= i < |fields| ==> fields[i].key !in {"class", "category", "not_category"}
    ensures SelectByInstructionSpec(inv, Dict(fields)) == Ok(inv)
  {
  }

  /** For any category, each item lands in exactly one of select_category and select_not_category. */
  lemma CategoryPartition(inv: Inventory, category: Value)
    ensures inv.SelectCategory(category).Ok? <==> inv.SelectNotCategory(category).Ok?
    ensures inv.SelectCategory(category).Ok? ==>
              |inv.SelectCategory(category).value.data| + |inv.SelectNotCategory(category).value.data| == |inv.data|
    ensures inv.SelectCategory(category).Ok? ==>
              forall x :: x in inv.data ==>
                (x in inv.SelectCategory(category).value.data <==> x !in inv.SelectNotCategory(category).value.data)
  {
    var yes, no := InCategory(category), NotInCategory(category);
    assert forall x :: Check(yes, x).Ok? <==> Check(no, x).Ok?;
    assert forall x :: Check(yes, x).Ok? ==> Check(no, x).value == !Check(yes, x).value;
    if inv.SelectCategory(category).Ok? {
      FilterBySelects(inv.data, yes);
      FilterBySelects(inv.data, no);
      SelectLength(inv.data, CheckMask(yes, inv.data));
      SelectLength(inv.data, CheckMask(no, inv.data));
      CountComplement(CheckMask(yes, inv.data), CheckMask(no, inv.data));
    }
  }

  /** An item without a `categories` field is never selected by category and always by not-category. */
  lemma NoCategoriesField(inv: Inventory, category: Value, x: Value)
    requires x in inv.data && x.Dict? && !HasKey(x, "categories")
    ensures inv.SelectCategory(category).Ok? ==> x !in inv.SelectCategory(category).value.data
    ensures inv.SelectNotCategory(category).Ok? ==> x in inv.SelectNotCategory(category).value.data
  {
    assert Check(InCategory(category), x) == Ok(false);
    assert Check(NotInCategory(category), x) == Ok(true);
  }

  method SelectByInstruction(inv: Inventory, step: Value) returns (res: Result<Inventory>)
    ensures res == SelectByInstructionSpec(inv, step)
  {
    var selection := inv;
    var hasClass :- In(Str("class"), step);
    if hasClass {
      var name :- Index(step, "class");
      assert ApplyTests(inv, [ClassIs(name)]) == inv.SelectClass(name);
      selection :- selection.SelectClass(name);
    }
    assert ApplyTests(inv, ClassTests(step).value) == Ok(selection);
    var hasCategory :- In(Str("category"), step);
    ghost var s1 := selection;
    if hasCategory {
      var category :- Index(step, "category");
      assert ApplyTests(s1, [InCategory(category)]) == s1.SelectCategory(category);
      selection :- selection.SelectCategory(category);
    }
    assert ApplyTests(s1, CategoryTests(step).value) == Ok(selection);
    var hasNot :- In(Str("not_category"), step);
    ghost var s2 := selection;
    if hasNot {
      var condition :- Index(step, "not_category");
      if condition.Str? {
        assert ApplyTests(s2, [NotInCategory(condition)]) == s2.SelectNotCategory(condition);
        selection :- selection.SelectNotCategory(condition);
      } else {
        var cs :- Iterate(condition);
        selection :- SelectNotCategories(selection, cs);
      }
    }
    return Ok(selection);
  }

  /** The loop over a list-valued `not_category`: one select_not_category per entry, in order. */
  method SelectNotCategories(inv: Inventory, cs: seq<Value>) returns (res: Result<Inventory>)
    ensures res == ApplyTests(inv, NotTests(cs))
  {
    var selection := inv;
    for i := 0 to |cs|
      invariant ApplyTests(inv, NotTests(cs)) == ApplyTests(selection, NotTests(cs[i..]))
    {
      assert NotTests(cs[i..])[1..] == NotTests(cs[i + 1..]);
      selection :- selection.SelectNotCategory(cs[i]);
    }
    assert cs[|cs|..] == [];
    return Ok(selection);
  }

  /* ---------------- desired items ---------------- */

  /** The description of an item, when it is a string. */
  function Description(x: Value): Option<string>
  {
    if x.Dict? then
      match Lookup(x.fields, "description")
      case Some(Str(s)) => Some(s)
      case _ => None
    else None
  }

  /** Every item has a string description. */
  ghost predicate AllDescribed(xs: seq<Value>)
  {
    forall x :: x in xs ==> Description(x).Some?
  }

  /** Whether `sub` occurs in the description of `x`. */
  predicate Matches(x: Value, sub: string)
  {
    Description(x).Some? && IsSubstring(sub, Description(x).value)
  }

  /** The inner loop: the description of the first item whose description contains `sub`. */
  function FirstMatch(xs: seq<Value>, sub: string): Result<Option<Value>>
  {
    if xs == [] then Ok(None)
    else
      var d :- Index(xs[0], "description");
      var hit :- In(Str(sub), d);
      if hit then Ok(Some(d)) else FirstMatch(xs[1..], sub)
  }

  /**
   * The inner loop shared by `choose_item_or_required` and
   * `choose_many_items_including_required`: the description of the first item, in order,
   * whose description contains `sub`; it fails on the first item without a description.
   */
  method FindMatch(xs: seq<Value>, sub: string) returns (res: Result<Option<Value>>)
    ensures res == FirstMatch(xs, sub)
  {
    for i := 0 to |xs|
      invariant FirstMatch(xs, sub) == FirstMatch(xs[i..], sub)
    {
      assert xs[i..][1..] == xs[i + 1..];
      var d :- Index(xs[i], "description");
      var hit :- In(Str(sub), d);
      if hit {
        return Ok(Some(d));
      }
    }
    assert xs[|xs|..] == [];
    return Ok(None);
  }

  /** The nested loops of `choose_item_or_required`: the first match of the first substring that has one. */
  function FirstRequired(xs: seq<Value>, required: seq<string>): Result<Option<Value>>
  {
    if required == [] then Ok(None)
    else
      var m :- FirstMatch(xs, required[0]);
      if m.Some? then Ok(m) else FirstRequired(xs, required[1..])
  }

  lemma {:induction false} FirstMatchIsFirst(xs: seq<Value>, sub: string)
    requires AllDescribed(xs)
    ensures FirstMatch(xs, sub).Ok?
    ensures FirstMatch(xs, sub).value.None? <==> forall x :: x in xs ==> !Matches(x, sub)
    ensures FirstMatch(xs, sub).value.Some? ==>
              exists i :: 0 <= i < |xs| && Matches(xs[i], sub)
                && FirstMatch(xs, sub).value.value == Str(Description(xs[i]).value)
                && forall j :: 0 <= j < i ==> !Matches(xs[j], sub)
    decreases |xs|
  {
    if xs != [] {
      assert AllDescribed(xs[1..]) by {
        forall x | x in xs[1..] ensures x in xs { }
      }
      FirstMatchIsFirst(xs[1..], sub);
      FirstMatchStep(xs, sub);
      if !Matches(xs[0], sub) {
        assert forall x :: x in xs <==> x == xs[0] || x in xs[1..];
        if FirstMatch(xs, sub).value.Some? {
          FirstIndexShift(xs, sub, FirstMatch(xs, sub).value.value);
        }
      }
    }
  }

  /** One step of the inner loop on a described item: it matches, or the search moves on. */
  lemma FirstMatchStep(xs: seq<Value>, sub: string)
    requires xs != [] && Description(xs[0]).Some?
    ensures FirstMatch(xs, sub)
            == if Matches(xs[0], sub) then Ok(Some(Str(Description(xs[0]).value))) else FirstMatch(xs[1..], sub)
  {
  }

  /** A first matching index of the tail, after a head that does not match, is one of the whole. */
  lemma FirstIndexShift(xs: seq<Value>, sub: string, d: Value)
    requires xs != [] && !Matches(xs[0], sub)
    requires exists i :: 0 <= i < |xs[1..]| && Matches(xs[1..][i], sub)
               && d == Str(Description(xs[1..][i]).value)
               && forall j :: 0 <= j < i ==> !Matches(xs[1..][j], sub)
    ensures exists i :: 0 <= i < |xs| && Matches(xs[i], sub)
              && d == Str(Description(xs[i]).value)
              && forall j :: 0 <= j < i ==> !Matches(xs[j], sub)
  {
    var i :| 0 <= i < |xs[1..]| && Matches(xs[1..][i], sub)
             && d == Str(Description(xs[1..][i]).value)
             && forall j :: 0 <= j < i ==> !Matches(xs[1..][j], sub);
    assert forall j :: 1 <= j < i + 1 ==> xs[j] == xs[1..][j - 1];
    assert Matches(xs[i + 1], sub);
  }

  /** Whether some item of `xs` has `sub` in its description. */
  ghost predicate Occurs(xs: seq<Value>, sub: string)
  {
    exists x :: x in xs && Matches(x, sub)
  }

  /**
   * With every item described, the required search never fails; it finds nothing exactly when
   * no substring occurs, and otherwise returns a description holding the first substring, in
   * required order, that occurs anywhere.
   */
  lemma {:induction false} FirstRequiredIsFirst(xs: seq<Value>, required: seq<string>)
    requires AllDescribed(xs)
    ensures FirstRequired(xs, required).Ok?
    ensures FirstRequired(xs, required).value.None? <==> forall k :: 0 <= k < |required| ==> !Occurs(xs, required[k])
    ensures FirstRequired(xs, required).value.Some? ==>
              exists k, x :: 0 <= k < |required| && x in xs && Matches(x, required[k])
                && FirstRequired(xs, required).value.value == Str(Description(x).value)
                && forall k' :: 0 <= k' < k ==> !Occurs(xs, required[k'])
    decreases |required|
  {
    if required != [] {
      FirstMatchIsFirst(xs, required[0]);
      FirstRequiredIsFirst(xs, required[1..]);
      var m := FirstMatch(xs, required[0]).value;
      if m.Some? {
        var i :| 0 <= i < |xs| && Matches(xs[i], required[0]) && m.value == Str(Description(xs[i]).value)
                 && forall j :: 0 <= j < i ==> !Matches(xs[j], required[0]);
        assert Occurs(xs, required[0]);
        assert Matches(xs[i], required[0]);
      } else {
        assert !Occurs(xs, required[0]);
        assert FirstRequired(xs, required) == FirstRequired(xs, required[1..]);
        NoneOccurShift(xs, required);
        if FirstRequired(xs, required).value.Some? {
          FirstOccurringShift(xs, required, FirstRequired(xs, required).value.value);
        }
      }
    }
  }

  /** Skipping a first substring that occurs nowhere changes nothing about which occur. */
  lemma NoneOccurShift(xs: seq<Value>, required: seq<string>)
    requires required != [] && !Occurs(xs, required[0])
    ensures (forall k :: 0 <= k < |required| ==> !Occurs(xs, required[k]))
            <==> (forall k :: 0 <= k < |required[1..]| ==> !Occurs(xs, required[1..][k]))
  {
    assert forall k :: 1 <= k < |required| ==> required[k] == required[1..][k - 1];
  }

  /** The first occurring substring after a first one that occurs nowhere is the first overall. */
  lemma FirstOccurringShift(xs: seq<Value>, required: seq<string>, d: Value)
    requires required != [] && !Occurs(xs, required[0])
    requires exists k, x :: 0 <= k < |required[1..]| && x in xs && Matches(x, required[1..][k])
               && d == Str(Description(x).value)
               && forall k' :: 0 <= k' < k ==> !Occurs(xs, required[1..][k'])
    ensures exists k, x :: 0 <= k < |required| && x in xs && Matches(x, required[k])
              && d == Str(Description(x).value)
              && forall k' :: 0 <= k' < k ==> !Occurs(xs, required[k'])
  {
    var k, x :| 0 <= k < |required[1..]| && x in xs && Matches(x, required[1..][k])
                && d == Str(Description(x).value)
                && forall k' :: 0 <= k' < k ==> !Occurs(xs, required[1..][k']);
    assert forall k' :: 1 <= k' < k + 1 ==> required[k'] == required[1..][k' - 1];
    assert Matches(x, required[k + 1]);
  }

  /** What `choose_item_or_required` returns: a matched description, or the random pick. */
  datatype Choice = Required(description: Value) | Picked(item: Option<Value>)

  /** `choose_item_or_required(required, pct / 100)` drawing from position `at`. */
  function ChooseItemOrRequiredSpec(inv: Inventory, required: seq<string>, pct: int, source: nat -> nat, at: nat): Drawn<Choice>
  {
    var shuffled := ShuffleAt(inv.data, source, at);
    var after := at + ShuffleDraws(|inv.data|);
    match FirstRequired(shuffled, required)
    case Err(e) => Drawn(Err(e), after)
    case Ok(Some(d)) => Drawn(Ok(Required(d)), after)
    case Ok(None) =>
      var m := MaybeChooseItemSpec(List(inv.data), pct as real / 100.0, source, after);
      match m.result
      case Ok(item) => Drawn(Ok(Picked(item)), m.next)
      case Err(e) => Drawn(Err(e), m.next)
  }

  lemma ShufflePreservesDescribed(xs: seq<Value>, source: nat -> nat, at: nat)
    requires AllDescribed(xs)
    ensures AllDescribed(ShuffleAt(xs, source, at))
    ensures forall sub :: Occurs(ShuffleAt(xs, source, at), sub) <==> Occurs(xs, sub)
  {
    ShufflePermutes(xs, source, at);
  }

  /**
   * When a desired substring occurs in some description, the result is such a description
   * holding the first desired substring that occurs, whatever the odds, and no gate or
   * weighted draw is taken after the shuffle.
   */
  lemma RequiredOverridesRandom(inv: Inventory, required: seq<string>, pct: int, source: nat -> nat, at: nat)
    requires AllDescribed(inv.data)
    requires exists k :: 0 <= k < |required| && Occurs(inv.data, required[k])
    ensures var d := ChooseItemOrRequiredSpec(inv, required, pct, source, at);
            d.next == at + ShuffleDraws(|inv.data|) && d.result.Ok? && d.result.value.Required?
            && exists k, x :: 0 <= k < |required| && x in inv.data && Matches(x, required[k])
                 && d.result.value.description == Str(Description(x).value)
                 && forall k' :: 0 <= k' < k ==> !Occurs(inv.data, required[k'])
  {
    var shuffled := ShuffleAt(inv.data, source, at);
    ShufflePermutes(inv.data, source, at);
    ShufflePreservesDescribed(inv.data, source, at);
    FirstRequiredIsFirst(shuffled, required);
  }

  /** When no desired substring occurs, the result is the gated weighted pick over the unshuffled items. */
  lemma NoRequiredFallsBack(inv: Inventory, required: seq<string>, pct: int, source: nat -> nat, at: nat)
    requires AllDescribed(inv.data)
    requires forall k :: 0 <= k < |required| ==> !Occurs(inv.data, required[k])
    ensures var d := ChooseItemOrRequiredSpec(inv, required, pct, source, at);
            var m := MaybeChooseItemSpec(List(inv.data), pct as real / 100.0, source, at + ShuffleDraws(|inv.data|));
            d.next == m.next && (d.result.Ok? <==> m.result.Ok?)
            && (m.result.Ok? ==> d.result.value == Picked(m.result.value))
  {
    var shuffled := ShuffleAt(inv.data, source, at);
    ShufflePreservesDescribed(inv.data, source, at);
    FirstRequiredIsFirst(shuffled, required);
  }

  method ChooseItemOrRequired(inv: Inventory, required: seq<string>, pct: int, rnd: Random) returns (res: Result<Choice>)
    modifies rnd
    ensures var d := ChooseItemOrRequiredSpec(inv, required, pct, rnd.source, old(rnd.used));
            res == d.result && (res.Ok? ==> rnd.used == d.next)
  {
    var shuffled := rnd.Shuffle(inv.data);
    for k := 0 to |required|
      invariant rnd.used == old(rnd.used) + ShuffleDraws(|inv.data|)
      invariant FirstRequired(shuffled, required) == FirstRequired(shuffled, required[k..])
    {
      assert required[k..][1..] == required[k + 1..];
      var found :- FindMatch(shuffled, required[k]);
      if found.Some? {
        return Ok(Required(found.value));
      }
    }
    assert required[|required|..] == [];
    var item :- MaybeChooseItem(List(inv.data), pct as real / 100.0, rnd);
    return Ok(Picked(item));
  }

  /** The first loop of `choose_many_items_including_required`: one description per substring that matches. */
  function RequiredMatches(xs: seq<Value>, required: seq<string>): Result<seq<Value>>
  {
    if required == [] then Ok([])
    else
      var m :- FirstMatch(xs, required[0]);
      var rest :- RequiredMatches(xs, required[1..]);
      Ok((if m.Some? then [m.value] else []) + rest)
  }

  /** `v` is the description of an item of `xs` that contains `sub`. */
  ghost predicate DescribesMatch(v: Value, xs: seq<Value>, sub: string)
  {
    exists x :: x in xs && Matches(x, sub) && v == Str(Description(x).value)
  }

  /** The desired substrings that occur in some description, in required order. */
  ghost function Occurring(xs: seq<Value>, required: seq<string>): seq<string>
  {
    if required == [] then []
    else (if Occurs(xs, required[0]) then [required[0]] else []) + Occurring(xs, required[1..])
  }

  /**
   * The required pass yields, in required order, one description per desired substring that
   * occurs, holding that substring; substrings that occur nowhere add nothing.
   */
  lemma {:induction false} RequiredMatchesInOrder(xs: seq<Value>, required: seq<string>)
    requires AllDescribed(xs)
    ensures RequiredMatches(xs, required).Ok?
    ensures |RequiredMatches(xs, required).value| == |Occurring(xs, required)|
    ensures forall j :: 0 <= j < |Occurring(xs, required)| ==>
              DescribesMatch(RequiredMatches(xs, required).value[j], xs, Occurring(xs, required)[j])
    decreases |required|
  {
    if required != [] {
      FirstMatchIsFirst(xs, required[0]);
      RequiredMatchesInOrder(xs, required[1..]);
      var m := FirstMatch(xs, required[0]).value;
      var rest := RequiredMatches(xs, required[1..]).value;
      var occ := Occurring(xs, required[1..]);
      if m.Some? {
        var i :| 0 <= i < |xs| && Matches(xs[i], required[0]) && m.value == Str(Description(xs[i]).value);
        assert xs[i] in xs;
        assert Occurs(xs, required[0]);
        assert Occurring(xs, required) == [required[0]] + occ;
        assert RequiredMatches(xs, required).value == [m.value] + rest;
        ConsMatches(xs, required[0], m.value, rest, occ);
      } else {
        assert !Occurs(xs, required[0]);
      }
    }
  }

  /** A matching description in front of matching descriptions, substring by substring. */
  lemma ConsMatches(xs: seq<Value>, sub: string, d: Value, rest: seq<Value>, occ: seq<string>)
    requires DescribesMatch(d, xs, sub)
    requires |rest| == |occ| && forall j :: 0 <= j < |occ| ==> DescribesMatch(rest[j], xs, occ[j])
    ensures forall j :: 0 <= j < |occ| + 1 ==> DescribesMatch(([d] + rest)[j], xs, ([sub] + occ)[j])
  {
    forall j | 0 <= j < |occ| + 1
      ensures DescribesMatch(([d] + rest)[j], xs, ([sub] + occ)[j])
    {
      if j > 0 {
        assert ([d] + rest)[j] == rest[j - 1] && ([sub] + occ)[j] == occ[j - 1];
      }
    }
  }

  /** The second loop: append each description not already present. */
  function AppendNew(acc: seq<Value>, more: seq<Value>): Result<seq<Value>>
    decreases |more|
  {
    if more == [] then Ok(acc)
    else
      var d :- Index(more[0], "description");
      AppendNew(if d in acc then acc else acc + [d], more[1..])
  }

  /**
   * The random pass only appends: it keeps the required matches as they are, every
   * description it adds was absent when added (so the additions repeat neither each other nor
   * a required match), and every picked item's description ends up in the list.
   */
  lemma {:induction false} AppendNewAddsOnlyNew(acc: seq<Value>, more: seq<Value>)
    requires AppendNew(acc, more).Ok?
    ensures var r := AppendNew(acc, more).value;
            |acc| <= |r| && r[..|acc|] == acc
            && NoDuplicates(r[|acc|..]) && (forall e :: e in r[|acc|..] ==> e !in acc)
            && forall m :: m in more ==> Index(m, "description").Ok? && Index(m, "description").value in r
    decreases |more|
  {
    if more != [] {
      var d := Index(more[0], "description").value;
      var acc' := if d in acc then acc else acc + [d];
      AppendNewAddsOnlyNew(acc', more[1..]);
      var r := AppendNew(acc, more).value;
      assert r == AppendNew(acc', more[1..]).value;
      assert r[..|acc'|] == acc';
      assert r[..|acc|] == acc by {
        assert r[..|acc|] == r[..|acc'|][..|acc|];
      }
      var extra := r[|acc|..];
      assert d in r by {
        assert d in acc';
        assert forall e :: e in acc' ==> e in r[..|acc'|];
      }
      forall m | m in more ensures Index(m, "description").Ok? && Index(m, "description").value in r {
        if m != more[0] {
          assert m in more[1..];
        }
      }
      if d !in acc {
        assert extra == [d] + r[|acc'|..];
        forall e | e in extra ensures e !in acc {
          if e != d {
            assert e in r[|acc'|..];
          }
        }
        forall i, j | 0 <= i < j < |extra| ensures extra[i] != extra[j] {
          if i == 0 {
            assert extra[j] in r[|acc'|..];
          } else {
            assert extra[i] == r[|acc'|..][i - 1] && extra[j] == r[|acc'|..][j - 1];
          }
        }
      } else {
        assert extra == r[|acc'|..];
      }
    }
  }

  /** Conversely, every description the random pass adds is the description of a picked item. */
  lemma {:induction false} AppendNewAddsOnlyPicked(acc: seq<Value>, more: seq<Value>)
    requires AppendNew(acc, more).Ok?
    ensures var r := AppendNew(acc, more).value;
            |acc| <= |r|
            && forall e :: e in r[|acc|..] ==> exists m :: m in more && Index(m, "description") == Ok(e)
    decreases |more|
  {
    AppendNewAddsOnlyNew(acc, more);
    if more != [] {
      var d := Index(more[0], "description").value;
      var acc' := if d in acc then acc else acc + [d];
      AppendNewAddsOnlyPicked(acc', more[1..]);
      AppendNewAddsOnlyNew(acc', more[1..]);
      var r := AppendNew(acc, more).value;
      assert r == AppendNew(acc', more[1..]).value;
      forall e | e in r[|acc|..]
        ensures exists m :: m in more && Index(m, "description") == Ok(e)
      {
        if e in r[|acc'|..] {
          var m :| m in more[1..] && Index(m, "description") == Ok(e);
          assert m in more;
        } else {
          assert |acc'| == |acc| + 1 && acc' == acc + [d];
          assert r[|acc|..] == [r[|acc|]] + r[|acc'|..];
          assert r[|acc|] == r[..|acc'|][|acc|] == d;
          assert more[0] in more;
        }
      }
    }
  }

  /** `choose_many_items_including_required(required, pct / 100)` drawing from position `at`. */
  function ChooseManyIncludingRequiredSpec(inv: Inventory, required: seq<string>, pct: int, source: nat -> nat, at: nat): Drawn<seq<Value>>
  {
    var shuffled := ShuffleAt(inv.data, source, at);
    var after := at + ShuffleDraws(|inv.data|);
    match RequiredMatches(shuffled, required)
    case Err(e) => Drawn(Err(e), after)
    case Ok(choices) =>
      var more := ChooseManySpec(List(inv.data), pct, source, after);
      match more.result
      case Err(e) => Drawn(Err(e), more.next)
      case Ok(ms) => Drawn(AppendNew(choices, ms), more.next)
  }

  /**
   * The list starts with one description per desired substring that occurs, in required
   * order; after it come only descriptions of randomly kept items, none repeated and none
   * equal to a required match.
   */
  lemma ChooseManyIncludingRequiredShape(inv: Inventory, required: seq<string>, pct: int, source: nat -> nat, at: nat)
    requires AllDescribed(inv.data)
    requires ChooseManyIncludingRequiredSpec(inv, required, pct, source, at).result.Ok?
    ensures var r := ChooseManyIncludingRequiredSpec(inv, required, pct, source, at).result.value;
            var occ := Occurring(inv.data, required);
            |occ| <= |r|
            && (forall j :: 0 <= j < |occ| ==> DescribesMatch(r[j], inv.data, occ[j]))
            && NoDuplicates(r[|occ|..])
            && forall e :: e in r[|occ|..] ==> e !in r[..|occ|]
  {
    var shuffled := ShuffleAt(inv.data, source, at);
    ShufflePermutes(inv.data, source, at);
    ShufflePreservesDescribed(inv.data, source, at);
    RequiredMatchesInOrder(shuffled, required);
    assert Occurring(shuffled, required) == Occurring(inv.data, required) by {
      OccurringAgrees(shuffled, inv.data, required);
    }
    var choices := RequiredMatches(shuffled, required).value;
    var more := ChooseManySpec(List(inv.data), pct, source, at + ShuffleDraws(|inv.data|));
    AppendNewAddsOnlyNew(choices, more.result.value);
    var r := ChooseManyIncludingRequiredSpec(inv, required, pct, source, at).result.value;
    assert r == AppendNew(choices, more.result.value).value;
    var occ := Occurring(inv.data, required);
    assert |choices| == |occ|;
    forall j | 0 <= j < |occ|
      ensures DescribesMatch(r[j], inv.data, occ[j])
    {
      assert r[j] == r[..|choices|][j] == choices[j];
      assert DescribesMatch(choices[j], shuffled, occ[j]);
      var x :| x in shuffled && Matches(x, occ[j]) && choices[j] == Str(Description(x).value);
      assert x in inv.data;
    }
    assert |occ| <= |r|;
    assert NoDuplicates(r[|occ|..]);
    assert forall e :: e in r[|occ|..] ==> e !in r[..|occ|];
  }

  /**
   * After the required matches, the list holds exactly the descriptions of the items the
   * random pass kept (one d100 roll per inventory item, after the shuffle's draws) that are
   * not already among the required matches.
   */
  lemma ChooseManyIncludingRequiredTail(inv: Inventory, required: seq<string>, pct: int, source: nat -> nat, at: nat)
    requires AllDescribed(inv.data)
    requires ChooseManyIncludingRequiredSpec(inv, required, pct, source, at).result.Ok?
    ensures RequiredOddsAll(inv.data).Ok?
    ensures var r := ChooseManyIncludingRequiredSpec(inv, required, pct, source, at).result.value;
            var occ := Occurring(inv.data, required);
            var kept := Select(inv.data, KeepMask(RequiredOddsAll(inv.data).value, pct, source, at + ShuffleDraws(|inv.data|)));
            |occ| <= |r|
            && forall e :: e in r[|occ|..]
                 <==> e !in r[..|occ|] && exists m :: m in kept && Index(m, "description") == Ok(e)
  {
    var shuffled := ShuffleAt(inv.data, source, at);
    ShufflePermutes(inv.data, source, at);
    ShufflePreservesDescribed(inv.data, source, at);
    RequiredMatchesInOrder(shuffled, required);
    assert Occurring(shuffled, required) == Occurring(inv.data, required) by {
      OccurringAgrees(shuffled, inv.data, required);
    }
    var choices := RequiredMatches(shuffled, required).value;
    var after := at + ShuffleDraws(|inv.data|);
    ChooseManyFromKeepsPassing(inv.data, pct, source, after);
    var kept := Select(inv.data, KeepMask(RequiredOddsAll(inv.data).value, pct, source, after));
    assert ChooseManySpec(List(inv.data), pct, source, after).result == Ok(kept);
    AppendNewTail(choices, kept);
    var r := ChooseManyIncludingRequiredSpec(inv, required, pct, source, at).result.value;
    assert r == AppendNew(choices, kept).value;
    assert |choices| == |Occurring(inv.data, required)|;
  }

  /**
   * What the random pass appends to `acc`: exactly the descriptions of the items of `more`
   * that `acc` does not already hold.
   */
  lemma AppendNewTail(acc: seq<Value>, more: seq<Value>)
    requires AppendNew(acc, more).Ok?
    ensures var r := AppendNew(acc, more).value;
            |acc| <= |r| && r[..|acc|] == acc
            && forall e :: e in r[|acc|..]
                 <==> e !in acc && exists m :: m in more && Index(m, "description") == Ok(e)
  {
    AppendNewAddsOnlyNew(acc, more);
    AppendNewAddsOnlyPicked(acc, more);
    var r := AppendNew(acc, more).value;
    assert r == r[..|acc|] + r[|acc|..];
    forall e
      ensures e in r[|acc|..] <==> e !in acc && exists m :: m in more && Index(m, "description") == Ok(e)
    {
      if e !in acc && exists m :: m in more && Index(m, "description") == Ok(e) {
        var m :| m in more && Index(m, "description") == Ok(e);
        assert e in r;
      }
    }
  }

  lemma {:induction false} OccurringAgrees(xs: seq<Value>, ys: seq<Value>, required: seq<string>)
    requires forall sub :: Occurs(xs, sub) <==> Occurs(ys, sub)
    ensures Occurring(xs, required) == Occurring(ys, required)
    decreases |required|
  {
    if required != [] {
      OccurringAgrees(xs, ys, required[1..]);
    }
  }

  /** Two desired substrings that match the same item add its description twice. */
  lemma DuplicateRequiredMatches(source: nat -> nat, at: nat, pct: int)
    ensures var handcuffs := Dict([Field("description", Str("handcuffs")), Field("odds", Int(0))]);
            ChooseManyIncludingRequiredSpec(Inventory([handcuffs]), ["cuff", "hand"], pct, source, at)
            == Drawn(Ok([Str("handcuffs"), Str("handcuffs")]), at + 1)
  {
    var handcuffs := Dict([Field("description", Str("handcuffs")), Field("odds", Int(0))]);
    assert IsSubstring("cuff", "handcuffs") by {
      assert "cuff" <= "handcuffs"[4..];
      assert "handcuffs"[4..] == "handcuffs"[1..][1..][1..][1..];
    }
    assert IsSubstring("hand", "handcuffs") by {
      assert "hand" <= "handcuffs";
    }
    var inv := Inventory([handcuffs]);
    assert ShuffleAt(inv.data, source, at) == inv.data;
    assert FirstMatch(inv.data, "cuff") == Ok(Some(Str("handcuffs")));
    assert FirstMatch(inv.data, "hand") == Ok(Some(Str("handcuffs")));
    assert RequiredMatches(inv.data, ["cuff", "hand"]) == Ok([Str("handcuffs"), Str("handcuffs")]) by {
      assert ["cuff", "hand"][1..] == ["hand"];
      assert ["hand"][1..] == [];
      assert [Str("handcuffs")] + [] == [Str("handcuffs")];
      assert RequiredMatches(inv.data, ["hand"]) == Ok([Str("handcuffs")]);
      assert [Str("handcuffs")] + [Str("handcuffs")] == [Str("handcuffs"), Str("handcuffs")];
    }
    RandIntInRange(source, at, 100);
    var roll := D100(source, at);
    assert !Passes(roll, 0, pct);
    assert RequiredOdds(handcuffs) == Ok(0);
    assert inv.data[1..] == [];
    assert ChooseManyFrom(inv.data[1..], pct, source, at + 1) == Drawn(Ok([]), at + 1);
    assert ChooseManyFrom(inv.data, pct, source, at) == Drawn(Ok([]), at + 1);
    assert ChooseManySpec(List(inv.data), pct, source, at) == Drawn(Ok([]), at + 1);
  }

  method ChooseManyIncludingRequired(inv: Inventory, required: seq<string>, pct: int, rnd: Random)
    returns (res: Result<seq<Value>>)
    modifies rnd
    ensures var d := ChooseManyIncludingRequiredSpec(inv, required, pct, rnd.source, old(rnd.used));
            res == d.result && (res.Ok? ==> rnd.used == d.next)
  {
    var choices := [];
    var shuffled := rnd.Shuffle(inv.data);
    for k := 0 to |required|
      invariant rnd.used == old(rnd.used) + ShuffleDraws(|inv.data|)
      invariant RequiredMatches(shuffled, required).Ok? ==>
                  RequiredMatches(shuffled, required[k..]).Ok?
                  && RequiredMatches(shuffled, required).value == choices + RequiredMatches(shuffled, required[k..]).value
      invariant RequiredMatches(shuffled, required).Err? ==>
                  RequiredMatches(shuffled, required) == RequiredMatches(shuffled, required[k..])
    {
      assert required[k..][1..] == required[k + 1..];
      var found :- FindMatch(shuffled, required[k]);
      if found.Some? {
        choices := choices + [found.value];
      }
    }
    assert required[|required|..] == [];
    assert choices + [] == choices;
    var more :- ChooseManyItems(List(inv.data), pct, rnd);
    ghost var required_matches := choices;
    for j := 0 to |more|
      invariant AppendNew(required_matches, more) == AppendNew(choices, more[j..])
    {
      assert more[j..][1..] == more[j + 1..];
      var d :- Index(more[j], "description");
      if d !in choices {
        choices := choices + [d];
      }
    }
    assert more[|more|..] == [];
    return Ok(choices);
  }
}

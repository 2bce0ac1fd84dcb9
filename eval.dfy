/**
 * The instruction evaluator (constraint/eval.py; the same functions are repeated
 * in main.py). A scenario is a list of instructions; each instruction is
 * interpolated against the variables set so far, then dispatched on the first
 * selector key it holds, printing paragraphs and lines and setting variables as
 * it goes. Each operation has a specification function over an explicit state
 * (variables, output written so far, random draws used) and a method of the
 * `Evaluator` class that updates that state in place, proved to agree with it.
 */
module Eval {
  import opened Values
  import opened Sequences
  import opened Rng
  import opened Inventories
  import opened Interpolation

  /** What the engine writes: `print_paragraph(msg)` and `println(msg)`. */
  datatype Event = Paragraph(text: Value) | Line(text: Value)

  /** What evaluation changes: the variables, the output so far, the draws used. */
  datatype Run = Run(env: Env, log: seq<Event>, used: nat)

  /** What stays fixed while a scenario runs. */
  datatype Context = Context(desired: seq<string>, inventory: Inventory, render: Render, source: nat -> nat)

  /** Whether an evaluation succeeded, forgetting its value. */
  function Status<T>(r: Result<T>): Result<()>
  {
    if r.Ok? then Ok(()) else Err(r.error)
  }

  /* ---------------- eval_set ---------------- */

  /** `eval_set(env, instruction)`. */
  function EvalSetSpec(env: Env, instruction: Value): Result<Env>
  {
    var has :- In(Str("set"), instruction);
    if !has then Ok(env)
    else
      var statement :- Index(instruction, "set");
      if statement.Str? then Ok(env[statement := Bool(true)])
      else
        var value :- Index(statement, "value");
        var name :- Index(statement, "name");
        if !Hashable(name) then Err(TypeError) else Ok(env[name := value])
  }

  /**
   * eval_set writes at most one variable, the same one whatever the environment: its result
   * is the environment overridden by what it writes into an empty one.
   */
  lemma EvalSetOverrides(env: Env, instruction: Value)
    ensures EvalSetSpec(env, instruction).Ok? <==> EvalSetSpec(map[], instruction).Ok?
    ensures EvalSetSpec(env, instruction).Ok? ==>
              |EvalSetSpec(map[], instruction).value| <= 1
              && EvalSetSpec(env, instruction).value == env + EvalSetSpec(map[], instruction).value
  {
    var has := In(Str("set"), instruction);
    if has.Ok? && has.value && Index(instruction, "set").Ok? {
      var statement := Index(instruction, "set").value;
      if statement.Str? {
        assert EvalSetSpec(map[], instruction) == Ok(map[statement := Bool(true)]);
        assert env[statement := Bool(true)] == env + map[statement := Bool(true)];
      } else if Index(statement, "value").Ok? && Index(statement, "name").Ok? && Hashable(Index(statement, "name").value) {
        var name, value := Index(statement, "name").value, Index(statement, "value").value;
        assert EvalSetSpec(map[], instruction) == Ok(map[name := value]);
        assert env[name := value] == env + map[name := value];
      }
    }
  }

  /** Without `set` nothing changes; `set: s` makes s true; `set: {name, value}` binds name to value. */
  lemma EvalSetCases(env: Env, fields: seq<Field>)
    ensures Lookup(fields, "set").None? ==> EvalSetSpec(env, Dict(fields)) == Ok(env)
    ensures Lookup(fields, "set").Some? && Lookup(fields, "set").value.Str? ==>
              EvalSetSpec(env, Dict(fields)) == Ok(env[Lookup(fields, "set").value := Bool(true)])
    ensures Lookup(fields, "set").Some? && Lookup(fields, "set").value.Dict? ==>
              var s := Lookup(fields, "set").value;
              HasKey(s, "name") && HasKey(s, "value") && Hashable(Lookup(s.fields, "name").value) ==>
                EvalSetSpec(env, Dict(fields))
                == Ok(env[Lookup(s.fields, "name").value := Lookup(s.fields, "value").value])
  {
  }

  /** Of two successive sets of the same variable, the later one wins. */
  lemma LastWriteWins(env: Env, first: Value, second: Value, name: Value)
    requires EvalSetSpec(env, first).Ok?
    requires EvalSetSpec(EvalSetSpec(env, first).value, second).Ok?
    requires name in EvalSetSpec(map[], second).value
    ensures EvalSetSpec(EvalSetSpec(env, first).value, second).value[name] == EvalSetSpec(map[], second).value[name]
  {
    EvalSetOverrides(EvalSetSpec(env, first).value, second);
  }

  /* ---------------- odds ---------------- */

  /** The odds of an instruction as a percentage: default 100, a string names a variable, None is 100. */
  function ResolveOdds(instruction: Value, env: Env): Result<int>
  {
    var odds :- GetOr(instruction, "odds", Int(100));
    var resolved :- if odds.Str? then (if odds in env then Ok(env[odds]) else Err(KeyError(odds))) else Ok(odds);
    Numeric(if resolved.Null? then Int(100) else resolved)
  }

  lemma OddsResolution(fields: seq<Field>, env: Env)
    ensures Lookup(fields, "odds").None? ==> ResolveOdds(Dict(fields), env) == Ok(100)
    ensures Lookup(fields, "odds") == Some(Null) ==> ResolveOdds(Dict(fields), env) == Ok(100)
    ensures Lookup(fields, "odds").Some? && Lookup(fields, "odds").value.Str? ==>
              var name := Lookup(fields, "odds").value;
              (name !in env ==> ResolveOdds(Dict(fields), env) == Err(KeyError(name)))
              && (name in env && env[name] == Null ==> ResolveOdds(Dict(fields), env) == Ok(100))
              && (name in env && env[name] != Null ==> ResolveOdds(Dict(fields), env) == Numeric(env[name]))
  {
  }

  /** The gate of `choose_some_instructions`, `do` and `text`: `odds == 100 or chance < odds / 100`. */
  predicate Gate(pct: int, chance: real)
  {
    pct == 100 || chance < pct as real / 100.0
  }

  /* ---------------- describe_* ---------------- */

  /** What `describe_item` is handed: a matched description, an item, or nothing. */
  function ItemOf(c: Choice): Option<Value>
  {
    match c
    case Required(d) => Some(d)
    case Picked(item) => item
  }

  /** `describe_item(prefix, item)`: the paragraph it prints, if any (it returns whether it printed). */
  function DescribeItemSpec(prefix: Value, c: Choice): Result<seq<Event>>
  {
    match ItemOf(c)
    case None => Ok([])
    case Some(Null) => Ok([])
    case Some(item) =>
      var named :- In(Str("name"), item);
      var shown :- if !named then Ok(true) else (var name :- Index(item, "name"); Ok(name != Str("none")));
      if !shown then Ok([])
      else
        var head :- Concat(prefix, Str(" "));
        var description :- Index(item, "description");
        var text :- Concat(head, description);
        Ok([Paragraph(text)])
  }

  /** An item is described unless it is missing or named "none"; a description string crashes. */
  lemma DescribeItemCases(prefix: Value, c: Choice)
    ensures ItemOf(c).None? || ItemOf(c) == Some(Null) ==> DescribeItemSpec(prefix, c) == Ok([])
    ensures ItemOf(c).Some? && HasKey(ItemOf(c).value, "name") && Lookup(ItemOf(c).value.fields, "name").value == Str("none")
            ==> DescribeItemSpec(prefix, c) == Ok([])
    ensures c.Required? && c.description.Str? ==> DescribeItemSpec(prefix, c) == Err(TypeError)
    ensures DescribeItemSpec(prefix, c).Ok? && DescribeItemSpec(prefix, c).value != [] ==>
              exists text :: DescribeItemSpec(prefix, c).value == [Paragraph(text)]
    ensures forall item, d :: ItemOf(c) == Some(item) && item.Dict?
              && (!HasKey(item, "name") || Lookup(item.fields, "name").value != Str("none"))
              && prefix.Str? && Lookup(item.fields, "description") == Some(Str(d))
              ==> DescribeItemSpec(prefix, c) == Ok([Paragraph(Str(prefix.s + " " + d))])
  {
  }

  /** `'  - ' + entry` for each entry. */
  function ItemLines(selection: seq<Value>): Result<seq<Event>>
  {
    if selection == [] then Ok([])
    else
      var text :- Concat(Str("  - "), selection[0]);
      var rest :- ItemLines(selection[1..]);
      Ok([Line(text)] + rest)
  }

  /** `describe_items(heading, selection)`: the output, empty exactly when it returns False. */
  function DescribeItemsSpec(heading: Value, selection: seq<Value>): Result<seq<Event>>
  {
    if selection == [] then Ok([])
    else
      var lines :- ItemLines(selection);
      Ok([Paragraph(heading)] + lines)
  }

  /** `'  - ' + entry['text']` for each entry. */
  function EntryLines(selection: seq<Value>): Result<seq<Event>>
  {
    if selection == [] then Ok([])
    else
      var t :- Index(selection[0], "text");
      var text :- Concat(Str("  - "), t);
      var rest :- EntryLines(selection[1..]);
      Ok([Line(text)] + rest)
  }

  /** `describe_many(heading, selection)`. */
  function DescribeManySpec(heading: Value, selection: seq<Value>): Result<seq<Event>>
  {
    var lines :- EntryLines(selection);
    Ok((if Truthy(heading) && selection != [] then [Paragraph(heading)] else []) + lines)
  }

  /** `describe_choice(prefix, choice)`. */
  function DescribeChoiceSpec(prefix: Value, choice: Value): Result<seq<Event>>
  {
    if Truthy(prefix) then
      var head :- Concat(prefix, Str(" "));
      var t :- Index(choice, "text");
      var text :- Concat(head, t);
      Ok([Paragraph(text)])
    else
      var t :- Index(choice, "text");
      Ok([Paragraph(t)])
  }

  /** One line per entry, in order, or the first error. */
  lemma {:induction false} LinesPerEntry(selection: seq<Value>)
    ensures ItemLines(selection).Ok? ==> |ItemLines(selection).value| == |selection|
    ensures ItemLines(selection).Ok? <==> forall i :: 0 <= i < |selection| ==> selection[i].Str?
    ensures ItemLines(selection).Ok? ==>
              forall i :: 0 <= i < |selection| ==> ItemLines(selection).value[i] == Line(Str("  - " + selection[i].s))
    ensures EntryLines(selection).Ok? ==> |EntryLines(selection).value| == |selection|
    decreases |selection|
  {
    if selection != [] {
      LinesPerEntry(selection[1..]);
      assert forall i :: 1 <= i < |selection| ==> selection[i] == selection[1..][i - 1];
    }
  }

  /** The string an entry holds under `text`, when it is a dict holding one. */
  function EntryText(e: Value): Option<string>
  {
    if e.Dict? then
      match Lookup(e.fields, "text")
      case Some(Str(t)) => Some(t)
      case _ => None
    else None
  }

  /**
   * The entry lines of describe_many: line i is `'  - '` followed by entry i's text, and the
   * loop fails exactly when some entry has no string `text`.
   */
  lemma {:induction false} EntryLinesPerEntry(selection: seq<Value>)
    ensures EntryLines(selection).Ok? <==> forall i :: 0 <= i < |selection| ==> EntryText(selection[i]).Some?
    ensures EntryLines(selection).Ok? ==>
              |EntryLines(selection).value| == |selection|
              && forall i :: 0 <= i < |selection| ==>
                   EntryLines(selection).value[i] == Line(Str("  - " + EntryText(selection[i]).value))
    decreases |selection|
  {
    if selection != [] {
      EntryLinesPerEntry(selection[1..]);
      assert forall i :: 1 <= i < |selection| ==> selection[i] == selection[1..][i - 1];
    }
  }

  /**
   * describe_many prints its heading exactly when the heading is truthy and the selection
   * non-empty, and then one line per entry, in order; it fails exactly when an entry has no
   * string `text`.
   */
  lemma DescribeManyShape(heading: Value, selection: seq<Value>)
    ensures DescribeManySpec(heading, selection).Ok?
            <==> forall i :: 0 <= i < |selection| ==> EntryText(selection[i]).Some?
    ensures DescribeManySpec(heading, selection).Ok? ==>
              var out := DescribeManySpec(heading, selection).value;
              var k := if Truthy(heading) && selection != [] then 1 else 0;
              |out| == k + |selection|
              && (forall j :: 0 <= j < |out| ==> (out[j].Paragraph? <==> j == 0 && k == 1))
              && (k == 1 ==> out[0] == Paragraph(heading))
              && forall i :: 0 <= i < |selection| ==> out[k + i] == Line(Str("  - " + EntryText(selection[i]).value))
  {
    EntryLinesPerEntry(selection);
    if DescribeManySpec(heading, selection).Ok? {
      var lines := EntryLines(selection).value;
      var head: seq<Event> := if Truthy(heading) && selection != [] then [Paragraph(heading)] else [];
      assert DescribeManySpec(heading, selection).value == head + lines;
      HeadThenLines(head, lines);
      var out := DescribeManySpec(heading, selection).value;
      var k := if Truthy(heading) && selection != [] then 1 else 0;
      assert k == |head|;
      forall i | 0 <= i < |selection|
        ensures out[k + i] == Line(Str("  - " + EntryText(selection[i]).value))
      {
        assert out[k + i] == lines[i];
      }
    }
  }

  /** A heading of at most one paragraph followed by lines: the paragraph can only come first. */
  lemma HeadThenLines(head: seq<Event>, lines: seq<Event>)
    requires |head| <= 1 && forall e :: e in head ==> e.Paragraph?
    requires forall e :: e in lines ==> e.Line?
    ensures forall j :: 0 <= j < |head + lines| ==> ((head + lines)[j].Paragraph? <==> j == 0 && |head| == 1)
    ensures forall i :: 0 <= i < |lines| ==> (head + lines)[|head| + i] == lines[i]
  {
    forall j | 0 <= j < |head + lines|
      ensures (head + lines)[j].Paragraph? <==> j == 0 && |head| == 1
    {
      if j >= |head| {
        assert (head + lines)[j] == lines[j - |head|];
        assert lines[j - |head|] in lines;
      } else {
        assert head[j] in head;
      }
    }
  }

  /**
   * describe_choice prints one paragraph: the prefix, a space and the choice's text when the
   * prefix is truthy, the text alone otherwise. A truthy prefix that is not a string, or a
   * text that is not one, raises TypeError; a dict without `text` raises KeyError.
   */
  lemma DescribeChoiceCases(prefix: Value, choice: Value)
    ensures Truthy(prefix) ==>
              (DescribeChoiceSpec(prefix, choice).Ok? <==> prefix.Str? && EntryText(choice).Some?)
              && (DescribeChoiceSpec(prefix, choice).Ok? ==>
                    DescribeChoiceSpec(prefix, choice).value == [Paragraph(Str(prefix.s + " " + EntryText(choice).value))])
    ensures !Truthy(prefix) ==>
              (DescribeChoiceSpec(prefix, choice).Ok? <==> HasKey(choice, "text"))
              && (DescribeChoiceSpec(prefix, choice).Ok? ==>
                    DescribeChoiceSpec(prefix, choice).value == [Paragraph(Lookup(choice.fields, "text").value)])
    ensures Truthy(prefix) && !prefix.Str? ==> DescribeChoiceSpec(prefix, choice) == Err(TypeError)
    ensures Truthy(prefix) && prefix.Str? && HasKey(choice, "text") && !Lookup(choice.fields, "text").value.Str?
            ==> DescribeChoiceSpec(prefix, choice) == Err(TypeError)
    ensures choice.Dict? && !HasKey(choice, "text") && (prefix.Str? || !Truthy(prefix))
            ==> DescribeChoiceSpec(prefix, choice) == Err(KeyError(Str("text")))
  {
  }

  /* ---------------- eval_instruction ---------------- */

  /** The value under a key the dict is known to hold. */
  function At(v: Value, key: string): (r: Value)
    requires HasKey(v, key)
    ensures Size(r) < Size(v)
  {
    FieldSmallerThanDict(v.fields, key);
    Lookup(v.fields, key).value
  }

  /** An element of what the value under `key` iterates over is smaller than the dict. */
  lemma ChildSmaller(v: Value, key: string, c: Value)
    requires HasKey(v, key) && Iterate(At(v, key)).Ok? && c in Iterate(At(v, key)).value
    ensures Size(c) < Size(v)
  {
    IterateNoLarger(At(v, key));
  }

  lemma ChildrenSmaller(v: Value, key: string, cs: seq<Value>)
    requires HasKey(v, key) && Iterate(At(v, key)).Ok?
    requires forall c :: c in cs ==> c in Iterate(At(v, key)).value
    ensures MaxSize(cs) < Size(v)
  {
    IterateNoLarger(At(v, key));
    MaxSizeOfSubset(cs, Iterate(At(v, key)).value);
  }

  /** `eval_instruction(desired, inventory, instr, env)` from state `st`. */
  function Exec(cx: Context, instr: Value, st: Run): Result<Run>
    decreases Size(instr), 3, 0
  {
    InterpolateKeepsShape(instr, st.env, cx.render);
    Dispatch(cx, Interpolate(instr, st.env, cx.render), st)
  }

  /** The body of eval_instruction after interpolation: the text, the odds, the chance draw. */
  function Dispatch(cx: Context, ii: Value, st: Run): Result<Run>
    decreases Size(ii), 2, 0
  {
    if !ii.Dict? then Err(AttributeError)
    else
      var description := GetOr(ii, "text", Null).value;
      var pct :- ResolveOdds(ii, st.env);
      Branch(cx, ii, description, pct, ChanceAt(cx.source, st.used), st.(used := st.used + 1))
  }

  /** The first selector key the instruction holds decides what it does; none of them, nothing. */
  function Branch(cx: Context, ii: Value, description: Value, pct: int, chance: real, st: Run): Result<Run>
    decreases Size(ii), 1, 1
  {
    if HasKey(ii, "choose_item") then ExecChooseItem(cx, ii, description, pct, st)
    else if HasKey(ii, "choose_many_items") then ExecChooseManyItems(cx, ii, description, pct, st)
    else if HasKey(ii, "choose_text") then ExecChooseText(cx, ii, description, pct, st)
    else if HasKey(ii, "choose_some_of") then ExecChooseSomeOf(cx, ii, description, pct, st)
    else if HasKey(ii, "choose_instruction") then ExecChooseInstruction(cx, ii, description, pct, st)
    else if HasKey(ii, "choose_some_instructions") then ExecChooseSomeInstructions(cx, ii, description, pct, chance, st)
    else if HasKey(ii, "do") then ExecDo(cx, ii, description, pct, chance, st)
    else if HasKey(ii, "text") then ShowText(ii, description, pct, chance, st)
    else Ok(st)
  }

  function ExecChooseItem(cx: Context, ii: Value, description: Value, pct: int, st: Run): Result<Run>
    requires HasKey(ii, "choose_item")
  {
    var eligible :- SelectByInstructionSpec(cx.inventory, At(ii, "choose_item"));
    var d := ChooseItemOrRequiredSpec(eligible, cx.desired, pct, cx.source, st.used);
    var selection :- d.result;
    var events :- DescribeItemSpec(description, selection);
    if events == [] then Ok(Run(st.env, st.log, d.next))
    else
      var env :- EvalSetSpec(st.env, ii);
      Ok(Run(env, st.log + events, d.next))
  }

  function ExecChooseManyItems(cx: Context, ii: Value, description: Value, pct: int, st: Run): Result<Run>
    requires HasKey(ii, "choose_many_items")
  {
    var eligible :- SelectByInstructionSpec(cx.inventory, At(ii, "choose_many_items"));
    var d := ChooseManyIncludingRequiredSpec(eligible, cx.desired, pct, cx.source, st.used);
    var selection :- d.result;
    var events :- DescribeItemsSpec(description, selection);
    if events == [] then Ok(Run(st.env, st.log, d.next))
    else
      var env :- EvalSetSpec(st.env, ii);
      Ok(Run(env, st.log + events, d.next))
  }

  function ExecChooseText(cx: Context, ii: Value, description: Value, pct: int, st: Run): Result<Run>
    requires HasKey(ii, "choose_text")
  {
    var d := MaybeChooseItemSpec(At(ii, "choose_text"), pct as real / 100.0, cx.source, st.used);
    var selection :- d.result;
    if selection.None? || !Truthy(selection.value) then Ok(st.(used := d.next))
    else
      var events :- DescribeChoiceSpec(description, selection.value);
      var env1 :- EvalSetSpec(st.env, ii);
      var env2 :- EvalSetSpec(env1, selection.value);
      Ok(Run(env2, st.log + events, d.next))
  }

  function ExecChooseSomeOf(cx: Context, ii: Value, description: Value, pct: int, st: Run): Result<Run>
    requires HasKey(ii, "choose_some_of")
  {
    var d := ChooseManySpec(At(ii, "choose_some_of"), pct, cx.source, st.used);
    var selection :- d.result;
    if selection == [] then Ok(st.(used := d.next))
    else
      var events :- DescribeManySpec(description, selection);
      var env1 :- EvalSetSpec(st.env, ii);
      var env2 :- EvalSetSpec(env1, List(selection));
      Ok(Run(env2, st.log + events, d.next))
  }

  function ExecChooseInstruction(cx: Context, ii: Value, description: Value, pct: int, st: Run): Result<Run>
    requires HasKey(ii, "choose_instruction")
    decreases Size(ii), 1, 0
  {
    var d := MaybeChooseItemSpec(At(ii, "choose_instruction"), pct as real / 100.0, cx.source, st.used);
    var chosen :- d.result;
    if chosen.None? || !Truthy(chosen.value) then Ok(st.(used := d.next))
    else
      var env :- EvalSetSpec(st.env, ii);
      MaybeChooseItemReturnsElement(At(ii, "choose_instruction"), pct as real / 100.0, cx.source, st.used);
      ChildSmaller(ii, "choose_instruction", chosen.value);
      Exec(cx, chosen.value, Run(env, st.log + [Paragraph(description)], d.next))
  }

  function ExecChooseSomeInstructions(cx: Context, ii: Value, description: Value, pct: int, chance: real, st: Run): Result<Run>
    requires HasKey(ii, "choose_some_instructions")
    decreases Size(ii), 1, 0
  {
    if !Gate(pct, chance) then Ok(st)
    else
      var d := ChooseManySpec(At(ii, "choose_some_instructions"), pct, cx.source, st.used);
      var chosen :- d.result;
      if chosen == [] then Ok(st.(used := d.next))
      else
        var env1 :- EvalSetSpec(st.env, ii);
        var env2 :- EvalSetSpec(env1, List(chosen));
        ChooseManyReturnsElements(At(ii, "choose_some_instructions"), pct, cx.source, st.used);
        ChildrenSmaller(ii, "choose_some_instructions", chosen);
        ExecSeq(cx, chosen, Run(env2, st.log + [Paragraph(description)], d.next))
  }

  function ExecDo(cx: Context, ii: Value, description: Value, pct: int, chance: real, st: Run): Result<Run>
    requires HasKey(ii, "do")
    decreases Size(ii), 1, 0
  {
    if !Gate(pct, chance) then Ok(st)
    else
      var env :- EvalSetSpec(st.env, ii);
      var children :- Iterate(At(ii, "do"));
      ChildrenSmaller(ii, "do", children);
      ExecSeq(cx, children, Run(env, st.log + [Paragraph(description)], st.used))
  }

  function ShowText(ii: Value, description: Value, pct: int, chance: real, st: Run): Result<Run>
  {
    if !Gate(pct, chance) then Ok(st)
    else
      var env :- EvalSetSpec(st.env, ii);
      Ok(Run(env, st.log + [Paragraph(description)], st.used))
  }

  /** Instructions evaluated one after another on the shared state. */
  function ExecSeq(cx: Context, cs: seq<Value>, st: Run): Result<Run>
    decreases MaxSize(cs), 4, |cs|
  {
    if cs == [] then Ok(st)
    else
      var st1 :- Exec(cx, cs[0], st);
      ExecSeq(cx, cs[1..], st1)
  }

  /** `eval_scenario(desired, inventory, scenario)`, after output `log` and with draws from `at`. */
  function ExecScenario(cx: Context, scenario: Value, log: seq<Event>, at: nat): Result<Run>
  {
    var instructions :- Index(scenario, "instructions");
    var cs :- Iterate(instructions);
    ExecSeq(cx, cs, Run(map[], log + [Line(Str("Instructions:"))], at))
  }

  /* ---------------- properties of evaluation ---------------- */

  /** Run `cs` on the state an earlier evaluation left, or pass on its error. */
  function ThenRun(cx: Context, r: Result<Run>, cs: seq<Value>): Result<Run>
  {
    if r.Ok? then ExecSeq(cx, cs, r.value) else Err(r.error)
  }

  /** Running `a + b` is running `a`, then `b` on the state `a` left. */
  lemma {:induction false} ExecSeqAppend(cx: Context, a: seq<Value>, b: seq<Value>, st: Run)
    ensures ExecSeq(cx, a + b, st)
            == ThenRun(cx, ExecSeq(cx, a, st), b)
    decreases |a|
  {
    if a != [] {
      assert (a + b)[0] == a[0];
      assert (a + b)[1..] == a[1..] + b;
      if Exec(cx, a[0], st).Ok? {
        ExecSeqAppend(cx, a[1..], b, Exec(cx, a[0], st).value);
      }
    } else {
      assert a + b == b;
    }
  }

  /** A scenario's instructions run in order from an empty environment, each seeing the earlier ones' sets. */
  lemma ScenarioRunsInOrder(cx: Context, first: seq<Value>, rest: seq<Value>, log: seq<Event>, at: nat)
    ensures ExecScenario(cx, Dict([Field("instructions", List(first + rest))]), log, at)
            == ThenRun(cx, ExecSeq(cx, first, Run(map[], log + [Line(Str("Instructions:"))], at)), rest)
  {
    ExecSeqAppend(cx, first, rest, Run(map[], log + [Line(Str("Instructions:"))], at));
  }

  /** The evaluation only adds: output is appended to and no variable is ever removed. */
  predicate Grows(a: Run, b: Run)
  {
    a.log <= b.log && a.env.Keys <= b.env.Keys
  }

  lemma GrowsTransitive(a: Run, b: Run, c: Run)
    requires Grows(a, b) && Grows(b, c)
    ensures Grows(a, c)
  {
  }

  lemma {:induction false} ExecGrows(cx: Context, instr: Value, st: Run)
    requires Exec(cx, instr, st).Ok?
    ensures Grows(st, Exec(cx, instr, st).value)
    decreases Size(instr), 3, 0
  {
    InterpolateKeepsShape(instr, st.env, cx.render);
    DispatchGrows(cx, Interpolate(instr, st.env, cx.render), st);
  }

  lemma {:induction false} DispatchGrows(cx: Context, ii: Value, st: Run)
    requires Dispatch(cx, ii, st).Ok?
    ensures Grows(st, Dispatch(cx, ii, st).value)
    decreases Size(ii), 2, 0
  {
    var description := GetOr(ii, "text", Null).value;
    var pct := ResolveOdds(ii, st.env).value;
    var drawn := st.(used := st.used + 1);
    var r := Branch(cx, ii, description, pct, ChanceAt(cx.source, st.used), drawn);
    assert Dispatch(cx, ii, st) == r;
    BranchGrows(cx, ii, description, pct, ChanceAt(cx.source, st.used), drawn);
    assert Grows(st, drawn);
  }

  lemma {:induction false} BranchGrows(cx: Context, ii: Value, description: Value, pct: int, chance: real, st: Run)
    requires Branch(cx, ii, description, pct, chance, st).Ok?
    ensures Grows(st, Branch(cx, ii, description, pct, chance, st).value)
    decreases Size(ii), 1, 1
  {
    if HasKey(ii, "choose_item") {
      ChooseItemGrows(cx, ii, description, pct, st);
    } else if HasKey(ii, "choose_many_items") {
      ChooseManyItemsGrows(cx, ii, description, pct, st);
    } else if HasKey(ii, "choose_text") {
      ChooseTextGrows(cx, ii, description, pct, st);
    } else if HasKey(ii, "choose_some_of") {
      ChooseSomeOfGrows(cx, ii, description, pct, st);
    } else if HasKey(ii, "choose_instruction") {
      ChooseInstructionGrows(cx, ii, description, pct, st);
    } else if HasKey(ii, "choose_some_instructions") {
      ChooseSomeInstructionsGrows(cx, ii, description, pct, chance, st);
    } else if HasKey(ii, "do") {
      DoGrows(cx, ii, description, pct, chance, st);
    } else if HasKey(ii, "text") {
      SetGrows(st.env, ii);
    }
  }

  /** eval_set never removes a variable. */
  lemma SetGrows(env: Env, instruction: Value)
    ensures EvalSetSpec(env, instruction).Ok? ==> env.Keys <= EvalSetSpec(env, instruction).value.Keys
  {
    EvalSetOverrides(env, instruction);
  }

  lemma ChooseItemGrows(cx: Context, ii: Value, description: Value, pct: int, st: Run)
    requires HasKey(ii, "choose_item")
    requires ExecChooseItem(cx, ii, description, pct, st).Ok?
    ensures Grows(st, ExecChooseItem(cx, ii, description, pct, st).value)
  {
    SetGrows(st.env, ii);
  }

  lemma ChooseManyItemsGrows(cx: Context, ii: Value, description: Value, pct: int, st: Run)
    requires HasKey(ii, "choose_many_items")
    requires ExecChooseManyItems(cx, ii, description, pct, st).Ok?
    ensures Grows(st, ExecChooseManyItems(cx, ii, description, pct, st).value)
  {
    SetGrows(st.env, ii);
  }

  lemma ChooseTextGrows(cx: Context, ii: Value, description: Value, pct: int, st: Run)
    requires HasKey(ii, "choose_text")
    requires ExecChooseText(cx, ii, description, pct, st).Ok?
    ensures Grows(st, ExecChooseText(cx, ii, description, pct, st).value)
  {
    SetGrows(st.env, ii);
    if EvalSetSpec(st.env, ii).Ok? {
      var d := MaybeChooseItemSpec(At(ii, "choose_text"), pct as real / 100.0, cx.source, st.used);
      if d.result.Ok? && d.result.value.Some? {
        SetGrows(EvalSetSpec(st.env, ii).value, d.result.value.value);
      }
    }
  }

  lemma ChooseSomeOfGrows(cx: Context, ii: Value, description: Value, pct: int, st: Run)
    requires HasKey(ii, "choose_some_of")
    requires ExecChooseSomeOf(cx, ii, description, pct, st).Ok?
    ensures Grows(st, ExecChooseSomeOf(cx, ii, description, pct, st).value)
  {
    SetGrows(st.env, ii);
    if EvalSetSpec(st.env, ii).Ok? {
      var d := ChooseManySpec(At(ii, "choose_some_of"), pct, cx.source, st.used);
      if d.result.Ok? {
        SetGrows(EvalSetSpec(st.env, ii).value, List(d.result.value));
      }
    }
  }

  lemma {:induction false} ChooseInstructionGrows(cx: Context, ii: Value, description: Value, pct: int, st: Run)
    requires HasKey(ii, "choose_instruction")
    requires ExecChooseInstruction(cx, ii, description, pct, st).Ok?
    ensures Grows(st, ExecChooseInstruction(cx, ii, description, pct, st).value)
    decreases Size(ii), 1, 0
  {
    var d := MaybeChooseItemSpec(At(ii, "choose_instruction"), pct as real / 100.0, cx.source, st.used);
    var chosen := d.result.value;
    if chosen.Some? && Truthy(chosen.value) {
      var env := EvalSetSpec(st.env, ii).value;
      SetGrows(st.env, ii);
      MaybeChooseItemReturnsElement(At(ii, "choose_instruction"), pct as real / 100.0, cx.source, st.used);
      ChildSmaller(ii, "choose_instruction", chosen.value);
      var mid := Run(env, st.log + [Paragraph(description)], d.next);
      ExecGrows(cx, chosen.value, mid);
      GrowsTransitive(st, mid, Exec(cx, chosen.value, mid).value);
    }
  }

  lemma {:induction false} ChooseSomeInstructionsGrows(cx: Context, ii: Value, description: Value, pct: int, chance: real, st: Run)
    requires HasKey(ii, "choose_some_instructions")
    requires ExecChooseSomeInstructions(cx, ii, description, pct, chance, st).Ok?
    ensures Grows(st, ExecChooseSomeInstructions(cx, ii, description, pct, chance, st).value)
    decreases Size(ii), 1, 0
  {
    if Gate(pct, chance) {
      var d := ChooseManySpec(At(ii, "choose_some_instructions"), pct, cx.source, st.used);
      var chosen := d.result.value;
      if chosen != [] {
        var env1 := EvalSetSpec(st.env, ii).value;
        var env2 := EvalSetSpec(env1, List(chosen)).value;
        SetGrows(st.env, ii);
        SetGrows(env1, List(chosen));
        ChooseManyReturnsElements(At(ii, "choose_some_instructions"), pct, cx.source, st.used);
        ChildrenSmaller(ii, "choose_some_instructions", chosen);
        var mid := Run(env2, st.log + [Paragraph(description)], d.next);
        ExecSeqGrows(cx, chosen, mid);
        GrowsTransitive(st, mid, ExecSeq(cx, chosen, mid).value);
      }
    }
  }

  lemma {:induction false} DoGrows(cx: Context, ii: Value, description: Value, pct: int, chance: real, st: Run)
    requires HasKey(ii, "do")
    requires ExecDo(cx, ii, description, pct, chance, st).Ok?
    ensures Grows(st, ExecDo(cx, ii, description, pct, chance, st).value)
    decreases Size(ii), 1, 0
  {
    if Gate(pct, chance) {
      var env := EvalSetSpec(st.env, ii).value;
      var children := Iterate(At(ii, "do")).value;
      SetGrows(st.env, ii);
      ChildrenSmaller(ii, "do", children);
      var mid := Run(env, st.log + [Paragraph(description)], st.used);
      ExecSeqGrows(cx, children, mid);
      GrowsTransitive(st, mid, ExecSeq(cx, children, mid).value);
    }
  }

  lemma {:induction false} ExecSeqGrows(cx: Context, cs: seq<Value>, st: Run)
    requires ExecSeq(cx, cs, st).Ok?
    ensures Grows(st, ExecSeq(cx, cs, st).value)
    decreases MaxSize(cs), 4, |cs|
  {
    if cs != [] {
      var st1 := Exec(cx, cs[0], st).value;
      ExecGrows(cx, cs[0], st);
      ExecSeqGrows(cx, cs[1..], st1);
      GrowsTransitive(st, st1, ExecSeq(cx, cs[1..], st1).value);
    }
  }

  /** An instruction with none of the selector keys only takes its chance draw. */
  lemma NoSelectorKeyOnlyDraws(cx: Context, fields: seq<Field>, st: Run)
    requires forall i :: 0 <= i < |fields| ==>
               fields[i].key !in {"choose_item", "choose_many_items", "choose_text", "choose_some_of",
                                  "choose_instruction", "choose_some_instructions", "do", "text"}
    requires ResolveOdds(Dict(fields), st.env).Ok?
    ensures Dispatch(cx, Dict(fields), st) == Ok(st.(used := st.used + 1))
  {
  }

  /**
   * choose_item applies the instruction's `set` exactly when describe_item printed its one
   * paragraph; with no item it only takes its draws.
   */
  lemma ChooseItemSetsOnlyWhenShown(cx: Context, ii: Value, description: Value, pct: int, st: Run)
    requires HasKey(ii, "choose_item")
    requires SelectByInstructionSpec(cx.inventory, At(ii, "choose_item")).Ok?
    ensures var eligible := SelectByInstructionSpec(cx.inventory, At(ii, "choose_item")).value;
            var d := ChooseItemOrRequiredSpec(eligible, cx.desired, pct, cx.source, st.used);
            var r := ExecChooseItem(cx, ii, description, pct, st);
            (d.result.Ok? && ItemOf(d.result.value).None? ==> r == Ok(st.(used := d.next)))
            && (r.Ok? ==> r.value.used == d.next
                          && (r.value.log == st.log ==> r.value.env == st.env)
                          && (r.value.log != st.log ==>
                                |r.value.log| == |st.log| + 1 && EvalSetSpec(st.env, ii) == Ok(r.value.env)))
  {
    var eligible := SelectByInstructionSpec(cx.inventory, At(ii, "choose_item")).value;
    var d := ChooseItemOrRequiredSpec(eligible, cx.desired, pct, cx.source, st.used);
    if d.result.Ok? {
      DescribeItemCases(description, d.result.value);
    }
  }

  /**
   * choose_many_items applies `set` exactly when the selection is non-empty: an empty one only
   * advances the draws, a non-empty one prints the heading and one line per description and
   * then sets.
   */
  lemma ChooseManyItemsSetsOnlyWhenShown(cx: Context, ii: Value, description: Value, pct: int, st: Run)
    requires HasKey(ii, "choose_many_items")
    requires SelectByInstructionSpec(cx.inventory, At(ii, "choose_many_items")).Ok?
    ensures var eligible := SelectByInstructionSpec(cx.inventory, At(ii, "choose_many_items")).value;
            var d := ChooseManyIncludingRequiredSpec(eligible, cx.desired, pct, cx.source, st.used);
            var r := ExecChooseManyItems(cx, ii, description, pct, st);
            (d.result == Ok([]) ==> r == Ok(st.(used := d.next)))
            && (d.result.Ok? && d.result.value != [] ==>
                  (r.Ok? <==> (forall i :: 0 <= i < |d.result.value| ==> d.result.value[i].Str?)
                              && EvalSetSpec(st.env, ii).Ok?))
            && (d.result.Ok? && d.result.value != [] && r.Ok? ==>
                  r.value.used == d.next
                  && EvalSetSpec(st.env, ii) == Ok(r.value.env)
                  && |r.value.log| == |st.log| + 1 + |d.result.value|
                  && r.value.log[|st.log|] == Paragraph(description))
  {
    var eligible := SelectByInstructionSpec(cx.inventory, At(ii, "choose_many_items")).value;
    var d := ChooseManyIncludingRequiredSpec(eligible, cx.desired, pct, cx.source, st.used);
    if d.result.Ok? {
      LinesPerEntry(d.result.value);
    }
  }

  /**
   * When a desired substring occurs in an eligible item, the matched description string
   * reaches describe_item, which raises TypeError.
   */
  lemma RequiredItemCrashes(cx: Context, ii: Value, description: Value, pct: int, st: Run)
    requires HasKey(ii, "choose_item")
    requires SelectByInstructionSpec(cx.inventory, At(ii, "choose_item")).Ok?
    requires var eligible := SelectByInstructionSpec(cx.inventory, At(ii, "choose_item")).value;
             AllDescribed(eligible.data)
             && exists k :: 0 <= k < |cx.desired| && Occurs(eligible.data, cx.desired[k])
    ensures ExecChooseItem(cx, ii, description, pct, st) == Err(TypeError)
  {
    var eligible := SelectByInstructionSpec(cx.inventory, At(ii, "choose_item")).value;
    RequiredOverridesRandom(eligible, cx.desired, pct, cx.source, st.used);
    var d := ChooseItemOrRequiredSpec(eligible, cx.desired, pct, cx.source, st.used);
    var k, x :| 0 <= k < |cx.desired| && x in eligible.data && Matches(x, cx.desired[k])
                && d.result.value.description == Str(Description(x).value)
                && forall k' :: 0 <= k' < k ==> !Occurs(eligible.data, cx.desired[k']);
    DescribeItemCases(description, d.result.value);
  }

  /** choose_text applies the instruction's `set` before the chosen entry's, so the entry wins. */
  lemma ChooseTextEntryWins(cx: Context, ii: Value, description: Value, pct: int, st: Run, name: Value)
    requires HasKey(ii, "choose_text")
    requires ExecChooseText(cx, ii, description, pct, st).Ok?
    requires var d := MaybeChooseItemSpec(At(ii, "choose_text"), pct as real / 100.0, cx.source, st.used);
             d.result.Ok? && d.result.value.Some? && Truthy(d.result.value.value)
             && EvalSetSpec(map[], d.result.value.value).Ok?
             && name in EvalSetSpec(map[], d.result.value.value).value
    ensures var entry := MaybeChooseItemSpec(At(ii, "choose_text"), pct as real / 100.0, cx.source, st.used).result.value.value;
            ExecChooseText(cx, ii, description, pct, st).value.env[name] == EvalSetSpec(map[], entry).value[name]
  {
    var entry := MaybeChooseItemSpec(At(ii, "choose_text"), pct as real / 100.0, cx.source, st.used).result.value.value;
    var env1 := EvalSetSpec(st.env, ii).value;
    EvalSetOverrides(env1, entry);
  }

  /**
   * `do` with a closed gate changes nothing; with an open gate it prints its text, applies its
   * `set`, then evaluates its children in order, each on the state the previous one left.
   */
  lemma DoGateAndOrder(cx: Context, ii: Value, description: Value, pct: int, chance: real, st: Run,
                       first: seq<Value>, rest: seq<Value>)
    requires HasKey(ii, "do")
    ensures !Gate(pct, chance) ==> ExecDo(cx, ii, description, pct, chance, st) == Ok(st)
    ensures Gate(pct, chance) && At(ii, "do") == List(first + rest) && EvalSetSpec(st.env, ii).Ok? ==>
              var start := Run(EvalSetSpec(st.env, ii).value, st.log + [Paragraph(description)], st.used);
              ExecDo(cx, ii, description, pct, chance, st)
              == ThenRun(cx, ExecSeq(cx, first, start), rest)
  {
    if Gate(pct, chance) && At(ii, "do") == List(first + rest) && EvalSetSpec(st.env, ii).Ok? {
      var start := Run(EvalSetSpec(st.env, ii).value, st.log + [Paragraph(description)], st.used);
      ExecSeqAppend(cx, first, rest, start);
    }
  }

  /**
   * choose_some_instructions checks its gate before drawing: closed, it changes nothing; open,
   * it prints its text, applies its own `set` and then the chosen list's, and evaluates the
   * chosen children in list order on the shared state.
   */
  lemma ChooseSomeInstructionsGateFirst(cx: Context, ii: Value, description: Value, pct: int, chance: real, st: Run,
                                        first: seq<Value>, rest: seq<Value>)
    requires HasKey(ii, "choose_some_instructions")
    ensures !Gate(pct, chance) ==> ExecChooseSomeInstructions(cx, ii, description, pct, chance, st) == Ok(st)
    ensures var d := ChooseManySpec(At(ii, "choose_some_instructions"), pct, cx.source, st.used);
            Gate(pct, chance) && d.result == Ok(first + rest) && first + rest != []
            && EvalSetSpec(st.env, ii).Ok? && EvalSetSpec(EvalSetSpec(st.env, ii).value, List(first + rest)).Ok? ==>
              var env := EvalSetSpec(EvalSetSpec(st.env, ii).value, List(first + rest)).value;
              var start := Run(env, st.log + [Paragraph(description)], d.next);
              ExecChooseSomeInstructions(cx, ii, description, pct, chance, st)
              == ThenRun(cx, ExecSeq(cx, first, start), rest)
  {
    var d := ChooseManySpec(At(ii, "choose_some_instructions"), pct, cx.source, st.used);
    if Gate(pct, chance) && d.result == Ok(first + rest) && first + rest != []
       && EvalSetSpec(st.env, ii).Ok? && EvalSetSpec(EvalSetSpec(st.env, ii).value, List(first + rest)).Ok? {
      var env := EvalSetSpec(EvalSetSpec(st.env, ii).value, List(first + rest)).value;
      ExecSeqAppend(cx, first, rest, Run(env, st.log + [Paragraph(description)], d.next));
    }
  }

  /* ---------------- the evaluator ---------------- */

  /** The evaluation of one scenario: its fixed inputs, and the variables and output it updates. */
  class Evaluator {
    const desired: seq<string>
    const inventory: Inventory
    const render: Render
    const rnd: Random
    var env: Env
    var log: seq<Event>

    constructor (desired: seq<string>, inventory: Inventory, render: Render, rnd: Random)
      ensures this.desired == desired && this.inventory == inventory
      ensures this.render == render && this.rnd == rnd
      ensures env == map[] && log == []
    {
      this.desired := desired;
      this.inventory := inventory;
      this.render := render;
      this.rnd := rnd;
      env := map[];
      log := [];
    }

    function Cx(): Context
    {
      Context(desired, inventory, render, rnd.source)
    }

    function State(): Run
      reads this, rnd
    {
      Run(env, log, rnd.used)
    }

    method EvalSet(instruction: Value) returns (res: Result<()>)
      modifies this
      ensures res == Status(EvalSetSpec(old(env), instruction))
      ensures res.Ok? ==> env == EvalSetSpec(old(env), instruction).value
      ensures log == old(log)
    {
      var has :- In(Str("set"), instruction);
      if !has {
        return Ok(());
      }
      var statement :- Index(instruction, "set");
      if statement.Str? {
        env := env[statement := Bool(true)];
      } else {
        var value :- Index(statement, "value");
        var name :- Index(statement, "name");
        if !Hashable(name) {
          return Err(TypeError);
        }
        env := env[name := value];
      }
      return Ok(());
    }

    method DescribeItem(prefix: Value, c: Choice) returns (res: Result<bool>)
      modifies this
      ensures var spec := DescribeItemSpec(prefix, c);
              (res.Ok? <==> spec.Ok?) && (res.Err? ==> res.error == spec.error)
              && (res.Ok? ==> res.value == (spec.value != []) && log == old(log) + spec.value)
      ensures env == old(env)
    {
      var item := ItemOf(c);
      if item.None? || item.value.Null? {
        return Ok(false);
      }
      var named :- In(Str("name"), item.value);
      var shown := true;
      if named {
        var name :- Index(item.value, "name");
        shown := name != Str("none");
      }
      if !shown {
        return Ok(false);
      }
      var head :- Concat(prefix, Str(" "));
      var description :- Index(item.value, "description");
      var text :- Concat(head, description);
      log := log + [Paragraph(text)];
      return Ok(true);
    }

    method DescribeItems(heading: Value, selection: seq<Value>) returns (res: Result<bool>)
      modifies this
      ensures var spec := DescribeItemsSpec(heading, selection);
              (res.Ok? <==> spec.Ok?) && (res.Err? ==> res.error == spec.error)
              && (res.Ok? ==> res.value == (spec.value != []) && log == old(log) + spec.value)
      ensures env == old(env)
    {
      if |selection| == 0 {
        return Ok(false);
      }
      log := log + [Paragraph(heading)];
      var _ :- WriteItemLines(selection);
      return Ok(true);
    }

    /** `for choice in selection: println('  - ' + choice)`. */
    method WriteItemLines(selection: seq<Value>) returns (res: Result<()>)
      modifies this
      ensures res == Status(ItemLines(selection))
      ensures res.Ok? ==> log == old(log) + ItemLines(selection).value
      ensures env == old(env)
    {
      ghost var written: seq<Event> := [];
      assert selection[0..] == selection;
      AfterNothing(ItemLines(selection));
      for i := 0 to |selection|
        invariant log == old(log) + written
        invariant ItemLines(selection) == After(written, ItemLines(selection[i..]))
        invariant env == old(env)
      {
        assert selection[i..][1..] == selection[i + 1..];
        var text :- Concat(Str("  - "), selection[i]);
        AfterLine(written, Line(text), ItemLines(selection[i + 1..]));
        log := log + [Line(text)];
        written := written + [Line(text)];
      }
      assert selection[|selection|..] == [];
      assert written + [] == written;
      return Ok(());
    }

    method DescribeChoice(prefix: Value, choice: Value) returns (res: Result<()>)
      modifies this
      ensures var spec := DescribeChoiceSpec(prefix, choice);
              res == Status(spec) && (res.Ok? ==> log == old(log) + spec.value)
      ensures env == old(env)
    {
      if Truthy(prefix) {
        var head :- Concat(prefix, Str(" "));
        var t :- Index(choice, "text");
        var text :- Concat(head, t);
        log := log + [Paragraph(text)];
      } else {
        var t :- Index(choice, "text");
        log := log + [Paragraph(t)];
      }
      return Ok(());
    }

    method DescribeMany(heading: Value, selection: seq<Value>) returns (res: Result<()>)
      modifies this
      ensures var spec := DescribeManySpec(heading, selection);
              res == Status(spec) && (res.Ok? ==> log == old(log) + spec.value)
      ensures env == old(env)
    {
      if Truthy(heading) && |selection| > 0 {
        log := log + [Paragraph(heading)];
      }
      res := WriteEntryLines(selection);
    }

    /** `for entry in selection: println('  - ' + entry['text'])`. */
    method WriteEntryLines(selection: seq<Value>) returns (res: Result<()>)
      modifies this
      ensures res == Status(EntryLines(selection))
      ensures res.Ok? ==> log == old(log) + EntryLines(selection).value
      ensures env == old(env)
    {
      ghost var written: seq<Event> := [];
      assert selection[0..] == selection;
      AfterNothing(EntryLines(selection));
      for i := 0 to |selection|
        invariant log == old(log) + written
        invariant EntryLines(selection) == After(written, EntryLines(selection[i..]))
        invariant env == old(env)
      {
        assert selection[i..][1..] == selection[i + 1..];
        var t :- Index(selection[i], "text");
        var text :- Concat(Str("  - "), t);
        AfterLine(written, Line(text), EntryLines(selection[i + 1..]));
        log := log + [Line(text)];
        written := written + [Line(text)];
      }
      assert selection[|selection|..] == [];
      assert written + [] == written;
      return Ok(());
    }

    method EvalInstruction(instr: Value) returns (res: Result<()>)
      modifies this, rnd
      decreases Size(instr), 3, 0
      ensures var spec := Exec(Cx(), instr, old(State()));
              res == Status(spec) && (res.Ok? ==> State() == spec.value)
    {
      InterpolateKeepsShape(instr, env, render);
      var ii := Interpolate(instr, env, render);
      res := EvalInterpolated(ii);
    }

    method EvalInterpolated(ii: Value) returns (res: Result<()>)
      modifies this, rnd
      decreases Size(ii), 2, 0
      ensures var spec := Dispatch(Cx(), ii, old(State()));
              res == Status(spec) && (res.Ok? ==> State() == spec.value)
    {
      if !ii.Dict? {
        return Err(AttributeError);
      }
      ghost var before := State();
      var description := GetOr(ii, "text", Null).value;
      var pct :- ResolveOdds(ii, env);
      var chance := rnd.Uniform();
      assert State() == before.(used := before.used + 1);
      assert Dispatch(Cx(), ii, before) == Branch(Cx(), ii, description, pct, chance, State());
      res := EvalBranch(ii, description, pct, chance);
    }

    /** The if-chain of `eval_interpolated`, after the odds and the chance are drawn. */
    method EvalBranch(ii: Value, description: Value, pct: int, chance: real) returns (res: Result<()>)
      modifies this, rnd
      decreases Size(ii), 1, 1
      ensures var spec := Branch(Cx(), ii, description, pct, chance, old(State()));
              res == Status(spec) && (res.Ok? ==> State() == spec.value)
    {
      if HasKey(ii, "choose_item") {
        res := ChooseItemBranch(ii, description, pct);
      } else if HasKey(ii, "choose_many_items") {
        res := ChooseManyItemsBranch(ii, description, pct);
      } else if HasKey(ii, "choose_text") {
        res := ChooseTextBranch(ii, description, pct);
      } else if HasKey(ii, "choose_some_of") {
        res := ChooseSomeOfBranch(ii, description, pct);
      } else if HasKey(ii, "choose_instruction") {
        res := ChooseInstructionBranch(ii, description, pct);
      } else if HasKey(ii, "choose_some_instructions") {
        res := ChooseSomeInstructionsBranch(ii, description, pct, chance);
      } else if HasKey(ii, "do") {
        res := DoBranch(ii, description, pct, chance);
      } else if HasKey(ii, "text") {
        res := TextBranch(ii, description, pct, chance);
      } else {
        res := Ok(());
      }
    }

    method ChooseItemBranch(ii: Value, description: Value, pct: int) returns (res: Result<()>)
      requires HasKey(ii, "choose_item")
      modifies this, rnd
      ensures var spec := ExecChooseItem(Cx(), ii, description, pct, old(State()));
              res == Status(spec) && (res.Ok? ==> State() == spec.value)
    {
      var eligible :- SelectByInstruction(inventory, At(ii, "choose_item"));
      var selection :- ChooseItemOrRequired(eligible, desired, pct, rnd);
      var shown :- DescribeItem(description, selection);
      if shown {
        res := EvalSet(ii);
      } else {
        res := Ok(());
      }
    }

    method ChooseManyItemsBranch(ii: Value, description: Value, pct: int) returns (res: Result<()>)
      requires HasKey(ii, "choose_many_items")
      modifies this, rnd
      ensures var spec := ExecChooseManyItems(Cx(), ii, description, pct, old(State()));
              res == Status(spec) && (res.Ok? ==> State() == spec.value)
    {
      var eligible :- SelectByInstruction(inventory, At(ii, "choose_many_items"));
      var selection :- ChooseManyIncludingRequired(eligible, desired, pct, rnd);
      var shown :- DescribeItems(description, selection);
      if shown {
        res := EvalSet(ii);
      } else {
        res := Ok(());
      }
    }

    method ChooseTextBranch(ii: Value, description: Value, pct: int) returns (res: Result<()>)
      requires HasKey(ii, "choose_text")
      modifies this, rnd
      ensures var spec := ExecChooseText(Cx(), ii, description, pct, old(State()));
              res == Status(spec) && (res.Ok? ==> State() == spec.value)
    {
      var selection :- MaybeChooseItem(At(ii, "choose_text"), pct as real / 100.0, rnd);
      if selection.Some? && Truthy(selection.value) {
        var _ :- DescribeChoice(description, selection.value);
        var _ :- EvalSet(ii);
        res := EvalSet(selection.value);
      } else {
        res := Ok(());
      }
    }

    method ChooseSomeOfBranch(ii: Value, description: Value, pct: int) returns (res: Result<()>)
      requires HasKey(ii, "choose_some_of")
      modifies this, rnd
      ensures var spec := ExecChooseSomeOf(Cx(), ii, description, pct, old(State()));
              res == Status(spec) && (res.Ok? ==> State() == spec.value)
    {
      var selection :- ChooseManyItems(At(ii, "choose_some_of"), pct, rnd);
      if selection != [] {
        var _ :- DescribeMany(description, selection);
        var _ :- EvalSet(ii);
        res := EvalSet(List(selection));
      } else {
        res := Ok(());
      }
    }

    method ChooseInstructionBranch(ii: Value, description: Value, pct: int) returns (res: Result<()>)
      requires HasKey(ii, "choose_instruction")
      modifies this, rnd
      decreases Size(ii), 1, 0
      ensures var spec := ExecChooseInstruction(Cx(), ii, description, pct, old(State()));
              res == Status(spec) && (res.Ok? ==> State() == spec.value)
    {
      ghost var at := rnd.used;
      var chosen :- MaybeChooseItem(At(ii, "choose_instruction"), pct as real / 100.0, rnd);
      if chosen.Some? && Truthy(chosen.value) {
        log := log + [Paragraph(description)];
        var _ :- EvalSet(ii);
        MaybeChooseItemReturnsElement(At(ii, "choose_instruction"), pct as real / 100.0, rnd.source, at);
        ChildSmaller(ii, "choose_instruction", chosen.value);
        res := EvalInstruction(chosen.value);
      } else {
        res := Ok(());
      }
    }

    method ChooseSomeInstructionsBranch(ii: Value, description: Value, pct: int, chance: real) returns (res: Result<()>)
      requires HasKey(ii, "choose_some_instructions")
      modifies this, rnd
      decreases Size(ii), 1, 0
      ensures var spec := ExecChooseSomeInstructions(Cx(), ii, description, pct, chance, old(State()));
              res == Status(spec) && (res.Ok? ==> State() == spec.value)
    {
      if !Gate(pct, chance) {
        return Ok(());
      }
      ghost var at := rnd.used;
      var chosen :- ChooseManyItems(At(ii, "choose_some_instructions"), pct, rnd);
      if chosen == [] {
        return Ok(());
      }
      log := log + [Paragraph(description)];
      var _ :- EvalSet(ii);
      var _ :- EvalSet(List(chosen));
      ChooseManyReturnsElements(At(ii, "choose_some_instructions"), pct, rnd.source, at);
      ChildrenSmaller(ii, "choose_some_instructions", chosen);
      res := EvalEach(ii, chosen);
    }

    method DoBranch(ii: Value, description: Value, pct: int, chance: real) returns (res: Result<()>)
      requires HasKey(ii, "do")
      modifies this, rnd
      decreases Size(ii), 1, 0
      ensures var spec := ExecDo(Cx(), ii, description, pct, chance, old(State()));
              res == Status(spec) && (res.Ok? ==> State() == spec.value)
    {
      if !Gate(pct, chance) {
        return Ok(());
      }
      log := log + [Paragraph(description)];
      var _ :- EvalSet(ii);
      var children :- Iterate(At(ii, "do"));
      ChildrenSmaller(ii, "do", children);
      res := EvalEach(ii, children);
    }

    method TextBranch(ii: Value, description: Value, pct: int, chance: real) returns (res: Result<()>)
      modifies this
      ensures var spec := ShowText(ii, description, pct, chance, old(State()));
              res == Status(spec) && (res.Ok? ==> State() == spec.value)
    {
      if !Gate(pct, chance) {
        return Ok(());
      }
      log := log + [Paragraph(description)];
      res := EvalSet(ii);
    }

    /** `for inner in children: eval_instruction(...)`, for children of the instruction `ii`. */
    method EvalEach(ii: Value, children: seq<Value>) returns (res: Result<()>)
      requires MaxSize(children) < Size(ii)
      modifies this, rnd
      decreases Size(ii), 0, 0
      ensures var spec := ExecSeq(Cx(), children, old(State()));
              res == Status(spec) && (res.Ok? ==> State() == spec.value)
    {
      for i := 0 to |children|
        invariant ExecSeq(Cx(), children, old(State())) == ExecSeq(Cx(), children[i..], State())
      {
        assert children[i..][1..] == children[i + 1..];
        var _ :- EvalInstruction(children[i]);
      }
      assert children[|children|..] == [];
      return Ok(());
    }

    method EvalScenario(scenario: Value) returns (res: Result<()>)
      modifies this, rnd
      ensures var spec := ExecScenario(Cx(), scenario, old(log), old(rnd.used));
              res == Status(spec) && (res.Ok? ==> State() == spec.value)
    {
      log := log + [Line(Str("Instructions:"))];
      env := map[];
      var instructions :- Index(scenario, "instructions");
      var cs :- Iterate(instructions);
      for i := 0 to |cs|
        invariant ExecScenario(Cx(), scenario, old(log), old(rnd.used)) == ExecSeq(Cx(), cs[i..], State())
      {
        assert cs[i..][1..] == cs[i + 1..];
        var _ :- EvalInstruction(cs[i]);
      }
      assert cs[|cs|..] == [];
      return Ok(());
    }
  }

  /** Prefix `written` to a successful result. */
  function After(written: seq<Event>, r: Result<seq<Event>>): Result<seq<Event>>
  {
    if r.Ok? then Ok(written + r.value) else r
  }

  lemma AfterNothing(r: Result<seq<Event>>)
    ensures After([], r) == r
  {
    if r.Ok? {
      assert [] + r.value == r.value;
    }
  }

  lemma AfterLine(written: seq<Event>, e: Event, rest: Result<seq<Event>>)
    ensures After(written, if rest.Ok? then Ok([e] + rest.value) else rest) == After(written + [e], rest)
  {
    if rest.Ok? {
      assert written + ([e] + rest.value) == written + [e] + rest.value;
    }
  }
}

/** The query builder of src/query/build.ts. A user callback calls five
    primitives (def, component, entity, value, inst); `build` records what
    they append to a flat statement list, in call order, and
    `buildAndExecute` pushes that list onto a stack. The callback is
    modelled as the sequence of primitive calls it makes. */
module QueryBuild {
  import opened Wrappers
  import opened JsValue
  import Stack

  /** One call of a builder primitive, with its arguments. */
  datatype Call =
    | Def(uri: string, properties: Json)
    | Component(uri: string, props: map<string, Json>)
    | Entity
    | Value(registry: Json)
    | Inst(instArgs: seq<Json>)

  /** What one primitive appends: a definition object and the token "!d"; a
      component object (its props spread over "@c", so a prop named "@c"
      wins) and the token "!c"; the one-element array ["!e"]; the pair
      [entity-set tag, registry]; or the whole argument list of `inst` as one
      statement. */
  function Emitted(c: Call): (r: seq<Json>)
    ensures |r| == (if c.Def? || c.Component? then 2 else 1)
  {
    match c
    case Def(uri, args) => [Obj(map["uri" := Str(uri), "properties" := args]), Str("!d")]
    case Component(uri, props) => [Obj(map["@c" := Str(uri)] + props), Str("!c")]
    case Entity => [Arr([Str("!e")])]
    case Value(registry) => [Arr([Stack.TagOf(Stack.EntitySet), registry])]
    case Inst(args) => [Arr(args)]
  }

  /** The statements of a run of calls, in call order. */
  function Statements(calls: seq<Call>): seq<Json>
  {
    if calls == [] then [] else Emitted(calls[0]) + Statements(calls[1..])
  }

  /** Statements of consecutive runs of calls are laid end to end. */
  lemma {:induction false} StatementsAppend(a: seq<Call>, b: seq<Call>)
    ensures Statements(a + b) == Statements(a) + Statements(b)
    decreases |a|
  {
    if a == [] {
      assert a + b == b;
    } else {
      assert (a + b)[1..] == a[1..] + b;
      StatementsAppend(a[1..], b);
    }
  }

  /** `build`: runs the calls against a statement list that starts empty and
      returns it. The stack argument is not used. */
  method Build(stack: Stack.QueryStack, calls: seq<Call>) returns (stmts: seq<Json>)
    ensures stmts == Statements(calls)
  {
    stmts := [];
    var i := 0;
    while i < |calls|
      invariant 0 <= i <= |calls|
      invariant stmts == Statements(calls[..i])
    {
      match calls[i] {
        case Def(uri, args) =>
          stmts := stmts + [Obj(map["uri" := Str(uri), "properties" := args]), Str("!d")];
        case Component(uri, props) =>
          stmts := stmts + [Obj(map["@c" := Str(uri)] + props), Str("!c")];
        case Entity =>
          stmts := stmts + [Arr([Str("!e")])];
        case Value(registry) =>
          stmts := stmts + [Arr([Stack.TagOf(Stack.EntitySet), registry])];
        case Inst(args) =>
          stmts := stmts + [Arr(args)];
      }
      StatementsAppend(calls[..i], [calls[i]]);
      assert calls[..i + 1] == calls[..i] + [calls[i]];
      assert Statements([calls[i]]) == Emitted(calls[i]) + Statements([]);
      i := i + 1;
    }
    assert calls[..i] == calls;
  }

  /** Pushing the statements of `calls` and keeping only the stack. */
  function Run(lib: Stack.Library, stack: Stack.QueryStack, calls: seq<Call>): Result<Stack.QueryStack, Stack.StackError>
  {
    match Stack.PushValues(lib, stack, Statements(calls))
    case Err(e) => Err(e)
    case Ok((s, _)) => Ok(s)
  }

  /** `buildAndExecute`: the stack `pushValues` leaves after the built
      statements, or that call's failure. */
  method BuildAndExecute(lib: Stack.Library, stack: Stack.QueryStack, calls: seq<Call>) returns (r: Result<Stack.QueryStack, Stack.StackError>)
    ensures r == Run(lib, stack, calls)
    ensures r.Err? <==> Stack.PushValues(lib, stack, Statements(calls)).Err?
  {
    var stmts := Build(stack, calls);
    match Stack.PushValues(lib, stack, stmts)
    case Err(e) =>
      r := Err(e);
    case Ok((s, _)) =>
      r := Ok(s);
  }

  /** Executing the calls `a + b` is executing `a` and then `b` on the
      resulting stack; a failure in `a` is final. */
  lemma RunAppend(lib: Stack.Library, stack: Stack.QueryStack, a: seq<Call>, b: seq<Call>)
    ensures Run(lib, stack, a + b) ==
      match Run(lib, stack, a)
      case Err(e) => Err(e)
      case Ok(s1) => Run(lib, s1, b)
  {
    StatementsAppend(a, b);
    Stack.PushValuesAppend(lib, stack, Statements(a), Statements(b));
  }

  /** The entity token ["!e"] is not a two-element array, so `push` wraps it
      as a plain value; its property key is "!e", so it runs word "!e" when
      that word is registered with a matching overload, and is otherwise
      pushed as the wrapped literal. */
  lemma EntityTokenReachesWord(stack: Stack.QueryStack)
    ensures var v := Stack.Wrap(Emitted(Entity)[0]);
      v == Stack.StackValue(Stack.TagOf(Stack.Value), Arr([Str("!e")])) &&
      PropertyKey(v.payload) == "!e" &&
      ("!e" !in stack.words ==> Stack.GetWord(stack, v) == None)
  {
    SingletonArrayKey("!e");
  }

  /** The `value` statement is a two-element array tagged entity-set: it is
      pushed as that stack value and never runs a word. */
  lemma ValueStatementIsPushedAsIs(lib: Stack.Library, stack: Stack.QueryStack, registry: Json)
    ensures Stack.Push(lib, stack, Emitted(Value(registry))[0]) ==
      Ok((Stack.PushRaw(stack, Stack.StackValue(Stack.TagOf(Stack.EntitySet), registry)),
          Some(Stack.StackValue(Stack.TagOf(Stack.EntitySet), registry))))
  {
    assert |Stack.Code(Stack.EntitySet)| != |Stack.Code(Stack.Value)|;
  }

  /** An `inst` with exactly two arguments is taken as the stack value
      [first, second]; with any other count the list is wrapped as a plain
      value. */
  lemma InstStatementShape(args: seq<Json>)
    ensures |args| == 2 ==> Stack.Wrap(Emitted(Inst(args))[0]) == Stack.StackValue(args[0], args[1])
    ensures |args| != 2 ==> Stack.Wrap(Emitted(Inst(args))[0]) == Stack.StackValue(Stack.TagOf(Stack.Value), Arr(args))
  {
  }
}

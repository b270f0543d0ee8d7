/** The persistent query stack of src/query/stack.ts: an immutable record of
    tagged items plus a table of words, each word an ordered list of
    overloads. Every operation returns a new record. Pushing a plain value
    whose payload names a registered word runs the first overload whose tag
    pattern fits the top of the stack instead of pushing the literal.

    Word handlers are named by a `HandlerId`; what a handler does is given by
    a `Library`, a function from the handler, the current stack and the raw
    input to the handler's result. */
module Stack {
  import opened Wrappers
  import opened JsValue

  /** The closed set of stack tags. */
  datatype SType =
    | Value | Array | Map | Function | Bitfield | Entity | EntitySet
    | Component | ComponentDef | ComponentAttr | ComponentValue | Any

  /** The string each tag stands for at run time. */
  function Code(t: SType): string
  {
    match t
    case Value => "%v"
    case Array => "%[]"
    case Map => "%{}"
    case Function => "%()"
    case Bitfield => "%bf"
    case Entity => "%e"
    case EntitySet => "%es"
    case Component => "%c"
    case ComponentDef => "%d"
    case ComponentAttr => "%ca"
    case ComponentValue => "%cv"
    case Any => "%*"
  }

  /** The tag as it appears in the first slot of a stack value. */
  function TagOf(t: SType): Json
  {
    Str(Code(t))
  }

  /** A stack value is the pair [tag, payload]. Any two-element array is
      accepted as one, so the tag is an arbitrary value. */
  datatype StackValue = StackValue(tag: Json, payload: Json)

  type HandlerId = nat

  /** One overload of a word: its handler and the tags it wants on top. */
  datatype Overload = Overload(handler: HandlerId, pattern: seq<SType>)

  datatype QueryStack = QueryStack(items: seq<StackValue>, words: map<string, seq<Overload>>)

  /** What a handler does: it returns a new stack, maybe a value and maybe a
      push flag, or it throws. */
  datatype HandlerResult =
    | Returned(stack: QueryStack, value: Option<StackValue>, doPush: Option<bool>)
    | Threw(message: string)

  type Library = (HandlerId, QueryStack, Json) -> HandlerResult

  /** One entry of `addWords`: the word, its handler and its tag pattern. */
  datatype WordSpec = WordSpec(word: string, handler: HandlerId, pattern: seq<SType>)

  datatype StackError =
    | StackEmpty
    | HandlerFailed(message: string, value: StackValue)
    | MissingItemDestructured(tag: string)
    | NotAWordList(key: string)
    | SizeTooSmall(expectedSize: int, actualSize: nat, sizeMessage: Option<string>)
    | OutOfBounds(index: int, size: nat)
    | NotAStackValue(position: int)
    | TagMismatch(expectedTag: string, tagPosition: nat, actualTag: Json)
    | ArgTypeMismatch(expectedType: string, argPosition: nat, actualType: string)

  function Create(): (r: QueryStack)
    ensures |r.items| == 0 && |r.words| == 0
  {
    QueryStack([], map[])
  }

  /** The properties every plain object inherits from `Object.prototype`.
      Reading one of them from the word table gives a function (or, for
      `__proto__`, the prototype object): never a list of overloads. */
  const InheritedKeys: set<string> :=
    {"constructor", "__proto__", "__defineGetter__", "__defineSetter__",
     "__lookupGetter__", "__lookupSetter__", "hasOwnProperty", "isPrototypeOf",
     "propertyIsEnumerable", "toLocaleString", "toString", "valueOf"}

  /** A two-element array is taken as a stack value as it is. */
  predicate IsStackValue(input: Json)
  {
    input.Arr? && |input.elems| == 2
  }

  /** The stack value `push` makes of its input. */
  function Wrap(input: Json): (r: StackValue)
    ensures IsStackValue(input) ==> r == StackValue(input.elems[0], input.elems[1])
    ensures !IsStackValue(input) ==> r.tag == TagOf(Value) && r.payload == input
  {
    if IsStackValue(input) then StackValue(input.elems[0], input.elems[1])
    else StackValue(TagOf(Value), input)
  }

  // ---------------------------------------------------------------------
  // Pattern matching and word lookup

  /** A pattern tag fits an item when it is the wildcard or equals the item's tag. */
  predicate TagFits(sym: SType, item: StackValue)
  {
    sym == Any || item.tag == TagOf(sym)
  }

  /** A pattern matches when it is empty, or it is no longer than the stack
      and each of its tags fits the item it lines up with, last tag on the
      top item. */
  predicate Matches(items: seq<StackValue>, pattern: seq<SType>)
  {
    |pattern| == 0 ||
    (|pattern| <= |items| &&
     forall i :: 0 <= i < |pattern| ==> TagFits(pattern[i], items[|items| - |pattern| + i]))
  }

  /** The scan of `matchStack`, walking the pattern from its last tag down. */
  method MatchStack(items: seq<StackValue>, pattern: seq<SType>) returns (b: bool)
    ensures b == Matches(items, pattern)
  {
    var pLength := |pattern|;
    if pLength == 0 {
      return true;
    }
    var sLength := |items|;
    if pLength > sLength {
      return false;
    }
    var ii := 0;
    while ii < pLength
      invariant 0 <= ii <= pLength
      invariant forall i :: pLength - ii <= i < pLength ==> TagFits(pattern[i], items[sLength - pLength + i])
    {
      var sym := pattern[pLength - 1 - ii];
      var vt := items[sLength - 1 - ii].tag;
      if sym != Any && TagOf(sym) != vt {
        return false;
      }
      ii := ii + 1;
    }
    return true;
  }

  /** Growing the stack by one item and the pattern by one tag: the longer
      pattern matches exactly when the shorter one did and the new tag fits
      the new top. */
  lemma {:induction false} MatchesExtend(items: seq<StackValue>, v: StackValue, pattern: seq<SType>, t: SType)
    ensures Matches(items + [v], pattern + [t]) <==> Matches(items, pattern) && TagFits(t, v)
  {
    var s, p := items + [v], pattern + [t];
    if Matches(s, p) {
      assert TagFits(p[|p| - 1], s[|s| - 1]);
      if |pattern| > 0 {
        forall i | 0 <= i < |pattern|
          ensures TagFits(pattern[i], items[|items| - |pattern| + i])
        {
          assert p[i] == pattern[i];
          assert s[|s| - |p| + i] == items[|items| - |pattern| + i];
        }
      }
    }
    if Matches(items, pattern) && TagFits(t, v) {
      forall i | 0 <= i < |p|
        ensures TagFits(p[i], s[|s| - |p| + i])
      {
        if i < |pattern| {
          assert s[|s| - |p| + i] == items[|items| - |pattern| + i];
        }
      }
    }
  }

  /** A pattern made only of wildcards matches exactly the stacks at least
      as deep as the pattern is long. */
  lemma WildcardPattern(items: seq<StackValue>, pattern: seq<SType>)
    requires forall i :: 0 <= i < |pattern| ==> pattern[i] == Any
    ensures Matches(items, pattern) <==> |pattern| <= |items|
  {
  }

  /** The index of the first overload, in registration order, whose pattern
      matches the stack. */
  function FirstMatch(overloads: seq<Overload>, items: seq<StackValue>): (r: Option<nat>)
    ensures r.Some? ==> r.value < |overloads| && Matches(items, overloads[r.value].pattern)
    ensures r.Some? ==> forall j :: 0 <= j < r.value ==> !Matches(items, overloads[j].pattern)
    ensures r.None? ==> forall j :: 0 <= j < |overloads| ==> !Matches(items, overloads[j].pattern)
  {
    if overloads == [] then None
    else if Matches(items, overloads[0].pattern) then Some(0)
    else match FirstMatch(overloads[1..], items)
      case None => None
      case Some(k) => Some(k + 1)
  }

  /** The handler `push` runs for a value, if any: only a plain-value item
      whose payload (as a property key) names a registered word, and then
      the first overload whose pattern matches. */
  function GetWord(stack: QueryStack, value: StackValue): (r: Option<HandlerId>)
    ensures r.Some? <==>
      value.tag == TagOf(Value) && PropertyKey(value.payload) in stack.words &&
      exists i :: 0 <= i < |stack.words[PropertyKey(value.payload)]| &&
        Matches(stack.items, stack.words[PropertyKey(value.payload)][i].pattern)
    ensures r.Some? ==>
      var overloads := stack.words[PropertyKey(value.payload)];
      exists i :: 0 <= i < |overloads| && r.value == overloads[i].handler &&
        Matches(stack.items, overloads[i].pattern) &&
        forall j :: 0 <= j < i ==> !Matches(stack.items, overloads[j].pattern)
  {
    if value.tag != TagOf(Value) then None
    else
      var key := PropertyKey(value.payload);
      if key !in stack.words then None
      else match FirstMatch(stack.words[key], stack.items)
        case None => None
        case Some(i) => Some(stack.words[key][i].handler)
  }

  /** The word lookup of a plain value reads an inherited property instead
      of an overload list, so searching that "list" throws a TypeError. */
  predicate LookupThrows(stack: QueryStack, value: StackValue)
  {
    value.tag == TagOf(Value) && PropertyKey(value.payload) !in stack.words &&
    PropertyKey(value.payload) in InheritedKeys
  }

  // ---------------------------------------------------------------------
  // Pushing

  function PushRaw(stack: QueryStack, value: StackValue): (r: QueryStack)
    ensures r.items == stack.items + [value] && r.words == stack.words
  {
    stack.(items := stack.items + [value])
  }

  /** Pushes an input. A word lookup that reads an inherited property fails
      the push (outside the handler's error wrapping). When a word handler
      applies it runs on the stack and the RAW input; its value is pushed on
      the stack it returns unless the value is missing or the flag is false;
      a throwing handler makes the push fail naming the wrapped value.
      Otherwise the wrapped value is pushed. */
  function Push(lib: Library, stack: QueryStack, input: Json): (r: Result<(QueryStack, Option<StackValue>), StackError>)
    ensures LookupThrows(stack, Wrap(input)) ==> r == Err(NotAWordList(PropertyKey(Wrap(input).payload)))
    ensures GetWord(stack, Wrap(input)).None? && !LookupThrows(stack, Wrap(input)) ==>
      r == Ok((QueryStack(stack.items + [Wrap(input)], stack.words), Some(Wrap(input))))
    ensures GetWord(stack, Wrap(input)).Some? ==>
      match lib(GetWord(stack, Wrap(input)).value, stack, input)
      case Threw(msg) => r == Err(HandlerFailed(msg, Wrap(input)))
      case Returned(s, v, doPush) =>
        r.Ok? && r.value.1 == v &&
        r.value.0.words == s.words &&
        r.value.0.items == (if v.Some? && doPush != Some(false) then s.items + [v.value] else s.items)
  {
    var value := Wrap(input);
    if LookupThrows(stack, value) then Err(NotAWordList(PropertyKey(value.payload)))
    else match GetWord(stack, value)
    case None => Ok((PushRaw(stack, value), Some(value)))
    case Some(h) =>
      match lib(h, stack, input)
      case Threw(msg) => Err(HandlerFailed(msg, value))
      case Returned(s, v, doPush) =>
        if v.Some? && doPush != Some(false) then Ok((PushRaw(s, v.value), v)) else Ok((s, v))
  }

  /** Pushes the inputs one after another, left to right, collecting the
      value each push reports; the first failure fails the whole batch. */
  function PushValues(lib: Library, stack: QueryStack, values: seq<Json>): (r: Result<(QueryStack, seq<Option<StackValue>>), StackError>)
    ensures r.Ok? ==> |r.value.1| == |values|
    decreases |values|
  {
    if values == [] then Ok((stack, []))
    else
      match Push(lib, stack, values[0])
      case Err(e) => Err(e)
      case Ok((s1, out)) =>
        match PushValues(lib, s1, values[1..])
        case Err(e) => Err(e)
        case Ok((s2, outs)) => Ok((s2, [out] + outs))
  }

  /** Running a batch `a + b` is running `a` and then `b` on the stack `a`
      left, with the outputs concatenated; a failure in `a` is the result. */
  lemma {:induction false} PushValuesAppend(lib: Library, stack: QueryStack, a: seq<Json>, b: seq<Json>)
    decreases |a|
    ensures PushValues(lib, stack, a + b) ==
      match PushValues(lib, stack, a)
      case Err(e) => Err(e)
      case Ok((s1, o1)) =>
        match PushValues(lib, s1, b)
        case Err(e) => Err(e)
        case Ok((s2, o2)) => Ok((s2, o1 + o2))
  {
    if a == [] {
      assert a + b == b;
      assert PushValues(lib, stack, a) == Ok((stack, []));
      match PushValues(lib, stack, b)
      case Err(e) =>
      case Ok((s2, o2)) => assert [] + o2 == o2;
    } else {
      assert (a + b)[1..] == a[1..] + b;
      match Push(lib, stack, a[0])
      case Err(e) =>
      case Ok((s1, out)) =>
        PushValuesAppend(lib, s1, a[1..], b);
        match PushValues(lib, s1, a[1..])
        case Err(e) =>
        case Ok((s2, o2)) =>
          match PushValues(lib, s2, b)
          case Err(e) =>
          case Ok((s3, o3)) =>
            assert [out] + (o2 + o3) == ([out] + o2) + o3;
    }
  }

  /** A step that fails aborts the batch: whatever follows it, the batch
      returns that step's error and no stack. */
  lemma PushValuesAbort(lib: Library, stack: QueryStack, done: seq<Json>, v: Json, rest: seq<Json>)
    requires PushValues(lib, stack, done).Ok?
    requires Push(lib, PushValues(lib, stack, done).value.0, v).Err?
    ensures PushValues(lib, stack, done + [v] + rest) ==
      Err(Push(lib, PushValues(lib, stack, done).value.0, v).error)
  {
    PushValuesAppend(lib, stack, done, [v] + rest);
    assert done + [v] + rest == done + ([v] + rest);
  }

  /** On a stack without words every input is pushed as its wrapped stack
      value, in order, and each push reports that value. */
  lemma {:induction false} PushValuesWithoutWords(lib: Library, stack: QueryStack, values: seq<Json>)
    requires stack.words == map[]
    requires forall i :: 0 <= i < |values| ==> !LookupThrows(stack, Wrap(values[i]))
    decreases |values|
    ensures PushValues(lib, stack, values) ==
      Ok((QueryStack(stack.items + seq(|values|, i requires 0 <= i < |values| => Wrap(values[i])), stack.words),
          seq(|values|, i requires 0 <= i < |values| => Some(Wrap(values[i])))))
  {
    if values == [] {
      assert seq(|values|, i requires 0 <= i < |values| => Wrap(values[i])) == [];
      assert seq(|values|, i requires 0 <= i < |values| => Some(Wrap(values[i]))) == [];
      assert stack.items + [] == stack.items;
    } else {
      var s1 := PushRaw(stack, Wrap(values[0]));
      assert !LookupThrows(stack, Wrap(values[0]));
      assert Push(lib, stack, values[0]) == Ok((s1, Some(Wrap(values[0]))));
      var tail := values[1..];
      assert forall i :: 0 <= i < |tail| ==> tail[i] == values[i + 1];
      PushValuesWithoutWords(lib, s1, tail);
      assert s1.items + seq(|tail|, i requires 0 <= i < |tail| => Wrap(tail[i])) ==
        stack.items + seq(|values|, i requires 0 <= i < |values| => Wrap(values[i]));
      assert [Some(Wrap(values[0]))] + seq(|tail|, i requires 0 <= i < |tail| => Some(Wrap(tail[i]))) ==
        seq(|values|, i requires 0 <= i < |values| => Some(Wrap(values[i])));
    }
  }

  // ---------------------------------------------------------------------
  // Popping, peeking, replacing

  /** Pop fails on an empty stack; otherwise it returns the top item and the
      stack below it. */
  function Pop(stack: QueryStack): (r: Result<(QueryStack, StackValue), StackError>)
    ensures r.Err? <==> stack.items == []
    ensures r.Err? ==> r.error == StackEmpty
    ensures r.Ok? ==> r.value.0.items + [r.value.1] == stack.items && r.value.0.words == stack.words
  {
    var length := |stack.items|;
    if length == 0 then Err(StackEmpty)
    else Ok((stack.(items := stack.items[..length - 1]), stack.items[length - 1]))
  }

  /** Pop undoes a push that no word intercepted. */
  lemma PopUndoesPush(lib: Library, stack: QueryStack, input: Json)
    requires GetWord(stack, Wrap(input)).None? && !LookupThrows(stack, Wrap(input))
    ensures Push(lib, stack, input).Ok?
    ensures Pop(Push(lib, stack, input).value.0) == Ok((stack, Wrap(input)))
  {
    var s := Push(lib, stack, input).value.0;
    assert s.items[..|s.items| - 1] == stack.items;
  }

  /** A tag is among `types` (the check `types.indexOf(tag) !== -1`). */
  predicate TagIn(item: StackValue, types: seq<SType>)
  {
    exists t :: t in types && item.tag == TagOf(t)
  }

  /** Pops the longest run of top items whose tags are among `types`; the
      popped items come back top first, the stack keeps the untouched
      prefix, and the item left on top (if any) has a tag outside `types`. */
  method PopOfType(stack: QueryStack, types: seq<SType>) returns (rest: QueryStack, results: seq<StackValue>)
    ensures rest.words == stack.words
    ensures |results| <= |stack.items|
    ensures rest.items == stack.items[..|stack.items| - |results|]
    ensures forall i :: 0 <= i < |results| ==> results[i] == stack.items[|stack.items| - 1 - i]
    ensures forall i :: 0 <= i < |results| ==> TagIn(results[i], types)
    ensures |rest.items| > 0 ==> !TagIn(rest.items[|rest.items| - 1], types)
    ensures stack.items == [] ==> rest == stack
  {
    var length := |stack.items|;
    if length == 0 {
      return stack, [];
    }
    results := [];
    var ii := length - 1;
    while ii >= 0
      invariant -1 <= ii < length
      invariant |results| == length - 1 - ii
      invariant forall i :: 0 <= i < |results| ==> results[i] == stack.items[length - 1 - i]
      invariant forall i :: 0 <= i < |results| ==> TagIn(results[i], types)
    {
      var value := stack.items[ii];
      if !TagIn(value, types) {
        break;
      }
      results := results + [value];
      ii := ii - 1;
    }
    rest := stack.(items := stack.items[..ii + 1]);
  }

  /** `popOfTypeV`: the same run, as payloads. */
  method PopOfTypeV(stack: QueryStack, types: seq<SType>) returns (rest: QueryStack, payloads: seq<Json>)
    ensures rest.words == stack.words
    ensures |payloads| <= |stack.items|
    ensures rest.items == stack.items[..|stack.items| - |payloads|]
    ensures forall i :: 0 <= i < |payloads| ==>
      payloads[i] == stack.items[|stack.items| - 1 - i].payload && TagIn(stack.items[|stack.items| - 1 - i], types)
    ensures |rest.items| > 0 ==> !TagIn(rest.items[|rest.items| - 1], types)
  {
    var results;
    rest, results := PopOfType(stack, types);
    payloads := seq(|results|, i requires 0 <= i < |results| => results[i].payload);
    assert |payloads| == |results|;
    forall k | |stack.items| - |results| <= k < |stack.items|
      ensures TagIn(stack.items[k], types)
    {
      var i := |stack.items| - 1 - k;
      assert results[i] == stack.items[k] && TagIn(results[i], types);
    }
  }

  /** The item `offset` places below the top, if there is one. */
  function Peek(stack: QueryStack, offset: int): (r: Option<StackValue>)
    ensures r.Some? <==> 0 <= offset < |stack.items|
    ensures r.Some? ==> r.value == stack.items[|stack.items| - 1 - offset]
  {
    var i := |stack.items| - 1 - offset;
    if 0 <= i < |stack.items| then Some(stack.items[i]) else None
  }

  /** The payload of the top item, or undefined on an empty stack. */
  function PeekV(stack: QueryStack): (r: Json)
    ensures stack.items == [] ==> r == Undefined
    ensures stack.items != [] ==> r == stack.items[|stack.items| - 1].payload
  {
    if stack.items == [] then Undefined else stack.items[|stack.items| - 1].payload
  }

  /** Replaces the item at `index`; an index outside the stack changes nothing. */
  function Replace(stack: QueryStack, index: int, newItem: StackValue): (r: QueryStack)
    ensures r.words == stack.words && |r.items| == |stack.items|
    ensures forall i :: 0 <= i < |r.items| ==> r.items[i] == if i == index then newItem else stack.items[i]
  {
    stack.(items := seq(|stack.items|, ii requires 0 <= ii < |stack.items| =>
      if ii != index then stack.items[ii] else newItem))
  }

  /** Replacing an item and then peeking at its position gives the new item;
      a second replacement at the same index overrides the first. */
  lemma ReplaceThenPeek(stack: QueryStack, index: int, a: StackValue, b: StackValue)
    requires 0 <= index < |stack.items|
    ensures Peek(Replace(stack, index, a), |stack.items| - 1 - index) == Some(a)
    ensures Replace(Replace(stack, index, a), index, b) == Replace(stack, index, b)
  {
    var r1 := Replace(Replace(stack, index, a), index, b);
    var r2 := Replace(stack, index, b);
    assert r1.items == r2.items;
  }

  /** Replacing at an index outside the stack gives back the same stack. */
  lemma ReplaceOutside(stack: QueryStack, index: int, item: StackValue)
    requires index < 0 || index >= |stack.items|
    ensures Replace(stack, index, item) == stack
  {
    assert Replace(stack, index, item).items == stack.items;
  }

  // ---------------------------------------------------------------------
  // The bottom end

  function Unshift(stack: QueryStack, value: StackValue): (r: QueryStack)
    ensures r.items == [value] + stack.items && r.words == stack.words
  {
    stack.(items := [value] + stack.items)
  }

  /** Removes the bottom item; on an empty stack the value is undefined and
      the stack stays empty. */
  function Shift(stack: QueryStack): (r: (QueryStack, Option<StackValue>))
    ensures r.0.words == stack.words
    ensures r.1.None? <==> stack.items == []
    ensures r.1.None? ==> r.0 == stack
    ensures r.1.Some? ==> [r.1.value] + r.0.items == stack.items
  {
    if stack.items == [] then (stack, None)
    else (stack.(items := stack.items[1..]), Some(stack.items[0]))
  }

  /** Shift undoes unshift. */
  lemma ShiftUndoesUnshift(stack: QueryStack, value: StackValue)
    ensures Shift(Unshift(stack, value)) == (stack, Some(value))
  {
    assert ([value] + stack.items)[1..] == stack.items;
  }

  // ---------------------------------------------------------------------
  // Searching

  /** The highest index whose tag is `t`, with its item, or -1 and nothing. */
  method FindWithIndex(stack: QueryStack, t: string) returns (index: int, item: Option<StackValue>)
    ensures -1 <= index < |stack.items|
    ensures index == -1 <==> forall i :: 0 <= i < |stack.items| ==> stack.items[i].tag != Str(t)
    ensures index == -1 ==> item == None
    ensures index >= 0 ==> stack.items[index].tag == Str(t) && item == Some(stack.items[index])
    ensures index >= 0 ==> forall i :: index < i < |stack.items| ==> stack.items[i].tag != Str(t)
  {
    var ii := |stack.items| - 1;
    while ii >= 0
      invariant -1 <= ii < |stack.items|
      invariant forall i :: ii < i < |stack.items| ==> stack.items[i].tag != Str(t)
    {
      var it := stack.items[ii];
      if Str(t) == it.tag {
        return ii, Some(it);
      }
      ii := ii - 1;
    }
    return -1, None;
  }

  /** `findWithIndexV`: the index and payload of the nearest item tagged
      `t`. When there is none, destructuring the missing item throws (a
      TypeError) before the index is compared with -1. */
  method FindWithIndexV(stack: QueryStack, t: string) returns (r: Result<(int, Json), StackError>)
    ensures r.Err? <==> forall i :: 0 <= i < |stack.items| ==> stack.items[i].tag != Str(t)
    ensures r.Err? ==> r.error == MissingItemDestructured(t)
    ensures r.Ok? ==>
              && 0 <= r.value.0 < |stack.items|
              && stack.items[r.value.0].tag == Str(t)
              && r.value.1 == stack.items[r.value.0].payload
              && forall i :: r.value.0 < i < |stack.items| ==> stack.items[i].tag != Str(t)
  {
    var index, item := FindWithIndex(stack, t);
    if index == -1 {
      return Err(MissingItemDestructured(t));
    }
    return Ok((index, item.value.payload));
  }

  /** `find`: the nearest item tagged `t`, if any. */
  method Find(stack: QueryStack, t: string) returns (item: Option<StackValue>)
    ensures item.None? <==> forall i :: 0 <= i < |stack.items| ==> stack.items[i].tag != Str(t)
    ensures item.Some? ==>
              && item.value.tag == Str(t)
              && exists k :: 0 <= k < |stack.items| && stack.items[k] == item.value &&
                             forall i :: k < i < |stack.items| ==> stack.items[i].tag != Str(t)
  {
    var index;
    index, item := FindWithIndex(stack, t);
  }

  /** Item k is tagged `t` and no item above it is. */
  predicate IsNearest(items: seq<StackValue>, k: int, t: string)
    requires 0 <= k < |items|
  {
    items[k].tag == Str(t) && forall i :: k < i < |items| ==> items[i].tag != Str(t)
  }

  /** `findV`: the payload of the nearest item tagged `t`, or undefined. */
  method FindV(stack: QueryStack, t: string) returns (payload: Json)
    ensures (forall i :: 0 <= i < |stack.items| ==> stack.items[i].tag != Str(t)) ==> payload == Undefined
    ensures forall k :: 0 <= k < |stack.items| && IsNearest(stack.items, k, t) ==> payload == stack.items[k].payload
  {
    var index, item := FindWithIndex(stack, t);
    payload := if item.Some? then item.value.payload else Undefined;
  }

  // ---------------------------------------------------------------------
  // Words

  /** The overloads `specs` registers for word `w`, in order. */
  function OverloadsOf(specs: seq<WordSpec>, w: string): seq<Overload>
  {
    if specs == [] then []
    else (if specs[0].word == w then [Overload(specs[0].handler, specs[0].pattern)] else []) + OverloadsOf(specs[1..], w)
  }

  function Lookup(words: map<string, seq<Overload>>, w: string): seq<Overload>
  {
    if w in words then words[w] else []
  }

  /** Registers one overload at the end of its word's list. */
  function AddWord(stack: QueryStack, spec: WordSpec): QueryStack
  {
    var patterns := Lookup(stack.words, spec.word) + [Overload(spec.handler, spec.pattern)];
    stack.(words := stack.words[spec.word := patterns])
  }

  /** `addWords`: registers the specs in order. The items are untouched.
      Registering a word that is not yet in the table but is inherited from
      `Object.prototype` spreads a non-iterable and throws. */
  function AddWords(stack: QueryStack, specs: seq<WordSpec>): (r: Result<QueryStack, StackError>)
    ensures r.Ok? ==> r.value.items == stack.items
    decreases |specs|
  {
    if specs == [] then Ok(stack)
    else if specs[0].word !in stack.words && specs[0].word in InheritedKeys then Err(NotAWordList(specs[0].word))
    else AddWords(AddWord(stack, specs[0]), specs[1..])
  }

  /** Registration fails exactly when some spec names an inherited property
      that the table does not hold. */
  lemma {:induction false} AddWordsFails(stack: QueryStack, specs: seq<WordSpec>)
    ensures AddWords(stack, specs).Err? <==>
      exists i :: 0 <= i < |specs| && specs[i].word in InheritedKeys && specs[i].word !in stack.words
    decreases |specs|
  {
    if specs != [] && !(specs[0].word !in stack.words && specs[0].word in InheritedKeys) {
      var s1 := AddWord(stack, specs[0]);
      AddWordsFails(s1, specs[1..]);
      if exists i :: 0 <= i < |specs| && specs[i].word in InheritedKeys && specs[i].word !in stack.words {
        var i :| 0 <= i < |specs| && specs[i].word in InheritedKeys && specs[i].word !in stack.words;
        assert specs[1..][i - 1] == specs[i];
      }
      if exists j :: 0 <= j < |specs[1..]| && specs[1..][j].word in InheritedKeys && specs[1..][j].word !in s1.words {
        var j :| 0 <= j < |specs[1..]| && specs[1..][j].word in InheritedKeys && specs[1..][j].word !in s1.words;
        assert specs[j + 1] == specs[1..][j];
      }
    }
  }

  /** After a successful registration, a word is present exactly when it
      was before or the specs name it, and its overloads are its old list
      followed by the new ones for it, in order. */
  lemma {:induction false} AddWordsContents(stack: QueryStack, specs: seq<WordSpec>, w: string)
    ensures AddWords(stack, specs).Ok? ==>
      (w in AddWords(stack, specs).value.words <==> w in stack.words || OverloadsOf(specs, w) != [])
    ensures AddWords(stack, specs).Ok? ==>
      Lookup(AddWords(stack, specs).value.words, w) == Lookup(stack.words, w) + OverloadsOf(specs, w)
    decreases |specs|
  {
    if specs == [] {
      assert Lookup(stack.words, w) + [] == Lookup(stack.words, w);
    } else if !(specs[0].word !in stack.words && specs[0].word in InheritedKeys) {
      var s1 := AddWord(stack, specs[0]);
      AddWordsContents(s1, specs[1..], w);
      var one := if specs[0].word == w then [Overload(specs[0].handler, specs[0].pattern)] else [];
      assert Lookup(s1.words, w) == Lookup(stack.words, w) + one;
      assert OverloadsOf(specs, w) == one + OverloadsOf(specs[1..], w);
      assert (Lookup(stack.words, w) + one) + OverloadsOf(specs[1..], w) ==
        Lookup(stack.words, w) + (one + OverloadsOf(specs[1..], w));
    }
  }

  /** Registering two overloads of a new word succeeds unless the word is an
      inherited property, and then gives that word exactly those two
      overloads, in registration order. */
  lemma AddTwoOverloads(stack: QueryStack, w: string, first: WordSpec, second: WordSpec)
    requires w !in stack.words && first.word == w && second.word == w
    ensures AddWords(stack, [first, second]).Ok? <==> w !in InheritedKeys
    ensures AddWords(stack, [first, second]).Ok? ==>
      && w in AddWords(stack, [first, second]).value.words
      && AddWords(stack, [first, second]).value.words[w] ==
         [Overload(first.handler, first.pattern), Overload(second.handler, second.pattern)]
  {
    var specs := [first, second];
    assert specs[1..] == [second];
    assert OverloadsOf([second], w) == [Overload(second.handler, second.pattern)];
    assert OverloadsOf(specs, w) == [Overload(first.handler, first.pattern), Overload(second.handler, second.pattern)];
    AddWordsFails(stack, specs);
    assert specs[0].word == w;
    AddWordsContents(stack, specs, w);
  }

  /** For a word with two overloads, the first one whose pattern matches runs. */
  lemma GetWordOfTwo(stack: QueryStack, w: string, o1: Overload, o2: Overload)
    requires w in stack.words && stack.words[w] == [o1, o2]
    ensures GetWord(stack, StackValue(TagOf(Value), Str(w))) ==
      if Matches(stack.items, o1.pattern) then Some(o1.handler)
      else if Matches(stack.items, o2.pattern) then Some(o2.handler)
      else None
  {
    var overloads := [o1, o2];
    assert PropertyKey(Str(w)) == w;
    assert overloads[1..] == [o2];
    assert overloads[1..][1..] == [];
    assert FirstMatch(overloads[1..][1..], stack.items) == None;
    assert FirstMatch(overloads[1..], stack.items) ==
      if Matches(stack.items, o2.pattern) then Some(0) else None;
    assert FirstMatch(overloads, stack.items) ==
      if Matches(stack.items, o1.pattern) then Some(0)
      else if Matches(stack.items, o2.pattern) then Some(1)
      else None;
  }

  /** A one-tag pattern matches exactly when the stack is not empty and the
      tag fits the top item. */
  lemma SingleTagMatches(items: seq<StackValue>, x: SType)
    ensures Matches(items, [x]) <==> items != [] && TagFits(x, items[|items| - 1])
  {
    var n := |items|;
    if Matches(items, [x]) {
      assert TagFits([x][0], items[n - 1 + 0]);
    }
    if items != [] && TagFits(x, items[n - 1]) {
      forall i | 0 <= i < |[x]|
        ensures TagFits([x][i], items[n - |[x]| + i])
      {
        assert i == 0;
      }
    }
  }

  /** Overloads are tried in registration order and an empty pattern always
      matches: with the one-argument overload of tag `x` registered before the
      zero-argument one, the top tag decides which handler runs, and on an
      empty stack the zero-argument one runs. */
  lemma OneArgumentFirst(stack: QueryStack, w: string, hx: HandlerId, h0: HandlerId, x: SType)
    requires w !in stack.words && x != Any
    ensures var r := AddWords(stack, [WordSpec(w, hx, [x]), WordSpec(w, h0, [])]);
      && (r.Ok? <==> w !in InheritedKeys)
      && (r.Ok? ==>
            GetWord(r.value, StackValue(TagOf(Value), Str(w))) ==
            (if stack.items != [] && stack.items[|stack.items| - 1].tag == TagOf(x) then Some(hx) else Some(h0)))
  {
    var r := AddWords(stack, [WordSpec(w, hx, [x]), WordSpec(w, h0, [])]);
    AddTwoOverloads(stack, w, WordSpec(w, hx, [x]), WordSpec(w, h0, []));
    if r.Ok? {
      GetWordOfTwo(r.value, w, Overload(hx, [x]), Overload(h0, []));
      SingleTagMatches(stack.items, x);
    }
  }

  /** With the zero-argument overload registered first, it always runs. */
  lemma ZeroArgumentFirst(stack: QueryStack, w: string, hx: HandlerId, h0: HandlerId, x: SType)
    requires w !in stack.words
    ensures var r := AddWords(stack, [WordSpec(w, h0, []), WordSpec(w, hx, [x])]);
      && (r.Ok? <==> w !in InheritedKeys)
      && (r.Ok? ==> GetWord(r.value, StackValue(TagOf(Value), Str(w))) == Some(h0))
  {
    AddTwoOverloads(stack, w, WordSpec(w, h0, []), WordSpec(w, hx, [x]));
  }

  /** Pushing a plain value whose key is an inherited property that is not
      a registered word fails, whatever the stack holds. */
  lemma InheritedKeyFailsPush(lib: Library, stack: QueryStack, key: string)
    requires key in InheritedKeys && key !in stack.words
    ensures Push(lib, stack, Str(key)) == Err(NotAWordList(key))
  {
    assert PropertyKey(Wrap(Str(key)).payload) == key;
  }

  // ---------------------------------------------------------------------
  // Assertions

  /** Passes when the stack holds at least `expected` items. */
  function AssertStackSize(stack: QueryStack, expected: int, msg: Option<string>): (r: Outcome<StackError>)
    ensures r.Pass? <==> |stack.items| >= expected
    ensures r.Fail? ==> r.error == SizeTooSmall(expected, |stack.items|, msg)
  {
    var len := |stack.items|;
    if len < expected then Fail(SizeTooSmall(expected, len, msg)) else Pass
  }

  /** A passing size check of n guarantees n pops in a row succeed. */
  lemma {:induction false} SizeCheckAllowsPops(stack: QueryStack, n: nat, msg: Option<string>)
    requires AssertStackSize(stack, n, msg).Pass?
    ensures n > 0 ==> Pop(stack).Ok? && AssertStackSize(Pop(stack).value.0, n - 1, msg).Pass?
  {
    if n > 0 {
      var r := Pop(stack);
      assert r.Ok?;
      assert |r.value.0.items| + 1 == |stack.items|;
    }
  }

  /** Passes when the item `index` places below the top exists, carries the
      tag `opType` and, when `argType` is given, a payload of that `typeof`. */
  function AssertStackValueType(stack: QueryStack, index: int, opType: string, argType: Option<string>): (r: Outcome<StackError>)
    ensures r.Pass? <==>
      0 <= index < |stack.items| &&
      stack.items[|stack.items| - 1 - index].tag == Str(opType) &&
      (argType.Some? ==> TypeOf(stack.items[|stack.items| - 1 - index].payload) == argType.value)
    ensures index >= |stack.items| ==> r == Fail(OutOfBounds(index, |stack.items|))
  {
    var len := |stack.items|;
    var idx := len - 1 - index;
    if idx < 0 then Fail(OutOfBounds(index, len))
    else if idx >= len then Fail(NotAStackValue(idx))
    else
      var value := stack.items[idx];
      if value.tag != Str(opType) then Fail(TagMismatch(opType, idx, value.tag))
      else if argType.Some? && TypeOf(value.payload) != argType.value then
        Fail(ArgTypeMismatch(argType.value, idx, TypeOf(value.payload)))
      else Pass
  }

  /** After a passing type check, peeking at the same offset yields an item
      with that tag. */
  lemma TypeCheckThenPeek(stack: QueryStack, index: int, opType: string, argType: Option<string>)
    requires AssertStackValueType(stack, index, opType, argType).Pass?
    ensures Peek(stack, index).Some? && Peek(stack, index).value.tag == Str(opType)
  {
  }

  /** A function payload has `typeof` "function": it passes an argument
      check for "function" and fails one for "object". */
  lemma FunctionArgumentType(stack: QueryStack, index: int, opType: string, source: string)
    requires 0 <= index < |stack.items|
    requires stack.items[|stack.items| - 1 - index] == StackValue(Str(opType), Func(source))
    ensures AssertStackValueType(stack, index, opType, Some("function")) == Pass
    ensures AssertStackValueType(stack, index, opType, Some("object")) ==
      Fail(ArgTypeMismatch("object", |stack.items| - 1 - index, "function"))
  {
  }
}

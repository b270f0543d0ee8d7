# Query stack, change sets, query builder and LOOP — a Dafny model

This project models the core of an entity-component query engine. Queries
run on a Forth-like stack.

- **Query stack** (`stack.dfy`, module `Stack`). The stack is a persistent
  record of tagged items `[tag, payload]` plus a table of *words*. Each word
  has an ordered list of overloads, and each overload is a handler and a
  tag pattern. Pushing a plain value whose payload names a word runs the
  first overload whose pattern fits the top of the stack, instead of
  pushing the literal. The module also covers popping (including runs of
  given tags), peeking, replacing, the bottom end (unshift/shift),
  searching by tag, registering words and the two stack assertions.
- **Change sets** (`change_set.dfy`, module `ChangeSets`). A change set
  holds three insertion-ordered sets: added, updated and removed. The
  module covers the transitions `add`, `update` and `remove`, and the
  bit-mask query `getChanges`.
- **Query builder** (`build.dfy`, module `QueryBuild`). `build` turns the
  primitive calls of a user callback (`def`, `component`, `entity`,
  `value`, `inst`) into a flat list of statements. `buildAndExecute`
  pushes that list onto a stack.
- **The LOOP word** (`loop.dfy`, module `LoopWord`). It pops a list, then
  repeatedly pushes the list and pops one result while that result's
  payload is `true`. It faults after 10,000 passes.

`js_value.dfy` holds the JavaScript values the stack carries:
- `Json`, where host objects (entity sets, registries) and functions are
  separate cases, because `typeof` tells them apart;
- `PropertyKey`, JavaScript's conversion of a value to a property key, which
  the word lookup `stack.words[value]` performs;
- `TypeOf`, the `typeof` operator.

`wrappers.dfy` holds `Option`, `Result` and `Outcome`.

Modelling choices:
- A thrown exception becomes an `Err` or `Fail` value.
- A JavaScript `Set` becomes a duplicate-free sequence in insertion order,
  so the order that `getChanges` returns is part of the contracts.
- The operation mask is a `bv32`, because JavaScript's `&` works on 32-bit
  integers.
- A word handler is an identifier. What handlers do is a function
  parameter, `Library`, that maps (handler, stack, raw input) to a new
  stack, an optional value and an optional push flag — or a throw.
- LOOP runs on the mutable, class-style stack, which is modelled as the
  class `LoopStack`. What pushing a list does to that stack is its
  `pushAll` function. The conversion of the popped value into a list is
  the parameter `unpack`.

Updating a value that is already in *added* returns the change set
unchanged (src/entity_set/change_set.ts:50-52). So after `add` then
`update`, the value stays in *added* and does not move to *updated*.
`ChangeSets.UpdateAfterAdd` and `ChangeSets.AddUpdateRemoveExample` state
this.

Word tables are plain objects, so looking up or registering a word named
after a property every object inherits (such as "constructor", "toString"
or "__proto__") reads that inherited property instead of a list of
overloads. The lookup in `push` then throws before any handler runs
(src/query/stack.ts:87, 349-354). `addWords` throws when it spreads the
inherited value (src/query/stack.ts:335-336). The model returns
`NotAWordList` in both places.

## Model

| member | source | states |
|---|---|---|
| JsValue.SingletonArrayKey | src/query/stack.ts:349 | a one-element array holding string s is looked up as the property key s, which is how `['!e']` reaches the word "!e" |
| Stack.Create | src/query/stack.ts:51-56 | a new stack has no items and no words |
| Stack.Wrap | src/query/stack.ts:73-83 | a two-element array is taken verbatim as [tag, payload]; any other input becomes [%v, input] |
| Stack.MatchStack | src/query/stack.ts:364-382 | the scan from the pattern's last tag down returns exactly `Matches`: the pattern is empty, or it is no longer than the stack and each tag is the wildcard or equals the tag of the item it lines up with, last tag on top |
| Stack.MatchesExtend | src/query/stack.ts:373-379 | a pattern extended by tag t matches a stack extended by item v iff the shorter pattern matched the shorter stack and t fits v |
| Stack.WildcardPattern | src/query/stack.ts:376 | a pattern made only of `%*` matches exactly the stacks at least as deep as the pattern is long |
| Stack.FirstMatch | src/query/stack.ts:354-360 | returns the first overload, in registration order, whose pattern matches, and none when no overload matches |
| Stack.GetWord | src/query/stack.ts:342-362 | a handler is found iff the value is tagged %v, its payload as a property key names a word, and some overload of that word matches the stack; the handler found belongs to the first matching overload |
| Stack.PushRaw | src/query/stack.ts:114-116 | appends the value on top; the words are unchanged |
| Stack.Push | src/query/stack.ts:80-112 | a plain value whose key is an inherited property that is not a word fails the push; with no applicable word, the wrapped input is pushed and reported; otherwise the handler runs on the stack and the raw input, a throw fails the push naming the wrapped value, and the returned value is pushed onto the returned stack unless it is missing or the flag is false |
| Stack.PushValues | src/query/stack.ts:119-147 | on success it reports one output per input |
| Stack.PushValuesAppend | src/query/stack.ts:125-132 | pushing `a + b` is pushing `a` and then `b` on the resulting stack, with the outputs concatenated; an error in `a` is the result |
| Stack.PushValuesAbort | src/query/stack.ts:134-141 | the first push that fails makes the whole batch fail with its error, whatever follows |
| Stack.PushValuesWithoutWords | src/query/stack.ts:119-147 | on a stack without words, every input whose key is not an inherited property is pushed as its wrapped value, in order, and reported |
| Stack.InheritedKeyFailsPush | src/query/stack.ts:87-90 | pushing a string that names an inherited property, when no such word is registered, fails (the lookup throws before the handler's error wrapping) |
| Stack.Pop | src/query/stack.ts:192-204 | fails iff the stack is empty; otherwise the rest of the stack plus the returned top item is the old stack |
| Stack.PopUndoesPush | src/query/stack.ts:192-204 | popping right after a push that no word intercepted and no lookup failed gives back the old stack and the wrapped value |
| Stack.PopOfType | src/query/stack.ts:214-238 | pops the longest run of top items whose tags are among the types, top first; the stack keeps the prefix below, whose top tag is not among the types; an empty stack is returned as is |
| Stack.PopOfTypeV | src/query/stack.ts:240-245 | the same run as `popOfType`, returned as payloads |
| Stack.Peek | src/query/stack.ts:247-249 | the item `offset` places below the top, present iff 0 <= offset < size |
| Stack.PeekV | src/query/stack.ts:251-257 | the top payload, or undefined on an empty stack |
| Stack.Replace | src/query/stack.ts:268-276 | same length and words; only the item at `index` becomes the new item |
| Stack.ReplaceThenPeek | src/query/stack.ts:268-276 | peeking at a replaced position gives the new item; a second replacement at the same index overrides the first |
| Stack.ReplaceOutside | src/query/stack.ts:269-274 | an index outside the stack leaves it unchanged |
| Stack.Unshift | src/query/stack.ts:156-161 | puts the value at the bottom |
| Stack.Shift | src/query/stack.ts:167-171 | removes the bottom item; an empty stack gives undefined and stays empty |
| Stack.ShiftUndoesUnshift | src/query/stack.ts:156-171 | shift returns exactly what unshift added and the stack before it |
| Stack.FindWithIndex | src/query/stack.ts:281-290 | returns the highest index whose tag is the type, with its item, or -1 and nothing iff no item has that tag |
| Stack.FindWithIndexV | src/query/stack.ts:292-298 | the index and payload of the nearest item of the type; it fails iff there is none, by destructuring the missing item |
| Stack.Find | src/query/stack.ts:310-313 | the nearest item of the type, absent iff none has it |
| Stack.FindV | src/query/stack.ts:306-309 | the payload of the nearest item of the type, or undefined when there is none |
| Stack.AddWords | src/query/stack.ts:331-339 | a successful registration leaves the items unchanged |
| Stack.AddWordsFails | src/query/stack.ts:335-336 | registration fails iff some spec names an inherited property that the table does not already hold |
| Stack.AddWordsContents | src/query/stack.ts:332-338 | after a successful registration a word is present iff it was before or a spec names it, and its overloads are its old list followed by the new specs for it, in order |
| Stack.AddTwoOverloads | src/query/stack.ts:335-337 | two specs for a new word succeed iff the word is not an inherited property, and give exactly those two overloads, in order |
| Stack.GetWordOfTwo | src/query/stack.ts:349-361 | for a word with two overloads, the first one whose pattern matches runs, and nothing runs when neither matches |
| Stack.SingleTagMatches | src/query/stack.ts:366-379 | a one-tag pattern matches iff the stack is not empty and the tag fits the top item |
| Stack.OneArgumentFirst | src/query/stack.ts:342-362 | with a one-tag overload registered before a zero-argument one (registration succeeds iff the word is not inherited), the top item's tag decides which handler runs, and on an empty stack the zero-argument one runs |
| Stack.ZeroArgumentFirst | src/query/stack.ts:354-368 | a zero-argument overload registered first always wins, once registration succeeds |
| Stack.AssertStackSize | src/query/stack.ts:385-393 | passes iff the stack holds at least `expected` items; otherwise fails with the sizes and the caller's message |
| Stack.SizeCheckAllowsPops | src/query/stack.ts:385-393 | after a passing size check of n > 0, a pop succeeds and the check of n-1 passes on what remains |
| Stack.AssertStackValueType | src/query/stack.ts:395-409 | passes iff the item `index` below the top exists, has tag `opType` and, when given, a payload whose `typeof` is `argType`; an index past the bottom fails out of bounds |
| Stack.TypeCheckThenPeek | src/query/stack.ts:395-409 | after a passing type check, peeking at that offset yields an item with that tag |
| Stack.FunctionArgumentType | src/query/stack.ts:406-408 | a function payload passes an argument check for "function" and fails one for "object" |
| ChangeSets.Insert | src/entity_set/change_set.ts:40 | `Set.add`: a new element goes to the end, an existing one leaves the set unchanged |
| ChangeSets.Delete | src/entity_set/change_set.ts:42 | `Set.delete`: removes exactly that element, and nothing when it is absent |
| ChangeSets.DeleteCutsOne | src/entity_set/change_set.ts:42 | deleting a present element cuts out its one position and keeps the order of the rest |
| ChangeSets.Union | src/entity_set/change_set.ts:31 | `new Set([...a, ...b])`: holds the elements of both, with `a` unchanged as a prefix |
| ChangeSets.DisjointUnionStep | src/entity_set/change_set.ts:31 | when the head of b is new to a, it is appended, and the tail of b stays new to the grown set |
| ChangeSets.UnionOfDisjoint | src/entity_set/change_set.ts:30-35 | for disjoint sets the union is their concatenation |
| ChangeSets.Create | src/entity_set/change_set.ts:16-22 | three empty buckets, hence disjoint |
| ChangeSets.GetChanges | src/entity_set/change_set.ts:25-37 | holds exactly the elements of the buckets whose bits are set in the mask; added comes first when selected; mask 0 gives nothing |
| ChangeSets.GetChangesOfDisjoint | src/entity_set/change_set.ts:25-37 | for disjoint buckets, the result is the selected buckets laid end to end: added, updated, removed |
| ChangeSets.Add | src/entity_set/change_set.ts:39-47 | the value is in added and in no other bucket; every other value keeps its memberships |
| ChangeSets.Update | src/entity_set/change_set.ts:49-62 | a value already added leaves the set unchanged; otherwise the value is only in updated; other values keep their memberships |
| ChangeSets.Remove | src/entity_set/change_set.ts:65-74 | the value is only in removed; other values keep their memberships |
| ChangeSets.TransitionsKeepDisjoint | src/entity_set/change_set.ts:39-74 | add, update and remove keep the three buckets pairwise disjoint |
| ChangeSets.TransitionsIdempotent | src/entity_set/change_set.ts:39-74 | repeating add, update or remove with the same value changes nothing more |
| ChangeSets.UpdateAfterAdd | src/entity_set/change_set.ts:50-52 | updating a value just added leaves it in added |
| ChangeSets.AddUpdateRemoveExample | src/entity_set/change_set.ts:39-74 | add, then update, then remove of x on an empty set ends with x only in removed; after add and update it is only in added |
| ChangeSets.ApplyAllBuckets | src/entity_set/change_set.ts:39-74 | any sequence of changes keeps the buckets disjoint; a value touched by it is in exactly one bucket; an untouched value keeps its bucket count |
| QueryBuild.Emitted | src/query/build.ts:24-30 | def and component append two statements, entity, value and inst append one |
| QueryBuild.StatementsAppend | src/query/build.ts:22-30 | the statements of consecutive call runs are laid end to end, in call order |
| QueryBuild.Build | src/query/build.ts:20-35 | the statement list returned is the calls' statements in call order: {uri, properties} then "!d"; {"@c": uri, ...props} then "!c"; ["!e"]; [%es, registry]; the inst arguments as one array |
| QueryBuild.BuildAndExecute | src/query/build.ts:38-48 | the stack that pushing the built statements leaves, failing iff that push fails |
| QueryBuild.RunAppend | src/query/build.ts:38-48 | executing calls `a + b` is executing `a` and then `b` on the resulting stack |
| QueryBuild.EntityTokenReachesWord | src/query/build.ts:28 | the entity statement is wrapped as the plain value ["!e"], whose word key is "!e"; with no such word it runs nothing |
| QueryBuild.ValueStatementIsPushedAsIs | src/query/build.ts:29 | the value statement is pushed verbatim as an %es item and never runs a word |
| QueryBuild.InstStatementShape | src/query/build.ts:30 | a two-argument inst is taken as the stack value [first, second]; other arities are wrapped as a plain array value |
| LoopWord.PopTop | src/query/words/loop.ts:17 | the stack class's pop: the top item and the rest, or undefined and no change on an empty stack |
| LoopWord.LoopStack.constructor | src/query/words/loop.ts:11 | the stack holds the given items and pushing behaviour |
| LoopWord.LoopStack.Pop | src/query/words/loop.ts:30 | removes the top item as `PopTop` says |
| LoopWord.LoopStack.PushValues | src/query/words/loop.ts:29 | the items become what pushing the list gives, or stay unchanged when the push throws |
| LoopWord.Replay | src/query/words/loop.ts:28-39 | n passes give n results, in order |
| LoopWord.OnLoop | src/query/words/loop.ts:11-52 | pops the list once; a result is returned only at the first pass k < 10000 whose result is not exactly `true`, with the stack that pass left; the fault is raised only when the first 9999 passes all returned `true`; a push failure is reported only when every earlier pass returned `true` |
| LoopWord.ReplayPrefix | src/query/words/loop.ts:28-39 | the first m passes of a longer run are the run of m passes |
| LoopWord.StopsAtUnique | src/query/words/loop.ts:28-39 | the pass at which the loop stops, and its result and stack, are unique |
| LoopWord.StopExcludesRunaway | src/query/words/loop.ts:28-43 | a loop that stops before the ceiling does not fault |
| LoopWord.PushThrowExcludesOthers | src/query/words/loop.ts:28-43 | a push that throws before the ceiling excludes both a stopping pass and the fault, so the three outcomes of `onLoop` exclude one another |

## Left out

- Asynchrony: `push`, `pushValues`, `buildAndExecute` and `onLoop` await promises. The model is sequential, and a handler's result is the settled value.
- Handler code: word handlers are identifiers, and their behaviour is the `Library` parameter, so nothing is proved about any particular word.
- Stack.Push: a handler returns a value that may be a one-element stack value `[op]`. The model only has pairs, so such a value is a pair with an undefined payload.
- Stack.GetWord: the inherited keys are the twelve own properties of `Object.prototype` in current engines. Symbol keys and a replaced prototype are not modelled.
- Stack.FindWithIndexV: the TypeError it throws when the type is missing is modelled as `MissingItemDestructured`, without its message.
- Stack.Push: the error message text is not modelled. The message is kept, and the appended `stringify(value)` is replaced by the wrapped value itself.
- Stack.AssertStackSize: the default message text is not built. A missing message stays `None`.
- The `StackError` class, logging (`createLog`, `Log.warn`) and the commented-out code are not modelled.
- `unshiftV` is not modelled: it depends on `isObject` from src/util/is, which is not part of this model.
- JavaScript numbers are integers here. Floating point, `NaN` and their property keys are left out.
- QueryBuild.Build: key order of the objects it builds is not modelled (objects are maps). The stack argument is unused, as in the source.
- QueryBuild.Emitted: `def` is modelled with one properties argument, as its implementation takes it. Further arguments are ignored, as in the source.
- LoopWord.OnLoop: the class-style stack of src/query/types and `unpackStackValueR` from src/query/util are not part of this model. They are the `pushAll` and `unpack` parameters, and an `unpack` that throws is the `UnpackFailed` error. The op argument is unused, as in the source.
- LoopWord.LoopStack.PushValues: a throwing push is modelled as leaving the items unchanged. The model says nothing about a partly pushed list.
- Entity sets, filters, views and the other words of src/query/words are not part of this model.

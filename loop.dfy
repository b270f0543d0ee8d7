/** The LOOP word of src/query/words/loop.ts. It pops the list to replay,
    then repeatedly pushes that list and pops one result, while the result's
    payload is exactly `true`, and gives up with a fault once 10,000 passes
    have run.

    The word works on a mutable, class-style stack whose implementation is
    not part of this model: `LoopStack` keeps its items, returns undefined
    when popped empty, and leaves what pushing a list does to `pushAll`.
    Turning the popped value into the list (`unpackStackValueR`) is the
    parameter `unpack`. */
module LoopWord {
  import opened Wrappers
  import opened JsValue
  import Stack

  /** The iteration ceiling. */
  const Limit: nat := 10000

  /** Removing the top item: undefined and no change when there is none. */
  function PopTop(items: seq<Stack.StackValue>): (r: (Option<Stack.StackValue>, seq<Stack.StackValue>))
    ensures r.0.None? <==> items == []
    ensures r.0.None? ==> r.1 == items
    ensures r.0.Some? ==> r.1 + [r.0.value] == items
  {
    if items == [] then (None, items) else (Some(items[|items| - 1]), items[..|items| - 1])
  }

  class LoopStack {
    var items: seq<Stack.StackValue>
    /** The items after pushing a list, or None when pushing throws. */
    const pushAll: (seq<Stack.StackValue>, seq<Json>) -> Option<seq<Stack.StackValue>>

    constructor (items0: seq<Stack.StackValue>, pushAll0: (seq<Stack.StackValue>, seq<Json>) -> Option<seq<Stack.StackValue>>)
      ensures items == items0 && pushAll == pushAll0
    {
      items := items0;
      pushAll := pushAll0;
    }

    method Pop() returns (v: Option<Stack.StackValue>)
      modifies this
      ensures (v, items) == PopTop(old(items))
    {
      v, items := PopTop(items).0, PopTop(items).1;
    }

    method PushValues(values: seq<Json>) returns (ok: bool)
      modifies this
      ensures ok == pushAll(old(items), values).Some?
      ensures items == if ok then pushAll(old(items), values).value else old(items)
    {
      match pushAll(items, values)
      case None =>
        ok := false;
      case Some(next) =>
        ok := true;
        items := next;
    }
  }

  /** One pass of the body: push the list, then pop one result. */
  function Step(pushAll: (seq<Stack.StackValue>, seq<Json>) -> Option<seq<Stack.StackValue>>,
                items: seq<Stack.StackValue>, list: seq<Json>): Option<(seq<Stack.StackValue>, Option<Stack.StackValue>)>
  {
    match pushAll(items, list)
    case None => None
    case Some(pushed) => Some((PopTop(pushed).1, PopTop(pushed).0))
  }

  /** The items after `n` passes and the results they popped, in order;
      None when a push threw along the way. */
  function Replay(pushAll: (seq<Stack.StackValue>, seq<Json>) -> Option<seq<Stack.StackValue>>,
                  items: seq<Stack.StackValue>, list: seq<Json>, n: nat): (r: Option<(seq<Stack.StackValue>, seq<Option<Stack.StackValue>>)>)
    ensures r.Some? ==> |r.value.1| == n
  {
    if n == 0 then Some((items, []))
    else
      match Replay(pushAll, items, list, n - 1)
      case None => None
      case Some((before, results)) =>
        match Step(pushAll, before, list)
        case None => None
        case Some((after, result)) => Some((after, results + [result]))
  }

  /** The loop goes on only after a result whose payload is exactly `true`. */
  predicate IsTrue(result: Option<Stack.StackValue>)
  {
    result.Some? && result.value.payload == Bool(true)
  }

  predicate AllTrue(results: seq<Option<Stack.StackValue>>, n: nat)
    requires n <= |results|
  {
    forall i :: 0 <= i < n ==> IsTrue(results[i])
  }

  /** The loop stops after pass k: the first k-1 results were true and the
      k-th, the one returned, was not. */
  predicate StopsAt(pushAll: (seq<Stack.StackValue>, seq<Json>) -> Option<seq<Stack.StackValue>>,
                    start: seq<Stack.StackValue>, list: seq<Json>, k: nat,
                    items: seq<Stack.StackValue>, result: Option<Stack.StackValue>)
  {
    var run := Replay(pushAll, start, list, k);
    1 <= k && run.Some? && run.value.0 == items &&
    AllTrue(run.value.1, k - 1) && !IsTrue(run.value.1[k - 1]) && result == run.value.1[k - 1]
  }

  /** All of the first Limit - 1 passes returned true, so the Limit-th pass
      runs, whatever it returns. */
  predicate RunsAway(pushAll: (seq<Stack.StackValue>, seq<Json>) -> Option<seq<Stack.StackValue>>,
                     start: seq<Stack.StackValue>, list: seq<Json>, items: seq<Stack.StackValue>)
  {
    var run := Replay(pushAll, start, list, Limit);
    run.Some? && run.value.0 == items && AllTrue(run.value.1, Limit - 1)
  }

  /** Every pass before pass k+1 returned true, and the push of pass k+1 threw. */
  predicate PushThrowsAt(pushAll: (seq<Stack.StackValue>, seq<Json>) -> Option<seq<Stack.StackValue>>,
                         start: seq<Stack.StackValue>, list: seq<Json>, k: nat)
  {
    var run := Replay(pushAll, start, list, k);
    run.Some? && AllTrue(run.value.1, k) && Replay(pushAll, start, list, k + 1).None?
  }

  datatype LoopError = UnpackFailed | PushFailed | OutOfControl

  /** `onLoop`: pops the list once, then runs passes until one returns
      something other than `true`, returning that result; when the pass count
      reaches the ceiling it faults instead, whatever the last result was. */
  method OnLoop(stack: LoopStack, unpack: Option<Stack.StackValue> -> Option<seq<Json>>)
    returns (r: Result<Option<Stack.StackValue>, LoopError>)
    modifies stack
    ensures var (popped, start) := PopTop(old(stack.items));
      match unpack(popped)
      case None => r == Err(UnpackFailed) && stack.items == start
      case Some(list) =>
        && (r.Ok? ==> exists k: nat :: k < Limit && StopsAt(stack.pushAll, start, list, k, stack.items, r.value))
        && (r == Err(OutOfControl) ==> RunsAway(stack.pushAll, start, list, stack.items))
        && (r == Err(PushFailed) ==> exists k: nat :: k < Limit && PushThrowsAt(stack.pushAll, start, list, k))
        && r != Err(UnpackFailed)
  {
    var val := stack.Pop();
    var unpacked := unpack(val);
    if unpacked.None? {
      return Err(UnpackFailed);
    }
    var value := unpacked.value;
    ghost var start := stack.items;

    var count := 0;
    var limit := Limit;
    var isLooping := true;
    var result: Option<Stack.StackValue> := None;
    ghost var results: seq<Option<Stack.StackValue>> := [];

    while count < limit && isLooping
      invariant 0 <= count <= limit && limit == Limit
      invariant Replay(stack.pushAll, start, value, count) == Some((stack.items, results))
      invariant |results| == count
      invariant count == 0 ==> isLooping
      invariant count > 0 ==> result == results[count - 1] && (isLooping <==> IsTrue(result))
      invariant count > 0 ==> AllTrue(results, count - 1)
      decreases limit - count
    {
      ghost var before := stack.items;
      var ok := stack.PushValues(value);
      if !ok {
        assert Step(stack.pushAll, before, value).None?;
        assert AllTrue(results, count);
        assert PushThrowsAt(stack.pushAll, start, value, count);
        return Err(PushFailed);
      }
      result := stack.Pop();
      if result.None? {
        isLooping := false;
      } else {
        isLooping := result.value.payload == Bool(true);
      }
      results := results + [result];
      count := count + 1;
    }

    if count >= limit {
      return Err(OutOfControl);
    }
    assert StopsAt(stack.pushAll, start, value, count, stack.items, result);
    return Ok(result);
  }

  /** The first m passes of a longer run are the run of m passes. */
  lemma {:induction false} ReplayPrefix(pushAll: (seq<Stack.StackValue>, seq<Json>) -> Option<seq<Stack.StackValue>>,
                                        start: seq<Stack.StackValue>, list: seq<Json>, m: nat, n: nat)
    requires m <= n && Replay(pushAll, start, list, n).Some?
    ensures Replay(pushAll, start, list, m).Some?
    ensures Replay(pushAll, start, list, m).value.1 == Replay(pushAll, start, list, n).value.1[..m]
    decreases n
  {
    if m < n {
      ReplayPrefix(pushAll, start, list, m, n - 1);
      var prev := Replay(pushAll, start, list, n - 1).value.1;
      assert Replay(pushAll, start, list, n).value.1[..n - 1] == prev;
      assert prev[..m] == Replay(pushAll, start, list, n).value.1[..m];
    } else {
      assert Replay(pushAll, start, list, n).value.1[..n] == Replay(pushAll, start, list, n).value.1;
    }
  }

  /** The pass after which the loop stops is unique: the loop's outcome is
      determined by the list and the stack. */
  lemma StopsAtUnique(pushAll: (seq<Stack.StackValue>, seq<Json>) -> Option<seq<Stack.StackValue>>,
                      start: seq<Stack.StackValue>, list: seq<Json>, k1: nat, k2: nat,
                      items1: seq<Stack.StackValue>, items2: seq<Stack.StackValue>,
                      r1: Option<Stack.StackValue>, r2: Option<Stack.StackValue>)
    requires StopsAt(pushAll, start, list, k1, items1, r1)
    requires StopsAt(pushAll, start, list, k2, items2, r2)
    ensures k1 == k2 && items1 == items2 && r1 == r2
  {
    if k1 < k2 {
      ReplayPrefix(pushAll, start, list, k1, k2);
    } else if k2 < k1 {
      ReplayPrefix(pushAll, start, list, k2, k1);
    }
  }

  /** A loop that stops before the ceiling does not run away. */
  lemma StopExcludesRunaway(pushAll: (seq<Stack.StackValue>, seq<Json>) -> Option<seq<Stack.StackValue>>,
                            start: seq<Stack.StackValue>, list: seq<Json>, k: nat,
                            items: seq<Stack.StackValue>, result: Option<Stack.StackValue>, items2: seq<Stack.StackValue>)
    requires k < Limit && StopsAt(pushAll, start, list, k, items, result)
    ensures !RunsAway(pushAll, start, list, items2)
  {
    if Replay(pushAll, start, list, Limit).Some? {
      ReplayPrefix(pushAll, start, list, k, Limit);
    }
  }

  /** A push that throws at pass k+1 excludes the other two outcomes: no
      pass stops the loop, and the ceiling is not reached. With
      `StopsAtUnique` and `StopExcludesRunaway`, the three outcomes of
      `OnLoop` exclude one another. */
  lemma PushThrowExcludesOthers(pushAll: (seq<Stack.StackValue>, seq<Json>) -> Option<seq<Stack.StackValue>>,
                                start: seq<Stack.StackValue>, list: seq<Json>, k: nat, k2: nat,
                                items: seq<Stack.StackValue>, result: Option<Stack.StackValue>,
                                items2: seq<Stack.StackValue>)
    requires k < Limit && PushThrowsAt(pushAll, start, list, k)
    ensures !StopsAt(pushAll, start, list, k2, items, result)
    ensures !RunsAway(pushAll, start, list, items2)
  {
    if StopsAt(pushAll, start, list, k2, items, result) {
      if k2 <= k {
        ReplayPrefix(pushAll, start, list, k2, k);
      } else {
        ReplayPrefix(pushAll, start, list, k + 1, k2);
      }
    }
    if RunsAway(pushAll, start, list, items2) {
      ReplayPrefix(pushAll, start, list, k + 1, Limit);
    }
  }
}

/** The change tracker of src/entity_set/change_set.ts: three buckets of
    values (added, updated, removed) since a reference point. Each bucket is
    a JavaScript Set, so it is modelled as a sequence without repeats in
    insertion order. Every operation builds a new record from copies. */
module ChangeSets {

  /** No element occurs twice. */
  predicate NoDup<T(==,!new)>(s: seq<T>)
  {
    forall i, j :: 0 <= i < j < |s| ==> s[i] != s[j]
  }

  /** A JavaScript Set: distinct elements in the order they were first added. */
  type OrderedSet<T(==,!new)> = s: seq<T> | NoDup(s) witness []

  /** `Set.prototype.add`: a new element goes to the end, an old one stays put. */
  function Insert<T(==,!new)>(s: OrderedSet<T>, v: T): (r: OrderedSet<T>)
    ensures forall x :: x in r <==> x in s || x == v
    ensures v in s ==> r == s
    ensures v !in s ==> r == s + [v]
  {
    if v in s then s else s + [v]
  }

  /** The head of a sequence without repeats does not occur in its tail. */
  lemma HeadNotInTail<T(!new)>(s: seq<T>)
    requires NoDup(s) && s != []
    ensures s[0] !in s[1..]
  {
    forall j | 0 <= j < |s[1..]|
      ensures s[1..][j] != s[0]
    {
      assert s[1..][j] == s[j + 1];
    }
  }

  /** `Set.prototype.delete`: the element leaves, the others stay. */
  function Delete<T(==,!new)>(s: OrderedSet<T>, v: T): (r: OrderedSet<T>)
    ensures forall x :: x in r <==> x in s && x != v
    ensures v !in s ==> r == s
    decreases |s|
  {
    if s == [] then []
    else
      var rest := Delete(s[1..], v);
      if s[0] == v then rest
      else
        HeadNotInTail(s);
        assert s == [s[0]] + s[1..];
        [s[0]] + rest
  }

  /** Deleting keeps the other elements in their order: it cuts out the one
      position where the element was. */
  lemma {:induction false} DeleteCutsOne<T(!new)>(s: OrderedSet<T>, v: T)
    requires v in s
    ensures exists k :: 0 <= k < |s| && s[k] == v && Delete(s, v) == s[..k] + s[k + 1..]
    decreases |s|
  {
    if s[0] == v {
      HeadNotInTail(s);
      assert Delete(s, v) == s[1..];
      assert s[..0] + s[1..] == s[1..];
    } else {
      TailNoDup(s);
      var t: OrderedSet<T> := s[1..];
      assert v in t;
      DeleteCutsOne(t, v);
      var k :| 0 <= k < |t| && t[k] == v && Delete(t, v) == t[..k] + t[k + 1..];
      assert Delete(s, v) == [s[0]] + Delete(t, v);
      ConsCut(s, k);
      assert s[k + 1] == v;
    }
  }

  /** Putting the head back in front of a tail with position k cut out is
      the whole sequence with position k + 1 cut out. */
  lemma ConsCut<T>(s: seq<T>, k: nat)
    requires k + 1 < |s|
    ensures [s[0]] + (s[1..][..k] + s[1..][k + 1..]) == s[..k + 1] + s[k + 2..]
  {
    assert s[1..][..k] == s[1..k + 1] && s[1..][k + 1..] == s[k + 2..];
    assert [s[0]] + s[1..k + 1] == s[..k + 1];
  }

  /** `new Set([...a, ...b])`: the elements of `a` in their order, followed by
      the elements of `b` not yet seen. */
  function Union<T(==,!new)>(a: OrderedSet<T>, b: seq<T>): (r: OrderedSet<T>)
    ensures forall x :: x in r <==> x in a || x in b
    ensures |a| <= |r| && r[..|a|] == a
    decreases |b|
  {
    if b == [] then a else Union(Insert(a, b[0]), b[1..])
  }

  /** Dropping the head keeps a sequence free of repeats. */
  lemma TailNoDup<T(!new)>(s: seq<T>)
    requires NoDup(s) && s != []
    ensures NoDup(s[1..])
  {
    forall i, j | 0 <= i < j < |s[1..]|
      ensures s[1..][i] != s[1..][j]
    {
      assert s[1..][i] == s[i + 1] && s[1..][j] == s[j + 1];
    }
  }

  /** One step of a disjoint union: the head of `b` is new to `a`, so it is
      appended, and the tail of `b` is still new to the grown set. */
  lemma DisjointUnionStep<T(!new)>(a: OrderedSet<T>, b: OrderedSet<T>)
    requires b != [] && forall i :: 0 <= i < |b| ==> b[i] !in a
    ensures Insert(a, b[0]) == a + [b[0]]
    ensures NoDup(b[1..])
    ensures forall i :: 0 <= i < |b| - 1 ==> b[1..][i] !in Insert(a, b[0])
  {
    TailNoDup(b);
    forall i | 0 <= i < |b| - 1 ensures b[1..][i] !in Insert(a, b[0]) {
      assert b[1..][i] == b[i + 1];
      assert b[i + 1] != b[0];
    }
  }

  /** Concatenation regroups. Kept apart from `UnionOfDisjoint`, whose
      context of set-membership facts makes this step costly there. */
  lemma ConcatAssoc<T>(x: seq<T>, y: seq<T>, z: seq<T>)
    ensures (x + y) + z == x + (y + z)
  {
  }

  /** When nothing of `b` is in `a`, the union is plain concatenation. */
  lemma {:induction false} UnionOfDisjoint<T(!new)>(a: OrderedSet<T>, b: OrderedSet<T>)
    requires forall i :: 0 <= i < |b| ==> b[i] !in a
    ensures Union(a, b) == a + b
    decreases |b|
  {
    if b != [] {
      DisjointUnionStep(a, b);
      var b1: OrderedSet<T> := b[1..];
      UnionOfDisjoint(Insert(a, b[0]), b1);
      assert b == [b[0]] + b1;
      ConcatAssoc(a, [b[0]], b1);
    }
  }

  /** The bits of a `ChangeSetOp` mask. JavaScript's `&` works on the 32-bit
      two's complement of the mask, which `bv32` is. */
  const OpNone: bv32 := 0
  const OpAdd: bv32 := 1 << 0
  const OpUpdate: bv32 := 1 << 1
  const OpRemove: bv32 := 1 << 2

  predicate HasOp(ops: bv32, op: bv32)
  {
    ops & op == op
  }

  datatype ChangeSet<T(==,!new)> = ChangeSet(added: OrderedSet<T>, updated: OrderedSet<T>, removed: OrderedSet<T>)

  /** A value belongs to at most one bucket. */
  predicate Disjoint<T(==,!new)>(cs: ChangeSet<T>)
  {
    (forall x :: x in cs.added ==> x !in cs.updated && x !in cs.removed) &&
    (forall x :: x in cs.updated ==> x !in cs.removed)
  }

  function Create<T(==,!new)>(): (r: ChangeSet<T>)
    ensures r.added == [] && r.updated == [] && r.removed == []
    ensures Disjoint(r)
  {
    ChangeSet([], [], [])
  }

  /** The values in the buckets `ops` selects, without repeats: added first,
      then updated, then removed. */
  function GetChanges<T(==,!new)>(cs: ChangeSet<T>, ops: bv32): (r: OrderedSet<T>)
    ensures forall x :: x in r <==>
      (HasOp(ops, OpAdd) && x in cs.added) ||
      (HasOp(ops, OpUpdate) && x in cs.updated) ||
      (HasOp(ops, OpRemove) && x in cs.removed)
    ensures HasOp(ops, OpAdd) ==> |cs.added| <= |r| && r[..|cs.added|] == cs.added
    ensures ops == OpNone ==> r == []
  {
    var afterAdd: OrderedSet<T> := if HasOp(ops, OpAdd) then cs.added else [];
    var afterUpdate := if HasOp(ops, OpUpdate) then Union(afterAdd, cs.updated) else afterAdd;
    var afterRemove := if HasOp(ops, OpRemove) then Union(afterUpdate, cs.removed) else afterUpdate;
    afterRemove
  }

  /** With disjoint buckets, the changes are exactly the selected buckets
      laid end to end in the order added, updated, removed. */
  lemma GetChangesOfDisjoint<T(!new)>(cs: ChangeSet<T>, ops: bv32)
    requires Disjoint(cs)
    ensures GetChanges(cs, ops) ==
      (if HasOp(ops, OpAdd) then cs.added else []) +
      (if HasOp(ops, OpUpdate) then cs.updated else []) +
      (if HasOp(ops, OpRemove) then cs.removed else [])
  {
    var a: OrderedSet<T> := if HasOp(ops, OpAdd) then cs.added else [];
    var u: seq<T> := if HasOp(ops, OpUpdate) then cs.updated else [];
    var m: seq<T> := if HasOp(ops, OpRemove) then cs.removed else [];
    var afterUpdate := if HasOp(ops, OpUpdate) then Union(a, cs.updated) else a;
    if HasOp(ops, OpUpdate) {
      forall i | 0 <= i < |cs.updated| ensures cs.updated[i] !in a {
        assert cs.updated[i] in cs.updated;
      }
      UnionOfDisjoint(a, cs.updated);
    } else {
      assert a + u == a;
    }
    assert afterUpdate == a + u;
    if HasOp(ops, OpRemove) {
      forall i | 0 <= i < |cs.removed| ensures cs.removed[i] !in afterUpdate {
        assert cs.removed[i] in cs.removed;
      }
      UnionOfDisjoint(afterUpdate, cs.removed);
    } else {
      assert afterUpdate + m == afterUpdate;
    }
  }

  /** `add`: the value ends up in `added` only; no other value moves. */
  function Add<T(==,!new)>(cs: ChangeSet<T>, v: T): (r: ChangeSet<T>)
    ensures v in r.added && v !in r.updated && v !in r.removed
    ensures forall x :: x != v ==>
      (x in r.added <==> x in cs.added) && (x in r.updated <==> x in cs.updated) &&
      (x in r.removed <==> x in cs.removed)
  {
    ChangeSet(Insert(cs.added, v), Delete(cs.updated, v), Delete(cs.removed, v))
  }

  /** `update`: a value already added stays added and the change set comes
      back as it was; any other value ends up in `updated` only. */
  function Update<T(==,!new)>(cs: ChangeSet<T>, v: T): (r: ChangeSet<T>)
    ensures v in cs.added ==> r == cs
    ensures v !in cs.added ==> v !in r.added && v in r.updated && v !in r.removed
    ensures forall x :: x != v ==>
      (x in r.added <==> x in cs.added) && (x in r.updated <==> x in cs.updated) &&
      (x in r.removed <==> x in cs.removed)
  {
    if v in cs.added then cs
    else ChangeSet(Delete(cs.added, v), Insert(cs.updated, v), Delete(cs.removed, v))
  }

  /** `remove`: the value ends up in `removed` only, wherever it was. */
  function Remove<T(==,!new)>(cs: ChangeSet<T>, v: T): (r: ChangeSet<T>)
    ensures v !in r.added && v !in r.updated && v in r.removed
    ensures forall x :: x != v ==>
      (x in r.added <==> x in cs.added) && (x in r.updated <==> x in cs.updated) &&
      (x in r.removed <==> x in cs.removed)
  {
    ChangeSet(Delete(cs.added, v), Delete(cs.updated, v), Insert(cs.removed, v))
  }

  /** Each transition keeps the buckets pairwise disjoint. */
  lemma TransitionsKeepDisjoint<T(!new)>(cs: ChangeSet<T>, v: T)
    requires Disjoint(cs)
    ensures Disjoint(Add(cs, v)) && Disjoint(Update(cs, v)) && Disjoint(Remove(cs, v))
  {
  }

  /** Each transition is idempotent. */
  lemma TransitionsIdempotent<T(!new)>(cs: ChangeSet<T>, v: T)
    ensures Add(Add(cs, v), v) == Add(cs, v)
    ensures Update(Update(cs, v), v) == Update(cs, v)
    ensures Remove(Remove(cs, v), v) == Remove(cs, v)
  {
  }

  /** Updating a value that was just added leaves it in `added`. */
  lemma UpdateAfterAdd<T(!new)>(cs: ChangeSet<T>, v: T)
    ensures Update(Add(cs, v), v) == Add(cs, v)
    ensures Add(cs, v).added == Insert(cs.added, v)
  {
  }

  /** From an empty change set: add then update keeps the value in `added`;
      a remove after that moves it to `removed`. */
  lemma AddUpdateRemoveExample<T(!new)>(x: T)
    ensures Update(Add(Create<T>(), x), x) == ChangeSet([x], [], [])
    ensures Remove(Update(Add(Create<T>(), x), x), x) == ChangeSet([], [], [x])
  {
    var e: OrderedSet<T> := [];
    assert Add(Create<T>(), x) == ChangeSet([x], e, e);
  }

  /** A recorded transition. */
  datatype Change<T> = Added(value: T) | Updated(value: T) | Removed(value: T)

  function Apply<T(==,!new)>(cs: ChangeSet<T>, c: Change<T>): ChangeSet<T>
  {
    match c
    case Added(v) => Add(cs, v)
    case Updated(v) => Update(cs, v)
    case Removed(v) => Remove(cs, v)
  }

  /** Applies the transitions in order. */
  function ApplyAll<T(==,!new)>(cs: ChangeSet<T>, changes: seq<Change<T>>): ChangeSet<T>
    decreases |changes|
  {
    if changes == [] then cs else ApplyAll(Apply(cs, changes[0]), changes[1..])
  }

  /** Number of buckets holding x. */
  function Buckets<T(==,!new)>(cs: ChangeSet<T>, x: T): nat
  {
    (if x in cs.added then 1 else 0) + (if x in cs.updated then 1 else 0) + (if x in cs.removed then 1 else 0)
  }

  /** Starting from disjoint buckets, after any run of transitions a value is
      in exactly one bucket if the run touched it, and otherwise in the
      buckets it was in before. */
  lemma {:induction false} ApplyAllBuckets<T(!new)>(cs: ChangeSet<T>, changes: seq<Change<T>>, x: T)
    requires Disjoint(cs)
    ensures Disjoint(ApplyAll(cs, changes))
    ensures (exists i :: 0 <= i < |changes| && changes[i].value == x) ==> Buckets(ApplyAll(cs, changes), x) == 1
    ensures (forall i :: 0 <= i < |changes| ==> changes[i].value != x) ==>
      Buckets(ApplyAll(cs, changes), x) == Buckets(cs, x)
    decreases |changes|
  {
    if changes != [] {
      var next := Apply(cs, changes[0]);
      TransitionsKeepDisjoint(cs, changes[0].value);
      ApplyAllBuckets(next, changes[1..], x);
      if changes[0].value == x {
        assert Buckets(next, x) == 1;
      }
      if exists i :: 0 <= i < |changes| && changes[i].value == x {
        var i :| 0 <= i < |changes| && changes[i].value == x;
        if i > 0 {
          assert changes[1..][i - 1].value == x;
        }
      }
      if forall i :: 0 <= i < |changes| ==> changes[i].value != x {
        assert forall i :: 0 <= i < |changes[1..]| ==> changes[1..][i] == changes[i + 1];
      }
    }
  }
}

/**
 pruneUnset and pruneUnsetList as they run: objects are reached by reference and their fields are deleted in place,
 while lists are only walked. Objects may be shared; they must not contain themselves.
 */
module PruneInPlace {
  import opened Basics
  import opened Prune

  datatype Value = Nil | Scalar(text: string) | List(items: seq<Value>) | Object(object_: JsonObject)

  class JsonObject {
    var fields: map<string, Value>

    constructor (fields: map<string, Value>)
      ensures this.fields == fields
    {
      this.fields := fields;
    }
  }

  // ---------------------------------------------------------------- the tree a value stands for

  // The contents of all objects at one moment.
  type Contents = map<JsonObject, map<string, Value>>

  // A height for each object, so that an object's fields reach lower objects only.
  type Heights = map<JsonObject, nat>

  // Every object the value holds is lower than `bound`.
  ghost predicate Below(v: Value, heights: Heights, bound: nat) {
    match v
    case Object(o) => o in heights && heights[o] < bound
    case List(items) => forall i :: 0 <= i < |items| ==> Below(items[i], heights, bound)
    case _ => true
  }

  ghost predicate Acyclic(c: Contents, heights: Heights) {
    c.Keys == heights.Keys && forall o, k :: o in c && k in c[o] ==> Below(c[o][k], heights, heights[o])
  }

  ghost function TreeOf(c: Contents, heights: Heights, o: JsonObject): Json
    requires Acyclic(c, heights) && o in c
    decreases heights[o], 1
  {
    Obj(map k | k in c[o] :: ValueTree(c, heights, heights[o], c[o][k]))
  }

  ghost function ValueTree(c: Contents, heights: Heights, bound: nat, v: Value): Json
    requires Acyclic(c, heights) && Below(v, heights, bound)
    decreases bound, 0, v
  {
    match v
    case Nil => Null
    case Scalar(text) => Leaf(text)
    case List(items) =>
      Arr(seq(|items|, i requires 0 <= i < |items| => ValueTree(c, heights, bound, items[i])))
    case Object(o) => TreeOf(c, heights, o)
  }

  // ---------------------------------------------------------------- what the algorithm does to the contents

  // Only nil fields were deleted.
  ghost predicate OnlyNilsGone(before: Contents, after: Contents) {
    && before.Keys == after.Keys
    && forall o :: o in before ==>
         && (forall k :: k in after[o] ==> k in before[o] && after[o][k] == before[o][k])
         && (forall k :: k in before[o] && k !in after[o] ==> before[o][k] == Nil)
  }

  // No object reached has a nil field.
  ghost predicate ObjectDone(c: Contents, heights: Heights, o: JsonObject)
    requires Acyclic(c, heights) && o in c
    decreases heights[o], 1
  {
    forall k :: k in c[o] ==> c[o][k] != Nil && ValueDone(c, heights, heights[o], c[o][k])
  }

  ghost predicate ValueDone(c: Contents, heights: Heights, bound: nat, v: Value)
    requires Acyclic(c, heights) && Below(v, heights, bound)
    decreases bound, 0, v
  {
    match v
    case List(items) => forall i :: 0 <= i < |items| ==> ValueDone(c, heights, bound, items[i])
    case Object(o) => ObjectDone(c, heights, o)
    case _ => true
  }

  // Once done, a value stays done while nil fields go elsewhere.
  lemma {:induction false} ObjectStaysDone(before: Contents, after: Contents, heights: Heights, o: JsonObject)
    requires Acyclic(before, heights) && Acyclic(after, heights) && OnlyNilsGone(before, after) && o in before
    requires ObjectDone(before, heights, o)
    ensures ObjectDone(after, heights, o)
    decreases heights[o], 1
  {
    forall k | k in after[o]
      ensures after[o][k] != Nil && ValueDone(after, heights, heights[o], after[o][k])
    {
      ValueStaysDone(before, after, heights, heights[o], before[o][k]);
    }
  }

  lemma {:induction false} ValueStaysDone(before: Contents, after: Contents, heights: Heights, bound: nat, v: Value)
    requires Acyclic(before, heights) && Acyclic(after, heights) && OnlyNilsGone(before, after)
    requires Below(v, heights, bound) && ValueDone(before, heights, bound, v)
    ensures ValueDone(after, heights, bound, v)
    decreases bound, 0, v
  {
    match v {
      case List(items) =>
        forall i | 0 <= i < |items|
          ensures ValueDone(after, heights, bound, items[i])
        {
          ValueStaysDone(before, after, heights, bound, items[i]);
        }
      case Object(o) => ObjectStaysDone(before, after, heights, o);
      case _ =>
    }
  }

  // Deleting nil fields until none is reached is pruning the tree.
  lemma {:induction false} DoneIsPruned(before: Contents, after: Contents, heights: Heights, o: JsonObject)
    requires Acyclic(before, heights) && Acyclic(after, heights) && OnlyNilsGone(before, after) && o in before
    requires ObjectDone(after, heights, o)
    ensures TreeOf(after, heights, o) == Prune.Prune(TreeOf(before, heights, o))
    decreases heights[o], 1
  {
    var pruned := Prune.Prune(TreeOf(before, heights, o)).fields;
    forall k | k in after[o]
      ensures k in pruned && pruned[k] == ValueTree(after, heights, heights[o], after[o][k])
    {
      ValueDoneIsPruned(before, after, heights, heights[o], before[o][k]);
    }
    forall k | k in pruned
      ensures k in after[o]
    {
      assert k in before[o] && ValueTree(before, heights, heights[o], before[o][k]) != Null;
      assert before[o][k] != Nil;
    }
    MapEqual(TreeOf(after, heights, o).fields, pruned);
  }

  lemma {:induction false} ValueDoneIsPruned(before: Contents, after: Contents, heights: Heights, bound: nat, v: Value)
    requires Acyclic(before, heights) && Acyclic(after, heights) && OnlyNilsGone(before, after)
    requires Below(v, heights, bound) && ValueDone(after, heights, bound, v)
    ensures ValueTree(after, heights, bound, v) == Prune.Prune(ValueTree(before, heights, bound, v))
    decreases bound, 0, v
  {
    match v {
      case List(items) =>
        forall i | 0 <= i < |items|
          ensures ValueTree(after, heights, bound, items[i]) == Prune.Prune(ValueTree(before, heights, bound, items[i]))
        {
          ValueDoneIsPruned(before, after, heights, bound, items[i]);
        }
        assert ValueTree(after, heights, bound, v).items == Prune.Prune(ValueTree(before, heights, bound, v)).items;
      case Object(o) => DoneIsPruned(before, after, heights, o);
      case _ =>
    }
  }

  // ---------------------------------------------------------------- the algorithm

  ghost function Now(objects: set<JsonObject>): Contents
    reads objects
  {
    map o | o in objects :: o.fields
  }

  // Nil fields were deleted from objects lower than `bound` only.
  ghost predicate PrunedBelow(before: Contents, after: Contents, heights: Heights, bound: nat)
    requires before.Keys == heights.Keys
  {
    && Acyclic(after, heights) && OnlyNilsGone(before, after)
    && forall o :: o in before && heights[o] >= bound ==> after[o] == before[o]
  }

  // Or from `top` itself and objects lower than it.
  ghost predicate PrunedFrom(before: Contents, after: Contents, heights: Heights, top: JsonObject)
    requires before.Keys == heights.Keys && top in heights
  {
    && Acyclic(after, heights) && OnlyNilsGone(before, after)
    && forall o :: o in before && o != top && heights[o] >= heights[top] ==> after[o] == before[o]
  }

  lemma StaysAcyclic(before: Contents, after: Contents, heights: Heights)
    requires Acyclic(before, heights) && OnlyNilsGone(before, after)
    ensures Acyclic(after, heights)
  {
    forall o, k | o in after && k in after[o]
      ensures Below(after[o][k], heights, heights[o])
    {
      assert after[o][k] == before[o][k];
    }
  }

  lemma FromTransitive(a: Contents, b: Contents, c: Contents, heights: Heights, top: JsonObject)
    requires a.Keys == b.Keys == heights.Keys && top in heights
    requires PrunedFrom(a, b, heights, top) && PrunedFrom(b, c, heights, top)
    ensures PrunedFrom(a, c, heights, top)
  {
  }

  lemma BelowTransitive(a: Contents, b: Contents, c: Contents, heights: Heights, bound: nat)
    requires a.Keys == b.Keys == heights.Keys
    requires PrunedBelow(a, b, heights, bound) && PrunedBelow(b, c, heights, bound)
    ensures PrunedBelow(a, c, heights, bound)
  {
  }

  // The fields of `o` outside `rest` are done.
  ghost predicate DoneExcept(c: Contents, heights: Heights, o: JsonObject, rest: set<string>)
    requires Acyclic(c, heights) && o in c
  {
    forall k :: k in c[o] && k !in rest ==> c[o][k] != Nil && ValueDone(c, heights, heights[o], c[o][k])
  }

  lemma StaysDoneExcept(before: Contents, after: Contents, heights: Heights, o: JsonObject, rest: set<string>, key: string)
    requires Acyclic(before, heights) && Acyclic(after, heights) && OnlyNilsGone(before, after) && o in before
    requires DoneExcept(before, heights, o, rest)
    requires key in after[o] ==> after[o][key] != Nil && ValueDone(after, heights, heights[o], after[o][key])
    ensures DoneExcept(after, heights, o, rest - {key})
  {
    forall k | k in after[o] && k !in rest
      ensures after[o][k] != Nil && ValueDone(after, heights, heights[o], after[o][k])
    {
      ValueStaysDone(before, after, heights, heights[o], before[o][k]);
    }
  }

  // The tree under `o` is pruned, and objects that are not lower than `o` are left alone.
  method PruneUnset(o: JsonObject, ghost heights: Heights)
    requires o in heights && Acyclic(Now(heights.Keys), heights)
    modifies heights.Keys
    ensures PrunedFrom(old(Now(heights.Keys)), Now(heights.Keys), heights, o)
    ensures ObjectDone(Now(heights.Keys), heights, o)
    ensures TreeOf(Now(heights.Keys), heights, o) == Prune.Prune(old(TreeOf(Now(heights.Keys), heights, o)))
    decreases heights[o], 2
  {
    ghost var start := Now(heights.Keys);
    var rest := o.fields.Keys;
    while rest != {}
      invariant rest <= o.fields.Keys
      invariant PrunedFrom(start, Now(heights.Keys), heights, o)
      invariant DoneExcept(Now(heights.Keys), heights, o, rest)
      decreases |rest|
    {
      var key :| key in rest;
      ghost var before := Now(heights.Keys);
      PruneField(o, key, heights);
      FromTransitive(start, before, Now(heights.Keys), heights, o);
      StaysDoneExcept(before, Now(heights.Keys), heights, o, rest, key);
      rest := rest - {key};
    }
    DoneIsPruned(start, Now(heights.Keys), heights, o);
  }

  // One turn of the loop over an object's fields.
  method PruneField(o: JsonObject, key: string, ghost heights: Heights)
    requires o in heights && key in o.fields && Acyclic(Now(heights.Keys), heights)
    modifies heights.Keys
    ensures PrunedFrom(old(Now(heights.Keys)), Now(heights.Keys), heights, o)
    ensures o.fields == if old(o.fields)[key] == Nil then old(o.fields) - {key} else old(o.fields)
    ensures key in o.fields ==> ValueDone(Now(heights.Keys), heights, heights[o], o.fields[key])
    decreases heights[o], 1
  {
    match o.fields[key] {
      case Nil =>
        o.fields := o.fields - {key};
        StaysAcyclic(old(Now(heights.Keys)), Now(heights.Keys), heights);
      case Object(p) => PruneUnset(p, heights);
      case List(items) => PruneUnsetList(items, heights, heights[o]);
      case Scalar(_) =>
    }
  }

  // A list keeps all its elements, nil ones included; the objects in it are pruned.
  method PruneUnsetList(items: seq<Value>, ghost heights: Heights, ghost bound: nat)
    requires Acyclic(Now(heights.Keys), heights) && forall i :: 0 <= i < |items| ==> Below(items[i], heights, bound)
    modifies heights.Keys
    ensures PrunedBelow(old(Now(heights.Keys)), Now(heights.Keys), heights, bound)
    ensures forall i :: 0 <= i < |items| ==> ValueDone(Now(heights.Keys), heights, bound, items[i])
    decreases bound, 0, items
  {
    ghost var start := Now(heights.Keys);
    var i := 0;
    while i < |items|
      invariant 0 <= i <= |items|
      invariant PrunedBelow(start, Now(heights.Keys), heights, bound)
      invariant forall j :: 0 <= j < i ==> ValueDone(Now(heights.Keys), heights, bound, items[j])
    {
      ghost var before := Now(heights.Keys);
      PruneElement(items[i], heights, bound);
      BelowTransitive(start, before, Now(heights.Keys), heights, bound);
      forall j | 0 <= j < i
        ensures ValueDone(Now(heights.Keys), heights, bound, items[j])
      {
        ValueStaysDone(before, Now(heights.Keys), heights, bound, items[j]);
      }
      i := i + 1;
    }
  }

  method PruneElement(v: Value, ghost heights: Heights, ghost bound: nat)
    requires Acyclic(Now(heights.Keys), heights) && Below(v, heights, bound)
    modifies heights.Keys
    ensures PrunedBelow(old(Now(heights.Keys)), Now(heights.Keys), heights, bound)
    ensures ValueDone(Now(heights.Keys), heights, bound, v)
    decreases bound, 0, v
  {
    match v {
      case Object(p) => PruneUnset(p, heights);
      case List(inner) => PruneUnsetList(inner, heights, bound);
      case _ =>
    }
  }
}

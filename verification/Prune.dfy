/**
 What pruneUnset of internal/actions/actions.go does to a JSON tree: null fields go, at any depth, and nothing else
 changes. PruneInPlace has the algorithm, which edits maps that are shared by reference.
 */
module Prune {
  import opened Basics

  datatype Json = Null | Leaf(text: string) | Arr(items: seq<Json>) | Obj(fields: map<string, Json>)

  function Prune(j: Json): Json {
    match j
    case Null => Null
    case Leaf(text) => j
    case Arr(items) => Arr(seq(|items|, i requires 0 <= i < |items| => Prune(items[i])))
    case Obj(fields) => Obj(map k | k in fields && fields[k] != Null :: Prune(fields[k]))
  }

  // No field is null, at any depth; list elements may be.
  predicate Clean(j: Json) {
    match j
    case Arr(items) => forall i :: 0 <= i < |items| ==> Clean(items[i])
    case Obj(fields) => forall k :: k in fields ==> fields[k] != Null && Clean(fields[k])
    case _ => true
  }

  datatype Step = Field(key: string) | Index(i: nat)

  // The value at a path, if there is one.
  function At(j: Json, path: seq<Step>): Option<Json> {
    if path == [] then Some(j)
    else match (path[0], j)
      case (Field(k), Obj(fields)) => if k in fields then At(fields[k], path[1..]) else None
      case (Index(i), Arr(items)) => if i < |items| then At(items[i], path[1..]) else None
      case _ => None
  }

  // A null that is the value of a field: the only thing pruning removes.
  predicate Unset(j: Json, path: seq<Step>) {
    path != [] && path[|path| - 1].Field? && At(j, path) == Some(Null)
  }

  lemma {:induction false} NullHasNoPaths(path: seq<Step>)
    ensures At(Null, path) == if path == [] then Some(Null) else None
  {
  }

  // After pruning there is something at a path exactly when there was and it was not an unset field, and it is what
  // was there, pruned. So no position in a list moves and no leaf changes.
  lemma {:induction false} PruneAt(j: Json, path: seq<Step>)
    ensures At(Prune(j), path)
         == if At(j, path).None? || Unset(j, path) then None else Some(Prune(At(j, path).value))
  {
    if path != [] {
      match (path[0], j) {
        case (Field(k), Obj(fields)) =>
          if k in fields {
            if fields[k] == Null {
              NullHasNoPaths(path[1..]);
            } else {
              PruneAt(fields[k], path[1..]);
              LastStep(path);
            }
          }
        case (Index(i), Arr(items)) =>
          if i < |items| {
            PruneAt(items[i], path[1..]);
            LastStep(path);
          }
        case _ =>
      }
    }
  }

  lemma LastStep(path: seq<Step>)
    requires path != []
    ensures |path| > 1 ==> path[1..][|path[1..]| - 1] == path[|path| - 1]
  {
  }

  lemma {:induction false} PruneKeepsShape(j: Json)
    ensures j.Null? == Prune(j).Null? && j.Leaf? == Prune(j).Leaf? && j.Arr? == Prune(j).Arr? && j.Obj? == Prune(j).Obj?
    ensures j.Arr? ==> |Prune(j).items| == |j.items|
  {
  }

  lemma {:induction false} PruneIsClean(j: Json)
    ensures Clean(Prune(j))
  {
    match j {
      case Arr(items) =>
        forall i | 0 <= i < |items|
          ensures Clean(Prune(j).items[i])
        {
          PruneIsClean(items[i]);
        }
      case Obj(fields) =>
        forall k | k in Prune(j).fields
          ensures Prune(j).fields[k] != Null && Clean(Prune(j).fields[k])
        {
          PruneIsClean(fields[k]);
          PruneKeepsShape(fields[k]);
        }
      case _ =>
    }
  }

  // Pruning changes exactly the trees that have an unset field.
  lemma {:induction false} PruneFixesClean(j: Json)
    ensures Prune(j) == j <==> Clean(j)
  {
    if Prune(j) == j {
      PruneIsClean(j);
    } else {
      PruneIsClean(j);
      if Clean(j) {
        CleanIsFixed(j);
      }
    }
  }

  lemma {:induction false} CleanIsFixed(j: Json)
    requires Clean(j)
    ensures Prune(j) == j
  {
    match j {
      case Arr(items) =>
        forall i | 0 <= i < |items|
          ensures Prune(items[i]) == items[i]
        {
          CleanIsFixed(items[i]);
        }
        assert Prune(j).items == items;
      case Obj(fields) =>
        forall k | k in fields
          ensures Prune(fields[k]) == fields[k]
        {
          CleanIsFixed(fields[k]);
        }
        assert Prune(j).fields == fields;
      case _ =>
    }
  }

  lemma {:induction false} PruneIdempotent(j: Json)
    ensures Prune(Prune(j)) == Prune(j)
  {
    PruneIsClean(j);
    CleanIsFixed(Prune(j));
  }
}

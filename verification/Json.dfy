/** JSON values as the API returns them, and what it is to remove keys from one. */
module Json {
  import opened Text
  import opened Wrappers

  datatype Json =
    | Null
    | Bool(b: bool)
    | Num(n: real)
    | Str(s: seq<Unit>)
    | Arr(items: seq<Json>)
    | Obj(fields: map<string, Json>)

  /** A step into a value: a key of an object or a position of an array. */
  datatype Step = Key(key: string) | Index(index: nat)

  function Child(v: Json, step: Step): Option<Json> {
    match (v, step)
    case (Obj(fields), Key(key)) => if key in fields then Some(fields[key]) else None
    case (Arr(items), Index(index)) => if index < |items| then Some(items[index]) else None
    case _ => None
  }

  /** The value at the end of a path, if the path leads anywhere. */
  function At(v: Json, path: seq<Step>): Option<Json>
    decreases |path|
  {
    if path == [] then Some(v)
    else match Child(v, path[0])
         case None => None
         case Some(child) => At(child, path[1..])
  }

  /** A path goes on from what its first step leads to: a key of an object, a position of an
    * array, and nothing else.
    */
  lemma AtFirst(v: Json, step: Step, rest: seq<Step>)
    ensures At(v, [step] + rest) ==
            if v.Obj? && step.Key? && step.key in v.fields then At(v.fields[step.key], rest)
            else if v.Arr? && step.Index? && step.index < |v.items| then At(v.items[step.index], rest)
            else None
  {
    assert ([step] + rest)[1..] == rest;
  }

  /** `out` is `v` with keys removed, at any depth, and nothing else done to it. */
  ghost predicate Prunes(out: Json, v: Json) {
    match (out, v)
    case (Obj(kept), Obj(fields)) => kept.Keys <= fields.Keys && forall k :: k in kept ==> Prunes(kept[k], fields[k])
    case (Arr(kept), Arr(items)) => |kept| == |items| && forall i :: 0 <= i < |kept| ==> Prunes(kept[i], items[i])
    case _ => out == v
  }

  lemma {:induction false} PrunesItself(v: Json)
    ensures Prunes(v, v)
  {
    match v
    case Obj(fields) => forall k | k in fields ensures Prunes(fields[k], fields[k]) { PrunesItself(fields[k]); }
    case Arr(items) => forall i | 0 <= i < |items| ensures Prunes(items[i], items[i]) { PrunesItself(items[i]); }
    case _ =>
  }

  lemma {:induction false} PrunesTransitively(a: Json, b: Json, c: Json)
    requires Prunes(a, b) && Prunes(b, c)
    ensures Prunes(a, c)
  {
    match (a, b, c)
    case (Obj(fa), Obj(fb), Obj(fc)) =>
      forall k | k in fa ensures Prunes(fa[k], fc[k]) { PrunesTransitively(fa[k], fb[k], fc[k]); }
    case (Arr(ia), Arr(ib), Arr(ic)) =>
      forall i | 0 <= i < |ia| ensures Prunes(ia[i], ic[i]) { PrunesTransitively(ia[i], ib[i], ic[i]); }
    case _ =>
  }
}

/** What part of a payload a closed gate shows, said once for every payload: a view
  * names the fields that are shown and how they nest.
  */
module FieldViews {
  import opened Wrappers
  import opened Json

  datatype View =
    | Whole                                   // copied as it is
    | Fields(fields: map<string, View>)       // these keys of an object, no others
    | List(item: View)                        // each item of an array
    | Nested(item: View)                      // the same, under arrays at any depth

  /** The part of a value that a view shows. A value of another form than the view
    * expects is shown as it is; `Conforms` says which payloads that never happens to.
    */
  function Project(view: View, v: Json): Json
    decreases view, v
  {
    match view
    case Whole => v
    case Fields(fields) =>
      if v.Obj? then Obj(map k | k in fields && k in v.fields :: Project(fields[k], v.fields[k])) else v
    case List(item) =>
      if v.Arr? then Arr(seq(|v.items|, i requires 0 <= i < |v.items| => Project(item, v.items[i]))) else v
    case Nested(item) =>
      if v.Arr? then Arr(seq(|v.items|, i requires 0 <= i < |v.items| => Project(view, v.items[i])))
      else Project(item, v)
  }

  /** Two values agree on everything a view shows. */
  ghost predicate Agree(view: View, a: Json, b: Json)
    decreases view, a
  {
    match view
    case Whole => a == b
    case Fields(fields) =>
      if a.Obj? && b.Obj? then
        forall k :: k in fields ==>
          (k in a.fields <==> k in b.fields) && (k in a.fields ==> Agree(fields[k], a.fields[k], b.fields[k]))
      else a == b
    case List(item) =>
      if a.Arr? && b.Arr? then
        |a.items| == |b.items| && forall i :: 0 <= i < |a.items| ==> Agree(item, a.items[i], b.items[i])
      else a == b
    case Nested(item) =>
      if a.Arr? && b.Arr? then
        |a.items| == |b.items| && forall i :: 0 <= i < |a.items| ==> Agree(view, a.items[i], b.items[i])
      else if a.Arr? || b.Arr? then false
      else Agree(item, a, b)
  }

  /** A payload of the declared form: no array where the view expects an object and no
    * object where it expects an array.
    */
  ghost predicate Conforms(view: View, v: Json)
    decreases view, v
  {
    match view
    case Whole => true
    case Fields(fields) =>
      !v.Arr? && (v.Obj? ==> forall k :: k in fields && k in v.fields ==> Conforms(fields[k], v.fields[k]))
    case List(item) =>
      !v.Obj? && (v.Arr? ==> forall i :: 0 <= i < |v.items| ==> Conforms(item, v.items[i]))
    case Nested(item) =>
      if v.Arr? then forall i :: 0 <= i < |v.items| ==> Conforms(view, v.items[i]) else Conforms(item, v)
  }

  lemma {:induction false} ProjectKeepsArrays(view: View, v: Json)
    ensures Project(view, v).Arr? <==> v.Arr?
    ensures Project(view, v).Obj? <==> v.Obj?
  {
    if view.Nested? && !v.Arr? {
      ProjectKeepsArrays(view.item, v);
    }
  }

  /** Noninterference, both ways: a view shows the same of two values exactly when
    * they agree on what it names.
    */
  lemma {:induction false} AgreeIffSameProjection(view: View, a: Json, b: Json)
    ensures Agree(view, a, b) <==> Project(view, a) == Project(view, b)
    decreases view, a
  {
    match view
    case Whole =>
    case Fields(fields) =>
      if a.Obj? && b.Obj? {
        FieldsAgree(fields, a.fields, b.fields, view);
      }
    case List(item) =>
      if a.Arr? && b.Arr? && |a.items| == |b.items| {
        forall i | 0 <= i < |a.items|
          ensures Agree(item, a.items[i], b.items[i]) <==> Project(view, a).items[i] == Project(view, b).items[i]
        {
          AgreeIffSameProjection(item, a.items[i], b.items[i]);
        }
      } else {
        assert a.Arr? && b.Arr? ==> |Project(view, a).items| != |Project(view, b).items|;
      }
    case Nested(item) =>
      ProjectKeepsArrays(view, a);
      ProjectKeepsArrays(view, b);
      if a.Arr? && b.Arr? && |a.items| == |b.items| {
        forall i | 0 <= i < |a.items|
          ensures Agree(view, a.items[i], b.items[i]) <==> Project(view, a).items[i] == Project(view, b).items[i]
        {
          AgreeIffSameProjection(view, a.items[i], b.items[i]);
        }
      } else if !a.Arr? && !b.Arr? {
        AgreeIffSameProjection(item, a, b);
      } else {
        assert a.Arr? && b.Arr? ==> |Project(view, a).items| != |Project(view, b).items|;
      }
  }

  lemma {:induction false} FieldsAgree(fields: map<string, View>, a: map<string, Json>, b: map<string, Json>, view: View)
    requires view == Fields(fields)
    ensures Agree(view, Obj(a), Obj(b)) <==> Project(view, Obj(a)) == Project(view, Obj(b))
    decreases view, Obj(a), 0
  {
    var pa := Project(view, Obj(a)).fields;
    var pb := Project(view, Obj(b)).fields;
    forall k | k in fields && k in a && k in b
      ensures Agree(fields[k], a[k], b[k]) <==> pa[k] == pb[k]
    {
      AgreeIffSameProjection(fields[k], a[k], b[k]);
    }
    assert forall k :: k in fields ==> (k in pa <==> k in a) && (k in pb <==> k in b);
    if pa == pb {
      assert forall k :: k in fields ==> (k in a <==> k in b);
    }
  }

  /** Filtering what is already filtered changes nothing. */
  lemma {:induction false} ProjectIdempotent(view: View, v: Json)
    ensures Project(view, Project(view, v)) == Project(view, v)
    decreases view, v
  {
    match view
    case Whole =>
    case Fields(fields) =>
      if v.Obj? {
        forall k | k in fields && k in v.fields
          ensures Project(fields[k], Project(fields[k], v.fields[k])) == Project(fields[k], v.fields[k])
        {
          ProjectIdempotent(fields[k], v.fields[k]);
        }
      }
    case List(item) =>
      if v.Arr? {
        forall i | 0 <= i < |v.items|
          ensures Project(item, Project(item, v.items[i])) == Project(item, v.items[i])
        {
          ProjectIdempotent(item, v.items[i]);
        }
      }
    case Nested(item) =>
      ProjectKeepsArrays(view, v);
      if v.Arr? {
        forall i | 0 <= i < |v.items|
          ensures Project(view, Project(view, v.items[i])) == Project(view, v.items[i])
        {
          ProjectIdempotent(view, v.items[i]);
        }
      } else {
        ProjectIdempotent(item, v);
      }
  }

  /** A view only ever removes keys. */
  lemma {:induction false} ProjectPrunes(view: View, v: Json)
    ensures Prunes(Project(view, v), v)
    decreases view, v
  {
    match view
    case Whole => PrunesItself(v);
    case Fields(fields) =>
      PrunesItself(v);
      if v.Obj? {
        forall k | k in fields && k in v.fields ensures Prunes(Project(fields[k], v.fields[k]), v.fields[k]) {
          ProjectPrunes(fields[k], v.fields[k]);
        }
      }
    case List(item) =>
      PrunesItself(v);
      if v.Arr? {
        forall i | 0 <= i < |v.items| ensures Prunes(Project(item, v.items[i]), v.items[i]) {
          ProjectPrunes(item, v.items[i]);
        }
      }
    case Nested(item) =>
      if v.Arr? {
        forall i | 0 <= i < |v.items| ensures Prunes(Project(view, v.items[i]), v.items[i]) {
          ProjectPrunes(view, v.items[i]);
        }
      } else {
        ProjectPrunes(item, v);
      }
  }

  /** Whether a view shows the end of a path. It looks at the path only, never at a value. */
  predicate Visible(view: View, path: seq<Step>)
    decreases |path|, view
  {
    if path == [] then true
    else
      match view
      case Whole => true
      case Fields(fields) =>
        path[0].Key? && path[0].key in fields && Visible(fields[path[0].key], path[1..])
      case List(item) => path[0].Index? && Visible(item, path[1..])
      case Nested(item) => if path[0].Index? then Visible(view, path[1..]) else Visible(item, path)
  }

  /** The gate's promise, path by path: of a payload of the declared form exactly the
    * named paths are shown, and every leaf shown is the payload's own.
    */
  lemma {:induction false} ShownExactly(view: View, v: Json, path: seq<Step>)
    requires Conforms(view, v)
    ensures At(Project(view, v), path).Some? <==> At(v, path).Some? && Visible(view, path)
    ensures At(Project(view, v), path).Some? && !At(v, path).value.Obj? && !At(v, path).value.Arr? ==>
              At(Project(view, v), path) == At(v, path)
    decreases |path|, view
  {
    if path == [] {
      ProjectScalar(view, v);
    } else {
      match view
      case Whole =>
      case Fields(fields) =>
        if v.Obj? && path[0].Key? && path[0].key in fields && path[0].key in v.fields {
          ShownExactly(fields[path[0].key], v.fields[path[0].key], path[1..]);
        }
      case List(item) =>
        if v.Arr? && path[0].Index? && path[0].index < |v.items| {
          ShownExactly(item, v.items[path[0].index], path[1..]);
        }
      case Nested(item) =>
        if v.Arr? {
          if path[0].Index? && path[0].index < |v.items| {
            ShownExactly(view, v.items[path[0].index], path[1..]);
          }
        } else if path[0].Key? {
          ShownExactly(item, v, path);
        } else {
          ProjectKeepsArrays(view, v);
        }
    }
  }

  lemma {:induction false} ProjectScalar(view: View, v: Json)
    ensures !v.Obj? && !v.Arr? ==> Project(view, v) == v
  {
    if view.Nested? {
      ProjectScalar(view.item, v);
    }
  }
}

/** From a tool's arguments to the URL it asks for (mcp/src/tool-input.ts). */
module ToolInput {
  import opened Decimal
  import opened Json
  import opened PercentCoding
  import opened Text
  import opened TextLists
  import opened ToolBody
  import opened Wrappers

  const MAX_SAFE := 9007199254740991
  const COLON: Unit := 0x3A
  const SLASH: Unit := 0x2F
  const QUESTION: Unit := 0x3F
  const AMPERSAND: Unit := 0x26
  const EQUALS: Unit := 0x3D
  const COMMA: Unit := 0x2C

  predicate IsNameCharacter(c: char) {
    'a' <= c <= 'z' || 'A' <= c <= 'Z' || '0' <= c <= '9' || c == '_' || c == '-'
  }

  /** The name of an argument, as a tool declares it. */
  type Name = s: string | s != "" && forall i :: 0 <= i < |s| ==> IsNameCharacter(s[i]) witness "x"

  type Safe = n: int | -MAX_SAFE <= n <= MAX_SAFE

  datatype ParamSpec =
    | Page
    | PageSize
    | Year
    | EnumParam(enum: Name, values: seq<seq<Unit>>)
    | Flag(flag: Name)
    | IdParam(id: Name)
    | CursorParam(cursor: Name)
    | FreeText(text: Name, max: nat)
    | EnumList(list: Name, values: seq<seq<Unit>>)
    | Count(count: Name, lowest: Safe, highest: Safe)

  function ParamName(spec: ParamSpec): Name {
    match spec
    case Page => "page"
    case PageSize => "pageSize"
    case Year => "year"
    case EnumParam(name, _) => name
    case Flag(name) => name
    case IdParam(name) => name
    case CursorParam(name) => name
    case FreeText(name, _) => name
    case EnumList(name, _) => name
    case Count(name, _, _) => name
  }

  // ---- What an argument may be ---------------------------------------------------------------

  /** `encodeURIComponent` does not throw on it. */
  predicate Encodable(s: seq<Unit>) {
    EncodeUriComponent(s).Some?
  }

  predicate AcceptsValue(spec: ParamSpec, v: Json) {
    match spec
    case IdParam(_) => v.Str? && IsId(v.s)
    case CursorParam(_) => v.Str? && IsId(v.s)
    case FreeText(_, max) => v.Str? && Trim(v.s) != [] && |v.s| <= max && Encodable(v.s)
    case EnumParam(_, values) => v.Str? && v.s in values && Encodable(v.s)
    case EnumList(_, values) =>
      v.Arr? && forall i :: 0 <= i < |v.items| ==>
        v.items[i].Str? && v.items[i].s in values && Encodable(v.items[i].s)
    case Flag(_) => v.Bool?
    case Page => IsWholeIn(v, 1, MAX_SAFE)
    case PageSize => IsWholeIn(v, 1, 100)
    case Year => IsWholeIn(v, 2000, 2200)
    case Count(_, lowest, highest) => IsWholeIn(v, lowest, highest)
  }

  /** Text that `encodeURIComponent` takes. */
  predicate WellFormedText(s: seq<Unit>) {
    CodePoints(s) == Scalars(s)
  }

  /** What an argument of each kind takes. */
  lemma AcceptsExact(spec: ParamSpec, v: Json)
    ensures AcceptsValue(spec, v) <==>
            match spec
            case IdParam(_) => v.Str? && IsId(v.s)
            case CursorParam(_) => v.Str? && IsId(v.s)
            case FreeText(_, max) => v.Str? && |v.s| <= max && !AllBlank(v.s) && WellFormedText(v.s)
            case EnumParam(_, values) => v.Str? && v.s in values && WellFormedText(v.s)
            case EnumList(_, values) =>
              v.Arr? && forall i :: 0 <= i < |v.items| ==>
                v.items[i].Str? && v.items[i].s in values && WellFormedText(v.items[i].s)
            case Flag(_) => v == Bool(true) || v == Bool(false)
            case Page => Between(v, 1, 9007199254740991)
            case PageSize => Between(v, 1, 100)
            case Year => Between(v, 2000, 2200)
            case Count(_, lowest, highest) => Between(v, lowest, highest)
  {
    if v.Str? {
      EncodeUriComponentExact(v.s);
      BlankIff(v.s);
    }
    match spec
    case EnumList(_, _) =>
      if v.Arr? {
        forall i | 0 <= i < |v.items| && v.items[i].Str? ensures Encodable(v.items[i].s) == WellFormedText(v.items[i].s) {
          EncodeUriComponentExact(v.items[i].s);
        }
      }
    case Page => WholeIff(v, 1, 9007199254740991);
    case PageSize => WholeIff(v, 1, 100);
    case Year => WholeIff(v, 2000, 2200);
    case Count(_, lowest, highest) => WholeIff(v, lowest, highest);
    case _ =>
  }

  predicate IsNeeded(spec: ParamSpec) {
    spec.IdParam? || spec.FreeText?
  }

  predicate Accepts(spec: ParamSpec, args: map<string, Json>) {
    if ParamName(spec) in args then AcceptsValue(spec, args[ParamName(spec)]) else !IsNeeded(spec)
  }

  /** An identifier and a text to look for have to be given, and nothing else has. */
  lemma AbsentIff(spec: ParamSpec, args: map<string, Json>)
    requires ParamName(spec) !in args
    ensures Accepts(spec, args) <==> !spec.IdParam? && !spec.FreeText?
  {
  }

  function ParamNames(params: seq<ParamSpec>): set<string> {
    set spec | spec in params :: ParamName(spec)
  }

  predicate Accepted(params: seq<ParamSpec>, args: map<string, Json>) {
    args.Keys <= ParamNames(params) && forall spec | spec in params :: Accepts(spec, args)
  }

  // ---- The URL -------------------------------------------------------------------------------

  function Units(name: Name): seq<Unit> {
    Ascii(name)
  }

  function Placeholder(name: Name): (s: seq<Unit>)
    ensures s != []
  {
    [COLON] + Units(name)
  }

  function IdText(args: map<string, Json>, name: string): seq<Unit> {
    if name in args && args[name].Str? then args[name].s else []
  }

  function Encoded(s: seq<Unit>): seq<Unit> {
    EncodeAll(CodePoints(s))
  }

  /** What goes into the query for an argument: nothing for one left out, for a flag
    * that is off and for an empty list.
    */
  function Values(spec: ParamSpec, args: map<string, Json>): Option<seq<seq<Unit>>>
    requires Accepts(spec, args)
  {
    if ParamName(spec) !in args then None
    else
      var v := args[ParamName(spec)];
      match spec
      case IdParam(_) => None
      case FreeText(_, _) => Some([Encoded(v.s)])
      case CursorParam(_) => Some([Encoded(v.s)])
      case EnumParam(_, _) => Some([Encoded(v.s)])
      case Flag(_) => if v.b then Some([Ascii("true")]) else None
      case EnumList(_, _) =>
        if v.items == [] then None
        else Some(seq(|v.items|, i requires 0 <= i < |v.items| => Encoded(v.items[i].s)))
      case _ => Some([Printed(v.n.Floor)])
  }

  function Entry(name: Name, values: seq<seq<Unit>>): seq<Unit> {
    Units(name) + [EQUALS] + JoinWith(values, COMMA)
  }

  function Query(params: seq<ParamSpec>, args: map<string, Json>): seq<seq<Unit>>
    requires forall spec | spec in params :: Accepts(spec, args)
  {
    if params == [] then []
    else
      match Values(params[0], args)
      case None => Query(params[1..], args)
      case Some(values) => [Entry(ParamName(params[0]), values)] + Query(params[1..], args)
  }

  /** Each identifier replaces the first occurrence of its placeholder, in the order
    * of declaration.
    */
  function Fill(out: seq<Unit>, params: seq<ParamSpec>, args: map<string, Json>): seq<Unit>
    decreases |params|
  {
    if params == [] then out
    else if params[0].IdParam? then
      Fill(Replace(out, Placeholder(params[0].id), IdText(args, params[0].id)), params[1..], args)
    else Fill(out, params[1..], args)
  }

  function WithQuery(path: seq<Unit>, query: seq<seq<Unit>>): seq<Unit> {
    if query == [] then path else path + [QUESTION] + JoinWith(query, AMPERSAND)
  }

  function Url(template: seq<Unit>, params: seq<ParamSpec>, args: map<string, Json>): Option<seq<Unit>> {
    if !Accepted(params, args) then None
    else
      var path := Fill(template, params, args);
      if Includes(path, [SLASH, COLON]) then None else Some(WithQuery(path, Query(params, args)))
  }

  method BuildPath(template: seq<Unit>, params: seq<ParamSpec>, args: map<string, Json>)
    returns (url: Option<seq<Unit>>)
    ensures url == Url(template, params, args)
  {
    if !(args.Keys <= ParamNames(params)) {
      return None;
    }
    var out := template;
    var query: seq<seq<Unit>> := [];
    for i := 0 to |params|
      invariant forall j :: 0 <= j < i ==> Accepts(params[j], args)
      invariant Fill(out, params[i..], args) == Fill(template, params, args)
      invariant (forall spec | spec in params :: Accepts(spec, args)) ==>
        query + Query(params[i..], args) == Query(params, args)
    {
      var spec := params[i];
      assert params[i..][0] == spec && params[i..][1..] == params[i + 1..];
      if !Accepts(spec, args) {
        return None;
      }
      if spec.IdParam? {
        out := Replace(out, Placeholder(spec.id), args[spec.id].s);
      } else {
        var values := Values(spec, args);
        if values.Some? {
          query := query + [Entry(ParamName(spec), values.value)];
        }
      }
    }
    assert params[|params|..] == [] && query + [] == query;
    assert forall spec | spec in params :: Accepts(spec, args);
    if Includes(out, [SLASH, COLON]) {
      return None;
    }
    return Some(WithQuery(out, query));
  }
}

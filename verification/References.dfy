/** References that a search hands out, and the tool calls that read them
  * (mcp/src/references.ts).
  */
module References {
  import opened Json
  import opened Text
  import opened TextLists
  import opened ToolBody
  import opened Wrappers

  const SLASH: Unit := 0x2F

  datatype Target = Target(kind: string, tool: string, arg: string)

  const TARGETS: seq<Target> := [
    Target("board-member", "board_member_get", "id"),
    Target("governing-act", "governing_act_get", "id"),
    Target("resolution", "resolution_get", "id"),
    Target("conflict-record", "conflict_get", "id"),
    Target("risk-record", "risk_get", "id"),
    Target("complaint-record", "complaint_get", "id"),
    Target("fundraising-record", "fundraising_get", "id"),
    Target("document", "document", "id"),
    Target("deadline", "deadline_get", "id"),
    Target("standard", "compliance_record", "standardId")
  ]

  /** Names that a JavaScript object answers to without having been given them. */
  const INHERITED: seq<string> := [
    "constructor", "hasOwnProperty", "isPrototypeOf", "propertyIsEnumerable", "toLocaleString",
    "toString", "valueOf", "__proto__", "__defineGetter__", "__defineSetter__",
    "__lookupGetter__", "__lookupSetter__"
  ]

  /** A tool call. An inherited name is no target: the call it makes names no tool. */
  datatype Resolved = Resolved(tool: string, arg: string, id: seq<Unit>) | NoTool

  /** The key of a table that text spells, if it is plain enough to be one. */
  function Key(s: seq<Unit>): Option<string> {
    if forall i :: 0 <= i < |s| ==> s[i] < 128
    then Some(seq(|s|, i requires 0 <= i < |s| => s[i] as char)) else None
  }

  predicate IsKindCharacter(c: char) {
    'a' <= c <= 'z' || c == '-'
  }

  predicate IsKind(s: string) {
    forall i :: 0 <= i < |s| ==> IsKindCharacter(s[i])
  }

  function KindText(kind: string): seq<Unit>
    requires IsKind(kind)
  {
    Ascii(kind)
  }

  /** "charitypilot://" */
  const SCHEME: seq<Unit> :=
    [0x63, 0x68, 0x61, 0x72, 0x69, 0x74, 0x79, 0x70, 0x69, 0x6C, 0x6F, 0x74, 0x3A, 0x2F, 0x2F]

  function TargetOf(targets: seq<Target>, kind: string): (r: Option<Target>)
    ensures r.Some? ==> r.value in targets && r.value.kind == kind
    ensures r.None? ==> forall t :: t in targets ==> t.kind != kind
  {
    if targets == [] then None
    else if targets[0].kind == kind then Some(targets[0])
    else TargetOf(targets[1..], kind)
  }

  /** The call that a kind and an identifier make; None where they are refused. */
  function CallFor(targets: seq<Target>, kind: seq<Unit>, id: seq<Unit>): Option<Resolved> {
    if Key(kind).None? then None
    else
      var target := TargetOf(targets, Key(kind).value);
      if target.None? && Key(kind).value !in INHERITED then None
      else if !IsId(id) then None
      else if target.None? then Some(NoTool)
      else Some(Resolved(target.value.tool, target.value.arg, id))
  }

  /** The kind and the identifier that a reference is made of. */
  function Cut(reference: seq<Unit>): Option<(seq<Unit>, seq<Unit>)> {
    if !(SCHEME <= reference) then None
    else
      var rest := reference[|SCHEME|..];
      var slash := Find(rest, SLASH);
      if slash == |rest| then None else Some((rest[..slash], rest[slash + 1..]))
  }

  /** The reference without the blanks around it. */
  function ResolveText(targets: seq<Target>, text: seq<Unit>): Option<Resolved> {
    if text == [] then None
    else
      match Cut(text)
      case None => None
      case Some((kind, id)) => CallFor(targets, kind, id)
  }

  /** None where the reference is refused. */
  function ResolveReference(targets: seq<Target>, value: Option<Json>): Option<Resolved> {
    if value.None? || !value.value.Str? then None else ResolveText(targets, Trim(value.value.s))
  }

  /** Every kind is read by a tool of its own, and none by `fetch`. */
  ghost predicate WellFormed(targets: seq<Target>) {
    && (forall i :: 0 <= i < |targets| ==> IsKind(targets[i].kind) && targets[i].tool != "fetch")
    && (forall i, j :: 0 <= i < j < |targets| ==>
          targets[i].kind != targets[j].kind && targets[i].tool != targets[j].tool)
  }

  /** The reference that reads a record with a target's tool. */
  function ReferenceTo(target: Target, id: seq<Unit>): seq<Unit>
    requires IsKind(target.kind)
  {
    SCHEME + (KindText(target.kind) + [SLASH] + id)
  }

  lemma KeyOfText(kind: seq<Unit>, s: string)
    requires IsKind(s)
    ensures Key(kind) == Some(s) <==> kind == KindText(s)
  {
    if Key(kind) == Some(s) {
      forall i | 0 <= i < |kind| ensures kind[i] == KindText(s)[i] {
        assert s[i] == kind[i] as char;
      }
    }
    if kind == KindText(s) {
      forall i | 0 <= i < |s| ensures Key(kind).value[i] == s[i] {
        assert kind[i] == s[i] as int;
      }
      assert Key(kind).value == s;
    }
  }

  lemma CutIff(reference: seq<Unit>, kind: seq<Unit>, id: seq<Unit>)
    requires !Has(kind, SLASH)
    ensures Cut(reference) == Some((kind, id)) <==> reference == SCHEME + (kind + [SLASH] + id)
  {
    if reference == SCHEME + (kind + [SLASH] + id) {
      FindAfter(kind, SLASH, id);
      var rest := kind + [SLASH] + id;
      assert reference[|SCHEME|..] == rest;
      assert rest[..|kind|] == kind && rest[|kind| + 1..] == id;
    }
    if Cut(reference) == Some((kind, id)) {
      var rest := reference[|SCHEME|..];
      assert rest == kind + [SLASH] + id;
    }
  }

  lemma SameTarget(targets: seq<Target>, a: Target, b: Target)
    requires WellFormed(targets) && a in targets && b in targets && (a.kind == b.kind || a.tool == b.tool)
    ensures a == b
  {
    var i :| 0 <= i < |targets| && targets[i] == a;
    var j :| 0 <= j < |targets| && targets[j] == b;
  }

  lemma CallForIff(targets: seq<Target>, kind: seq<Unit>, id: seq<Unit>, target: Target, id': seq<Unit>)
    requires WellFormed(targets) && target in targets
    ensures CallFor(targets, kind, id) == Some(Resolved(target.tool, target.arg, id')) <==>
            kind == KindText(target.kind) && id == id' && IsId(id)
  {
    KeyOfText(kind, target.kind);
    if Key(kind).Some? {
      var found := TargetOf(targets, Key(kind).value);
      if found.Some? && (found.value.tool == target.tool || found.value.kind == target.kind) {
        SameTarget(targets, found.value, target);
      }
    }
  }

  lemma TextResolvesIff(targets: seq<Target>, text: seq<Unit>, target: Target, id: seq<Unit>)
    requires WellFormed(targets) && target in targets
    ensures ResolveText(targets, text) == Some(Resolved(target.tool, target.arg, id)) <==>
            text == ReferenceTo(target, id) && IsId(id)
  {
    CutIff(text, KindText(target.kind), id);
    if Cut(text).Some? {
      var (kind, id') := Cut(text).value;
      CallForIff(targets, kind, id', target, id);
    }
    if text == ReferenceTo(target, id) {
      assert text[0] == SCHEME[0];
    }
  }

  /** A reference resolves to a tool call exactly when it is, but for the blanks around
    * it, that tool's reference to that identifier.
    */
  lemma ResolvesIff(targets: seq<Target>, s: seq<Unit>, target: Target, id: seq<Unit>)
    requires WellFormed(targets) && target in targets
    ensures ResolveReference(targets, Some(Str(s))) == Some(Resolved(target.tool, target.arg, id)) <==>
            Trim(s) == ReferenceTo(target, id) && IsId(id)
  {
    TextResolvesIff(targets, Trim(s), target, id);
  }

  /** Two references that differ in more than blanks ask for two different calls. */
  lemma DistinctReferencesDistinctCalls(targets: seq<Target>, a: seq<Unit>, b: seq<Unit>)
    requires WellFormed(targets)
    requires ResolveReference(targets, Some(Str(a))).Some? && ResolveReference(targets, Some(Str(a))).value.Resolved?
    requires ResolveReference(targets, Some(Str(a))) == ResolveReference(targets, Some(Str(b)))
    ensures Trim(a) == Trim(b)
  {
    ResolvedTarget(targets, a);
    var call := ResolveReference(targets, Some(Str(a))).value;
    var target :| target in targets && target.tool == call.tool && target.arg == call.arg;
    ResolvesIff(targets, a, target, call.id);
    ResolvesIff(targets, b, target, call.id);
  }

  lemma CallIsDeclared(targets: seq<Target>, kind: seq<Unit>, id: seq<Unit>)
    requires CallFor(targets, kind, id).Some? && CallFor(targets, kind, id).value.Resolved?
    ensures var call := CallFor(targets, kind, id).value;
            (exists t :: t in targets && t.tool == call.tool && t.arg == call.arg) && IsId(call.id)
  {
    var target := TargetOf(targets, Key(kind).value).value;
    assert target in targets;
  }

  lemma TextTarget(targets: seq<Target>, text: seq<Unit>)
    requires ResolveText(targets, text).Some? && ResolveText(targets, text).value.Resolved?
    ensures var call := ResolveText(targets, text).value;
            (exists t :: t in targets && t.tool == call.tool && t.arg == call.arg) && IsId(call.id)
  {
    CallIsDeclared(targets, Cut(text).value.0, Cut(text).value.1);
  }

  /** A call that a reference makes is of a declared tool, and never `fetch` again. */
  lemma ResolvedTarget(targets: seq<Target>, s: seq<Unit>)
    requires WellFormed(targets)
    requires ResolveReference(targets, Some(Str(s))).Some? && ResolveReference(targets, Some(Str(s))).value.Resolved?
    ensures var call := ResolveReference(targets, Some(Str(s))).value;
            (exists t :: t in targets && t.tool == call.tool && t.arg == call.arg) && call.tool != "fetch" && IsId(call.id)
  {
    TextTarget(targets, Trim(s));
  }

  // ---- What is refused -------------------------------------------------------------------------

  /** The text spells the key, in ASCII. */
  predicate Spells(text: seq<Unit>, key: string) {
    |text| == |key| && forall i :: 0 <= i < |key| ==> text[i] < 128 && text[i] == key[i] as int
  }

  lemma KeyIff(text: seq<Unit>, key: string)
    ensures Key(text) == Some(key) <==> Spells(text, key)
  {
    if Spells(text, key) {
      assert Key(text).value == key;
    }
  }

  /** A reference, but for the blanks around it, to something that every object answers to
    * and that is no kind of record.
    */
  ghost predicate IsInherited(targets: seq<Target>, text: seq<Unit>, kind: seq<Unit>, key: string, id: seq<Unit>) {
    && key in INHERITED && Spells(kind, key) && (forall t :: t in targets ==> t.kind != key)
    && IsId(id) && !Has(kind, SLASH) && text == SCHEME + (kind + [SLASH] + id)
  }

  lemma CutFinds(reference: seq<Unit>, kind: seq<Unit>, id: seq<Unit>)
    requires Cut(reference) == Some((kind, id))
    ensures !Has(kind, SLASH) && reference == SCHEME + (kind + [SLASH] + id)
  {
    var rest := reference[|SCHEME|..];
    assert rest == kind + [SLASH] + id;
    assert reference == SCHEME + rest;
  }

  lemma InheritedIsAccepted(targets: seq<Target>, text: seq<Unit>, kind: seq<Unit>, key: string, id: seq<Unit>)
    requires IsInherited(targets, text, kind, key, id)
    ensures ResolveText(targets, text) == Some(NoTool)
  {
    assert text[0] == SCHEME[0];
    assert Cut(text) == Some((kind, id)) by {
      CutIff(text, kind, id);
    }
    assert CallFor(targets, kind, id) == Some(NoTool) by {
      KeyIff(kind, key);
    }
  }

  lemma NoToolIsInherited(targets: seq<Target>, text: seq<Unit>, kind: seq<Unit>, id: seq<Unit>)
    requires Cut(text) == Some((kind, id)) && CallFor(targets, kind, id) == Some(NoTool)
    ensures IsInherited(targets, text, kind, Key(kind).value, id)
  {
    CutFinds(text, kind, id);
    KeyIff(kind, Key(kind).value);
  }

  /** Exactly these references are accepted and name no tool. */
  lemma NoToolIff(targets: seq<Target>, s: seq<Unit>)
    ensures ResolveReference(targets, Some(Str(s))) == Some(NoTool) <==>
            exists kind, key, id :: IsInherited(targets, Trim(s), kind, key, id)
  {
    var text := Trim(s);
    if kind, key, id :| IsInherited(targets, text, kind, key, id) {
      InheritedIsAccepted(targets, text, kind, key, id);
    }
    if ResolveText(targets, text) == Some(NoTool) {
      NoToolIsInherited(targets, text, Cut(text).value.0, Cut(text).value.1);
    }
  }

  /** Every other reference that is not to a record of some kind is refused. */
  lemma RefusedIff(targets: seq<Target>, s: seq<Unit>)
    requires WellFormed(targets)
    ensures ResolveReference(targets, Some(Str(s))) == None <==>
            && (forall kind, key, id :: !IsInherited(targets, Trim(s), kind, key, id))
            && (forall t, id :: t in targets && IsId(id) ==> Trim(s) != ReferenceTo(t, id))
  {
    NoToolIff(targets, s);
    forall t, id | t in targets && IsId(id) && Trim(s) == ReferenceTo(t, id)
      ensures ResolveReference(targets, Some(Str(s))) == Some(Resolved(t.tool, t.arg, id))
    {
      ResolvesIff(targets, s, t, id);
    }
    var r := ResolveReference(targets, Some(Str(s)));
    if r.Some? && r.value.Resolved? {
      ResolvedTarget(targets, s);
      var t :| t in targets && t.tool == r.value.tool && t.arg == r.value.arg;
      ResolvesIff(targets, s, t, r.value.id);
    }
  }

  // ---- The table -----------------------------------------------------------------------------

  lemma TableIsWellFormed()
    ensures WellFormed(TARGETS)
  {
    KindsAreKinds();
    ToolsDiffer();
    KindsDiffer();
  }

  lemma KindsAreKinds()
    ensures forall i :: 0 <= i < |TARGETS| ==> IsKind(TARGETS[i].kind)
  {
    SomeKinds();
    OtherKinds();
  }

  lemma SomeKinds()
    ensures IsKind("board-member") && IsKind("governing-act") && IsKind("resolution") && IsKind("conflict-record")
  {
  }

  lemma OtherKinds()
    ensures IsKind("risk-record") && IsKind("complaint-record") && IsKind("fundraising-record")
    ensures IsKind("document") && IsKind("deadline") && IsKind("standard")
  {
  }

  /** The tools differ in length or in their first letter. */
  lemma ToolsDiffer()
    ensures forall i, j :: 0 <= i < j < |TARGETS| ==> TARGETS[i].tool != TARGETS[j].tool
    ensures forall i :: 0 <= i < |TARGETS| ==> TARGETS[i].tool != "fetch"
  {
    forall i, j | 0 <= i < j < |TARGETS| ensures TARGETS[i].tool != TARGETS[j].tool {
      assert |TARGETS[i].tool| != |TARGETS[j].tool| || TARGETS[i].tool[0] != TARGETS[j].tool[0];
    }
    forall i | 0 <= i < |TARGETS| ensures TARGETS[i].tool != "fetch" {
      assert |TARGETS[i].tool| > 5;
    }
  }

  /** The kinds differ in length or in their second letter. */
  lemma KindsDiffer()
    ensures forall i, j :: 0 <= i < j < |TARGETS| ==> TARGETS[i].kind != TARGETS[j].kind
  {
    forall i, j | 0 <= i < j < |TARGETS| ensures TARGETS[i].kind != TARGETS[j].kind {
      assert |TARGETS[i].kind| != |TARGETS[j].kind| || TARGETS[i].kind[1] != TARGETS[j].kind[1];
    }
  }
}

/** The bodies of the tools that change something (mcp/src/tool-body.ts). */
module ToolBody {
  import opened Json
  import opened Text
  import opened Wrappers

  datatype FieldKind =
    | TextField(max: nat, min: Option<nat>)
    | DateField
    | TimestampField
    | IntegerField(lowest: int, highest: int)
    | BooleanField
    | EnumField(values: seq<seq<Unit>>)
    | IdField
    | DayListField

  /** A declared field. A control field says something about the request and nothing
    * about a record.
    */
  datatype FieldSpec = FieldSpec(name: string, kind: FieldKind, required: bool, control: bool)

  // ---- What a value may be -----------------------------------------------------------------

  predicate IsDigit(u: Unit) {
    0x30 <= u <= 0x39
  }

  predicate IsIdCharacter(u: Unit) {
    IsDigit(u) || 0x41 <= u <= 0x5A || 0x61 <= u <= 0x7A || u == 0x5F || u == 0x2D
  }

  /** Letters, digits, hyphens and underscores, up to 160 of them. */
  predicate IsId(s: seq<Unit>) {
    1 <= |s| <= 160 && forall i :: 0 <= i < |s| ==> IsIdCharacter(s[i])
  }

  lemma IdIff(s: seq<Unit>)
    ensures IsId(s) <==>
            0 < |s| <= 160 && forall i :: 0 <= i < |s| ==>
              || 'A' as int <= s[i] <= 'Z' as int || 'a' as int <= s[i] <= 'z' as int || '0' as int <= s[i] <= '9' as int
              || s[i] == '_' as int || s[i] == '-' as int
  {
    assert forall i :: 0 <= i < |s| ==> (IsIdCharacter(s[i]) <==>
      || 'A' as int <= s[i] <= 'Z' as int || 'a' as int <= s[i] <= 'z' as int || '0' as int <= s[i] <= '9' as int
      || s[i] == '_' as int || s[i] == '-' as int);
  }

  /** Text in a picture: 'd' stands for a digit, anything else for itself. */
  predicate Pictured(s: seq<Unit>, picture: string) {
    |s| == |picture| &&
    forall i :: 0 <= i < |s| ==> if picture[i] == 'd' then IsDigit(s[i]) else s[i] == picture[i] as int
  }

  predicate IsDate(s: seq<Unit>) {
    Pictured(s, "dddd-dd-dd")
  }

  predicate IsZone(s: seq<Unit>) {
    Pictured(s, "Z") || Pictured(s, "+dd:dd") || Pictured(s, "-dd:dd")
  }

  predicate IsFraction(s: seq<Unit>) {
    s == [] || Pictured(s, ".d") || Pictured(s, ".dd") || Pictured(s, ".ddd")
  }

  predicate IsTimestamp(s: seq<Unit>) {
    |s| >= 19 && Pictured(s[..19], "dddd-dd-ddTdd:dd:dd") &&
    exists k :: 19 <= k <= |s| && IsFraction(s[19..k]) && IsZone(s[k..])
  }

  predicate IsWholeIn(v: Json, lowest: int, highest: int) {
    v.Num? && v.n.Floor as real == v.n && lowest as real <= v.n <= highest as real
  }

  predicate Admits(kind: FieldKind, v: Json) {
    match kind
    case TextField(max, min) => v.Str? && |v.s| <= max && (min.Some? ==> |v.s| >= min.value)
    case DateField => v.Str? && IsDate(v.s)
    case TimestampField => v.Str? && IsTimestamp(v.s)
    case IntegerField(lowest, highest) => IsWholeIn(v, lowest, highest)
    case BooleanField => v.Bool?
    case EnumField(values) => v.Str? && v.s in values
    case IdField => v.Str? && IsId(v.s)
    case DayListField =>
      v.Arr? && |v.items| <= 12 && forall i :: 0 <= i < |v.items| ==> IsWholeIn(v.items[i], 1, 365)
  }

  // ---- The kinds in full -------------------------------------------------------------------

  predicate IsNumber(v: Json, n: int) {
    v == Num(n as real)
  }

  /** A whole number in a range. */
  ghost predicate Between(v: Json, lowest: int, highest: int) {
    exists n :: lowest <= n <= highest && IsNumber(v, n)
  }

  lemma WholeIff(v: Json, lowest: int, highest: int)
    ensures IsWholeIn(v, lowest, highest) <==> Between(v, lowest, highest)
  {
    if IsWholeIn(v, lowest, highest) {
      assert IsNumber(v, v.n.Floor);
    }
  }

  predicate Digit(u: Unit) {
    '0' as int <= u <= '9' as int
  }

  /** A date has four, two and two digits with hyphens between them. */
  predicate DateLike(s: seq<Unit>) {
    && |s| == 10 && s[4] == s[7] == '-' as int
    && Digit(s[0]) && Digit(s[1]) && Digit(s[2]) && Digit(s[3]) && Digit(s[5]) && Digit(s[6]) && Digit(s[8]) && Digit(s[9])
  }

  lemma DateIff(s: seq<Unit>)
    ensures IsDate(s) == DateLike(s)
  {
    var picture := "dddd-dd-dd";
    assert |picture| == 10 && picture[4] == picture[7] == '-';
    assert forall i :: 0 <= i < 10 && i != 4 && i != 7 ==> picture[i] == 'd';
    if IsDate(s) {
      assert s[4] == picture[4] as int && s[7] == picture[7] as int;
    }
  }

  /** A date, a "T" and a time of day of three pairs of digits with colons between them. */
  predicate TimeLike(s: seq<Unit>) {
    && |s| == 19 && DateLike(s[..10]) && s[10] == 'T' as int && s[13] == s[16] == ':' as int
    && Digit(s[11]) && Digit(s[12]) && Digit(s[14]) && Digit(s[15]) && Digit(s[17]) && Digit(s[18])
  }

  /** Nothing, or a point and one to three digits. */
  predicate FractionLike(s: seq<Unit>) {
    s == [] || (2 <= |s| <= 4 && s[0] == '.' as int && forall i :: 1 <= i < |s| ==> Digit(s[i]))
  }

  /** A "Z", or a sign and two pairs of digits with a colon between them. */
  predicate ZoneLike(s: seq<Unit>) {
    || s == ['Z' as int]
    || (|s| == 6 && (s[0] == '+' as int || s[0] == '-' as int) && s[3] == ':' as int
        && Digit(s[1]) && Digit(s[2]) && Digit(s[4]) && Digit(s[5]))
  }

  predicate SplitsAt(s: seq<Unit>, k: nat) {
    19 <= k <= |s| && TimeLike(s[..19]) && FractionLike(s[19..k]) && ZoneLike(s[k..])
  }

  ghost predicate TimestampLike(s: seq<Unit>) {
    exists k :: SplitsAt(s, k)
  }

  lemma TimeIff(s: seq<Unit>)
    ensures Pictured(s, "dddd-dd-ddTdd:dd:dd") == TimeLike(s)
  {
    var picture := "dddd-dd-ddTdd:dd:dd";
    assert |picture| == 19 && picture[4] == picture[7] == '-' && picture[10] == 'T' && picture[13] == picture[16] == ':';
    assert forall i :: 0 <= i < 19 && i != 4 && i != 7 && i != 10 && i != 13 && i != 16 ==> picture[i] == 'd';
    if Pictured(s, picture) {
      assert s[4] == picture[4] as int && s[7] == picture[7] as int && s[10] == picture[10] as int
             && s[13] == picture[13] as int && s[16] == picture[16] as int;
    }
    if TimeLike(s) {
      assert s[..10][4] == s[4] && s[..10][7] == s[7];
      assert forall i :: 0 <= i < 10 ==> s[..10][i] == s[i];
    }
  }

  lemma FractionIff(s: seq<Unit>)
    ensures IsFraction(s) == FractionLike(s)
  {
  }

  lemma ZoneIff(s: seq<Unit>)
    ensures IsZone(s) == ZoneLike(s)
  {
    if Pictured(s, "+dd:dd") {
      assert "+dd:dd"[3] == ':' && s[3] == ':' as int;
    }
    if Pictured(s, "-dd:dd") {
      assert "-dd:dd"[3] == ':' && s[3] == ':' as int;
    }
    if Pictured(s, "Z") {
      assert s == ['Z' as int];
    }
  }

  lemma TimestampIff(s: seq<Unit>)
    ensures IsTimestamp(s) <==> TimestampLike(s)
  {
    if |s| >= 19 {
      TimeIff(s[..19]);
      forall k | 19 <= k <= |s| ensures IsFraction(s[19..k]) == FractionLike(s[19..k]) && IsZone(s[k..]) == ZoneLike(s[k..]) {
        FractionIff(s[19..k]);
        ZoneIff(s[k..]);
      }
      if IsTimestamp(s) {
        var k :| 19 <= k <= |s| && IsFraction(s[19..k]) && IsZone(s[k..]);
        assert SplitsAt(s, k);
      }
    }
  }

  /** What a field of each kind takes. */
  lemma AdmitsExact(kind: FieldKind, v: Json)
    ensures Admits(kind, v) <==>
            match kind
            case TextField(max, None) => v.Str? && |v.s| <= max
            case TextField(max, Some(least)) => v.Str? && least <= |v.s| <= max
            case DateField => v.Str? && DateLike(v.s)
            case TimestampField => v.Str? && TimestampLike(v.s)
            case IntegerField(lowest, highest) => Between(v, lowest, highest)
            case BooleanField => v == Bool(true) || v == Bool(false)
            case EnumField(values) => exists i :: 0 <= i < |values| && v == Str(values[i])
            case IdField => v.Str? && IsId(v.s)
            case DayListField =>
              v.Arr? && |v.items| <= 12 && forall i :: 0 <= i < |v.items| ==> Between(v.items[i], 1, 365)
  {
    match kind
    case DateField =>
      if v.Str? {
        DateIff(v.s);
      }
    case TimestampField =>
      if v.Str? {
        TimestampIff(v.s);
      }
    case IntegerField(lowest, highest) => WholeIff(v, lowest, highest);
    case DayListField =>
      if v.Arr? {
        forall i | 0 <= i < |v.items|
          ensures IsWholeIn(v.items[i], 1, 365) <==> Between(v.items[i], 1, 365)
        {
          WholeIff(v.items[i], 1, 365);
        }
      }
    case BooleanField =>
      assert v.Bool? ==> v.b || !v.b;
    case _ =>
  }

  // ---- The body ----------------------------------------------------------------------------

  function Names(fields: seq<FieldSpec>): set<string> {
    set f | f in fields :: f.name
  }

  /** A field is left out where it may be, or holds what it should. */
  predicate Meets(field: FieldSpec, args: map<string, Json>) {
    if field.name in args then Admits(field.kind, args[field.name]) else !field.required
  }

  /** Nothing but declared fields, and each of them as declared. */
  predicate IsBody(fields: seq<FieldSpec>, args: map<string, Json>) {
    args.Keys <= Names(fields) && forall f | f in fields :: Meets(f, args)
  }

  /** A body is what was asked for, unchanged, or nothing: no field is dropped, added or
    * altered, and every reason to refuse is one of the declaration's.
    */
  method BuildBody(fields: seq<FieldSpec>, args: map<string, Json>) returns (body: Option<map<string, Json>>)
    ensures body == if IsBody(fields, args) then Some(args) else None
  {
    var unknown := args.Keys;
    while unknown != {}
      invariant unknown <= args.Keys
      invariant args.Keys - unknown <= Names(fields)
      decreases unknown
    {
      var key :| key in unknown;
      if key !in Names(fields) {
        return None;
      }
      unknown := unknown - {key};
    }
    var out: map<string, Json> := map[];
    for i := 0 to |fields|
      invariant forall j :: 0 <= j < i ==> Meets(fields[j], args)
      invariant out.Keys <= args.Keys && forall k :: k in out ==> out[k] == args[k]
      invariant forall j :: 0 <= j < i && fields[j].name in args ==> fields[j].name in out
    {
      if !Meets(fields[i], args) {
        return None;
      }
      if fields[i].name in args {
        out := out[fields[i].name := args[fields[i].name]];
      }
    }
    forall k | k in args ensures k in out {
      assert k in Names(fields);
      var f :| f in fields && f.name == k;
    }
    assert out == args;
    return Some(out);
  }

  /** A field that need not be there can be taken away. */
  lemma WithoutField(fields: seq<FieldSpec>, args: map<string, Json>, gone: set<string>)
    requires IsBody(fields, args)
    requires forall f | f in fields && f.required :: f.name !in gone
    ensures IsBody(fields, args - gone)
  {
    forall f | f in fields ensures Meets(f, args - gone) {
      assert Meets(f, args);
    }
  }
}

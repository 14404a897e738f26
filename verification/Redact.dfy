/** Taking secrets out of text that may be shown or logged (mcp/src/redact.ts). */
module Redact {
  import opened Wrappers
  import opened Text

  const OPEN: Unit := 0x5B
  const CLOSE: Unit := 0x5D
  /** "[redacted]" */
  const MARKER: seq<Unit> := [OPEN, 0x72, 0x65, 0x64, 0x61, 0x63, 0x74, 0x65, 0x64, CLOSE]

  ghost predicate BracketFree(w: seq<Unit>) {
    forall i :: 0 <= i < |w| ==> w[i] != OPEN && w[i] != CLOSE
  }

  ghost predicate OccursAt(w: seq<Unit>, s: seq<Unit>, i: nat) {
    i + |w| <= |s| && s[i..i + |w|] == w
  }

  ghost predicate Occurs(w: seq<Unit>, s: seq<Unit>) {
    exists i: nat :: OccursAt(w, s, i)
  }

  // ---- What is looked for ----------------------------------------------------------------

  /** A registered secret, or one of the two patterns: a bearer credential and a
    * session cookie.
    */
  datatype Matcher = Literal(text: seq<Unit>) | Bearer | Cookie

  function Lower(u: Unit): Unit {
    if 0x41 <= u <= 0x5A then u + 0x20 else u
  }

  /** Case-insensitive comparison with lower-case ASCII text. */
  predicate StartsWithIgnoringCase(s: seq<Unit>, lower: seq<Unit>) {
    |s| >= |lower| && forall i :: 0 <= i < |lower| ==> Lower(s[i]) == lower[i]
  }

  predicate IsBlank(u: Unit) {
    u == 0x20 || u == 0x09
  }

  /** Whether a character can be part of the credential after the lead. */
  predicate IsToken(m: Matcher, u: Unit) {
    !IsSpace(u) && (m.Cookie? ==> u != 0x3B)
  }

  const BEARER: seq<Unit> := [0x62, 0x65, 0x61, 0x72, 0x65, 0x72]
  /** "charitypilot_" */
  const COOKIE: seq<Unit> := [0x63, 0x68, 0x61, 0x72, 0x69, 0x74, 0x79, 0x70, 0x69, 0x6C, 0x6F, 0x74, 0x5F]
  /** "access=" */
  const ACCESS: seq<Unit> := [0x61, 0x63, 0x63, 0x65, 0x73, 0x73, 0x3D]
  /** "refresh=" */
  const REFRESH: seq<Unit> := [0x72, 0x65, 0x66, 0x72, 0x65, 0x73, 0x68, 0x3D]

  function Blanks(s: seq<Unit>): (n: nat)
    ensures n <= |s|
  {
    if s == [] || !IsBlank(s[0]) then 0 else 1 + Blanks(s[1..])
  }

  function TokenLength(m: Matcher, s: seq<Unit>): (n: nat)
    ensures n <= |s|
    ensures n > 0 <==> s != [] && IsToken(m, s[0])
  {
    if s == [] || !IsToken(m, s[0]) then 0 else 1 + TokenLength(m, s[1..])
  }

  /** The length of the lead a pattern keeps: "Bearer " or "charitypilot_access=". */
  function LeadLength(m: Matcher, s: seq<Unit>): (n: nat)
    ensures n <= |s|
  {
    match m
    case Literal(_) => 0
    case Bearer =>
      if StartsWithIgnoringCase(s, BEARER) && Blanks(s[6..]) > 0 then 6 + Blanks(s[6..]) else 0
    case Cookie =>
      if StartsWithIgnoringCase(s, COOKIE + ACCESS) then 20
      else if StartsWithIgnoringCase(s, COOKIE + REFRESH) then 21
      else 0
  }

  /** A match at the start of `s`: how much of it is kept, and how long it is. */
  function Match(m: Matcher, s: seq<Unit>): (r: Option<(nat, nat)>)
    ensures r.Some? ==> r.value.0 < r.value.1 <= |s|
    ensures r.Some? && !m.Literal? ==> r.value.0 > 0 && IsToken(m, s[r.value.0])
  {
    if m.Literal? then
      if m.text != [] && m.text <= s then Some((0, |m.text|)) else None
    else
      var lead := LeadLength(m, s);
      if lead == 0 then None
      else
        var n := TokenLength(m, s[lead..]);
        if n == 0 then None else Some((lead, lead + n))
  }

  /** Every match, from left to right, loses what follows its lead. */
  function Rewrite(m: Matcher, s: seq<Unit>): seq<Unit>
    decreases |s|
  {
    if s == [] then []
    else
      match Match(m, s)
      case None => [s[0]] + Rewrite(m, s[1..])
      case Some((keep, total)) => s[..keep] + MARKER + Rewrite(m, s[total..])
  }

  // ---- The two patterns --------------------------------------------------------------------

  /** Every letter in either case, and anything else as it is. */
  predicate Spells(s: seq<Unit>, word: string) {
    |s| >= |word| && forall i :: 0 <= i < |word| ==>
      s[i] == word[i] as int || ('a' <= word[i] <= 'z' && s[i] == word[i] as int - 32)
  }

  lemma SpellsIff(s: seq<Unit>, lower: seq<Unit>, word: string)
    requires |lower| == |word| && forall i :: 0 <= i < |word| ==> lower[i] == word[i] as int
    requires forall i :: 0 <= i < |word| ==> !('A' <= word[i] <= 'Z')
    ensures StartsWithIgnoringCase(s, lower) <==> Spells(s, word)
  {
  }

  lemma {:induction false} BlanksEnd(s: seq<Unit>, n: nat)
    ensures n == Blanks(s) <==>
            n <= |s| && (forall i :: 0 <= i < n ==> IsBlank(s[i])) && (n < |s| ==> !IsBlank(s[n]))
  {
    if s != [] && IsBlank(s[0]) && n > 0 {
      BlanksEnd(s[1..], n - 1);
      assert forall i :: 0 < i < |s| ==> s[i] == s[1..][i - 1];
    }
  }

  lemma {:induction false} TokenRuns(m: Matcher, s: seq<Unit>, n: nat)
    ensures n == TokenLength(m, s) <==>
            n <= |s| && (forall i :: 0 <= i < n ==> IsToken(m, s[i])) && (n < |s| ==> !IsToken(m, s[n]))
  {
    if s != [] && IsToken(m, s[0]) && n > 0 {
      TokenRuns(m, s[1..], n - 1);
      assert forall i :: 0 < i < |s| ==> s[i] == s[1..][i - 1];
    }
  }

  /** A credential follows the lead, up to `total`. */
  predicate TokenUpTo(m: Matcher, s: seq<Unit>, keep: nat, total: nat) {
    && keep < total <= |s| && (forall i :: keep <= i < total ==> IsToken(m, s[i]))
    && (total < |s| ==> !IsToken(m, s[total]))
  }

  lemma TokenAfter(m: Matcher, s: seq<Unit>, keep: nat, total: nat)
    requires keep <= |s|
    ensures TokenUpTo(m, s, keep, total) <==>
            TokenLength(m, s[keep..]) > 0 && total == keep + TokenLength(m, s[keep..])
  {
    var n := TokenLength(m, s[keep..]);
    TokenRuns(m, s[keep..], n);
    if keep <= total {
      TokenRuns(m, s[keep..], total - keep);
    }
    assert forall i :: keep <= i < |s| ==> s[i] == s[keep..][i - keep];
  }

  lemma MatchIff(m: Matcher, s: seq<Unit>, keep: nat, total: nat)
    requires !m.Literal?
    ensures Match(m, s) == Some((keep, total)) <==> keep > 0 && LeadLength(m, s) == keep && TokenUpTo(m, s, keep, total)
  {
    if keep <= |s| {
      TokenAfter(m, s, keep, total);
    }
  }

  /** "Bearer" in any case, and blanks up to `keep`. */
  predicate BearerUpTo(s: seq<Unit>, keep: nat) {
    && Spells(s, "bearer") && 6 < keep <= |s|
    && (forall i :: 6 <= i < keep ==> s[i] == ' ' as int || s[i] == '\t' as int)
    && (keep < |s| ==> s[keep] != ' ' as int && s[keep] != '\t' as int)
  }

  lemma BearerLead(s: seq<Unit>, keep: nat)
    ensures keep > 0 && LeadLength(Bearer, s) == keep <==> BearerUpTo(s, keep)
  {
    SpellsIff(s, BEARER, "bearer");
    if |s| >= 6 {
      BlanksEnd(s[6..], Blanks(s[6..]));
      if keep >= 6 {
        BlanksEnd(s[6..], keep - 6);
      }
      assert forall i :: 6 <= i < |s| ==> s[i] == s[6..][i - 6];
    }
  }

  /** "Bearer" in any case, blanks, and then everything up to the next white space, which is
    * what is replaced.
    */
  lemma BearerExact(s: seq<Unit>, keep: nat, total: nat)
    ensures Match(Bearer, s) == Some((keep, total)) <==>
            && BearerUpTo(s, keep) && keep < total <= |s|
            && (forall i :: keep <= i < total ==> !IsSpace(s[i])) && (total < |s| ==> IsSpace(s[total]))
  {
    MatchIff(Bearer, s, keep, total);
    BearerLead(s, keep);
  }

  lemma AccessSpelled(s: seq<Unit>)
    ensures StartsWithIgnoringCase(s, COOKIE + ACCESS) == Spells(s, "charitypilot_access=")
  {
    assert COOKIE + ACCESS == [
      0x63, 0x68, 0x61, 0x72, 0x69, 0x74, 0x79, 0x70, 0x69, 0x6C, 0x6F, 0x74, 0x5F,
      0x61, 0x63, 0x63, 0x65, 0x73, 0x73, 0x3D];
    SpellsIff(s, COOKIE + ACCESS, "charitypilot_access=");
  }

  lemma RefreshSpelled(s: seq<Unit>)
    ensures StartsWithIgnoringCase(s, COOKIE + REFRESH) == Spells(s, "charitypilot_refresh=")
  {
    assert COOKIE + REFRESH == [
      0x63, 0x68, 0x61, 0x72, 0x69, 0x74, 0x79, 0x70, 0x69, 0x6C, 0x6F, 0x74, 0x5F,
      0x72, 0x65, 0x66, 0x72, 0x65, 0x73, 0x68, 0x3D];
    SpellsIff(s, COOKIE + REFRESH, "charitypilot_refresh=");
  }

  lemma NotBothCookies(s: seq<Unit>)
    ensures !(StartsWithIgnoringCase(s, COOKIE + ACCESS) && StartsWithIgnoringCase(s, COOKIE + REFRESH))
  {
    assert (COOKIE + ACCESS)[13] == 0x61 && (COOKIE + REFRESH)[13] == 0x72;
  }

  lemma CookieLead(s: seq<Unit>, keep: nat)
    ensures keep > 0 && LeadLength(Cookie, s) == keep <==>
            (keep == 20 && Spells(s, "charitypilot_access=")) || (keep == 21 && Spells(s, "charitypilot_refresh="))
  {
    AccessSpelled(s);
    RefreshSpelled(s);
    NotBothCookies(s);
    CookieLeadBy(s, keep, Spells(s, "charitypilot_access="), Spells(s, "charitypilot_refresh="));
  }

  lemma CookieLeadBy(s: seq<Unit>, keep: nat, access: bool, refresh: bool)
    requires access == StartsWithIgnoringCase(s, COOKIE + ACCESS) && refresh == StartsWithIgnoringCase(s, COOKIE + REFRESH)
    requires !(access && refresh)
    ensures (keep > 0 && LeadLength(Cookie, s) == keep) == ((keep == 20 && access) || (keep == 21 && refresh))
  {
  }

  /** One of the two cookies of a session in any case, and then everything up to a semicolon or
    * white space, which is what is replaced.
    */
  lemma CookieExact(s: seq<Unit>, keep: nat, total: nat)
    ensures Match(Cookie, s) == Some((keep, total)) <==>
            && ((keep == 20 && Spells(s, "charitypilot_access=")) || (keep == 21 && Spells(s, "charitypilot_refresh=")))
            && keep < total <= |s|
            && (forall i :: keep <= i < total ==> !IsSpace(s[i]) && s[i] != ';' as int)
            && (total < |s| ==> IsSpace(s[total]) || s[total] == ';' as int)
  {
    MatchIff(Cookie, s, keep, total);
    CookieLead(s, keep);
  }

  // ---- Nothing new appears ---------------------------------------------------------------

  /** Bracket-free text at the start of a lead and a marker is part of the lead. */
  lemma PrefixOfLead(lead: seq<Unit>, rest: seq<Unit>, w: seq<Unit>)
    requires BracketFree(w) && w <= lead + MARKER + rest
    ensures w <= lead
    ensures (lead + MARKER + rest)[|w|] == if |w| < |lead| then lead[|w|] else OPEN
  {
    var s := lead + MARKER + rest;
    assert s[|lead|] == OPEN;
    assert forall i :: 0 <= i < |w| ==> w[i] == s[i];
    assert |w| <= |lead|;
    assert forall i :: 0 <= i < |lead| ==> s[i] == lead[i];
  }

  /** Bracket-free text at the start of the result was at the start of the input, and
    * the character after it is the input's or opens a marker put where a credential
    * began.
    */
  ghost predicate WasThere(m: Matcher, w: seq<Unit>, out: seq<Unit>, s: seq<Unit>) {
    && w <= s
    && (|out| > |w| ==>
          |s| > |w| && (out[|w|] == s[|w|] || (out[|w|] == OPEN && (m.Literal? || IsToken(m, s[|w|])))))
  }

  lemma WasThereAfter(m: Matcher, u: Unit, w: seq<Unit>, out: seq<Unit>, s: seq<Unit>)
    requires w != [] && w <= [u] + out && WasThere(m, w[1..], out, s)
    ensures WasThere(m, w, [u] + out, [u] + s)
  {
    assert w[0] == u && w == [u] + w[1..];
  }

  lemma WasThereInLead(m: Matcher, w: seq<Unit>, s: seq<Unit>, keep: nat, rest: seq<Unit>)
    requires keep < |s| && BracketFree(w) && w <= s[..keep] + MARKER + rest && (m.Literal? || IsToken(m, s[keep]))
    ensures WasThere(m, w, s[..keep] + MARKER + rest, s)
  {
    PrefixOfLead(s[..keep], rest, w);
  }

  lemma {:induction false} PrefixWasThere(m: Matcher, s: seq<Unit>, w: seq<Unit>)
    requires BracketFree(w) && w <= Rewrite(m, s)
    ensures WasThere(m, w, Rewrite(m, s), s)
    decreases |s|
  {
    if s != [] {
      match Match(m, s)
      case None =>
        var rest := Rewrite(m, s[1..]);
        assert Rewrite(m, s) == [s[0]] + rest && s == [s[0]] + s[1..];
        if w != [] {
          assert ([s[0]] + rest)[1..] == rest && w[1..] <= rest;
          PrefixWasThere(m, s[1..], w[1..]);
          WasThereAfter(m, s[0], w, rest, s[1..]);
        }
      case Some((keep, total)) =>
        WasThereInLead(m, w, s, keep, Rewrite(m, s[total..]));
    }
  }

  /** A marker cannot be part of an occurrence of bracket-free text of more than eight
    * characters: "redacted" itself has eight.
    */
  lemma NotAcrossMarker(w: seq<Unit>, a: seq<Unit>, b: seq<Unit>, i: nat)
    requires BracketFree(w) && |w| > 8 && OccursAt(w, a + MARKER + b, i)
    ensures i + |w| <= |a| || i >= |a| + |MARKER|
    ensures i + |w| <= |a| ==> OccursAt(w, a, i)
    ensures i >= |a| + |MARKER| ==> OccursAt(w, b, i - |a| - |MARKER|)
  {
    var s := a + MARKER + b;
    assert forall j :: i <= j < i + |w| ==> s[j] == w[j - i];
    assert s[|a|] == OPEN && s[|a| + 9] == CLOSE;
    if i >= |a| + |MARKER| {
      var k: nat := i - |a| - |MARKER|;
      assert s[i..i + |w|] == b[k..k + |w|];
    } else if i + |w| <= |a| {
      assert s[i..i + |w|] == a[i..i + |w|];
    }
  }

  lemma OccursBesideMarker(w: seq<Unit>, a: seq<Unit>, b: seq<Unit>)
    requires BracketFree(w) && |w| > 8 && Occurs(w, a + MARKER + b)
    ensures Occurs(w, a) || Occurs(w, b)
  {
    var i: nat :| OccursAt(w, a + MARKER + b, i);
    NotAcrossMarker(w, a, b, i);
  }

  lemma OccursInPrefix(w: seq<Unit>, s: seq<Unit>, to: nat)
    requires to <= |s| && Occurs(w, s[..to])
    ensures Occurs(w, s)
  {
    var i: nat :| OccursAt(w, s[..to], i);
    assert s[..to][i..i + |w|] == s[i..i + |w|];
    assert OccursAt(w, s, i);
  }

  /** Whatever bracket-free text of more than eight characters the result holds, the
    * input held.
    */
  lemma {:induction false} NothingNewAppears(m: Matcher, s: seq<Unit>, w: seq<Unit>)
    requires BracketFree(w) && |w| > 8 && Occurs(w, Rewrite(m, s))
    ensures Occurs(w, s)
    decreases |s|, 1
  {
    if s != [] {
      match Match(m, s)
      case None => NothingNewAtHead(m, s, w);
      case Some((keep, total)) =>
        OccursBesideMarker(w, s[..keep], Rewrite(m, s[total..]));
        if Occurs(w, s[..keep]) {
          OccursInPrefix(w, s, keep);
        } else {
          NothingNewAppears(m, s[total..], w);
          OccursInSuffix(w, s, total);
        }
    }
  }

  lemma OccursFromHead(w: seq<Unit>, head: Unit, tail: seq<Unit>)
    requires Occurs(w, [head] + tail)
    ensures w <= [head] + tail || Occurs(w, tail)
  {
    var i: nat :| OccursAt(w, [head] + tail, i);
    if i > 0 {
      assert ([head] + tail)[i..i + |w|] == tail[i - 1..i - 1 + |w|];
      assert OccursAt(w, tail, i - 1);
    }
  }

  lemma {:induction false} NothingNewAtHead(m: Matcher, s: seq<Unit>, w: seq<Unit>)
    requires BracketFree(w) && |w| > 8 && Occurs(w, Rewrite(m, s)) && s != [] && Match(m, s).None?
    ensures Occurs(w, s)
    decreases |s|, 0
  {
    var rest := Rewrite(m, s[1..]);
    assert Rewrite(m, s) == [s[0]] + rest;
    OccursFromHead(w, s[0], rest);
    if w <= [s[0]] + rest {
      PrefixWasThere(m, s, w);
      assert OccursAt(w, s, 0);
    } else {
      NothingNewAppears(m, s[1..], w);
      OccursInSuffix(w, s, 1);
    }
  }

  lemma OccursInSuffix(w: seq<Unit>, s: seq<Unit>, from: nat)
    requires from <= |s| && Occurs(w, s[from..])
    ensures Occurs(w, s)
  {
    var i: nat :| OccursAt(w, s[from..], i);
    assert s[from..][i..i + |w|] == s[from + i..from + i + |w|];
    assert OccursAt(w, s, from + i);
  }

  lemma NotWithHead(w: seq<Unit>, head: Unit, tail: seq<Unit>)
    requires !Occurs(w, tail) && !(w <= [head] + tail)
    ensures !Occurs(w, [head] + tail)
  {
    if Occurs(w, [head] + tail) {
      OccursFromHead(w, head, tail);
    }
  }

  lemma NotBesideMarker(w: seq<Unit>, a: seq<Unit>, b: seq<Unit>)
    requires BracketFree(w) && |w| > 8 && !Occurs(w, a) && !Occurs(w, b)
    ensures !Occurs(w, a + MARKER + b)
  {
    if Occurs(w, a + MARKER + b) {
      OccursBesideMarker(w, a, b);
    }
  }

  lemma UnmatchedIsNoPrefix(secret: seq<Unit>, s: seq<Unit>)
    requires BracketFree(secret) && secret != [] && !(secret <= s)
    ensures !(secret <= Rewrite(Literal(secret), s))
  {
    if secret <= Rewrite(Literal(secret), s) {
      PrefixWasThere(Literal(secret), s, secret);
    }
  }

  /** A secret that has been replaced does not occur any more. */
  lemma {:induction false} ReplacedIsGone(secret: seq<Unit>, s: seq<Unit>)
    requires BracketFree(secret) && |secret| > 8
    ensures !Occurs(secret, Rewrite(Literal(secret), s))
    decreases |s|
  {
    var m := Literal(secret);
    if s == [] {
    } else if secret <= s {
      var rest := Rewrite(m, s[|secret|..]);
      ReplacedIsGone(secret, s[|secret|..]);
      NotBesideMarker(secret, [], rest);
      assert Rewrite(m, s) == s[..0] + MARKER + rest && s[..0] == [];
    } else {
      ReplacedIsGone(secret, s[1..]);
      UnmatchedIsNoPrefix(secret, s);
      NotWithHead(secret, s[0], Rewrite(m, s[1..]));
    }
  }

  // ---- Only markers follow a lead ----------------------------------------------------------

  /** Every bearer credential, or every session cookie, is the marker. */
  ghost predicate OnlyMarkers(m: Matcher, s: seq<Unit>) {
    forall i: nat :: i <= |s| && Match(m, s[i..]).Some? ==>
      var (keep, total) := Match(m, s[i..]).value; s[i..][keep..total] == MARKER
  }

  /** The result starts the way the input does, as far as a delimiter goes. */
  lemma DelimiterStays(m: Matcher, s: seq<Unit>)
    requires !m.Literal? && s != []
    ensures Rewrite(m, s) != [] && Rewrite(m, s)[0] == s[0]
  {
  }

  lemma {:induction false} BlanksFromPrefix(a: seq<Unit>, b: seq<Unit>)
    requires |b| > Blanks(a) && b[..Blanks(a)] == a[..Blanks(a)] && !IsBlank(b[Blanks(a)])
    ensures Blanks(b) == Blanks(a)
  {
    if a != [] && IsBlank(a[0]) {
      assert b[0] == a[..Blanks(a)][0];
      assert b[1..][..Blanks(a[1..])] == b[..Blanks(a)][1..];
      assert a[1..][..Blanks(a[1..])] == a[..Blanks(a)][1..];
      BlanksFromPrefix(a[1..], b[1..]);
    }
  }

  lemma {:induction false} BlanksAreBlank(s: seq<Unit>)
    ensures forall i :: 0 <= i < Blanks(s) ==> IsBlank(s[i])
  {
    if s != [] && IsBlank(s[0]) {
      BlanksAreBlank(s[1..]);
    }
  }

  /** Text with the same lead, and a credential character after it, has that lead. */
  lemma LeadFromPrefix(m: Matcher, a: seq<Unit>, b: seq<Unit>)
    requires !m.Literal?
    requires var k := LeadLength(m, a); k > 0 && |b| > k && b[..k] == a[..k] && !IsBlank(b[k])
    ensures LeadLength(m, b) == LeadLength(m, a)
  {
    var k := LeadLength(m, a);
    assert forall i :: 0 <= i < k ==> b[i] == a[..k][i];
    if m.Bearer? {
      assert b[6..][..k - 6] == b[..k][6..] && a[6..][..k - 6] == a[..k][6..];
      BlanksFromPrefix(a[6..], b[6..]);
    }
  }

  lemma {:induction false} TokenEnds(m: Matcher, s: seq<Unit>)
    ensures var n := TokenLength(m, s); s[n..] == [] || !IsToken(m, s[n..][0])
  {
    if s != [] && IsToken(m, s[0]) {
      TokenEnds(m, s[1..]);
      assert s[TokenLength(m, s)..] == s[1..][TokenLength(m, s[1..])..];
    }
  }

  lemma {:induction false} TokenLengthOf(m: Matcher, a: seq<Unit>, b: seq<Unit>)
    requires forall i :: 0 <= i < |a| ==> IsToken(m, a[i])
    requires b == [] || !IsToken(m, b[0])
    ensures TokenLength(m, a + b) == |a|
  {
    if a == [] {
      assert a + b == b;
    } else {
      assert (a + b)[1..] == a[1..] + b;
      TokenLengthOf(m, a[1..], b);
    }
  }

  lemma BearerLetters(s: seq<Unit>)
    ensures forall i :: 0 <= i < LeadLength(Bearer, s) ==> s[i] != OPEN && s[i] != CLOSE
    ensures forall i :: 0 < i < LeadLength(Bearer, s) ==> Lower(s[i]) != 0x62
  {
    if LeadLength(Bearer, s) > 0 {
      BlanksAreBlank(s[6..]);
      forall i | 0 <= i < LeadLength(Bearer, s)
        ensures s[i] != OPEN && s[i] != CLOSE && (i > 0 ==> Lower(s[i]) != 0x62)
      {
        if i < 6 {
          assert Lower(s[i]) == BEARER[i];
        } else {
          assert IsBlank(s[6..][i - 6]);
        }
      }
    }
  }

  lemma CookieLetters(s: seq<Unit>, letters: seq<Unit>)
    requires StartsWithIgnoringCase(s, letters) && letters in {COOKIE + ACCESS, COOKIE + REFRESH}
    ensures forall i :: 0 <= i < |letters| ==> s[i] != OPEN && s[i] != CLOSE
    ensures forall i :: 0 < i < |letters| && Lower(s[i]) == 0x63 ==> i + 1 < |letters| && Lower(s[i + 1]) != 0x68
  {
    assert forall i :: 0 <= i < |letters| ==> Lower(s[i]) == letters[i];
  }

  /** The lead of a pattern, letter by letter: no brackets, and no second beginning. */
  lemma LeadLetters(m: Matcher, s: seq<Unit>)
    requires !m.Literal?
    ensures forall i :: 0 <= i < LeadLength(m, s) ==> s[i] != OPEN && s[i] != CLOSE
    ensures m.Bearer? ==> forall i :: 0 < i < LeadLength(m, s) ==> Lower(s[i]) != 0x62
    ensures m.Cookie? ==>
              forall i :: 0 < i < LeadLength(m, s) && Lower(s[i]) == 0x63 ==>
                            i + 1 < LeadLength(m, s) && Lower(s[i + 1]) != 0x68
  {
    if m.Bearer? {
      BearerLetters(s);
    } else if LeadLength(m, s) == 20 {
      CookieLetters(s, COOKIE + ACCESS);
    } else if LeadLength(m, s) == 21 {
      CookieLetters(s, COOKIE + REFRESH);
    }
  }

  lemma MatchAt(m: Matcher, s: seq<Unit>)
    requires !m.Literal? && LeadLength(m, s) > 0 && |s| > LeadLength(m, s) && IsToken(m, s[LeadLength(m, s)])
    ensures Match(m, s).Some?
  {
    assert s[LeadLength(m, s)..][0] == s[LeadLength(m, s)];
  }

  /** Where there was no match there is none afterwards. */
  /** A lead and the token after it that are there after a pass were there before. */
  lemma LeadWasThere(m: Matcher, s: seq<Unit>, k: nat)
    requires !m.Literal? && k < |s| && k <= |Rewrite(m, s)|
    requires 0 < k == LeadLength(m, Rewrite(m, s)) && s[..k] == Rewrite(m, s)[..k] && IsToken(m, s[k])
    ensures Match(m, s).Some?
  {
    assert !IsBlank(s[k]);
    LeadFromPrefix(m, Rewrite(m, s), s);
    MatchAt(m, s);
  }

  lemma LeadStays(m: Matcher, s: seq<Unit>) returns (k: nat)
    requires !m.Literal?
    ensures k == LeadLength(m, Rewrite(m, s)) <= |Rewrite(m, s)| && WasThere(m, Rewrite(m, s)[..k], Rewrite(m, s), s)
  {
    var out := Rewrite(m, s);
    k := LeadLength(m, out);
    LeadLetters(m, out);
    PrefixWasThere(m, s, out[..k]);
  }

  lemma NoTokenNoMatch(m: Matcher, s: seq<Unit>, k: nat)
    requires !m.Literal? && k == LeadLength(m, s)
    requires k == 0 || k == |s| || !IsToken(m, s[k])
    ensures Match(m, s).None?
  {
  }

  lemma TokenWasThere(m: Matcher, s: seq<Unit>, out: seq<Unit>, k: nat)
    requires !m.Literal? && k < |out| && WasThere(m, out[..k], out, s) && IsToken(m, out[k])
    ensures k < |s| && s[..k] == out[..k] && IsToken(m, s[k])
  {
    assert |out[..k]| == k;
  }

  lemma NoMatchStays(m: Matcher, s: seq<Unit>)
    requires !m.Literal? && Match(m, s).None?
    ensures Match(m, Rewrite(m, s)).None?
  {
    var out := Rewrite(m, s);
    var k := LeadStays(m, s);
    if 0 < k < |out| && IsToken(m, out[k]) {
      TokenWasThere(m, s, out, k);
      LeadWasThere(m, s, k);
    }
    NoTokenNoMatch(m, out, k);
  }

  lemma MatchOfMarker(m: Matcher, lead: seq<Unit>, rest: seq<Unit>)
    requires !m.Literal? && lead != [] && LeadLength(m, lead + MARKER + rest) == |lead|
    requires rest == [] || !IsToken(m, rest[0])
    ensures Match(m, lead + MARKER + rest) == Some((|lead|, |lead| + |MARKER|))
  {
    TokenLengthOf(m, MARKER, rest);
    assert (lead + MARKER + rest)[|lead|..] == MARKER + rest;
  }

  lemma LeadBeforeMarker(m: Matcher, s: seq<Unit>, rest: seq<Unit>)
    requires !m.Literal? && LeadLength(m, s) > 0
    ensures LeadLength(m, s[..LeadLength(m, s)] + MARKER + rest) == LeadLength(m, s)
  {
    var keep := LeadLength(m, s);
    var out := s[..keep] + MARKER + rest;
    assert out[keep] == OPEN && out[..keep] == s[..keep];
    LeadFromPrefix(m, s, out);
  }

  lemma RestDelimited(m: Matcher, s: seq<Unit>)
    requires !m.Literal? && Match(m, s).Some?
    ensures var rest := Rewrite(m, s[Match(m, s).value.1..]); rest == [] || !IsToken(m, rest[0])
  {
    var (keep, total) := Match(m, s).value;
    TokenEnds(m, s[keep..]);
    assert s[keep..][total - keep..] == s[total..];
    if s[total..] != [] {
      DelimiterStays(m, s[total..]);
    }
  }

  /** A match keeps its lead, and what follows is the marker and nothing more. */
  lemma MatchBecomesMarker(m: Matcher, s: seq<Unit>)
    requires !m.Literal? && Match(m, s).Some?
    ensures var keep := Match(m, s).value.0;
            Match(m, Rewrite(m, s)) == Some((keep, keep + |MARKER|)) &&
            |Rewrite(m, s)| >= keep + |MARKER| &&
            Rewrite(m, s)[keep..keep + |MARKER|] == MARKER
  {
    var (keep, total) := Match(m, s).value;
    var rest := Rewrite(m, s[total..]);
    LeadBeforeMarker(m, s, rest);
    RestDelimited(m, s);
    MatchOfMarker(m, s[..keep], rest);
    assert Rewrite(m, s) == s[..keep] + MARKER + rest;
  }

  /** What a match cannot begin with. */
  predicate BeginsOtherwise(m: Matcher, s: seq<Unit>) {
    s != [] &&
    if m.Bearer? then Lower(s[0]) != 0x62
    else Lower(s[0]) == 0x63 ==> |s| > 1 && Lower(s[1]) != 0x68
  }

  lemma NoMatchOtherwise(m: Matcher, s: seq<Unit>)
    requires !m.Literal? && BeginsOtherwise(m, s)
    ensures Match(m, s).None?
  {
    if m.Bearer? {
      assert BEARER[0] == 0x62;
    } else {
      assert (COOKIE + ACCESS)[0] == 0x63 && (COOKIE + ACCESS)[1] == 0x68;
      assert (COOKIE + REFRESH)[0] == 0x63 && (COOKIE + REFRESH)[1] == 0x68;
    }
  }

  /** No match begins inside a kept lead or inside a marker. */
  lemma NoMatchInside(m: Matcher, s: seq<Unit>, i: nat)
    requires !m.Literal? && Match(m, s).Some? && 0 < i < Match(m, s).value.0 + |MARKER|
    ensures i <= |Rewrite(m, s)| && Match(m, Rewrite(m, s)[i..]).None?
  {
    var keep := Match(m, s).value.0;
    LeadLetters(m, s);
    LettersInside(m, s[..keep], Rewrite(m, s[Match(m, s).value.1..]), i);
    NoMatchOtherwise(m, Rewrite(m, s)[i..]);
  }

  lemma LettersInside(m: Matcher, lead: seq<Unit>, rest: seq<Unit>, i: nat)
    requires !m.Literal? && 0 < i < |lead| + |MARKER|
    requires m.Bearer? ==> forall j :: 0 < j < |lead| ==> Lower(lead[j]) != 0x62
    requires m.Cookie? ==>
               forall j :: 0 < j < |lead| && Lower(lead[j]) == 0x63 ==> j + 1 < |lead| && Lower(lead[j + 1]) != 0x68
    ensures BeginsOtherwise(m, (lead + MARKER + rest)[i..])
  {
    var out := lead + MARKER + rest;
    var tail := out[i..];
    assert tail[0] == out[i];
    if i < |lead| {
      assert out[i] == lead[i];
      assert i + 1 < |lead| ==> tail[1] == lead[i + 1];
    } else {
      assert out[i] == MARKER[i - |lead|];
      assert i + 1 < |lead| + |MARKER| ==> tail[1] == MARKER[i + 1 - |lead|];
    }
  }

  /** After a pattern's pass, whatever still reads as a credential is the marker. */
  lemma {:induction false} PassLeavesOnlyMarkers(m: Matcher, s: seq<Unit>)
    requires !m.Literal?
    ensures OnlyMarkers(m, Rewrite(m, s))
    decreases |s|
  {
    if s != [] {
      match Match(m, s)
      case None =>
        PassLeavesOnlyMarkers(m, s[1..]);
        NoMatchStays(m, s);
        OnlyMarkersAfter(m, [s[0]], Rewrite(m, s[1..]));
      case Some((keep, total)) =>
        PassLeavesOnlyMarkers(m, s[total..]);
        MatchBecomesMarker(m, s);
        forall i: nat | 0 < i < keep + |MARKER|
          ensures Match(m, (s[..keep] + MARKER + Rewrite(m, s[total..]))[i..]).None?
        {
          NoMatchInside(m, s, i);
        }
        OnlyMarkersAfter(m, s[..keep] + MARKER, Rewrite(m, s[total..]));
    }
  }

  lemma OnlyMarkersAfter(m: Matcher, head: seq<Unit>, tail: seq<Unit>)
    requires OnlyMarkers(m, tail)
    requires Match(m, head + tail).Some? ==>
               var (keep, total) := Match(m, head + tail).value; (head + tail)[keep..total] == MARKER
    requires forall i: nat :: 0 < i < |head| ==> Match(m, (head + tail)[i..]).None?
    ensures OnlyMarkers(m, head + tail)
  {
    var out := head + tail;
    forall i: nat | i <= |out| && Match(m, out[i..]).Some?
      ensures var (keep, total) := Match(m, out[i..]).value; out[i..][keep..total] == MARKER
    {
      if i == 0 {
        assert out[0..] == out;
      } else {
        assert i >= |head|;
        assert out[i..] == tail[i - |head|..];
      }
    }
  }
}

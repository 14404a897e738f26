/** The redactor: a set of registered secrets, and the text with none of them in it
  * (mcp/src/redact.ts).
  */
module Redactor {
  import opened Wrappers
  import opened Text
  import opened Redact

  // ---- The cookie pass does not undo the bearer pass ------------------------------------------

  lemma RewriteHead(m: Matcher, s: seq<Unit>)
    requires s != [] && Match(m, s).None?
    ensures Rewrite(m, s) == [s[0]] + Rewrite(m, s[1..])
  {
  }

  /** What passes one character on passes on as many as there are. */
  lemma {:induction false} PassesOn(f: seq<Unit> -> seq<Unit>, s: seq<Unit>, n: nat)
    requires n <= |s| && forall i :: 0 <= i < n ==> f(s[i..]) == [s[i]] + f(s[i + 1..])
    ensures f(s) == s[..n] + f(s[n..])
  {
    if n == 0 {
      assert s[0..] == s;
    } else {
      PassesOn(f, s, n - 1);
      assert s[..n] == s[..n - 1] + [s[n - 1]];
      Regroup(s[..n - 1], [s[n - 1]], f(s[n..]));
    }
  }

  lemma RewriteSkips(m: Matcher, s: seq<Unit>, n: nat)
    requires n <= |s| && forall i :: 0 <= i < n ==> Match(m, s[i..]).None?
    ensures Rewrite(m, s) == s[..n] + Rewrite(m, s[n..])
  {
    var f := (u: seq<Unit>) => Rewrite(m, u);
    forall i | 0 <= i < n ensures f(s[i..]) == [s[i]] + f(s[i + 1..]) {
      RewriteHead(m, s[i..]);
      assert s[i..][0] == s[i] && s[i..][1..] == s[i + 1..];
    }
    PassesOn(f, s, n);
  }

  /** No letter of "bearer", blank or marker begins a cookie. */
  lemma NoCookieInBearer(lead: seq<Unit>, rest: seq<Unit>, i: nat)
    requires LeadLength(Bearer, lead + MARKER + rest) == |lead| > 0 && i < |lead| + |MARKER|
    ensures Match(Cookie, (lead + MARKER + rest)[i..]).None?
  {
    var s := lead + MARKER + rest;
    BlanksAreBlank(s[6..]);
    assert s[i..][0] == s[i];
    if i < |lead| {
      if i < 6 {
        assert Lower(s[i]) == BEARER[i];
      } else {
        assert IsBlank(s[6..][i - 6]);
      }
    } else {
      assert s[i] == MARKER[i - |lead|];
      assert i + 1 < |lead| + |MARKER| ==> s[i..][1] == MARKER[i + 1 - |lead|];
    }
    NoMatchOtherwise(Cookie, s[i..]);
  }

  /** No letter of a cookie's lead, and none of the marker, begins a bearer credential. */
  lemma NoBearerInCookie(lead: seq<Unit>, rest: seq<Unit>, i: nat)
    requires LeadLength(Cookie, lead + MARKER + rest) == |lead| > 0 && i < |lead| + |MARKER|
    ensures Match(Bearer, (lead + MARKER + rest)[i..]).None?
  {
    var s := lead + MARKER + rest;
    assert s[i..][0] == s[i];
    if i < |lead| {
      var letters := if |lead| == 20 then COOKIE + ACCESS else COOKIE + REFRESH;
      assert Lower(s[i]) == letters[i];
    } else {
      assert s[i] == MARKER[i - |lead|];
    }
    NoMatchOtherwise(Bearer, s[i..]);
  }

  lemma SuffixOnlyMarkers(m: Matcher, s: seq<Unit>, from: nat)
    requires OnlyMarkers(m, s) && from <= |s|
    ensures OnlyMarkers(m, s[from..])
  {
    forall i: nat | i <= |s[from..]| && Match(m, s[from..][i..]).Some?
      ensures var (keep, total) := Match(m, s[from..][i..]).value; s[from..][i..][keep..total] == MARKER
    {
      assert s[from..][i..] == s[from + i..];
    }
  }

  /** The cookie pass does not touch a bearer lead or the marker after it. */
  lemma CookiePassSkipsBearer(lead: seq<Unit>, rest: seq<Unit>)
    requires LeadLength(Bearer, lead + MARKER + rest) == |lead| > 0
    ensures Rewrite(Cookie, lead + MARKER + rest) == lead + MARKER + Rewrite(Cookie, rest)
  {
    var s := lead + MARKER + rest;
    var n := |lead| + |MARKER|;
    forall i | 0 <= i < n ensures Match(Cookie, s[i..]).None? {
      NoCookieInBearer(lead, rest, i);
    }
    RewriteSkips(Cookie, s, n);
    assert s[..n] == lead + MARKER && s[n..] == rest;
  }

  lemma BearerMarkerStays(lead: seq<Unit>, rest: seq<Unit>)
    requires LeadLength(Bearer, lead + MARKER + rest) == |lead| > 0
    requires LeadLength(Bearer, lead + MARKER + Rewrite(Cookie, rest)) == |lead|
    requires rest == [] || !IsToken(Bearer, rest[0])
    ensures Match(Bearer, Rewrite(Cookie, lead + MARKER + rest)) == Some((|lead|, |lead| + |MARKER|))
  {
    CookiePassSkipsBearer(lead, rest);
    if rest != [] {
      DelimiterStays(Cookie, rest);
    }
    MatchOfMarker(Bearer, lead, Rewrite(Cookie, rest));
  }

  /** A bearer credential that the cookie pass leaves at the start was there before,
    * as a marker, and is one still.
    */
  lemma BearerAtHead(s: seq<Unit>)
    requires OnlyMarkers(Bearer, s) && Match(Bearer, Rewrite(Cookie, s)).Some?
    ensures var (keep, total) := Match(Bearer, Rewrite(Cookie, s)).value; Rewrite(Cookie, s)[keep..total] == MARKER
  {
    BearerWasThere(s);
    var lead, rest := MarkerAfterLead(s);
    BearerParts(lead, rest);
  }

  lemma BearerParts(lead: seq<Unit>, rest: seq<Unit>)
    requires LeadLength(Bearer, lead + MARKER + rest) == |lead| > 0
    requires LeadLength(Bearer, Rewrite(Cookie, lead + MARKER + rest)) == |lead|
    requires rest == [] || !IsToken(Bearer, rest[0])
    ensures var out := Rewrite(Cookie, lead + MARKER + rest);
            Match(Bearer, out) == Some((|lead|, |lead| + |MARKER|)) &&
            |out| >= |lead| + |MARKER| && out[|lead|..|lead| + |MARKER|] == MARKER
  {
    CookiePassSkipsBearer(lead, rest);
    BearerMarkerStays(lead, rest);
    MarkerInside(lead, Rewrite(Cookie, rest));
  }

  lemma MarkerInside(lead: seq<Unit>, rest: seq<Unit>)
    ensures (lead + MARKER + rest)[|lead|..|lead| + |MARKER|] == MARKER
  {
  }

  lemma BearerWasThere(s: seq<Unit>)
    requires Match(Bearer, Rewrite(Cookie, s)).Some?
    ensures Match(Bearer, s).Some? && LeadLength(Bearer, s) == LeadLength(Bearer, Rewrite(Cookie, s)) > 0
  {
    var out := Rewrite(Cookie, s);
    var k := LeadLength(Bearer, out);
    LeadLetters(Bearer, out);
    PrefixWasThere(Cookie, s, out[..k]);
    assert out[k] == s[k] || IsToken(Cookie, s[k]);
    LeadFromPrefix(Bearer, out, s);
    MatchAt(Bearer, s);
  }

  lemma MatchParts(m: Matcher, s: seq<Unit>)
    requires !m.Literal? && Match(m, s).Some?
    ensures var (keep, total) := Match(m, s).value;
            keep == LeadLength(m, s) > 0 && (s[total..] == [] || !IsToken(m, s[total..][0]))
  {
    var (keep, total) := Match(m, s).value;
    TokenEnds(m, s[keep..]);
    assert s[keep..][total - keep..] == s[total..];
  }

  lemma ThreeParts(s: seq<Unit>, from: nat, to: nat)
    requires from <= to <= |s|
    ensures s == s[..from] + s[from..to] + s[to..]
  {
  }

  /** The lead, the marker and what follows. */
  lemma MarkerAfterLead(s: seq<Unit>) returns (lead: seq<Unit>, rest: seq<Unit>)
    requires OnlyMarkers(Bearer, s) && Match(Bearer, s).Some?
    ensures s == lead + MARKER + rest && LeadLength(Bearer, s) == |lead| > 0
    ensures rest == [] || !IsToken(Bearer, rest[0])
  {
    assert s[0..] == s;
    MatchParts(Bearer, s);
    var (keep, total) := Match(Bearer, s).value;
    assert s[keep..total] == MARKER;
    ThreeParts(s, keep, total);
    lead, rest := s[..keep], s[total..];
  }

  lemma {:induction false} CookiePassKeepsBearer(s: seq<Unit>)
    requires OnlyMarkers(Bearer, s)
    ensures OnlyMarkers(Bearer, Rewrite(Cookie, s))
    decreases |s|
  {
    if s != [] {
      match Match(Cookie, s)
      case None =>
        SuffixOnlyMarkers(Bearer, s, 1);
        CookiePassKeepsBearer(s[1..]);
        if Match(Bearer, Rewrite(Cookie, s)).Some? {
          BearerAtHead(s);
        }
        OnlyMarkersAfter(Bearer, [s[0]], Rewrite(Cookie, s[1..]));
      case Some((keep, total)) =>
        SuffixOnlyMarkers(Bearer, s, total);
        CookiePassKeepsBearer(s[total..]);
        var rest := Rewrite(Cookie, s[total..]);
        LeadBeforeMarker(Cookie, s, rest);
        var out := s[..keep] + MARKER + rest;
        forall i: nat | i < |s[..keep] + MARKER| ensures Match(Bearer, out[i..]).None? {
          NoBearerInCookie(s[..keep], rest, i);
        }
        assert out[0..] == out;
        OnlyMarkersAfter(Bearer, s[..keep] + MARKER, rest);
    }
  }

  // ---- The whole redaction -----------------------------------------------------------------------

  /** The secrets one after the other, then the two patterns. */
  function Passes(ordered: seq<seq<Unit>>, s: seq<Unit>): seq<Unit> {
    if ordered == [] then Rewrite(Cookie, Rewrite(Bearer, s))
    else Passes(ordered[1..], Rewrite(Literal(ordered[0]), s))
  }

  lemma {:induction false} PassesAddNothing(ordered: seq<seq<Unit>>, s: seq<Unit>, w: seq<Unit>)
    requires BracketFree(w) && |w| > 8 && Occurs(w, Passes(ordered, s))
    ensures Occurs(w, s)
  {
    if ordered == [] {
      NothingNewAppears(Cookie, Rewrite(Bearer, s), w);
      NothingNewAppears(Bearer, s, w);
    } else {
      PassesAddNothing(ordered[1..], Rewrite(Literal(ordered[0]), s), w);
      NothingNewAppears(Literal(ordered[0]), s, w);
    }
  }

  /** Whatever the order of the passes, and however the secrets overlap or nest, none
    * that is free of brackets is left, and every credential the patterns know is
    * the marker.
    */
  lemma {:induction false} NoSecretSurvives(ordered: seq<seq<Unit>>, s: seq<Unit>)
    requires forall w | w in ordered :: |w| > 8
    ensures forall w | w in ordered && BracketFree(w) :: !Occurs(w, Passes(ordered, s))
    ensures OnlyMarkers(Bearer, Passes(ordered, s)) && OnlyMarkers(Cookie, Passes(ordered, s))
  {
    if ordered == [] {
      PassLeavesOnlyMarkers(Bearer, s);
      CookiePassKeepsBearer(Rewrite(Bearer, s));
      PassLeavesOnlyMarkers(Cookie, Rewrite(Bearer, s));
    } else {
      var next := Rewrite(Literal(ordered[0]), s);
      NoSecretSurvives(ordered[1..], next);
      forall w | w in ordered && BracketFree(w) ensures !Occurs(w, Passes(ordered, s)) {
        if w == ordered[0] {
          ReplacedIsGone(w, s);
          if Occurs(w, Passes(ordered, s)) {
            PassesAddNothing(ordered[1..], next, w);
          }
        } else {
          assert w in ordered[1..];
        }
      }
    }
  }

  class Redactor {
    var secrets: set<seq<Unit>>

    constructor ()
      ensures secrets == {}
    {
      secrets := {};
    }

    /** Only secrets long enough not to be part of the marker are kept. */
    ghost predicate Valid()
      reads this
    {
      forall w | w in secrets :: |w| > 8
    }

    method RegisterSecret(value: seq<Unit>)
      requires Valid()
      modifies this
      ensures Valid()
      ensures secrets == old(secrets) + (if |value| > 8 then {value} else {})
    {
      if |value| > 8 {
        secrets := secrets + {value};
      }
    }

    method ClearSecrets()
      modifies this
      ensures Valid() && secrets == {}
    {
      secrets := {};
    }

    /** The registered secrets, longest first. */
    method Ordered() returns (ordered: seq<seq<Unit>>)
      ensures forall w :: w in ordered <==> w in secrets
      ensures forall i, j :: 0 <= i < j < |ordered| ==> |ordered[i]| >= |ordered[j]|
    {
      ordered := [];
      var todo := secrets;
      while todo != {}
        invariant todo <= secrets
        invariant forall w :: w in ordered <==> w in secrets - todo
        invariant forall i, j :: 0 <= i < j < |ordered| ==> |ordered[i]| >= |ordered[j]|
        invariant forall i, w :: 0 <= i < |ordered| && w in todo ==> |ordered[i]| >= |w|
        decreases todo
      {
        var longest := Longest(todo);
        ordered := ordered + [longest];
        todo := todo - {longest};
      }
    }

    method RedactSecrets(input: seq<Unit>) returns (out: seq<Unit>)
      requires Valid()
      ensures forall w | w in secrets && BracketFree(w) :: !Occurs(w, out)
      ensures OnlyMarkers(Bearer, out) && OnlyMarkers(Cookie, out)
      ensures forall w | BracketFree(w) && |w| > 8 && Occurs(w, out) :: Occurs(w, input)
    {
      var ordered := Ordered();
      NoSecretSurvives(ordered, input);
      forall w | BracketFree(w) && |w| > 8 && Occurs(w, Passes(ordered, input)) ensures Occurs(w, input) {
        PassesAddNothing(ordered, input, w);
      }
      out := input;
      for i := 0 to |ordered|
        invariant Passes(ordered[i..], out) == Passes(ordered, input)
      {
        assert ordered[i..][0] == ordered[i] && ordered[i..][1..] == ordered[i + 1..];
        out := Rewrite(Literal(ordered[i]), out);
      }
      var patterns := [Bearer, Cookie];
      out := Rewrite(patterns[0], out);
      out := Rewrite(patterns[1], out);
    }
  }

  method Longest(texts: set<seq<Unit>>) returns (longest: seq<Unit>)
    requires texts != {}
    ensures longest in texts && forall w | w in texts :: |w| <= |longest|
  {
    longest :| longest in texts;
    var todo := texts - {longest};
    while todo != {}
      invariant longest in texts && todo <= texts
      invariant forall w | w in texts && w !in todo :: |w| <= |longest|
      decreases todo
    {
      var w :| w in todo;
      if |w| > |longest| {
        longest := w;
      }
      todo := todo - {w};
    }
  }

  // ---- The two conditions are needed -----------------------------------------------------------------

  const SHORT: seq<Unit> := [1, 1, 1, 1, 1, 1, 1, 1, 1]
  const LONG: seq<Unit> := [2, 2] + MARKER

  /** A secret that holds a bracket can be put together by redacting another one. */
  lemma BracketedSecretCanAppear()
    ensures |LONG| > |SHORT| > 8
    ensures !Occurs(LONG, [2, 2] + SHORT)
    ensures Passes([LONG, SHORT], [2, 2] + SHORT) == LONG
  {
    RewriteNone(Literal(LONG), [2, 2] + SHORT);
    ShortPass();
    assert [LONG, SHORT][1..] == [SHORT];
  }

  lemma ShortPass()
    ensures Passes([SHORT], [2, 2] + SHORT) == LONG
  {
    ShortIsReplaced();
    LongIsNoCredential();
    assert [SHORT][1..] == [];
  }

  lemma LongIsNoCredential()
    ensures Passes([], LONG) == LONG
  {
    assert forall i :: 0 <= i < |LONG| ==> Lower(LONG[i]) != 0x62 && Lower(LONG[i]) != 0x68;
    RewriteNone(Bearer, LONG);
    RewriteNone(Cookie, LONG);
  }

  lemma ShortIsReplaced()
    ensures Rewrite(Literal(SHORT), [2, 2] + SHORT) == LONG
  {
    var input := [2, 2] + SHORT;
    assert input[0..][0] == 2 && input[1..][0] == 2;
    RewriteSkips(Literal(SHORT), input, 2);
    assert input[2..] == SHORT && SHORT[9..] == [];
    assert Rewrite(Literal(SHORT), SHORT) == SHORT[..0] + MARKER + Rewrite(Literal(SHORT), SHORT[9..]);
  }

  /** No match where the letters for one are missing. */
  lemma {:induction false} RewriteNone(m: Matcher, s: seq<Unit>)
    requires match m
             case Literal(text) => |text| > |s|
             case Bearer => forall i :: 0 <= i < |s| ==> Lower(s[i]) != 0x62
             case Cookie => forall i :: 0 <= i < |s| ==> Lower(s[i]) != 0x68
    ensures Rewrite(m, s) == s
  {
    forall i | 0 <= i < |s| ensures Match(m, s[i..]).None? {
      if m.Bearer? {
        assert s[i..][0] == s[i] && BEARER[0] == 0x62;
      } else if m.Cookie? {
        assert |s[i..]| > 1 ==> s[i..][1] == s[i + 1];
        assert (COOKIE + ACCESS)[1] == 0x68 && (COOKIE + REFRESH)[1] == 0x68;
      }
    }
    RewriteSkips(m, s, |s|);
    assert s[|s|..] == [] && s[..|s|] == s;
  }

  /** Eight characters would not be enough: "redacted" would survive its own redaction. */
  lemma EightCharactersAreNotEnough()
    ensures var eight := MARKER[1..9];
            BracketFree(eight) && |eight| == 8 && Occurs(eight, Rewrite(Literal(eight), eight))
  {
    var eight := MARKER[1..9];
    assert Rewrite(Literal(eight), eight) == MARKER + Rewrite(Literal(eight), eight[8..]);
    assert OccursAt(eight, Rewrite(Literal(eight), eight), 1);
  }
}

/** Splitting text at a separator, joining it again, and replacing the first occurrence. */
module TextLists {
  import opened Text
  import opened Wrappers

  predicate Has(s: seq<Unit>, u: Unit) {
    exists i :: 0 <= i < |s| && s[i] == u
  }

  /** The place of the first occurrence, or the length. */
  function Find(s: seq<Unit>, u: Unit): (n: nat)
    ensures n <= |s|
    ensures n < |s| ==> s[n] == u
    ensures forall i :: 0 <= i < n ==> s[i] != u
  {
    if s == [] || s[0] == u then 0 else 1 + Find(s[1..], u)
  }

  /** `split`: at least one part, and as many as there are separators and one more. */
  function Split(s: seq<Unit>, sep: Unit): (parts: seq<seq<Unit>>)
    ensures parts != []
    decreases |s|
  {
    var n := Find(s, sep);
    if n == |s| then [s] else [s[..n]] + Split(s[n + 1..], sep)
  }

  /** `join` */
  function JoinWith(parts: seq<seq<Unit>>, sep: Unit): seq<Unit> {
    if parts == [] then []
    else if |parts| == 1 then parts[0]
    else parts[0] + [sep] + JoinWith(parts[1..], sep)
  }

  lemma FindAfter(head: seq<Unit>, u: Unit, rest: seq<Unit>)
    requires !Has(head, u)
    ensures Find(head + [u] + rest, u) == |head|
  {
    var s := head + [u] + rest;
    assert forall i :: 0 <= i < |head| ==> s[i] == head[i];
    assert s[|head|] == u;
  }

  lemma {:induction false} SplitOfJoin(parts: seq<seq<Unit>>, sep: Unit)
    requires parts != [] && forall i :: 0 <= i < |parts| ==> !Has(parts[i], sep)
    ensures Split(JoinWith(parts, sep), sep) == parts
  {
    if |parts| == 1 {
      assert Find(parts[0], sep) == |parts[0]|;
      assert parts == [parts[0]];
    } else {
      var rest := JoinWith(parts[1..], sep);
      var s := parts[0] + [sep] + rest;
      FindAfter(parts[0], sep, rest);
      SplitOfJoin(parts[1..], sep);
      assert s[..|parts[0]|] == parts[0] && s[|parts[0]| + 1..] == rest;
    }
  }

  lemma JoinCons(head: seq<Unit>, rest: seq<seq<Unit>>, sep: Unit)
    requires rest != []
    ensures JoinWith([head] + rest, sep) == head + [sep] + JoinWith(rest, sep)
  {
    assert ([head] + rest)[1..] == rest;
  }

  lemma CutThere(s: seq<Unit>, n: nat)
    requires n < |s|
    ensures s == s[..n] + [s[n]] + s[n + 1..]
  {
  }

  lemma {:induction false} JoinOfSplit(s: seq<Unit>, sep: Unit)
    ensures JoinWith(Split(s, sep), sep) == s
    decreases |s|
  {
    var n := Find(s, sep);
    if n < |s| {
      JoinOfSplit(s[n + 1..], sep);
      JoinCons(s[..n], Split(s[n + 1..], sep), sep);
      CutThere(s, n);
    }
  }

  /** `replace` of a string: the first occurrence, if there is one. */
  function Replace(s: seq<Unit>, needle: seq<Unit>, value: seq<Unit>): seq<Unit>
    requires needle != []
  {
    if |s| < |needle| then s
    else if needle <= s then value + s[|needle|..]
    else [s[0]] + Replace(s[1..], needle, value)
  }

  /** `includes` */
  predicate Includes(s: seq<Unit>, needle: seq<Unit>) {
    |s| >= |needle| && (needle <= s || (s != [] && Includes(s[1..], needle)))
  }

  ghost predicate HasAt(s: seq<Unit>, needle: seq<Unit>, i: nat) {
    i + |needle| <= |s| && s[i..i + |needle|] == needle
  }

  /** Somewhere in `s`, the end included. */
  lemma {:induction false} IncludesIff(s: seq<Unit>, needle: seq<Unit>)
    ensures Includes(s, needle) <==> exists i: nat :: HasAt(s, needle, i)
  {
    assert HasAt(s, needle, 0) <==> needle <= s;
    if s != [] {
      IncludesIff(s[1..], needle);
      assert forall i: nat :: i < |s| ==> (HasAt(s[1..], needle, i) <==> HasAt(s, needle, i + 1));
      if i: nat :| HasAt(s, needle, i) {
        assert i > 0 ==> HasAt(s[1..], needle, i - 1);
      }
    }
  }

  lemma ReplaceHead(s: seq<Unit>, needle: seq<Unit>, value: seq<Unit>)
    requires needle != [] && s != [] && !(needle <= s)
    ensures Replace(s, needle, value) == [s[0]] + Replace(s[1..], needle, value)
  {
    if |s| < |needle| {
      assert Replace(s[1..], needle, value) == s[1..];
    }
  }

  /** Replacing starts at the first place where the needle can begin. */
  lemma {:induction false} ReplaceSkips(s: seq<Unit>, n: nat, needle: seq<Unit>, value: seq<Unit>)
    requires needle != [] && n <= |s|
    requires forall i :: 0 <= i < n ==> !(needle <= s[i..])
    ensures Replace(s, needle, value) == s[..n] + Replace(s[n..], needle, value)
  {
    if n == 0 {
      assert s[0..] == s;
    } else {
      ReplaceSkips(s, n - 1, needle, value);
      ReplaceHead(s[n - 1..], needle, value);
      assert s[n - 1..][0] == s[n - 1] && s[n - 1..][1..] == s[n..];
      assert s[..n] == s[..n - 1] + [s[n - 1]];
      Regroup(s[..n - 1], [s[n - 1]], Replace(s[n..], needle, value));
    }
  }

  /** The first occurrence, when nothing before it begins like it. */
  lemma ReplaceAt(head: seq<Unit>, needle: seq<Unit>, rest: seq<Unit>, value: seq<Unit>)
    requires needle != [] && !Has(head, needle[0])
    ensures Replace(head + needle + rest, needle, value) == head + value + rest
  {
    var s := head + needle + rest;
    forall i | 0 <= i < |head| ensures !(needle <= s[i..]) {
      assert s[i..][0] == head[i];
    }
    ReplaceSkips(s, |head|, needle, value);
    assert s[..|head|] == head && s[|head|..] == needle + rest;
    assert needle <= needle + rest && (needle + rest)[|needle|..] == rest;
    Regroup(head, value, rest);
  }

  lemma {:induction false} IncludesSkips(s: seq<Unit>, n: nat, needle: seq<Unit>)
    requires needle != [] && n <= |s|
    requires forall i :: 0 <= i < n ==> !(needle <= s[i..])
    ensures Includes(s, needle) <==> Includes(s[n..], needle)
  {
    if n == 0 {
      assert s[0..] == s;
    } else {
      IncludesSkips(s, n - 1, needle);
      assert s[n - 1..][1..] == s[n..];
    }
  }
}

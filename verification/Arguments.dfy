/** Reading the command line of the offline jobs (rebind-personal-server-auth-recovery-secret.ts,
  * reconcile-billing-authority.ts, recover-document-storage-deletion.ts and
  * reconcile-deadline-reminder.ts, under apps/api/src/jobs).
  */
module Arguments {
  import opened Text
  import opened Wrappers

  type Argument = seq<Unit>

  const DASH: Unit := 0x2D

  predicate IsDashed(a: Argument) {
    |a| >= 2 && a[0] == DASH && a[1] == DASH
  }

  /** What may be the value of an option. */
  predicate IsValue(a: Argument) {
    a != [] && !IsDashed(a)
  }

  /** `startsWith('--')`: an empty text and an option are no values. */
  lemma ValueIff(a: Argument)
    ensures IsDashed(a) <==> Literal("--") <= a
    ensures IsValue(a) <==> |a| > 0 && !(Literal("--") <= a)
  {
    assert Literal("--") == [0x2D, 0x2D];
  }

  datatype Options = Options(values: set<Argument>, flags: set<Argument>)

  ghost predicate WellFormed(o: Options) {
    (forall a :: a in o.values + o.flags ==> IsDashed(a)) && o.values !! o.flags
  }

  // ---- As the jobs do it -----------------------------------------------------------------------

  /** The scan: every argument an option, but for the one after an option with a value. */
  predicate Scans(args: seq<Argument>, o: Options)
    decreases |args|
  {
    if args == [] then true
    else if args[0] in o.values then |args| == 1 || Scans(args[2..], o)
    else args[0] in o.flags && Scans(args[1..], o)
  }

  /** `indexOf`; the length where there is none. */
  function IndexOf(args: seq<Argument>, a: Argument): (n: nat)
    ensures n <= |args|
    ensures n < |args| ==> args[n] == a
    ensures forall i :: 0 <= i < n ==> args[i] != a
  {
    if args == [] || args[0] == a then 0 else 1 + IndexOf(args[1..], a)
  }

  /** No value for an option that is not there; a failure for one without a value. */
  function OptionValue(args: seq<Argument>, name: Argument): Result<Option<Argument>, ()> {
    var n := IndexOf(args, name);
    if n == |args| then Success(None)
    else if n + 1 < |args| && IsValue(args[n + 1]) then Success(Some(args[n + 1]))
    else Failure(())
  }

  predicate Once(args: seq<Argument>, name: Argument) {
    forall i, j :: 0 <= i < j < |args| && args[i] == name ==> args[j] != name
  }

  /** The scan, the check for repetitions and the reading of every value. */
  predicate Accepted(args: seq<Argument>, o: Options) {
    && Scans(args, o)
    && (forall name :: name in o.values + o.flags ==> Once(args, name))
    && (forall name :: name in o.values ==> OptionValue(args, name).Success?)
  }

  method ScanArguments(args: seq<Argument>, o: Options) returns (ok: bool)
    ensures ok == Scans(args, o)
  {
    var index := 0;
    while index < |args|
      invariant index <= |args|
      invariant Scans(args, o) == Scans(args[index..], o)
    {
      if args[index] !in o.values + o.flags {
        return false;
      }
      if args[index] in o.values {
        if index + 1 == |args| {
          return true;
        }
        assert args[index..][2..] == args[index + 2..];
        index := index + 1;
      } else {
        assert args[index..][1..] == args[index + 1..];
      }
      index := index + 1;
    }
    assert args[index..] == [];
    return true;
  }

  // ---- What was meant ----------------------------------------------------------------------------

  datatype Item = Flag(name: Argument) | Pair(name: Argument, value: Argument)

  function HeadOf(item: Item): seq<Argument> {
    match item
    case Flag(name) => [name]
    case Pair(name, value) => [name, value]
  }

  function Rendered(items: seq<Item>): seq<Argument> {
    if items == [] then []
    else HeadOf(items[0]) + Rendered(items[1..])
  }

  ghost predicate IsItem(item: Item, o: Options) {
    match item
    case Flag(name) => name in o.flags
    case Pair(name, value) => name in o.values && IsValue(value)
  }

  /** Options of the command, each given once, in any order. */
  ghost predicate IsCommand(items: seq<Item>, o: Options) {
    && (forall i :: 0 <= i < |items| ==> IsItem(items[i], o))
    && (forall i, j :: 0 <= i < j < |items| ==> items[i].name != items[j].name)
  }

  function Named(items: seq<Item>, name: Argument): Option<Item> {
    if items == [] then None
    else if items[0].name == name then Some(items[0])
    else Named(items[1..], name)
  }

  lemma {:induction false} NamedIsThere(items: seq<Item>, name: Argument)
    ensures Named(items, name).Some? <==> exists i :: 0 <= i < |items| && items[i].name == name
    ensures Named(items, name).Some? ==> Named(items, name).value.name == name && Named(items, name).value in items
  {
    if items != [] && items[0].name != name {
      NamedIsThere(items[1..], name);
      assert forall i :: 0 < i < |items| ==> items[i] == items[1..][i - 1];
    }
  }

  /** Every argument of a rendered command is a name or a value, and no name twice. */
  lemma {:induction false} RenderedScans(items: seq<Item>, o: Options)
    requires WellFormed(o) && IsCommand(items, o)
    ensures Scans(Rendered(items), o)
  {
    if items != [] {
      var rest := Rendered(items[1..]);
      RenderedScans(items[1..], o);
      match items[0]
      case Flag(name) => assert ([name] + rest)[1..] == rest;
      case Pair(name, value) => assert ([name, value] + rest)[2..] == rest;
    }
  }

  /** Where a dashed argument stands in a rendered command. */
  /** An option that was meant is among the arguments once, with its value after it; one
    * that was not meant is not there.
    */
  ghost predicate Placed(args: seq<Argument>, meant: Option<Item>, name: Argument) {
    var n := IndexOf(args, name);
    && Once(args, name)
    && match meant
       case None => name !in args && n == |args|
       case Some(Flag(_)) => n < |args|
       case Some(Pair(_, value)) => n + 1 < |args| && args[n + 1] == value
  }

  lemma PlacedFirst(item: Item, rest: seq<Argument>, name: Argument)
    requires item.name == name && name !in rest && (item.Pair? ==> item.value != name)
    ensures Placed(HeadOf(item) + rest, Some(item), name)
  {
    StepOver(HeadOf(item), rest, name);
  }

  lemma Shifted(head: seq<Argument>, rest: seq<Argument>, n: nat)
    requires n < |rest|
    ensures (head + rest)[|head| + n] == rest[n]
  {
  }

  lemma NameIsLater(item: Item, rest: seq<Argument>, name: Argument)
    requires item.name != name && (item.Pair? ==> item.value != name) && Once(rest, name)
    ensures var args := HeadOf(item) + rest;
            && IndexOf(args, name) == |HeadOf(item)| + IndexOf(rest, name)
            && Once(args, name) && (name in args <==> name in rest)
  {
    StepOver(HeadOf(item), rest, name);
  }

  lemma PlacedLater(item: Item, rest: seq<Argument>, meant: Option<Item>, name: Argument)
    requires item.name != name && Placed(rest, meant, name) && (item.Pair? ==> item.value != name)
    ensures Placed(HeadOf(item) + rest, meant, name)
  {
    NameIsLater(item, rest, name);
    if meant.Some? && meant.value.Pair? {
      Shifted(HeadOf(item), rest, IndexOf(rest, name) + 1);
    }
  }

  lemma {:induction false} NameInRendered(items: seq<Item>, o: Options, name: Argument)
    requires WellFormed(o) && IsCommand(items, o) && IsDashed(name)
    ensures Placed(Rendered(items), Named(items, name), name)
  {
    if items != [] {
      var rest := Rendered(items[1..]);
      NameInRendered(items[1..], o, name);
      NamedIsThere(items[1..], name);
      if items[0].name == name {
        PlacedFirst(items[0], rest, name);
      } else {
        PlacedLater(items[0], rest, Named(items[1..], name), name);
      }
    }
  }

  lemma StepOver(head: seq<Argument>, rest: seq<Argument>, name: Argument)
    requires 1 <= |head| <= 2 && (|head| == 2 ==> head[1] != name)
    ensures head[0] != name ==> IndexOf(head + rest, name) == |head| + IndexOf(rest, name)
    ensures head[0] == name ==> IndexOf(head + rest, name) == 0
    ensures head[0] != name && Once(rest, name) ==> Once(head + rest, name)
    ensures head[0] == name && name !in rest ==> Once(head + rest, name)
  {
    var s := head + rest;
    assert s[1..] == head[1..] + rest;
    if |head| == 2 {
      assert s[1..][1..] == rest;
    } else {
      assert s[1..] == rest;
    }
    forall i, j | 0 <= i < j < |s| && s[i] == name && ((head[0] != name && Once(rest, name)) || (head[0] == name && name !in rest))
      ensures s[j] != name
    {
      if head[0] != name {
        assert rest[i - |head|] == s[i] && rest[j - |head|] == s[j];
      } else {
        assert j >= |head| ==> s[j] == rest[j - |head|];
      }
    }
  }

  /** Whatever was meant is accepted, and read as it was meant: each option's value,
    * each flag, and nothing that was not given.
    */
  lemma RenderedIsRead(items: seq<Item>, o: Options)
    requires WellFormed(o) && IsCommand(items, o)
    ensures Accepted(Rendered(items), o)
    ensures forall name :: name in o.values ==>
              OptionValue(Rendered(items), name) ==
              Success(if Named(items, name).Some? && Named(items, name).value.Pair? then Some(Named(items, name).value.value) else None)
    ensures forall name :: name in o.flags ==> (name in Rendered(items) <==> Named(items, name).Some?)
  {
    var args := Rendered(items);
    RenderedScans(items, o);
    forall name | name in o.values + o.flags
      ensures Once(args, name)
      ensures name in o.flags ==> (name in args <==> Named(items, name).Some?)
      ensures name in o.values ==>
                OptionValue(args, name) ==
                Success(if Named(items, name).Some? && Named(items, name).value.Pair? then Some(Named(items, name).value.value) else None)
    {
      NameInRendered(items, o, name);
      NamedIsThere(items, name);
    }
  }

  // ---- Nothing else is accepted --------------------------------------------------------------------

  /** The items that accepted arguments stand for, from a position on. */
  function ItemsOf(args: seq<Argument>, o: Options): seq<Item>
    requires Scans(args, o)
    decreases |args|
  {
    if args == [] then []
    else if args[0] in o.values then
      if |args| == 1 then [] else [Pair(args[0], args[1])] + ItemsOf(args[2..], o)
    else [Flag(args[0])] + ItemsOf(args[1..], o)
  }

  /** What the values of all options being readable means for the rest of the arguments. */
  ghost predicate ValuesFollow(args: seq<Argument>, o: Options) {
    forall i :: 0 <= i < |args| && args[i] in o.values ==> i + 1 < |args| && IsValue(args[i + 1])
  }

  ghost predicate NoneTwice(args: seq<Argument>, o: Options) {
    forall name :: name in o.values + o.flags ==> Once(args, name)
  }

  lemma SuffixKeeps(args: seq<Argument>, n: nat, o: Options)
    requires n <= |args| && ValuesFollow(args, o) && NoneTwice(args, o)
    ensures ValuesFollow(args[n..], o) && NoneTwice(args[n..], o)
  {
    var rest := args[n..];
    forall i | 0 <= i < |rest| && rest[i] in o.values ensures i + 1 < |rest| && IsValue(rest[i + 1]) {
      assert args[i + n] == rest[i];
    }
    forall name | name in o.values + o.flags ensures Once(rest, name) {
      SuffixOnce(args, n, name);
    }
  }

  lemma OneItemMore(item: Item, items: seq<Item>, o: Options)
    requires IsItem(item, o) && IsCommand(items, o)
    requires forall i :: 0 <= i < |items| ==> items[i].name != item.name
    ensures IsCommand([item] + items, o)
    ensures Rendered([item] + items) ==
            HeadOf(item) + Rendered(items)
  {
    var more := [item] + items;
    assert more[1..] == items;
    forall i, j | 0 <= i < j < |more| ensures more[i].name != more[j].name {
      assert i > 0 ==> more[i] == items[i - 1];
    }
  }

  lemma {:induction false} ItemNamesAreArguments(args: seq<Argument>, o: Options)
    requires Scans(args, o)
    ensures forall i :: 0 <= i < |ItemsOf(args, o)| ==> ItemsOf(args, o)[i].name in args
    decreases |args|
  {
    if args != [] && !(args[0] in o.values && |args| == 1) {
      var n := if args[0] in o.values then 2 else 1;
      ItemNamesAreArguments(args[n..], o);
      assert forall a :: a in args[n..] ==> a in args;
    }
  }

  lemma HeadItem(args: seq<Argument>, n: nat, o: Options)
    requires WellFormed(o) && Scans(args, o) && ValuesFollow(args, o) && args != []
    requires n == if args[0] in o.values then 2 else 1
    ensures n <= |args| && Scans(args[n..], o)
    ensures var item := if n == 2 then Pair(args[0], args[1]) else Flag(args[0]);
            && IsItem(item, o) && ItemsOf(args, o) == [item] + ItemsOf(args[n..], o)
            && args == (match item { case Flag(name) => [name] case Pair(name, value) => [name, value] }) + args[n..]
  {
  }

  lemma {:induction false} ItemsRender(args: seq<Argument>, o: Options)
    requires WellFormed(o) && Scans(args, o) && ValuesFollow(args, o) && NoneTwice(args, o)
    ensures Rendered(ItemsOf(args, o)) == args && IsCommand(ItemsOf(args, o), o)
    decreases |args|
  {
    if args != [] {
      var n := if args[0] in o.values then 2 else 1;
      HeadItem(args, n, o);
      SuffixKeeps(args, n, o);
      ItemsRender(args[n..], o);
      ItemNamesAreArguments(args[n..], o);
      HeadIsElsewhere(args, n, o);
      OneItemMore(if n == 2 then Pair(args[0], args[1]) else Flag(args[0]), ItemsOf(args[n..], o), o);
    }
  }

  lemma SuffixOnce(args: seq<Argument>, n: nat, name: Argument)
    requires n <= |args| && Once(args, name)
    ensures Once(args[n..], name)
  {
    forall i, j | 0 <= i < j < |args[n..]| && args[n..][i] == name ensures args[n..][j] != name {
      assert args[n + i] == name && args[n + j] == args[n..][j];
    }
  }

  lemma HeadIsElsewhere(args: seq<Argument>, n: nat, o: Options)
    requires args != [] && 1 <= n <= |args| && args[0] in o.values + o.flags && Once(args, args[0])
    ensures args[0] !in args[n..]
  {
    forall j | 0 <= j < |args[n..]| ensures args[n..][j] != args[0] {
      assert args[n + j] == args[n..][j];
    }
  }

  /** Arguments are accepted exactly when they are some command written out, in some
    * order. Nothing given as a value is taken for an option, nor the other way round.
    */
  lemma AcceptedIffCommand(args: seq<Argument>, o: Options)
    requires WellFormed(o)
    ensures Accepted(args, o) <==> exists items :: IsCommand(items, o) && Rendered(items) == args
  {
    if Accepted(args, o) {
      forall i | 0 <= i < |args| && args[i] in o.values ensures i + 1 < |args| && IsValue(args[i + 1]) {
        assert Once(args, args[i]) && OptionValue(args, args[i]).Success?;
        assert IndexOf(args, args[i]) == i;
      }
      ItemsRender(args, o);
    }
    if exists items :: IsCommand(items, o) && Rendered(items) == args {
      var items :| IsCommand(items, o) && Rendered(items) == args;
      RenderedIsRead(items, o);
    }
  }
}

/** Where a refresh token is kept, and whom it is given to (mcp/src/credentials.ts). */
module Credentials {
  import opened Text
  import opened TextLists
  import opened Wrappers

  const COLON: Unit := 0x3A
  const SLASH: Unit := 0x2F

  type Token = nat
  type Account = seq<Unit>

  /** Scheme, host and port in lower case. A URL without a host has the origin "null". */
  predicate IsOrigin(o: seq<Unit>) {
    || o == NULL_ORIGIN
    || (var n := Find(o, COLON); 0 < n && n + 2 < |o| && o[n + 1] == SLASH && o[n + 2] == SLASH && o[0] != SLASH)
  }

  type Origin = o: seq<Unit> | IsOrigin(o) witness NULL_ORIGIN

  /** "null" */
  const NULL_ORIGIN: seq<Unit> := [0x6E, 0x75, 0x6C, 0x6C]

  datatype Realm = Charity | Operator
  datatype Version = V1 | V2

  /** A store as the connector makes one: bound to an origin, in one realm. */
  datatype Store = Store(version: Version, realm: Realm, origin: Origin)

  /** What an entry holds: a record bound to an origin, or a plain token from before. */
  datatype Stored = Bound(origin: seq<Unit>, token: Token) | Plain(token: Token)

  type Entries = map<Account, Stored>

  // ---- Account names ---------------------------------------------------------------------------

  const OLD_ACCOUNT: Account := Literal("refresh-token")

  function RealmText(realm: Realm): seq<Unit> {
    if realm.Charity? then Literal("charity") else Literal("operator")
  }

  /** What follows "refresh-token:". */
  function Suffix(s: Store): seq<Unit> {
    match s.version
    case V1 => if s.realm.Operator? then Literal("operator") + ([COLON] + s.origin) else s.origin
    case V2 => Literal("v2") + ([COLON] + (RealmText(s.realm) + ([COLON] + s.origin)))
  }

  function AccountOf(s: Store): Account {
    OLD_ACCOUNT + ([COLON] + Suffix(s))
  }

  lemma RealmWords()
    ensures RealmText(Charity) == Literal("charity") && RealmText(Operator) == Literal("operator")
  {
  }

  lemma LiteralsLackColon()
    ensures !Has(Literal("operator"), COLON) && !Has(Literal("v2"), COLON) && !Has(Literal("charity"), COLON)
  {
  }

  lemma CutAtColon(a: seq<Unit>, rest: seq<Unit>, b: seq<Unit>, rest': seq<Unit>)
    requires !Has(a, COLON) && !Has(b, COLON) && a + ([COLON] + rest) == b + ([COLON] + rest')
    ensures a == b && rest == rest'
  {
    Regroup(a, [COLON], rest);
    Regroup(b, [COLON], rest');
    FindAfter(a, COLON, rest);
    FindAfter(b, COLON, rest');
    var s := a + ([COLON] + rest);
    assert a == s[..|a|] && rest == s[|a| + 1..];
    assert b == s[..|b|] && rest' == s[|b| + 1..];
  }

  /** An origin does not begin with a word and a colon, as the other names do. */
  lemma OriginIsNoPrefix(word: seq<Unit>, rest: seq<Unit>)
    requires !Has(word, COLON) && rest != [] && rest[0] != SLASH
    ensures !IsOrigin(word + ([COLON] + rest))
  {
    var s := word + ([COLON] + rest);
    Regroup(word, [COLON], rest);
    FindAfter(word, COLON, rest);
    assert forall i :: 0 <= i < 4 ==> NULL_ORIGIN[i] != COLON;
    assert s[|word|] == COLON && s[|word| + 1] == rest[0];
  }

  lemma OriginStarts(o: Origin)
    ensures o != [] && o[0] != SLASH
  {
  }

  lemma RealmStarts(realm: Realm, rest: seq<Unit>)
    ensures (RealmText(realm) + rest)[0] != SLASH
  {
    assert Literal("charity")[0] == 0x63 && Literal("operator")[0] == 0x6F;
  }

  lemma OthersAreNoOrigin(s: Store)
    requires !(s.version.V1? && s.realm.Charity?)
    ensures !IsOrigin(Suffix(s))
  {
    LiteralsLackColon();
    if s.version.V1? {
      OriginStarts(s.origin);
      OriginIsNoPrefix(Literal("operator"), s.origin);
    } else {
      var rest := RealmText(s.realm) + ([COLON] + s.origin);
      RealmStarts(s.realm, [COLON] + s.origin);
      OriginIsNoPrefix(Literal("v2"), rest);
    }
  }

  lemma WordsDiffer()
    ensures Literal("operator") != Literal("v2") && Literal("charity") != Literal("operator")
  {
  }

  lemma SameSuffix(a: Store, b: Store)
    requires Suffix(a) == Suffix(b)
    ensures a == b
  {
    LiteralsLackColon();
    WordsDiffer();
    if a.version.V1? && a.realm.Charity? {
      if !(b.version.V1? && b.realm.Charity?) {
        OthersAreNoOrigin(b);
      }
    } else if b.version.V1? && b.realm.Charity? {
      OthersAreNoOrigin(a);
    } else if a.version.V1? && b.version.V1? {
      CutAtColon(Literal("operator"), a.origin, Literal("operator"), b.origin);
    } else if a.version.V2? && b.version.V2? {
      CutAtColon(Literal("v2"), RealmText(a.realm) + ([COLON] + a.origin), Literal("v2"), RealmText(b.realm) + ([COLON] + b.origin));
      CutAtColon(RealmText(a.realm), a.origin, RealmText(b.realm), b.origin);
    } else if a.version.V1? {
      CutAtColon(Literal("operator"), a.origin, Literal("v2"), RealmText(b.realm) + ([COLON] + b.origin));
    } else {
      CutAtColon(Literal("v2"), RealmText(a.realm) + ([COLON] + a.origin), Literal("operator"), b.origin);
    }
  }

  lemma WithoutStart(start: seq<Unit>, a: seq<Unit>, b: seq<Unit>)
    requires start + a == start + b
    ensures a == b
  {
    assert a == (start + a)[|start|..] && b == (start + b)[|start|..];
  }

  /** No two stores share an account, and none has the old shared one. */
  lemma AccountsNeverCollide(a: Store, b: Store)
    ensures AccountOf(a) == AccountOf(b) <==> a == b
    ensures AccountOf(a) != OLD_ACCOUNT
  {
    if AccountOf(a) == AccountOf(b) {
      WithoutStart(OLD_ACCOUNT, [COLON] + Suffix(a), [COLON] + Suffix(b));
      WithoutStart([COLON], Suffix(a), Suffix(b));
      SameSuffix(a, b);
    }
    assert |AccountOf(a)| > |OLD_ACCOUNT|;
  }

  // ---- The stores ------------------------------------------------------------------------------

  /** How the operating system's keyring takes an operation: it works, it is locked, or
    * it can be read but not changed.
    */
  datatype Keychain = Works | Locked | Stuck

  function Lookup(entries: Entries, account: Account): Option<Stored> {
    if account in entries then Some(entries[account]) else None
  }

  /** The old shared entry, when it is this host's: bound to it, or bound to none. */
  function OldIfOurs(entries: Entries, s: Store): Option<Stored> {
    match Lookup(entries, OLD_ACCOUNT)
    case Some(Bound(origin, token)) => if origin == s.origin then Some(Bound(origin, token)) else None
    case other => other
  }

  predicate HonoursOld(s: Store) {
    s.version.V1? && s.realm.Charity?
  }

  function RawRead(entries: Entries, s: Store): Option<Stored> {
    match Lookup(entries, AccountOf(s))
    case Some(stored) => Some(stored)
    case None => if HonoursOld(s) then OldIfOurs(entries, s) else None
  }

  /** The token for the store's own origin, none, or a refusal: a record that another
    * origin issued is never given out.
    */
  function ReadOf(entries: Entries, s: Store): Result<Option<Token>, seq<Unit>> {
    match RawRead(entries, s)
    case None => Success(None)
    case Some(Plain(token)) => Success(Some(token))
    case Some(Bound(origin, token)) => if origin == s.origin then Success(Some(token)) else Failure(origin)
  }

  /** One entry removed: a keyring that cannot even be read back counts as cleared. */
  function Deleted(entries: Entries, account: Account, keychain: Keychain): (Entries, bool) {
    match keychain
    case Works => (entries - {account}, true)
    case Locked => (entries, true)
    case Stuck => (entries, account !in entries)
  }

  function Cleared(entries: Entries, s: Store, keychain: Keychain): (Entries, bool) {
    var (first, ok) := Deleted(entries, AccountOf(s), keychain);
    if !ok || !HonoursOld(s) || keychain.Locked? || OldIfOurs(first, s).None? then (first, ok)
    else Deleted(first, OLD_ACCOUNT, keychain)
  }

  function Written(entries: Entries, s: Store, token: Token, keychain: Keychain): (Entries, bool) {
    if keychain.Works? then (entries[AccountOf(s) := Bound(s.origin, token)], true) else (entries, false)
  }

  class Keyring {
    var entries: Entries

    constructor (entries: Entries)
      ensures this.entries == entries
    {
      this.entries := entries;
    }

    method Get(account: Account, keychain: Keychain) returns (stored: Option<Stored>)
      ensures stored == if keychain.Locked? then None else Lookup(entries, account)
    {
      if keychain.Locked? || account !in entries {
        return None;
      }
      return Some(entries[account]);
    }

    method Set(account: Account, stored: Stored, keychain: Keychain) returns (ok: bool)
      modifies this
      ensures ok == keychain.Works?
      ensures entries == if ok then old(entries)[account := stored] else old(entries)
    {
      if keychain.Works? {
        entries := entries[account := stored];
      }
      return keychain.Works?;
    }

    method Delete(account: Account, keychain: Keychain) returns (ok: bool)
      modifies this
      ensures (entries, ok) == Deleted(old(entries), account, keychain)
    {
      if keychain.Works? {
        entries := entries - {account};
      }
      if keychain.Locked? {
        return true;
      }
      return account !in entries;
    }
  }

  /** A host's store over the keyring, as `bindCredentialToOrigin` binds it. */
  class BoundStore {
    const ring: Keyring
    const store: Store

    constructor (ring: Keyring, store: Store)
      ensures this.ring == ring && this.store == store
    {
      this.ring := ring;
      this.store := store;
    }

    method Old(keychain: Keychain) returns (stored: Option<Stored>)
      ensures stored == if keychain.Locked? then None else OldIfOurs(ring.entries, store)
    {
      stored := ring.Get(OLD_ACCOUNT, keychain);
      if stored.Some? && stored.value.Bound? && stored.value.origin != store.origin {
        stored := None;
      }
    }

    method Read(keychain: Keychain) returns (r: Result<Option<Token>, seq<Unit>>)
      ensures r == if keychain.Locked? then Success(None) else ReadOf(ring.entries, store)
    {
      var raw := ring.Get(AccountOf(store), keychain);
      if raw.None? && HonoursOld(store) {
        raw := Old(keychain);
      }
      match raw {
        case None => return Success(None);
        case Some(Plain(token)) => return Success(Some(token));
        case Some(Bound(origin, token)) =>
          return if origin == store.origin then Success(Some(token)) else Failure(origin);
      }
    }

    method Write(token: Token, keychain: Keychain) returns (ok: bool)
      modifies ring
      ensures (ring.entries, ok) == Written(old(ring.entries), store, token, keychain)
      ensures ok <==> keychain == Works
      ensures ring.entries == if ok then old(ring.entries)[AccountOf(store) := Bound(store.origin, token)] else old(ring.entries)
    {
      ok := ring.Set(AccountOf(store), Bound(store.origin, token), keychain);
    }

    method Clear(keychain: Keychain) returns (ok: bool)
      modifies ring
      ensures (ring.entries, ok) == Cleared(old(ring.entries), store, keychain)
    {
      ok := ring.Delete(AccountOf(store), keychain);
      if ok && HonoursOld(store) {
        var shared := Old(keychain);
        if shared.Some? {
          ok := ring.Delete(OLD_ACCOUNT, keychain);
        }
      }
    }
  }

  // ---- What a store gives out and what it clears ------------------------------------------------

  /** A store gives out what its own entry holds, unless that is another origin's, which it
    * refuses by name. Without an entry of its own, the first version's charity store gives
    * out the old shared one where that is this origin's or nobody's.
    */
  lemma ReadExact(entries: Entries, s: Store, token: Token)
    ensures var own := AccountOf(s);
            var shared := s.version == V1 && s.realm == Charity && own !in entries && OLD_ACCOUNT in entries;
            && (ReadOf(entries, s) == Success(Some(token)) <==>
                  || (own in entries && (entries[own] == Plain(token) || entries[own] == Bound(s.origin, token)))
                  || (shared && (entries[OLD_ACCOUNT] == Plain(token) || entries[OLD_ACCOUNT] == Bound(s.origin, token))))
            && (ReadOf(entries, s).Failure? <==> own in entries && entries[own].Bound? && entries[own].origin != s.origin)
            && (ReadOf(entries, s).Failure? ==> ReadOf(entries, s).error == entries[own].origin)
  {
  }

  /** A clear takes away the store's own entry and, of the first version's charity store, the
    * old shared one where that is this origin's or nobody's. A keyring that cannot be changed
    * makes it fail where there is an entry to take away.
    */
  lemma ClearExact(entries: Entries, s: Store, keychain: Keychain)
    ensures var own := AccountOf(s);
            var shared := s.version == V1 && s.realm == Charity && OLD_ACCOUNT in entries
                       && (entries[OLD_ACCOUNT].Plain? || entries[OLD_ACCOUNT].origin == s.origin);
            var (after, ok) := Cleared(entries, s, keychain);
            && (keychain == Works ==> ok && after == entries - {own} - (if shared then {OLD_ACCOUNT} else {}))
            && (keychain != Works ==> after == entries)
            && (!ok <==> keychain == Stuck && (own in entries || shared))
  {
    AccountsNeverCollide(s, s);
  }

  // ---- Runs ------------------------------------------------------------------------------------

  datatype Operation = Write(store: Store, token: Token, keychain: Keychain) | Clear(store: Store, keychain: Keychain)

  function Apply(entries: Entries, op: Operation): Entries {
    match op
    case Write(s, token, keychain) => Written(entries, s, token, keychain).0
    case Clear(s, keychain) => Cleared(entries, s, keychain).0
  }

  function After(entries: Entries, ops: seq<Operation>): Entries {
    if ops == [] then entries else Apply(After(entries, ops[..|ops| - 1]), ops[|ops| - 1])
  }

  /** The last operation of a store that the keyring carried out. */
  function LastOf(ops: seq<Operation>, s: Store): Option<Operation> {
    if ops == [] then None
    else
      var op := ops[|ops| - 1];
      if op.store == s && op.keychain.Works? then Some(op) else LastOf(ops[..|ops| - 1], s)
  }

  /** At `k` stands an operation of this store that was carried out, and none comes later. */
  ghost predicate IsLast(ops: seq<Operation>, s: Store, k: int) {
    && 0 <= k < |ops| && ops[k].store == s && ops[k].keychain == Works
    && forall j :: k < j < |ops| ==> !(ops[j].store == s && ops[j].keychain == Works)
  }

  lemma {:induction false} LastOfIs(ops: seq<Operation>, s: Store, k: int)
    requires IsLast(ops, s, k)
    ensures LastOf(ops, s) == Some(ops[k])
  {
    if k < |ops| - 1 {
      LastOfIs(ops[..|ops| - 1], s, k);
    }
  }

  lemma WriteLeavesOthers(entries: Entries, writer: Store, token: Token, s: Store)
    requires writer != s
    ensures var after := Written(entries, writer, token, Works).0;
            Lookup(after, AccountOf(s)) == Lookup(entries, AccountOf(s)) && Lookup(after, OLD_ACCOUNT) == Lookup(entries, OLD_ACCOUNT)
  {
    AccountsNeverCollide(writer, s);
  }

  lemma BrokenKeyringKeeps(entries: Entries, op: Operation)
    requires !op.keychain.Works?
    ensures Apply(entries, op) == entries
  {
  }

  /** Another store's operation leaves a store's own entry alone, and at most removes the
    * old one.
    */
  lemma OthersLeaveIt(entries: Entries, op: Operation, s: Store)
    requires op.store != s || !op.keychain.Works?
    ensures Lookup(Apply(entries, op), AccountOf(s)) == Lookup(entries, AccountOf(s))
    ensures Lookup(Apply(entries, op), OLD_ACCOUNT).None? || Lookup(Apply(entries, op), OLD_ACCOUNT) == Lookup(entries, OLD_ACCOUNT)
  {
    if !op.keychain.Works? {
      BrokenKeyringKeeps(entries, op);
    } else if op.Write? {
      WriteLeavesOthers(entries, op.store, op.token, s);
    } else {
      ClearedEntries(entries, op.store, s);
    }
  }

  lemma OwnOperation(entries: Entries, op: Operation)
    requires op.keychain.Works?
    ensures ReadOf(Apply(entries, op), op.store) == Success(if op.Write? then Some(op.token) else None)
    ensures op.Clear? ==> Lookup(Apply(entries, op), AccountOf(op.store)).None?
    ensures op.Clear? && HonoursOld(op.store) ==> OldIfOurs(Apply(entries, op), op.store).None?
    ensures op.Write? ==> Lookup(Apply(entries, op), AccountOf(op.store)) == Some(Bound(op.store.origin, op.token))
  {
    AccountsNeverCollide(op.store, op.store);
  }

  /** What a store holds after a run: its own last write, or nothing of its own and, if
    * it was cleared, nothing from before either.
    */
  ghost predicate Holds(entries: Entries, s: Store, last: Operation) {
    if last.Write? then Lookup(entries, AccountOf(s)) == Some(Bound(s.origin, last.token))
    else Lookup(entries, AccountOf(s)).None? && (HonoursOld(s) ==> OldIfOurs(entries, s).None?)
  }

  lemma {:induction false} LastStays(start: Entries, ops: seq<Operation>, s: Store)
    requires LastOf(ops, s).Some?
    ensures Holds(After(start, ops), s, LastOf(ops, s).value)
  {
    var before := ops[..|ops| - 1];
    var op := ops[|ops| - 1];
    if op.store == s && op.keychain.Works? {
      OwnOperation(After(start, before), op);
    } else {
      LastStays(start, before, s);
      OthersLeaveIt(After(start, before), op, s);
    }
  }

  /** Over any run of stores for any hosts and realms on one keyring, a store gives out
    * the last token written for its own origin and realm, and after a clear none.
    */
  lemma ReadsLast(start: Entries, ops: seq<Operation>, s: Store)
    requires LastOf(ops, s).Some?
    ensures ReadOf(After(start, ops), s) ==
            Success(if LastOf(ops, s).value.Write? then Some(LastOf(ops, s).value.token) else None)
  {
    LastStays(start, ops, s);
  }

  lemma ClearedEntries(entries: Entries, s: Store, other: Store)
    requires s != other
    ensures var after := Cleared(entries, s, Works).0;
            && Lookup(after, AccountOf(other)) == Lookup(entries, AccountOf(other))
            && Lookup(after, OLD_ACCOUNT) ==
                 (if HonoursOld(s) && OldIfOurs(entries, s).Some? then None else Lookup(entries, OLD_ACCOUNT))
  {
    AccountsNeverCollide(s, other);
    AccountsNeverCollide(other, s);
  }

  /** Clearing one host changes what another reads exactly when both still honour the old
    * shared entry, that entry is bound to no origin, and the other has none of its own.
    */
  lemma ClearLeavesOthersIff(entries: Entries, s: Store, other: Store)
    requires s != other
    ensures ReadOf(Cleared(entries, s, Works).0, other) == ReadOf(entries, other) <==>
            !(HonoursOld(s) && HonoursOld(other)
              && Lookup(entries, OLD_ACCOUNT).Some? && entries[OLD_ACCOUNT].Plain?
              && Lookup(entries, AccountOf(other)).None?)
  {
    ClearedEntries(entries, s, other);
    if Lookup(entries, AccountOf(other)).None? {
      assert HonoursOld(other) ==> RawRead(entries, other) == OldIfOurs(entries, other);
    }
  }

  /** A clear of a locked keyring reports success and clears nothing: once the keyring
    * is unlocked the token is read again. Otherwise a reported clear is one.
    */
  lemma ClearReportsTruthIff(entries: Entries, s: Store, keychain: Keychain)
    requires Cleared(entries, s, keychain).1 && ReadOf(entries, s) != Success(None)
    ensures ReadOf(Cleared(entries, s, keychain).0, s) == Success(None) <==> !keychain.Locked?
  {
    AccountsNeverCollide(s, s);
  }
}

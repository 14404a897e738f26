/** One connector session: the cached access token, the signed-in identity, and
  * the stored refresh token it shares with other sessions (mcp/src/session.ts).
  *
  * What the network and the operating system's credential store do is passed in:
  * an `Answer` for a request and an `Io` for the store.
  */
module Session {
  import opened Wrappers
  import opened Renewal

  /** How the credential store behaves during one operation. A write that throws
    * may have kept the value all the same; a read-back that fails answers
    * "nothing stored", as a keyring does, or throws.
    */
  datatype Io = Io(
    readThrows: bool,
    writeThrows: bool,
    writeKept: bool,
    readBackFails: bool,
    clearThrows: bool)

  datatype Outcome =
    | Renewed(access: Token)
    | NotConnected
    | Kept                  // refused before rotation; the credential was kept
    | ReadRefused           // the store would not hand the credential to this host
    | LockUnavailable

  type Identity = nat

  /** The shared credential entry. */
  class Store {
    var value: Option<Token>

    constructor (value: Option<Token>)
      ensures this.value == value
    {
      this.value := value;
    }
  }

  // ---- What a renewal does, as a function ---------------------------------------

  /** Whether the replacement reached the store, and whether the session believes it did. */
  predicate Written(io: Io) {
    !io.writeThrows || io.writeKept
  }

  /** The store after giving up on `spent`. */
  function AfterEnding(held: Option<Token>, spent: Token, io: Io): Option<Token> {
    if held == Some(spent) && !io.readBackFails && !io.clearThrows then None else held
  }

  function StoreAfterRenewal(held: Option<Token>, answer: Answer, io: Io): Option<Token> {
    if io.readThrows || held.None? then held
    else
      match Judge(answer)
      case Keep => held
      case End => AfterEnding(held, held.value, io)
      case Absorb(_, replacement) =>
        if !io.writeThrows then Some(replacement)
        else AfterEnding(if io.writeKept then Some(replacement) else held, held.value, io)
  }

  function OutcomeOfRenewal(held: Option<Token>, answer: Answer, io: Io): Outcome {
    if io.readThrows then ReadRefused
    else if held.None? then NotConnected
    else
      match Judge(answer)
      case Keep => Kept
      case End => NotConnected
      case Absorb(access, _) => if io.writeThrows then NotConnected else Renewed(access)
  }

  /** An access token is handed out only when its refresh token is already stored. */
  lemma RenewedMeansPersisted(held: Option<Token>, answer: Answer, io: Io)
    ensures OutcomeOfRenewal(held, answer, io).Renewed? <==>
            !io.readThrows && held.Some? && Judge(answer).Absorb? && !io.writeThrows
    ensures OutcomeOfRenewal(held, answer, io).Renewed? ==>
              StoreAfterRenewal(held, answer, io) == Some(Judge(answer).refresh)
  {
  }

  /** Exactly when the presented token is still the stored one afterwards: it was
    * never read, the server refused it before rotation, or the store failed to
    * give it up. (The server never answers with the token it was given.)
    */
  lemma SpentTokenRemainsIff(held: Option<Token>, answer: Answer, io: Io)
    requires held.Some?
    requires Judge(answer).Absorb? ==> Judge(answer).refresh != held.value
    ensures StoreAfterRenewal(held, answer, io) == held <==>
            || io.readThrows
            || Judge(answer) == Keep
            || ((Judge(answer) == End || (io.writeThrows && !io.writeKept)) && (io.readBackFails || io.clearThrows))
  {
  }

  /** What a renewal that was sent leaves and answers, answer by answer. */
  ghost predicate RenewsAs(held: Token, answer: Answer, io: Io, r: Outcome, stored: Option<Token>) {
    && (answer.Http? && answer.status in {400, 403, 404, 429} ==> r == Kept && stored == Some(held))
    && (forall a: Token, b: Token :: Carries(answer, a, b) && !io.writeThrows ==> r == Renewed(a) && stored == Some(b))
    && (forall a: Token, b: Token :: Carries(answer, a, b) && io.writeThrows ==>
          r == NotConnected &&
          stored == if io.writeKept && b != held then Some(b)
                    else if io.readBackFails || io.clearThrows then Some(held) else None)
    && (SpendsForNothing(answer) ==>
          r == NotConnected && stored == if io.readBackFails || io.clearThrows then Some(held) else None)
  }

  lemma RenewalTable(held: Option<Token>, answer: Answer, io: Io)
    ensures var (r, stored) := (OutcomeOfRenewal(held, answer, io), StoreAfterRenewal(held, answer, io));
            && (io.readThrows ==> r == ReadRefused && stored == held)
            && (!io.readThrows && held.None? ==> r == NotConnected && stored == None)
            && (!io.readThrows && held.Some? ==> RenewsAs(held.value, answer, io, r, stored))
  {
    JudgeExact(answer);
    SpendsIff(answer);
  }

  // ---- The session object ---------------------------------------------------------

  class Session {
    const store: Store
    var accessToken: Option<Token>
    var identity: Option<Identity>

    constructor (store: Store)
      ensures this.store == store && accessToken == None && identity == None
    {
      this.store := store;
      accessToken, identity := None, None;
    }

    /** Ends a renewal whose token can no longer be offered. The stored entry goes
      * only if it is still the one this renewal used.
      */
    method EndConsumedRefresh(spent: Token, io: Io) returns (r: Outcome)
      modifies this, store
      ensures r == NotConnected
      ensures accessToken == None && identity == None
      ensures store.value ==
              if old(store.value) == Some(spent) && !io.readBackFails && !io.clearThrows then None else old(store.value)
      ensures store.value == AfterEnding(old(store.value), spent, io)
    {
      accessToken := None;
      identity := None;
      if !io.readBackFails && store.value == Some(spent) {
        if !io.clearThrows {
          store.value := None;
        }
      }
      return NotConnected;
    }

    /** A renewal, run while this process holds the lock. */
    method RefreshLocked(answer: Answer, io: Io) returns (r: Outcome)
      modifies this, store
      ensures forall a: Token, b: Token, status: nat ::
                && old(store.value).Some? && !io.readThrows && !io.writeThrows && 200 <= status <= 299
                && answer == Http(status, Some(Payload(Some(a), Some(b)))) ==>
                r == Renewed(a) && accessToken == Some(a) && store.value == Some(b)
      ensures io.readThrows ==> r == ReadRefused && store.value == old(store.value)
      ensures !io.readThrows && old(store.value).None? ==> r == NotConnected && store.value == None
      ensures !io.readThrows && old(store.value).Some? ==>
                RenewsAs(old(store.value).value, answer, io, r, store.value)
      ensures r == OutcomeOfRenewal(old(store.value), answer, io)
      ensures store.value == StoreAfterRenewal(old(store.value), answer, io)
      ensures r.Renewed? ==> accessToken == Some(r.access) && identity == old(identity)
      ensures r == Kept || r == ReadRefused || old(store.value) == None ==>
                accessToken == old(accessToken) && identity == old(identity)
      ensures r == NotConnected && old(store.value).Some? ==> accessToken == None && identity == None
    {
      RenewalTable(store.value, answer, io);
      if io.readThrows {
        return ReadRefused;
      }
      var held := store.value;
      if held == None {
        return NotConnected;
      }
      match Judge(answer)
      case Keep =>
        return Kept;
      case End =>
        r := EndConsumedRefresh(held.value, io);
      case Absorb(access, replacement) =>
        if !io.writeThrows || io.writeKept {
          store.value := Some(replacement);
        }
        if io.writeThrows {
          r := EndConsumedRefresh(held.value, io);
        } else {
          accessToken := Some(access);
          return Renewed(access);
        }
    }

    /** The access token, renewed first when there is none. Without the lock the
      * store is not touched and nothing is sent.
      */
    method AccessToken(lockObtained: bool, answer: Answer, io: Io) returns (r: Outcome)
      modifies this, store
      ensures old(accessToken).Some? ==>
                r == Renewed(old(accessToken).value) && unchanged(this) && unchanged(store)
      ensures old(accessToken).None? && !lockObtained ==>
                r == LockUnavailable && unchanged(this) && unchanged(store)
      ensures old(accessToken).None? && lockObtained ==>
                r == OutcomeOfRenewal(old(store.value), answer, io) &&
                store.value == StoreAfterRenewal(old(store.value), answer, io)
      ensures forall a: Token, b: Token, status: nat ::
                && old(accessToken).None? && lockObtained
                && old(store.value).Some? && !io.readThrows && !io.writeThrows && 200 <= status <= 299
                && answer == Http(status, Some(Payload(Some(a), Some(b)))) ==>
                r == Renewed(a) && accessToken == Some(a) && store.value == Some(b)
      ensures old(accessToken).None? && lockObtained && old(store.value).Some? && !io.readThrows ==>
                RenewsAs(old(store.value).value, answer, io, r, store.value)
      ensures accessToken == if r.Renewed? then Some(r.access) else None
      ensures identity ==
              if old(accessToken).None? && r == NotConnected && old(store.value).Some? then None else old(identity)
    {
      if accessToken.Some? {
        return Renewed(accessToken.value);
      }
      if !lockObtained {
        return LockUnavailable;
      }
      r := RefreshLocked(answer, io);
    }

    method InvalidateAccessToken()
      modifies this
      ensures accessToken == None && identity == old(identity)
    {
      accessToken := None;
    }

    /** Signing in. `who` is the person or operator named in the answer. A sign-in
      * can fail after its token was stored, when the answer does not say who
      * signed in; it can also fail with an access token cached and none stored.
      */
    method Login(answer: Answer, who: Option<Identity>, io: Io) returns (signedIn: bool)
      modifies this, store
      ensures var arrived := answer.Http? && 200 <= answer.status <= 299 && answer.body.Some?;
              var refresh := if arrived then answer.body.value.refresh else None;
              && store.value == (if refresh.Some? && (!io.writeThrows || io.writeKept) then refresh else old(store.value))
              && (signedIn <==> refresh.Some? && !io.writeThrows && who.Some?)
              && identity == (if signedIn then who else old(identity))
              && accessToken ==
                 if arrived && answer.body.value.access.Some? && (refresh.Some? ==> !io.writeThrows)
                 then answer.body.value.access else old(accessToken)
    {
      if answer.Rejected? || !Ok(answer.status) || answer.body == None {
        return false;
      }
      var payload := answer.body.value;
      if payload.refresh.Some? {
        if !io.writeThrows || io.writeKept {
          store.value := payload.refresh;
        }
        if io.writeThrows {
          return false;
        }
      }
      if payload.access.Some? {
        accessToken := payload.access;
      }
      if payload.refresh == None || who == None {
        return false;
      }
      identity := who;
      return true;
    }

    /** Disconnecting. Memory is dropped before the store is cleared, so a store
      * that refuses still leaves this process with no session.
      */
    method Logout(io: Io) returns (cleared: bool)
      modifies this, store
      ensures accessToken == None && identity == None
      ensures cleared <==> !io.clearThrows
      ensures store.value == if cleared then None else old(store.value)
    {
      accessToken := None;
      identity := None;
      if io.clearThrows {
        return false;
      }
      store.value := None;
      return true;
    }
  }
}

/** How the connector reads the answer to one renewal request (mcp/src/session.ts).
  *
  * The single-process session and the protocol of many processes share this
  * reading, so what "safe to keep" means is said in one place.
  */
module Renewal {

  import opened Wrappers

  /** A refresh or access token. Tokens are only ever compared, so a number stands for one. */
  type Token = nat

  /** The JSON body. A member is None when it is missing, not a string, or empty. */
  datatype Payload = Payload(access: Option<Token>, refresh: Option<Token>)

  /** What fetch produced. `Rejected` says nothing about what the server did;
    * a body of None is one that is not JSON.
    */
  datatype Answer = Rejected | Http(status: nat, body: Option<Payload>)

  datatype Verdict = Keep | End | Absorb(access: Token, refresh: Token)

  /** The statuses that refuse a request before its token can rotate. */
  const REFUSED_BEFORE_ROTATION: set<nat> := {400, 403, 404, 429}

  predicate Ok(status: nat) {
    200 <= status <= 299
  }

  function Judge(answer: Answer): Verdict {
    match answer
    case Rejected => End
    case Http(status, body) =>
      if !Ok(status) then
        if status in REFUSED_BEFORE_ROTATION then Keep else End
      else
        match body
        case Some(Payload(Some(access), Some(refresh))) => Absorb(access, refresh)
        case _ => End
  }

  /** The stored credential is left in place for exactly the four statuses, and replaced
    * for exactly the successful answers that carry both tokens, each by what it is.
    */
  lemma JudgeExact(answer: Answer)
    ensures Judge(answer) == Keep <==> answer.Http? && answer.status in {400, 403, 404, 429}
    ensures forall a: Token, b: Token :: Judge(answer) == Absorb(a, b) <==> Carries(answer, a, b)
  {
  }

  /** A successful answer with this access token and this refresh token. */
  predicate Carries(answer: Answer, access: Token, refresh: Token) {
    answer.Http? && 200 <= answer.status <= 299 && answer.body == Some(Payload(Some(access), Some(refresh)))
  }

  /** An answer that was not refused safely and does not carry both tokens. */
  ghost predicate SpendsForNothing(answer: Answer) {
    && (answer.Http? ==> answer.status !in {400, 403, 404, 429})
    && forall a: Token, b: Token :: !Carries(answer, a, b)
  }

  lemma SpendsIff(answer: Answer)
    ensures Judge(answer) == End <==> SpendsForNothing(answer)
  {
    JudgeExact(answer);
    if Judge(answer).Absorb? {
      assert Carries(answer, Judge(answer).access, Judge(answer).refresh);
    }
  }
}

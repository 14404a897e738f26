/** The connector's HTTP client: two recoveries, each taken at most once
  * (mcp/src/client.ts).
  */
module RetryClient {
  import opened Wrappers

  type Key = nat

  /** An empty key given by the caller. It is a key when the client decides whether to
    * send again, but no header carries it.
    */
  const EMPTY_KEY: Key := 0

  datatype Method = Get | Post | Patch | Put | Delete
  datatype Body = NoBody | Json(text: nat) | Form(file: nat)

  /** Everything a request carries that does not change between attempts. */
  datatype Call = Call(verb: Method, path: nat, body: Body, reason: Option<nat>, approval: Option<nat>, key: Option<Key>)

  datatype Request = Request(call: Call, token: nat)

  /** What happens to one attempt. */
  datatype Fate =
    | NoToken                              // the session could not supply an access token
    | NotBuilt                             // fetch failed before anything left this machine
    | Dropped                              // the connection failed; the server may have carried it out, or may yet
    | Replied(status: nat, json: bool)

  datatype Outcome =
    | Ok(status: nat)
    | SessionFailed
    | RequestNotSent
    | ConnectionFailed
    | UploadExpired
    | SessionExpired
    | ApprovalRequired
    | Refused(status: nat)
    | NotJson(status: nat)

  // ---- isNetworkFailure --------------------------------------------------------------

  /** One link of an error's chain of causes. */
  datatype Link = Link(isError: bool, aborted: bool, networkCode: bool, fetchFailed: bool)

  predicate Marked(l: Link) {
    l.isError && (l.aborted || l.networkCode || l.fetchFailed)
  }

  predicate IsNetworkFailure(chain: seq<Link>, depth: nat)
    decreases |chain|
  {
    if |chain| == 0 || !chain[0].isError || depth > 4 then false
    else Marked(chain[0]) || IsNetworkFailure(chain[1..], depth + 1)
  }

  /** A transport failure is one whose first five links, all of them errors up to
    * the mark, contain a mark.
    */
  lemma {:induction false} NetworkFailureExact(chain: seq<Link>, depth: nat)
    ensures IsNetworkFailure(chain, depth) <==>
            exists k :: 0 <= k < |chain| && depth + k <= 4 && Marked(chain[k]) && forall j :: 0 <= j < k ==> chain[j].isError
    decreases |chain|
  {
    if |chain| > 0 && chain[0].isError && depth <= 4 && !Marked(chain[0]) {
      NetworkFailureExact(chain[1..], depth + 1);
      if IsNetworkFailure(chain[1..], depth + 1) {
        var k :| 0 <= k < |chain[1..]| && depth + 1 + k <= 4 && Marked(chain[1..][k]) &&
                 forall j :: 0 <= j < k ==> chain[1..][j].isError;
        assert Marked(chain[k + 1]);
        forall j | 0 <= j < k + 1 ensures chain[j].isError {
          assert j > 0 ==> chain[j] == chain[1..][j - 1];
        }
      } else {
        forall k | 0 <= k < |chain| && depth + k <= 4 && (forall j :: 0 <= j < k ==> chain[j].isError)
          ensures !Marked(chain[k])
        {
          assert k > 0 ==> chain[k] == chain[1..][k - 1];
          assert forall j :: 0 <= j < k - 1 ==> chain[1..][j] == chain[j + 1];
        }
      }
    }
  }

  /** Nothing left this machine unless one of the first five causes of the failure, all of
    * them errors up to it, is an abort, a network code or a failed fetch.
    */
  ghost predicate OnTheWay(chain: seq<Link>) {
    exists k :: 0 <= k < |chain| && k <= 4 && chain[k].isError
                && (chain[k].aborted || chain[k].networkCode || chain[k].fetchFailed)
                && forall j :: 0 <= j < k ==> chain[j].isError
  }

  lemma OnTheWayIff(chain: seq<Link>)
    ensures IsNetworkFailure(chain, 0) <==> OnTheWay(chain)
  {
    NetworkFailureExact(chain, 0);
    if OnTheWay(chain) {
      var k :| 0 <= k < |chain| && k <= 4 && chain[k].isError
               && (chain[k].aborted || chain[k].networkCode || chain[k].fetchFailed)
               && forall j :: 0 <= j < k ==> chain[j].isError;
      assert Marked(chain[k]);
    }
    if IsNetworkFailure(chain, 0) {
      var k :| 0 <= k < |chain| && 0 + k <= 4 && Marked(chain[k]) && forall j :: 0 <= j < k ==> chain[j].isError;
      assert chain[k].isError;
    }
  }

  /** What the session and `fetch` did in one attempt. */
  datatype Event = SessionThrew | FetchThrew(chain: seq<Link>) | Response(status: nat, json: bool)

  function FateOf(e: Event): Fate {
    match e
    case SessionThrew => NoToken
    case FetchThrew(chain) => if IsNetworkFailure(chain, 0) then Dropped else NotBuilt
    case Response(status, json) => Replied(status, json)
  }

  // ---- One call, as a function of what the world does ------------------------------------

  /** The fate of each attempt ever made, in order. */
  type World = nat -> Fate

  predicate ResendsAfterDrop(call: Call, retriedConnection: bool) {
    call.key.Some? && !retriedConnection && !call.body.Form?
  }

  predicate ResendsAfterExpiry(call: Call, retriedUnauthorised: bool) {
    !retriedUnauthorised && !call.body.Form?
  }

  function Settle(call: Call, fate: Fate, retriedUnauthorised: bool): Outcome {
    match fate
    case NoToken => SessionFailed
    case NotBuilt => RequestNotSent
    case Dropped => ConnectionFailed
    case Replied(status, json) =>
      if status == 401 then if !retriedUnauthorised && call.body.Form? then UploadExpired else SessionExpired
      else if status == 428 then ApprovalRequired
      else if !(200 <= status <= 299) then Refused(status)
      else if status == 204 || json then Ok(status)
      else NotJson(status)
  }

  /** The call is over, or it is tried again. */
  datatype Next = Over(end: Outcome) | Again(unauthorised: bool, connection: bool)

  function NextOf(call: Call, fate: Fate, unauthorised: bool, connection: bool): (next: Next)
    ensures next.Again? ==> (unauthorised ==> next.unauthorised) && (connection ==> next.connection)
    ensures next.Again? ==> (next.unauthorised != unauthorised) != (next.connection != connection)
  {
    if fate == Dropped && ResendsAfterDrop(call, connection) then Again(unauthorised, true)
    else if fate.Replied? && fate.status == 401 && ResendsAfterExpiry(call, unauthorised) then Again(true, connection)
    else Over(Settle(call, fate, unauthorised))
  }

  /** The fates met, and how the call ends. */
  function Play(call: Call, world: World, at: nat, unauthorised: bool, connection: bool): (seq<Fate>, Outcome)
    decreases (if unauthorised then 0 else 1) + (if connection then 0 else 1)
  {
    match NextOf(call, world(at), unauthorised, connection)
    case Over(end) => ([world(at)], end)
    case Again(u, c) =>
      var (rest, end) := Play(call, world, at + 1, u, c);
      ([world(at)] + rest, end)
  }

  predicate Expired(fate: Fate) {
    fate.Replied? && fate.status == 401
  }

  /** The attempts the server may have carried out: it checks the token first, so a
    * 401 means it did not.
    */
  predicate MayHaveRun(fate: Fate) {
    fate == Dropped || (fate.Replied? && fate.status != 401)
  }

  /** The runs of the retry machine: an ending attempt, before it at most one expiry
    * and at most one drop, in either order. The drop is there only for a keyed
    * call, and neither for an upload.
    */
  lemma PlayShape(call: Call, world: World, at: nat)
    ensures var (fates, end) := Play(call, world, at, false, false);
            && 1 <= |fates| <= 3
            && (forall i :: 0 <= i < |fates| ==> fates[i] == world(at + i))
            && (forall i :: 0 <= i < |fates| - 1 ==> fates[i] == Dropped || Expired(fates[i]))
            && (|fates| == 3 ==> (fates[0] == Dropped) != (fates[1] == Dropped))
            && (call.key.None? ==> |fates| <= 2 && forall i :: 0 <= i < |fates| - 1 ==> Expired(fates[i]))
            && (call.body.Form? ==> |fates| == 1)
            && end == Settle(call, fates[|fates| - 1], exists i :: 0 <= i < |fates| - 1 && Expired(fates[i]))
            && (end.Ok? ==> fates[|fates| - 1].Replied? && fates[|fates| - 1].status == end.status)
  {
  }

  /** What a failed fetch leads to, by its causes: one that is not the network's ends the
    * call, and nothing counts as sent; one that is leads to another attempt exactly for
    * a keyed call that is no upload and has not been sent again after a drop before.
    */
  lemma AfterFetchThrew(
      call: Call, world: World, at: nat, unauthorised: bool, connection: bool, chain: seq<Link>)
    requires world(at) == FateOf(FetchThrew(chain))
    ensures var (fates, end) := Play(call, world, at, unauthorised, connection);
            && (!OnTheWay(chain) ==> fates == [NotBuilt] && end == RequestNotSent)
            && (OnTheWay(chain) ==> fates[0] == Dropped && (|fates| > 1 <==> call.key.Some? && !connection && !call.body.Form?))
            && (OnTheWay(chain) && |fates| == 1 ==> end == ConnectionFailed)
  {
    OnTheWayIff(chain);
  }

  /** What an answer leads to: another attempt exactly after the first 401 of a call that
    * is no upload.
    */
  lemma AfterResponse(
      call: Call, world: World, at: nat, unauthorised: bool, connection: bool, status: nat, json: bool)
    requires world(at) == FateOf(Response(status, json))
    ensures |Play(call, world, at, unauthorised, connection).0| > 1 <==>
            status == 401 && !unauthorised && !call.body.Form?
  {
  }

  /** How a call ends, by the last thing that happened to it, and only by that. */
  ghost predicate Ends(last: Event, upload: bool, r: Outcome) {
    && (r.Ok? <==> last.Response? && 200 <= last.status <= 299 && (last.status == 204 || last.json))
    && (r.Ok? ==> r.status == last.status)
    && (r.NotJson? <==> last.Response? && 200 <= last.status <= 299 && last.status != 204 && !last.json)
    && (r.NotJson? ==> r.status == last.status)
    && (r.ApprovalRequired? <==> last.Response? && last.status == 428)
    && (r.Refused? <==> last.Response? && !(200 <= last.status <= 299) && last.status !in {401, 428})
    && (r.Refused? ==> r.status == last.status)
    && (r.UploadExpired? <==> last.Response? && last.status == 401 && upload)
    && (r.SessionExpired? <==> last.Response? && last.status == 401 && !upload)
    && (r.ConnectionFailed? <==> last.FetchThrew? && OnTheWay(last.chain))
    && (r.RequestNotSent? <==> last.FetchThrew? && !OnTheWay(last.chain))
    && (r.SessionFailed? <==> last.SessionThrew?)
  }

  lemma SettleEnds(call: Call, last: Event, unauthorised: bool, connection: bool)
    ensures var next := NextOf(call, FateOf(last), unauthorised, connection);
            next.Over? ==> Ends(last, !unauthorised && call.body.Form?, next.end)
  {
    if last.FetchThrew? {
      OnTheWayIff(last.chain);
    }
  }

  /** At most three requests, and three can happen. */
  lemma ThreeRequestsHappen(call: Call)
    requires call.key.Some? && !call.body.Form?
    ensures var world := (n: nat) => if n == 0 then Dropped else if n == 1 then Replied(401, true) else Replied(201, true);
            Play(call, world, 0, false, false) == ([Dropped, Replied(401, true), Replied(201, true)], Ok(201))
  {
    var world := (n: nat) => if n == 0 then Dropped else if n == 1 then Replied(401, true) else Replied(201, true);
    assert Play(call, world, 2, true, true) == ([Replied(201, true)], Ok(201));
    assert Play(call, world, 1, false, true) == ([Replied(401, true)] + [Replied(201, true)], Ok(201));
    assert [Dropped] + ([Replied(401, true)] + [Replied(201, true)]) == [Dropped, Replied(401, true), Replied(201, true)];
  }

  predicate IsExpiry(e: Event) {
    e.Response? && e.status == 401
  }

  /** The requests of one call, the first with this token: each has the token of the one
    * before it, unless that one was answered 401.
    */
  ghost predicate Sends(events: nat -> Event, at: nat, call: Call, token: nat, requests: seq<Request>) {
    && (requests != [] ==> requests[0].token == token)
    && (forall i :: 0 <= i < |requests| ==> requests[i].call == call)
    && (forall i :: 0 < i < |requests| ==>
          (requests[i].token == requests[i - 1].token <==>
           !(events(at + i - 1).Response? && events(at + i - 1).status == 401)))
  }

  predicate IsSent(e: Event) {
    !e.SessionThrew? && !(e.FetchThrew? && !IsNetworkFailure(e.chain, 0))
  }

  function TokenAfter(e: Event, token: nat, tokens: nat): nat {
    if IsExpiry(e) then tokens else token
  }

  function TokensAfter(e: Event, tokens: nat): nat {
    if IsExpiry(e) then tokens + 1 else tokens
  }

  /** What one call does: the attempts it makes, the requests it sends, how it ends. */
  datatype Trace = Trace(attempts: nat, sent: seq<Request>, end: Outcome)

  /** The token of the first request is `token`, and a new one is number `tokens`. */
  function TraceOf(
      call: Call, events: nat -> Event, at: nat, unauthorised: bool, connection: bool, token: nat, tokens: nat): Trace
    decreases (if unauthorised then 0 else 1) + (if connection then 0 else 1)
  {
    var e := events(at);
    match NextOf(call, FateOf(e), unauthorised, connection)
    case Over(end) => Trace(1, if IsSent(e) then [Request(call, token)] else [], end)
    case Again(u, c) =>
      var rest := TraceOf(call, events, at + 1, u, c, TokenAfter(e, token, tokens), TokensAfter(e, tokens));
      Trace(1 + rest.attempts, [Request(call, token)] + rest.sent, rest.end)
  }

  lemma OneBefore(events: nat -> Event, at: nat, call: Call, token: nat, next: nat, rest: seq<Request>)
    requires Sends(events, at + 1, call, next, rest) && (next == token <==> !IsExpiry(events(at)))
    ensures Sends(events, at, call, token, [Request(call, token)] + rest)
  {
    var all := [Request(call, token)] + rest;
    forall i | 0 < i < |all|
      ensures all[i].call == call && (all[i].token == all[i - 1].token <==> !IsExpiry(events(at + i - 1)))
    {
      assert all[i] == rest[i - 1] && (i > 1 ==> all[i - 1] == rest[i - 2]);
    }
  }

  lemma TraceSends(
      call: Call, events: nat -> Event, at: nat, unauthorised: bool, connection: bool, token: nat, tokens: nat)
    requires token < tokens
    ensures Sends(events, at, call, token, TraceOf(call, events, at, unauthorised, connection, token, tokens).sent)
    decreases (if unauthorised then 0 else 1) + (if connection then 0 else 1)
  {
    match NextOf(call, FateOf(events(at)), unauthorised, connection)
    case Over(_) =>
    case Again(u, c) =>
      var next := TokenAfter(events(at), token, tokens);
      var more := TokensAfter(events(at), tokens);
      TraceSends(call, events, at + 1, u, c, next, more);
      OneBefore(events, at, call, token, next, TraceOf(call, events, at + 1, u, c, next, more).sent);
  }

  function Fates(events: nat -> Event): World {
    (n: nat) => FateOf(events(n))
  }

  /** A call plays out as its fates say, and every attempt is sent but a last one that had
    * no token or could not be built.
    */
  lemma TracePlays(
      call: Call, events: nat -> Event, at: nat, unauthorised: bool, connection: bool, token: nat, tokens: nat)
    ensures var (fates, end) := Play(call, Fates(events), at, unauthorised, connection);
            var trace := TraceOf(call, events, at, unauthorised, connection, token, tokens);
            && trace.attempts == |fates| && trace.end == end
            && |trace.sent| == |fates| - (if end.SessionFailed? || end.RequestNotSent? then 1 else 0)
    decreases (if unauthorised then 0 else 1) + (if connection then 0 else 1)
  {
    match NextOf(call, FateOf(events(at)), unauthorised, connection)
    case Over(_) =>
    case Again(u, c) =>
      TracePlays(call, events, at + 1, u, c, TokenAfter(events(at), token, tokens),
                 TokensAfter(events(at), tokens));
  }

  // ---- The client object -----------------------------------------------------------------

  /** The wire as the client meets it: an event for every attempt, and what was sent. */
  class Network {
    const events: nat -> Event
    var attempts: nat
    var sent: seq<Request>

    constructor (events: nat -> Event)
      ensures this.events == events && attempts == 0 && sent == []
    {
      this.events := events;
      attempts, sent := 0, [];
    }

  }

  class ApiClient {
    const network: Network
    /** The access token the session has cached, and how many there have been. */
    var token: Option<nat>
    var tokens: nat

    constructor (network: Network)
      ensures this.network == network && Valid()
    {
      this.network := network;
      token, tokens := None, 0;
    }

    ghost predicate Valid()
      reads this
    {
      token.Some? ==> token.value < tokens
    }

    function NextToken(): nat
      reads this
    {
      if token.Some? then token.value else tokens
    }

    /** How many tokens there have been once one is cached. */
    function Tokens(): nat
      reads this
    {
      if token.Some? then tokens else tokens + 1
    }

    /** What a call will do from here. */
    function Ahead(call: Call, unauthorised: bool, connection: bool): Trace
      reads this, network
    {
      TraceOf(call, network.events, network.attempts, unauthorised, connection, NextToken(), Tokens())
    }

    /** `accessToken()`: the cached token, or a new one. */
    method AccessToken() returns (t: nat)
      requires Valid()
      modifies this
      ensures Valid() && token == Some(t) && t == old(NextToken()) && tokens == old(Tokens())
    {
      if token.None? {
        token := Some(tokens);
        tokens := tokens + 1;
      }
      t := token.value;
    }

    /** The token, the request and what comes of it. Nothing is sent without a token, or
      * when the request could not be built.
      */
    method Attempt(call: Call) returns (event: Event)
      requires Valid()
      modifies this, network
      ensures Valid() && network.attempts == old(network.attempts) + 1
      ensures event == network.events(old(network.attempts))
      ensures network.sent == old(network.sent) + (if IsSent(event) then [Request(call, old(NextToken()))] else [])
      ensures IsSent(event) ==> token.Some? && NextToken() == old(NextToken()) && Tokens() == old(Tokens())
    {
      event := network.events(network.attempts);
      network.attempts := network.attempts + 1;
      if event.SessionThrew? {
        return;
      }
      var t := AccessToken();
      if event.FetchThrew? && !IsNetworkFailure(event.chain, 0) {
        return;
      }
      network.sent := network.sent + [Request(call, t)];
    }

    /** What is done about an event: the call is over, or it is tried again with one more
      * of its recoveries spent. A 401 drops the cached token the first time.
      */
    method Recover(call: Call, event: Event, unauthorised: bool, connection: bool) returns (next: Next)
      requires Valid() && (IsSent(event) ==> token.Some?)
      modifies this`token
      ensures Valid() && next == NextOf(call, FateOf(event), unauthorised, connection)
      ensures token == if IsExpiry(event) && !unauthorised then None else old(token)
      ensures next.Again? ==> NextToken() == TokenAfter(event, old(NextToken()), old(Tokens()))
      ensures next.Again? ==> Tokens() == TokensAfter(event, old(Tokens()))
      ensures next.Over? ==> Ends(event, !unauthorised && call.body.Form?, next.end)
      ensures next.Over? && next.end.UploadExpired? ==> token.None?
    {
      SettleEnds(call, event, unauthorised, connection);
      if event.SessionThrew? {
        return Over(SessionFailed);
      }
      if event.FetchThrew? {
        if !IsNetworkFailure(event.chain, 0) {
          return Over(RequestNotSent);
        }
        if call.key.Some? && !connection && !call.body.Form? {
          return Again(unauthorised, true);
        }
        return Over(ConnectionFailed);
      }
      if event.status == 401 && !unauthorised {
        token := None;
        if call.body.Form? {
          return Over(UploadExpired);
        }
        return Again(true, connection);
      }
      return Over(Settle(call, FateOf(event), unauthorised));
    }

    /** One attempt, and the recoveries it leads to. How the call ends is decided by the
      * last thing that happened to it.
      */
    method Send(call: Call, unauthorised: bool, connection: bool) returns (r: Outcome)
      requires Valid()
      modifies this, network
      ensures Valid()
      ensures r == old(Ahead(call, unauthorised, connection)).end
      ensures network.attempts == old(network.attempts + Ahead(call, unauthorised, connection).attempts)
      ensures network.sent == old(network.sent + Ahead(call, unauthorised, connection).sent)
      ensures network.attempts > old(network.attempts)
      ensures Ends(network.events(network.attempts - 1), !unauthorised && call.body.Form?, r)
      ensures r.UploadExpired? ==> token.None?
      decreases (if unauthorised then 0 else 1) + (if connection then 0 else 1)
    {
      ghost var ahead := Ahead(call, unauthorised, connection);
      var event := Attempt(call);
      var next := Recover(call, event, unauthorised, connection);
      if next.Over? {
        return next.end;
      }
      assert ahead.sent == [Request(call, old(NextToken()))] + Ahead(call, next.unauthorised, next.connection).sent;
      r := Send(call, next.unauthorised, next.connection);
    }

    /** A call from its start: at most three requests, and two without a key. Every request
      * has the same method, path, body, reason, approval and key; it has the same token as
      * the one before it, unless that one was answered 401, and the first has the cached
      * one where there is one.
      */
    method Start(call: Call) returns (r: Outcome, ghost requests: seq<Request>)
      requires Valid()
      modifies this, network
      ensures Valid()
      ensures r == Play(call, Fates(network.events), old(network.attempts), false, false).1
      ensures network.sent == old(network.sent) + requests
      ensures |requests| <= if call.body.Form? then 1 else if call.key.None? then 2 else 3
      ensures Sends(network.events, old(network.attempts), call, old(NextToken()), requests)
      ensures requests != [] ==> requests[0].token == if old(token).Some? then old(token).value else old(tokens)
      ensures network.attempts > old(network.attempts)
      ensures call.body.Form? ==> network.attempts == old(network.attempts) + 1
      ensures Ends(network.events(network.attempts - 1), call.body.Form?, r)
    {
      PlayShape(call, Fates(network.events), network.attempts);
      TracePlays(call, network.events, network.attempts, false, false, NextToken(), Tokens());
      TraceSends(call, network.events, network.attempts, false, false, NextToken(), Tokens());
      requests := Ahead(call, false, false).sent;
      r := Send(call, false, false);
    }

    /** A create. A key is made up when the caller gives none. */
    method PostJson(path: nat, text: nat, reason: Option<nat>, approval: Option<nat>, key: Option<Key>, made: Key)
      returns (r: Outcome, ghost requests: seq<Request>)
      requires Valid()
      modifies this, network
      ensures Valid()
      ensures var call := Call(Post, path, Json(text), reason, approval, Some(if key.Some? then key.value else made));
              && r == Play(call, Fates(network.events), old(network.attempts), false, false).1
              && network.sent == old(network.sent) + requests && |requests| <= 3
              && Sends(network.events, old(network.attempts), call, old(NextToken()), requests)
      ensures network.attempts > old(network.attempts)
      ensures Ends(network.events(network.attempts - 1), false, r)
    {
      r, requests := Start(Call(Post, path, Json(text), reason, approval, Some(if key.Some? then key.value else made)));
    }

    method Upload(path: nat, file: nat, reason: Option<nat>, approval: Option<nat>, key: Option<Key>)
      returns (r: Outcome, ghost requests: seq<Request>)
      requires Valid()
      modifies this, network
      ensures Valid()
      ensures var call := Call(Post, path, Form(file), reason, approval, key);
              && r == Play(call, Fates(network.events), old(network.attempts), false, false).1
              && network.sent == old(network.sent) + requests && |requests| <= 1
              && Sends(network.events, old(network.attempts), call, old(NextToken()), requests)
      ensures network.attempts == old(network.attempts) + 1
      ensures Ends(network.events(network.attempts - 1), true, r)
    {
      r, requests := Start(Call(Post, path, Form(file), reason, approval, key));
    }
  }
}

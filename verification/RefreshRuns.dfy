/** Runs of the refresh protocol: how they are put together, and runs that show that the
  * bounds are attained and that the promises that fail do fail.
  */
module RefreshRuns {
  import opened Wrappers
  import opened Renewal
  import opened RefreshProtocol
  import opened RefreshSafety
  import opened RefreshTheorems

  // ---- Putting runs together -----------------------------------------------------------

  lemma {:induction false} RunConcat(s: State, a: seq<Event>, b: seq<Event>)
    requires Run(s, a).Some?
    ensures Run(s, a + b) == Run(Run(s, a).value, b)
    decreases |a|
  {
    if a == [] {
      assert a + b == b;
    } else {
      assert (a + b)[0] == a[0] && (a + b)[1..] == a[1..] + b;
      RunConcat(Apply(s, a[0]).value, a[1..], b);
    }
  }

  lemma OneEvent(s: State, e: Event)
    ensures Run(s, [e]) == Apply(s, e)
  {
    if Apply(s, e).Some? {
      assert Run(Apply(s, e).value, [e][1..]) == Apply(s, e);
    }
  }

  /** Some run leads from one state to the other. */
  ghost predicate Leads(s: State, s': State) {
    exists es :: Run(s, es) == Some(s')
  }

  lemma LeadsByEvent(s: State, e: Event, s': State)
    requires Apply(s, e) == Some(s')
    ensures Leads(s, s')
  {
    OneEvent(s, e);
  }

  lemma LeadsTransitively(s: State, mid: State, s': State)
    requires Leads(s, mid) && Leads(mid, s')
    ensures Leads(s, s')
  {
    var a :| Run(s, a) == Some(mid);
    var b :| Run(mid, b) == Some(s');
    RunConcat(s, a, b);
  }

  lemma TakeLock(s: State, p: Pid)
    requires s.lock == None && PhaseOf(s, p) == Idle
    ensures Leads(s, s.(lock := Some(p), phase := s.phase[p := Locked]))
  {
    var s1 := Move(s, p, Waiting);
    var s2 := s.(lock := Some(p), phase := s.phase[p := Locked]);
    assert s1.phase[p := Locked] == s2.phase;
    LeadsByEvent(s, Wait(p), s1);
    LeadsByEvent(s1, Acquire(p), s2);
    LeadsTransitively(s, s1, s2);
  }

  lemma ReadAndSend(s: State, p: Pid, t: Token)
    requires s.store == Some(t) && PhaseOf(s, p) == Locked
    ensures Leads(s, s.(phase := s.phase[p := Sent(t, |s.wire|)], wire := s.wire + [Request(t, None)],
                        repeats := s.repeats + (if Risked(s.wire, t) then 1 else 0)))
  {
    var s1 := Move(s, p, Have(t));
    var s2 := s.(phase := s.phase[p := Sent(t, |s.wire|)], wire := s.wire + [Request(t, None)],
                 repeats := s.repeats + (if Risked(s.wire, t) then 1 else 0));
    assert s1.phase[p := Sent(t, |s.wire|)] == s2.phase;
    LeadsByEvent(s, Read(p), s1);
    LeadsByEvent(s1, Send(p), s2);
    LeadsTransitively(s, s1, s2);
  }

  /** A process takes the free lock, reads the store and sends what it found. */
  function Offered(s: State, p: Pid, t: Token, repeat: nat): State {
    s.(lock := Some(p), phase := s.phase[p := Sent(t, |s.wire|)], wire := s.wire + [Request(t, None)],
       repeats := s.repeats + repeat)
  }

  lemma TakeAndSend(s: State, p: Pid, t: Token)
    requires s.lock == None && s.store == Some(t) && PhaseOf(s, p) == Idle
    ensures Leads(s, Offered(s, p, t, if Risked(s.wire, t) then 1 else 0))
  {
    var s1 := s.(lock := Some(p), phase := s.phase[p := Locked]);
    var s2 := Offered(s, p, t, if Risked(s.wire, t) then 1 else 0);
    TakeLock(s, p);
    ReadAndSend(s1, p, t);
    assert s1.phase[p := Sent(t, |s1.wire|)] == s2.phase;
    LeadsTransitively(s, s1, s2);
  }

  // ---- The bound on the repeats is attained ---------------------------------------------

  const TOO_MANY_REQUESTS := Http(429, None)
  const ROTATED := Http(200, Some(Payload(Some(0), Some(1))))

  lemma Then(s: State, mid: State, e: Event) returns (s': State)
    requires Leads(s, mid) && Apply(mid, e).Some?
    ensures Leads(s, s') && Apply(mid, e) == Some(s')
  {
    s' := Apply(mid, e).value;
    LeadsByEvent(mid, e, s');
    LeadsTransitively(s, mid, s');
  }

  lemma FromHere(s: State)
    ensures Leads(s, s)
  {
    assert Run(s, []) == Some(s);
  }

  /** Process 0 has signed in, and nothing else has happened. */
  ghost predicate SignedIn(s: State) {
    && s.store == Some(0) && s.lock == None && s.wire == [] && s.issued == 1 && s.consumed == {}
    && s.deaths == 0 && s.misclears == 0 && s.lateKeeps == 0 && s.repeats == 0
    && forall p: Pid :: PhaseOf(s, p) == Idle
  }

  lemma Asks(s: State, p: Pid) returns (s': State)
    requires PhaseOf(s, p) == Idle
    ensures Leads(s, s') && s' == Move(s, p, LoginSent)
  {
    FromHere(s);
    s' := Then(s, s, Login(p));
  }

  /** Process `p` has been granted a sign-in and is about to store its token. */
  lemma IsGranted(s: State, p: Pid) returns (s': State)
    requires PhaseOf(s, p) == Idle
    ensures Leads(s, s') && s' == s.(issued := s.issued + 1, phase := s'.phase)
    ensures PhaseOf(s', p) == LoginSaving(s.issued) && forall q: Pid :: q != p ==> PhaseOf(s', q) == PhaseOf(s, q)
  {
    var s1 := Asks(s, p);
    s' := Then(s, s1, LoginAnswered(p, true, false));
    Elsewhere(s, p, LoginSent);
    Elsewhere(s1, p, LoginSaving(s.issued));
  }

  lemma SignIn() returns (s: State)
    ensures Leads(INITIAL, s) && SignedIn(s)
  {
    var s1 := IsGranted(INITIAL, 0);
    s := Then(INITIAL, s1, LoginSave(0, true));
    forall p: Pid ensures PhaseOf(s, p) == Idle {
      assert p != 0 ==> PhaseOf(s, p) == PhaseOf(s1, p);
    }
  }

  lemma Elsewhere(s: State, p: Pid, ph: Phase)
    ensures PhaseOf(Move(s, p, ph), p) == ph
    ensures forall q: Pid :: q != p ==> PhaseOf(Move(s, p, ph), q) == PhaseOf(s, q)
  {
  }

  /** How an attempt to renew can leave its token where it was. */
  datatype Failure = Death | Misclear | LateKeep

  /** Only process `p` has moved, and its request is as open as it was or refused. */
  ghost predicate Untouched(s: State, s': State, p: Pid, id: nat) {
    && s'.store == s.store && s'.consumed == s.consumed
    && s'.issued == s.issued && s'.repeats == s.repeats && |s'.wire| == |s.wire|
    && (forall i :: 0 <= i < |s.wire| ==> s'.wire[i].token == s.wire[i].token)
    && (forall i :: 0 <= i < |s.wire| && i != id ==> s'.wire[i] == s.wire[i])
    && (forall q: Pid :: q != p ==> PhaseOf(s', q) == PhaseOf(s, q))
  }

  ghost predicate Counted(s: State, s': State, f: Failure) {
    && s'.deaths == s.deaths + (if f.Death? then 1 else 0)
    && s'.misclears == s.misclears + (if f.Misclear? then 1 else 0)
    && s'.lateKeeps == s.lateKeeps + (if f.LateKeep? then 1 else 0)
  }

  /** Process `p` has offered token 0 and waits for an answer. */
  ghost predicate Out(s: State, p: Pid, id: nat) {
    && s.store == Some(0) && s.lock == Some(p) && PhaseOf(s, p) == Sent(0, id)
    && id < |s.wire| && s.wire[id] == Request(0, None)
  }

  lemma Dies(s: State, p: Pid, id: nat) returns (s': State)
    requires Out(s, p, id)
    ensures Leads(s, s') && s'.lock == None && Untouched(s, s', p, id) && Counted(s, s', Death) && s'.wire == s.wire
  {
    FromHere(s);
    s' := Then(s, s, Die(p));
    Elsewhere(s, p, Dead);
  }

  lemma Releases(s: State, mid: State, p: Pid, id: nat) returns (s': State)
    requires Leads(s, mid) && Untouched(s, mid, p, id) && PhaseOf(mid, p) == Releasing
    ensures Leads(s, s') && s'.lock == None && Untouched(s, s', p, id) && s'.wire == mid.wire
    ensures s'.deaths == mid.deaths && s'.misclears == mid.misclears && s'.lateKeeps == mid.lateKeeps
  {
    s' := Then(s, mid, Release(p));
    Elsewhere(mid, p, Idle);
  }

  /** No answer arrives, and the store cannot be read back. */
  lemma LeavesItBehind(s: State, p: Pid, id: nat) returns (s': State)
    requires Out(s, p, id)
    ensures Leads(s, s') && s'.lock == None && Untouched(s, s', p, id) && Counted(s, s', Misclear) && s'.wire == s.wire
  {
    var s1 := Lost(s, p, id);
    var s2 := Then(s, s1, ReadBack(p, false));
    Elsewhere(s1, p, Releasing);
    s' := Releases(s, s2, p, id);
  }

  lemma Lost(s: State, p: Pid, id: nat) returns (s': State)
    requires Out(s, p, id)
    ensures Leads(s, s') && s' == Move(s, p, Ending(0)) && Untouched(s, s', p, id)
  {
    FromHere(s);
    s' := Then(s, s, Receive(p, true));
    Elsewhere(s, p, Ending(0));
  }

  /** The server answers 429, and the credential is kept. */
  lemma SlowsDown(s: State, p: Pid, id: nat) returns (s': State)
    requires Out(s, p, id) && id > 0 && s.wire[0].token == 0 && Risky(s.wire[0])
    ensures Leads(s, s') && s'.lock == None && Untouched(s, s', p, id) && Counted(s, s', LateKeep)
  {
    var s1 := Answered(s, p, id);
    assert s1.wire[0] == s.wire[0];
    assert Risked(s1.wire, 0);
    var s2 := Then(s, s1, Receive(p, false));
    Elsewhere(s1, p, Releasing);
    s' := Releases(s, s2, p, id);
  }

  lemma Answered(s: State, p: Pid, id: nat) returns (s': State)
    requires Out(s, p, id)
    ensures Leads(s, s') && s' == s.(wire := s.wire[id := Request(0, Some(TOO_MANY_REQUESTS))])
    ensures Untouched(s, s', p, id)
  {
    FromHere(s);
    s' := Then(s, s, Serve(id, TOO_MANY_REQUESTS, false));
    forall q: Pid ensures PhaseOf(s', q) == PhaseOf(s, q) {
    }
  }

  lemma Fails(s: State, p: Pid, id: nat, f: Failure) returns (s': State)
    requires Out(s, p, id)
    requires f.LateKeep? ==> id > 0 && s.wire[0].token == 0 && Risky(s.wire[0])
    ensures Leads(s, s') && s'.lock == None && Untouched(s, s', p, id) && Counted(s, s', f)
    ensures !f.LateKeep? ==> s'.wire == s.wire
  {
    match f
    case Death => s' := Dies(s, p, id);
    case Misclear => s' := LeavesItBehind(s, p, id);
    case LateKeep => s' := SlowsDown(s, p, id);
  }

  /** The server has rotated token 0, which is still in the store, and every request so
    * far has carried it. Processes from `n` on have done nothing.
    */
  ghost predicate Exposed(s: State, n: Pid) {
    && s.store == Some(0) && s.lock == None && s.consumed == {0}
    && s.wire != [] && s.wire[0] == Request(0, Some(ROTATED))
    && (forall i :: 0 <= i < |s.wire| ==> s.wire[i].token == 0)
    && forall p: Pid :: p >= n ==> PhaseOf(s, p) == Idle
  }

  lemma Offers(s: State, p: Pid) returns (s': State)
    requires s.lock == None && s.store == Some(0) && PhaseOf(s, p) == Idle
    ensures Leads(s, s') && s' == Offered(s, p, 0, if Risked(s.wire, 0) then 1 else 0)
    ensures Out(s', p, |s.wire|) && forall q: Pid :: q != p ==> PhaseOf(s', q) == PhaseOf(s, q)
  {
    TakeAndSend(s, p, 0);
    s' := Offered(s, p, 0, if Risked(s.wire, 0) then 1 else 0);
    Elsewhere(s, p, Sent(0, |s.wire|));
  }

  lemma Round(s: State, n: Pid, f: Failure) returns (s': State)
    requires Exposed(s, n)
    ensures Leads(s, s') && Exposed(s', n + 1) && Counted(s, s', f) && s'.repeats == s.repeats + 1
  {
    assert Risky(s.wire[0]) && Risked(s.wire, 0);
    var s1 := Offers(s, n);
    assert s1.wire[0] == s.wire[0];
    s' := Fails(s1, n, |s.wire|, f);
    LeadsTransitively(s, s1, s');
  }

  /** The server has taken up the only request. */
  lemma Rotates(s: State) returns (s': State)
    requires s.store == Some(0) && s.lock == None && s.consumed == {} && s.issued == 1 && s.wire == [Request(0, None)]
    requires forall p: Pid :: p >= 2 ==> PhaseOf(s, p) == Idle
    ensures Leads(s, s') && Exposed(s', 2)
    ensures s' == s.(wire := s'.wire, consumed := {0}, issued := 2)
  {
    FromHere(s);
    s' := Then(s, s, Serve(0, ROTATED, true));
    forall p: Pid ensures PhaseOf(s', p) == PhaseOf(s, p) {
    }
  }

  /** The first offer is no repeat. */
  lemma FirstRound(f: Failure) returns (s: State)
    requires !f.LateKeep?
    ensures Leads(INITIAL, s) && Exposed(s, 2) && Counted(INITIAL, s, f) && s.repeats == 0
  {
    var s1 := SignIn();
    var s2 := Offers(s1, 1);
    LeadsTransitively(INITIAL, s1, s2);
    var s3 := Fails(s2, 1, 0, f);
    LeadsTransitively(INITIAL, s2, s3);
    s := Rotates(s3);
    LeadsTransitively(INITIAL, s3, s);
  }

  /** Any number of deaths, tokens left behind and late refusals, in rounds. */
  lemma {:induction false} Rounds(deaths: nat, misclears: nat, keeps: nat) returns (s: State, n: Pid)
    requires deaths + misclears > 0
    ensures Leads(INITIAL, s) && Exposed(s, n)
    ensures s.deaths == deaths && s.misclears == misclears && s.lateKeeps == keeps
    ensures s.repeats + 1 == deaths + misclears + keeps
    decreases deaths + misclears + keeps
  {
    if deaths + misclears + keeps == 1 {
      s := FirstRound(if deaths == 1 then Death else Misclear);
      n := 2;
    } else {
      var f := if keeps > 0 then LateKeep else if deaths > 0 then Death else Misclear;
      var s1, m := Rounds(if f.Death? then deaths - 1 else deaths, if f.Misclear? then misclears - 1 else misclears,
                          if f.LateKeep? then keeps - 1 else keeps);
      s := Round(s1, m, f);
      n := m + 1;
      LeadsTransitively(INITIAL, s1, s);
    }
  }

  lemma ReachableByLeads(s: State)
    requires Leads(INITIAL, s)
    ensures Reachable(s)
  {
  }

  /** The bound of `RepeatsBounded` is attained, whatever the failures that make it up,
    * as long as one of them can put a token at risk: without those there are no repeats.
    */
  lemma BoundIsAttained(deaths: nat, misclears: nat, keeps: nat) returns (s: State)
    requires deaths + misclears > 0
    ensures Reachable(s) && s.deaths == deaths && s.misclears == misclears && s.lateKeeps == keeps
    ensures s.repeats == deaths + misclears + keeps
  {
    var s1, n := Rounds(deaths, misclears, keeps);
    assert Risky(s1.wire[0]) && Risked(s1.wire, 0);
    s := Offers(s1, n);
    LeadsTransitively(INITIAL, s1, s);
    ReachableByLeads(s);
  }

  /** One death is enough for any number of repeats of a token that the server has
    * rotated: the connector keeps a credential that meets a 429, also one that was
    * spent before.
    */
  lemma OneDeathAnyRepeats(n: nat) returns (s: State)
    ensures Reachable(s) && s.deaths == 1 && s.misclears == 0 && s.repeats == n
    ensures s.store == Some(0) && s.consumed == {0} && forall i :: 0 <= i < |s.wire| ==> s.wire[i].token == 0
  {
    var m: Pid;
    s, m := Rounds(1, 0, n);
    ReachableByLeads(s);
  }

  // ---- A successor is removed -------------------------------------------------------------

  /** Process 1 is about to clear the token it has spent. */
  lemma AboutToClear() returns (s: State)
    ensures Leads(INITIAL, s) && PhaseOf(s, 1) == Clearing(0) && PhaseOf(s, 2) == Idle && s.issued == 1
  {
    var s1 := SignIn();
    var s2 := Offers(s1, 1);
    LeadsTransitively(INITIAL, s1, s2);
    var s3 := Lost(s2, 1, 0);
    LeadsTransitively(INITIAL, s2, s3);
    s := FindsItsOwn(s3, 1);
    LeadsTransitively(INITIAL, s3, s);
  }

  lemma FindsItsOwn(s: State, p: Pid) returns (s': State)
    requires PhaseOf(s, p) == Ending(0) && s.store == Some(0)
    ensures Leads(s, s') && s' == Move(s, p, Clearing(0)) && PhaseOf(s', p) == Clearing(0)
    ensures forall q: Pid :: q != p ==> PhaseOf(s', q) == PhaseOf(s, q)
  {
    FromHere(s);
    s' := Then(s, s, ReadBack(p, true));
    Elsewhere(s, p, Clearing(0));
  }

  /** ... and process 2 about to store a new one. */
  lemma AboutToStore() returns (s: State)
    ensures Reachable(s) && PhaseOf(s, 1) == Clearing(0) && PhaseOf(s, 2) == LoginSaving(1)
  {
    var a := AboutToClear();
    s := IsGranted(a, 2);
    LeadsTransitively(INITIAL, a, s);
    ReachableByLeads(s);
  }

  /** The gap between reading back and clearing can be hit: a sign-in in it stores token
    * 1, no request ever carries that token, and the clear leaves nothing.
    */
  lemma SuccessorIsLost() returns (s: State, s1: State, s2: State)
    ensures Reachable(s) && PhaseOf(s, 1) == Clearing(0) && PhaseOf(s, 2) == LoginSaving(1)
    ensures Apply(s, LoginSave(2, true)) == Some(s1) && s1.store == Some(1)
    ensures Apply(s1, Clear(1, true)) == Some(s2) && s2.store == None
    ensures forall i :: 0 <= i < |s2.wire| ==> s2.wire[i].token != 1
  {
    s := AboutToStore();
    ReachableInv(s);
    SuccessorCleared(s, 1, 2, 0, 1);
    s1 := Apply(s, LoginSave(2, true)).value;
    s2 := Apply(s1, Clear(1, true)).value;
  }
}

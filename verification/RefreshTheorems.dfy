/** The guarantees of the refresh protocol over whole runs. */
module RefreshTheorems {
  import opened Wrappers
  import opened Renewal
  import opened RefreshProtocol
  import opened RefreshSafety

  // ---- A spent token is not offered again ------------------------------------------

  lemma RotatedIsRisked(wire: seq<Request>, t: Token)
    ensures Rotated(wire, t) ==> Risked(wire, t)
  {
  }

  /** While no process has died holding the lock and the store has given up every
    * spent token, a free lock means the store is empty or holds a token that no
    * request has put at risk.
    */
  lemma FreeLockMeansUsable(s: State)
    requires Reachable(s) && s.deaths == 0 && s.misclears == 0
    ensures s.repeats == 0
    ensures s.lock == None && s.store.Some? ==> s.store.value !in s.consumed && !Risked(s.wire, s.store.value)
  {
    ReachableInv(s);
    if s.lock == None && s.store.Some? {
      RotatedIsRisked(s.wire, s.store.value);
    }
  }

  /** ... and the token of the next request has been neither rotated nor offered in
    * a request that might still rotate it.
    */
  lemma EverySendIsFirst(s: State, p: Pid)
    requires Reachable(s) && s.deaths == 0 && s.misclears == 0
    requires Apply(s, Send(p)).Some?
    ensures PhaseOf(s, p).token !in s.consumed && !Risked(s.wire, PhaseOf(s, p).token)
  {
    ReachableInv(s);
    assert Holding(PhaseOf(s, p)) <==> s.lock == Some(p);
    RotatedIsRisked(s.wire, PhaseOf(s, p).token);
  }

  /** What is counted: a spent token that is still stored when the read-back or the clear
    * fails, a death under the lock, a safe refusal of a token at risk and a request with one.
    */
  lemma FailuresCounted(s: State, e: Event, s': State)
    requires Apply(s, e) == Some(s')
    ensures s'.misclears == s.misclears +
              if (e.ReadBack? || e.Clear?) && !e.works && s.store.Some? && Subject(PhaseOf(s, e.p)) == s.store then 1 else 0
    ensures s'.deaths == s.deaths + if e.Die? && Holding(PhaseOf(s, e.p)) then 1 else 0
    ensures s'.lateKeeps == s.lateKeeps +
              if e.Receive? && !e.lost && Judge(s.wire[PhaseOf(s, e.p).id].answer.value) == Keep
                 && Risked(s.wire, PhaseOf(s, e.p).token) then 1 else 0
    ensures s'.repeats == s.repeats + if e.Send? && Risked(s.wire, PhaseOf(s, e.p).token) then 1 else 0
  {
  }

  /** A process that waits for the lock takes it when it is free, or gives up; the answer to
    * a sign-in can be lost after its token was issued.
    */
  lemma WaitingEnds(s: State, p: Pid, issues: bool)
    requires PhaseOf(s, p) in {Waiting, LoginSent}
    ensures PhaseOf(s, p) == Waiting ==>
              && Apply(s, GiveUp(p)) == Some(s.(phase := s.phase[p := Idle]))
              && Apply(s, Acquire(p)) ==
                 if s.lock == None then Some(s.(lock := Some(p), phase := s.phase[p := Locked])) else None
    ensures PhaseOf(s, p) == LoginSent ==>
              && Apply(s, LoginAnswered(p, issues, true)) ==
                 Some(s.(phase := s.phase[p := Idle], issued := s.issued + if issues then 1 else 0))
              && Apply(s, LoginAnswered(p, true, false)) ==
                 Some(s.(phase := s.phase[p := LoginSaving(s.issued)], issued := s.issued + 1))
  {
  }

  /** With failures, each repeat is paid for by a death while holding the lock, a
    * spent token the store kept, or a safe refusal of a token already at risk.
    */
  lemma RepeatsBounded(s: State)
    requires Reachable(s)
    ensures s.repeats <= s.deaths + s.misclears + s.lateKeeps
    ensures s.lateKeeps <= s.repeats
  {
    ReachableInv(s);
  }

  /** Deaths alone bound the repeats as long as no spent token is left behind and no
    * token already at risk is refused with one of the four safe statuses.
    */
  lemma RepeatsBoundedByDeaths(s: State)
    requires Reachable(s) && s.misclears == 0 && s.lateKeeps == 0
    ensures s.repeats <= s.deaths
  {
    RepeatsBounded(s);
  }

  /** Two processes are never between listening and closing at the same time. */
  lemma OneHolder(s: State, p: Pid, q: Pid)
    requires Reachable(s) && Holding(PhaseOf(s, p)) && Holding(PhaseOf(s, q))
    ensures p == q && s.lock == Some(p)
  {
    ReachableInv(s);
  }

  // ---- One request per lock, none without it ------------------------------------------

  function Is(e: Event, f: Event): nat {
    if e == f then 1 else 0
  }

  function Count(es: seq<Event>, e: Event): nat {
    multiset(es)[e]
  }

  lemma CountFirst(es: seq<Event>, e: Event)
    requires es != []
    ensures Count(es, e) == Is(es[0], e) + Count(es[1..], e)
  {
    assert es == [es[0]] + es[1..];
  }

  /** What a process may still do under the lock it already has. */
  function ReadsLeft(ph: Phase): nat {
    if ph.Locked? then 1 else 0
  }

  function SendsLeft(ph: Phase): nat {
    if ph.Have? then 1 else 0
  }

  /** A read uses up an acquisition, and a send a read. */
  lemma OneCount(s: State, e: Event, p: Pid)
    requires Apply(s, e).Some?
    ensures var s' := Apply(s, e).value;
            && Is(e, Read(p)) + ReadsLeft(PhaseOf(s', p)) <= Is(e, Acquire(p)) + ReadsLeft(PhaseOf(s, p))
            && Is(e, Send(p)) + SendsLeft(PhaseOf(s', p)) <= Is(e, Read(p)) + SendsLeft(PhaseOf(s, p))
  {
  }

  lemma {:induction false} CountsFrom(s: State, es: seq<Event>, p: Pid)
    requires Run(s, es).Some?
    ensures Count(es, Read(p)) <= Count(es, Acquire(p)) + ReadsLeft(PhaseOf(s, p))
    ensures Count(es, Send(p)) <= Count(es, Read(p)) + SendsLeft(PhaseOf(s, p))
    decreases |es|
  {
    if es != [] {
      OneCount(s, es[0], p);
      CountFirst(es, Acquire(p));
      CountFirst(es, Read(p));
      CountFirst(es, Send(p));
      CountsFrom(Apply(s, es[0]).value, es[1..], p);
    }
  }

  /** In every run a process reads the stored credential for renewal at most once,
    * and sends at most one renewal request, for each time it got the lock. One
    * that never gets the lock does neither.
    */
  lemma AtMostOneSendPerLock(es: seq<Event>, p: Pid)
    requires Run(INITIAL, es).Some?
    ensures Count(es, Send(p)) <= Count(es, Read(p)) <= Count(es, Acquire(p))
  {
    CountsFrom(INITIAL, es, p);
  }

  // ---- The clear at the end of a spent renewal ------------------------------------------

  predicate ByProcess(e: Event, p: Pid) {
    !e.Serve? && e.p == p
  }

  /** Another process signs in, or disconnects: neither takes the lock. */
  predicate WritesStore(e: Event) {
    (e.LoginSave? && e.written) || (e.LogoutClear? && e.works)
  }

  /** While a process is between reading the store back and clearing it, an event of
    * another process changes the store only by a sign-in or a disconnect, and
    * never brings the spent token back.
    */
  lemma StepWhileClearing(s: State, e: Event, s': State, p: Pid, t: Token)
    requires Inv(s) && PhaseOf(s, p) == Clearing(t)
    requires Apply(s, e) == Some(s') && !ByProcess(e, p)
    ensures PhaseOf(s', p) == Clearing(t)
    ensures s'.store == Some(t) <==> s.store == Some(t) && !WritesStore(e)
    ensures !WritesStore(e) ==> s'.store == s.store
  {
    assert Holding(PhaseOf(s, p)) <==> s.lock == Some(p);
    if !e.Serve? {
      assert Holding(PhaseOf(s, e.p)) <==> s.lock == Some(e.p);
      assert Fresh(s, e.p).Some? ==> Subject(HolderPhase(s)) != Fresh(s, e.p);
    }
  }

  /** The entry cleared at the end of a spent renewal is that renewal's own token
    * exactly when nobody signed in or disconnected between the read-back and the clear.
    */
  lemma {:induction false} ClearsOwnTokenIff(s: State, es: seq<Event>, s': State, p: Pid, t: Token)
    requires Inv(s) && PhaseOf(s, p) == Clearing(t)
    requires Run(s, es) == Some(s') && forall e | e in es :: !ByProcess(e, p)
    ensures PhaseOf(s', p) == Clearing(t)
    ensures s'.store == Some(t) <==> s.store == Some(t) && forall e | e in es :: !WritesStore(e)
    decreases |es|
  {
    if es != [] {
      var mid := Apply(s, es[0]).value;
      StepKeepsInv(s, es[0], mid);
      StepWhileClearing(s, es[0], mid, p, t);
      assert forall e | e in es :: e == es[0] || e in es[1..];
      ClearsOwnTokenIff(mid, es[1..], s', p, t);
    }
  }

  /** A sign-in in that gap is lost: the clear removes the token it stored, which no
    * request ever carried.
    */
  lemma SuccessorCleared(s: State, p: Pid, q: Pid, t: Token, successor: Token)
    requires Inv(s) && PhaseOf(s, p) == Clearing(t) && PhaseOf(s, q) == LoginSaving(successor)
    ensures var s1 := Apply(s, LoginSave(q, true)).value;
            var s2 := Apply(s1, Clear(p, true)).value;
            && successor != t
            && Apply(s, LoginSave(q, true)).Some? && Apply(s1, Clear(p, true)).Some?
            && s1.store == Some(successor) && s2.store == None
            && forall i :: 0 <= i < |s2.wire| ==> s2.wire[i].token != successor
  {
    assert Holding(PhaseOf(s, p)) <==> s.lock == Some(p);
    assert Fresh(s, q) == Some(successor);
  }
}

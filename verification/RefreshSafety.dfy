/** What every interleaving of the refresh protocol keeps. */
module RefreshSafety {
  import opened Wrappers
  import opened Renewal
  import opened RefreshProtocol

  /** Only the process of the event moves, and the lock changes hands only with it. */
  lemma OnlyItsOwn(s: State, e: Event, s': State)
    requires MutualExclusion(s) && Apply(s, e) == Some(s') && !e.Serve?
    ensures s'.phase == s.phase[e.p := PhaseOf(s', e.p)]
    ensures Holding(PhaseOf(s', e.p)) <==> s'.lock == Some(e.p)
    ensures s'.lock != s.lock ==> s.lock in {None, Some(e.p)} && s'.lock in {None, Some(e.p)}
  {
    assert Holding(PhaseOf(s, e.p)) <==> s.lock == Some(e.p);
  }

  lemma StepKeepsMutualExclusion(s: State, e: Event, s': State)
    requires MutualExclusion(s) && Apply(s, e) == Some(s')
    ensures MutualExclusion(s')
  {
    if !e.Serve? {
      OnlyItsOwn(s, e, s');
    }
    forall p: Pid ensures Holding(PhaseOf(s', p)) <==> s'.lock == Some(p) {
      assert Holding(PhaseOf(s, p)) <==> s.lock == Some(p);
    }
  }

  /** `p` moves to `ph`; requests, issued tokens and consumed tokens stay. */
  predicate Moves(s: State, s': State, p: Pid, ph: Phase) {
    s'.phase == s.phase[p := ph] && s'.wire == s.wire && s'.issued == s.issued && s'.consumed == s.consumed
  }

  lemma MoveKeepsKnown(s: State, s': State, p: Pid, ph: Phase)
    requires Known(s) && Moves(s, s', p, ph) && !ph.Sent?
    requires s'.store.Some? ==> s'.store.value < s.issued
    requires Subject(ph).Some? ==> Subject(ph).value < s.issued
    ensures Known(s')
  {
    forall q: Pid
      ensures Subject(PhaseOf(s', q)).Some? ==> Subject(PhaseOf(s', q)).value < s'.issued
      ensures PhaseOf(s', q).Sent? ==>
                PhaseOf(s', q).id < |s'.wire| && s'.wire[PhaseOf(s', q).id].token == PhaseOf(s', q).token
    {
      assert PhaseOf(s', q) == if q == p then ph else PhaseOf(s, q);
    }
  }

  /** A move that takes up no private token keeps the others private. */
  lemma MoveKeepsFreshPrivate(s: State, s': State, p: Pid, ph: Phase)
    requires FreshIsPrivate(s) && Moves(s, s', p, ph)
    requires Fresh(s', p) == None || Fresh(s', p) == Fresh(s, p)
    requires s'.store == s.store || s'.store == None || (s'.store == Fresh(s, p) && Fresh(s', p) == None)
    requires Subject(HolderPhase(s')) in {None, Subject(HolderPhase(s)), s.store}
    ensures FreshIsPrivate(s')
  {
    assert forall q: Pid :: q != p ==> Fresh(s', q) == Fresh(s, q);
    forall q: Pid | Fresh(s', q).Some?
      ensures Fresh(s', q).value < s'.issued && s'.store != Fresh(s', q)
      ensures forall i :: 0 <= i < |s'.wire| ==> s'.wire[i].token != Fresh(s', q).value
      ensures Subject(HolderPhase(s')) != Fresh(s', q)
    {
      assert Fresh(s, q) == Fresh(s', q);
    }
    forall q: Pid, r: Pid | q != r && Fresh(s', q).Some? ensures Fresh(s', r) != Fresh(s', q) {
      assert Fresh(s, q) == Fresh(s', q) && (Fresh(s', r) == Fresh(s, r) || Fresh(s', r) == None);
    }
  }

  // ---- Moves: every event but Send, Serve and LoginAnswered -------------------

  predicate IsMove(e: Event) {
    !e.Send? && !e.Serve? && !e.LoginAnswered?
  }

  lemma MoveShape(s: State, e: Event, s': State)
    requires Apply(s, e) == Some(s') && IsMove(e)
    ensures var ph := PhaseOf(s', e.p);
            Moves(s, s', e.p, ph) && !ph.Sent? &&
            Subject(ph) in {None, Subject(PhaseOf(s, e.p)), s.store}
    ensures s'.lock == s.lock || s'.lock == None || (s.lock == None && s'.lock == Some(e.p))
  {
  }

  /** A move writes to the store no token but the private one of its process. */
  lemma MoveWritesOwn(s: State, e: Event, s': State)
    requires Apply(s, e) == Some(s') && IsMove(e)
    ensures Fresh(s', e.p) == None || Fresh(s', e.p) == Fresh(s, e.p)
    ensures s'.store == s.store || s'.store == None || (s'.store == Fresh(s, e.p) && Fresh(s', e.p) == None)
  {
  }

  lemma MoveKeepsTokens(s: State, e: Event, s': State)
    requires Inv(s) && Apply(s, e) == Some(s') && IsMove(e)
    ensures MutualExclusion(s') && Known(s') && FreshIsPrivate(s') && ConsumedIsRotated(s')
  {
    StepKeepsMutualExclusion(s, e, s');
    MoveShape(s, e, s');
    MoveWritesOwn(s, e, s');
    MoveFromHere(s, s', e.p, PhaseOf(s', e.p));
  }

  lemma MoveFromHere(s: State, s': State, p: Pid, ph: Phase)
    requires Inv(s) && MutualExclusion(s')
    requires Moves(s, s', p, ph) && !ph.Sent? && Subject(ph) in {None, Subject(PhaseOf(s, p)), s.store}
    requires Fresh(s', p) == None || Fresh(s', p) == Fresh(s, p)
    requires s'.store == s.store || s'.store == None || (s'.store == Fresh(s, p) && Fresh(s', p) == None)
    requires s'.lock == s.lock || s'.lock == None || (s.lock == None && s'.lock == Some(p))
    ensures Known(s') && FreshIsPrivate(s') && ConsumedIsRotated(s')
  {
    assert Holding(PhaseOf(s, p)) <==> s.lock == Some(p);
    assert PhaseOf(s', p) == ph;
    MoveKeepsKnown(s, s', p, ph);
    MoveKeepsFreshPrivate(s, s', p, ph);
  }

  /** Events of processes outside the lock: waiting, signing in, disconnecting. */
  predicate Outside(e: Event) {
    e.Wait? || e.GiveUp? || e.Login? || e.LoginSave? || e.Logout? || e.LogoutClear?
  }

  /** Events that end the use of a token by the process that holds the lock. */
  predicate Settles(e: Event) {
    e.Receive? || e.Save? || e.ReadBack? || e.Clear?
  }

  lemma OutsideKeepsAccounts(s: State, e: Event, s': State)
    requires Inv(s) && Apply(s, e) == Some(s') && Outside(e)
    ensures OthersUntouched(s') && Accounts(s')
  {
    assert Holding(PhaseOf(s, e.p)) <==> s.lock == Some(e.p);
    assert HolderPhase(s') == HolderPhase(s);
    if Fresh(s, e.p).Some? {
      assert !Risked(s.wire, Fresh(s, e.p).value);
    }
  }

  lemma ReceivingKeepsAccounts(s: State, e: Event, s': State)
    requires Inv(s) && Apply(s, e) == Some(s') && e.Receive?
    ensures OthersUntouched(s') && Accounts(s')
  {
    assert Holding(PhaseOf(s, e.p)) <==> s.lock == Some(e.p);
    assert HolderPhase(s) == PhaseOf(s, e.p) && HolderPhase(s') == PhaseOf(s', e.p);
  }

  lemma SettlingKeepsAccounts(s: State, e: Event, s': State)
    requires Inv(s) && Apply(s, e) == Some(s') && Settles(e) && !e.Receive?
    ensures OthersUntouched(s') && Accounts(s')
  {
    assert Holding(PhaseOf(s, e.p)) <==> s.lock == Some(e.p);
    assert HolderPhase(s) == PhaseOf(s, e.p) && HolderPhase(s') == PhaseOf(s', e.p);
    if Fresh(s, e.p).Some? {
      assert !Risked(s.wire, Fresh(s, e.p).value);
    }
  }

  lemma OtherMovesKeepAccounts(s: State, e: Event, s': State)
    requires Inv(s) && Apply(s, e) == Some(s') && IsMove(e) && !Outside(e) && !Settles(e)
    ensures OthersUntouched(s') && Accounts(s')
  {
    assert Holding(PhaseOf(s, e.p)) <==> s.lock == Some(e.p);
  }

  // ---- Sending, serving, and a sign-in that issues a token ---------------------

  lemma SendKeepsInv(s: State, e: Event, s': State)
    requires Inv(s) && Apply(s, e) == Some(s') && e.Send?
    ensures Inv(s')
  {
    StepKeepsMutualExclusion(s, e, s');
    assert Holding(PhaseOf(s, e.p)) <==> s.lock == Some(e.p);
    var t := PhaseOf(s, e.p).token;
    assert forall q: Pid :: q != e.p ==> PhaseOf(s', q) == PhaseOf(s, q);
    SendKeepsFreshPrivate(s, e.p, s');
    forall u | u in s'.consumed ensures Rotated(s'.wire, u) {
      var i :| 0 <= i < |s.wire| && s.wire[i].token == u && s.wire[i].answer.Some? && Risky(s.wire[i]);
      assert s'.wire[i] == s.wire[i];
    }
    RiskAfterSend(s.wire, t);
  }

  lemma RiskAfterSend(wire: seq<Request>, t: Token)
    ensures var wire' := wire + [Request(t, None)];
            && (forall u :: u != t ==> (Risked(wire', u) <==> Risked(wire, u)))
            && (RiskedByOther(wire', t, |wire|) <==> Risked(wire, t))
  {
    var wire' := wire + [Request(t, None)];
    forall u ensures RiskedByOther(wire', u, |wire|) <==> Risked(wire, u)
    {
      if Risked(wire, u) {
        var i :| 0 <= i < |wire| && wire[i].token == u && Risky(wire[i]);
        assert wire'[i] == wire[i];
      }
    }
    forall u | u != t ensures Risked(wire', u) <==> RiskedByOther(wire', u, |wire|) {
    }
  }

  lemma SendKeepsFreshPrivate(s: State, p: Pid, s': State)
    requires Inv(s) && Apply(s, Send(p)) == Some(s')
    ensures Known(s') && FreshIsPrivate(s')
  {
    assert Holding(PhaseOf(s, p)) <==> s.lock == Some(p);
    assert HolderPhase(s) == PhaseOf(s, p) && HolderPhase(s') == PhaseOf(s', p);
    forall q: Pid ensures Fresh(s', q) == Fresh(s, q) {
      assert Holding(PhaseOf(s, q)) <==> s.lock == Some(q);
    }
    forall q: Pid
      ensures Subject(PhaseOf(s', q)).Some? ==> Subject(PhaseOf(s', q)).value < s'.issued
      ensures PhaseOf(s', q).Sent? ==>
                PhaseOf(s', q).id < |s'.wire| && s'.wire[PhaseOf(s', q).id].token == PhaseOf(s', q).token
    {
      assert q != p ==> PhaseOf(s', q) == PhaseOf(s, q);
    }
    forall q: Pid, r: Pid | q != r && Fresh(s', q).Some? ensures Fresh(s', r) != Fresh(s', q) {
      assert Fresh(s', q) == Fresh(s, q) && Fresh(s', r) == Fresh(s, r);
    }
  }

  /** An answer can lift a risk, never add one; and it lifts none unless it is one
    * of the four safe refusals.
    */
  lemma RiskAfterServe(wire: seq<Request>, id: nat, answer: Answer)
    requires id < |wire| && wire[id].answer.None?
    ensures var wire' := wire[id := Request(wire[id].token, Some(answer))];
            && (forall u, but :: RiskedByOther(wire', u, but) ==> RiskedByOther(wire, u, but))
            && (forall u :: Rotated(wire, u) ==> Rotated(wire', u))
            && (Judge(answer) != Keep ==> Rotated(wire', wire[id].token))
  {
    var wire' := wire[id := Request(wire[id].token, Some(answer))];
    forall u, but | RiskedByOther(wire', u, but) ensures RiskedByOther(wire, u, but) {
      var i :| 0 <= i < |wire'| && i != but && wire'[i].token == u && Risky(wire'[i]);
      assert wire[i].token == u && Risky(wire[i]);
    }
    forall u | Rotated(wire, u) ensures Rotated(wire', u) {
      var i :| 0 <= i < |wire| && wire[i].token == u && wire[i].answer.Some? && Risky(wire[i]);
      assert wire'[i] == wire[i];
    }
    assert wire'[id].answer == Some(answer);
  }

  /** The server issues one token, and at most process `a` is handed it. */
  lemma IssueKeepsFreshPrivate(s: State, s': State, a: Pid)
    requires Known(s) && FreshIsPrivate(s) && s.store == s'.store && s.issued <= s'.issued
    requires |s'.wire| == |s.wire| && forall i :: 0 <= i < |s.wire| ==> s'.wire[i].token == s.wire[i].token
    requires Subject(HolderPhase(s')) == Subject(HolderPhase(s))
    requires Subject(HolderPhase(s)).Some? ==> Subject(HolderPhase(s)).value < s.issued
    requires forall q: Pid :: Fresh(s', q) == Fresh(s, q) ||
                              (q == a && Fresh(s', q) == Some(s.issued) && s.issued < s'.issued)
    ensures FreshIsPrivate(s')
  {
    forall q: Pid, r: Pid | q != r && Fresh(s', q).Some? ensures Fresh(s', r) != Fresh(s', q) {
      assert Fresh(s, q).Some? ==> Fresh(s, q).value < s.issued;
      assert Fresh(s, r).Some? ==> Fresh(s, r).value < s.issued;
    }
  }

  lemma ServeKeepsTokens(s: State, e: Event, s': State)
    requires Inv(s) && Apply(s, e) == Some(s') && e.Serve?
    ensures MutualExclusion(s') && Known(s') && FreshIsPrivate(s')
  {
    StepKeepsMutualExclusion(s, e, s');
    var a := if s.lock.Some? then s.lock.value else 0;
    forall q: Pid
      ensures Fresh(s', q) == Fresh(s, q) || (q == a && Fresh(s', q) == Some(s.issued) && s.issued < s'.issued)
    {
      assert PhaseOf(s, q).Sent? ==> PhaseOf(s, q).id < |s.wire| && s.lock == Some(q);
    }
    IssueKeepsFreshPrivate(s, s', a);
    assert forall q: Pid :: PhaseOf(s', q) == PhaseOf(s, q);
  }

  lemma ServeKeepsInv(s: State, e: Event, s': State)
    requires Inv(s) && Apply(s, e) == Some(s') && e.Serve?
    ensures Inv(s')
  {
    ServeKeepsTokens(s, e, s');
    RiskAfterServe(s.wire, e.id, e.answer);
    assert HolderPhase(s') == HolderPhase(s);
  }

  lemma LoginAnswerKeepsInv(s: State, e: Event, s': State)
    requires Inv(s) && Apply(s, e) == Some(s') && e.LoginAnswered?
    ensures Inv(s')
  {
    StepKeepsMutualExclusion(s, e, s');
    assert Holding(PhaseOf(s, e.p)) <==> s.lock == Some(e.p);
    assert HolderPhase(s') == HolderPhase(s);
    assert forall q: Pid :: q != e.p ==> PhaseOf(s', q) == PhaseOf(s, q);
    IssueKeepsFreshPrivate(s, s', e.p);
    assert Known(s');
  }

  // ---- Every step, every run ----------------------------------------------------

  lemma StepKeepsInv(s: State, e: Event, s': State)
    requires Inv(s) && Apply(s, e) == Some(s')
    ensures Inv(s')
  {
    if e.Send? {
      SendKeepsInv(s, e, s');
    } else if e.Serve? {
      ServeKeepsInv(s, e, s');
    } else if e.LoginAnswered? {
      LoginAnswerKeepsInv(s, e, s');
    } else {
      MoveKeepsTokens(s, e, s');
      if Outside(e) {
        OutsideKeepsAccounts(s, e, s');
      } else if e.Receive? {
        ReceivingKeepsAccounts(s, e, s');
      } else if Settles(e) {
        SettlingKeepsAccounts(s, e, s');
      } else {
        OtherMovesKeepAccounts(s, e, s');
      }
    }
  }

  lemma {:induction false} RunKeepsInv(s: State, es: seq<Event>, s': State)
    requires Inv(s) && Run(s, es) == Some(s')
    ensures Inv(s')
    decreases |es|
  {
    if es != [] {
      var mid := Apply(s, es[0]).value;
      StepKeepsInv(s, es[0], mid);
      RunKeepsInv(mid, es[1..], s');
    }
  }

  lemma ReachableInv(s: State)
    requires Reachable(s)
    ensures Inv(s)
  {
    var es :| Run(INITIAL, es) == Some(s);
    RunKeepsInv(INITIAL, es, s);
  }
}

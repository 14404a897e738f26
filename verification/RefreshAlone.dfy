/** A renewal that no other process interrupts does in the protocol what the
  * session object's method does.
  */
module RefreshAlone {
  import opened Wrappers
  import opened Renewal
  import opened RefreshProtocol
  import opened RefreshRuns
  import opened Session

  /** The renewal is over: the process is idle and the lock is free. */
  ghost predicate Finished(s: State, s': State, p: Pid, store: Option<Token>) {
    Leads(s, s') && PhaseOf(s', p) == Idle && s'.lock == None && s'.store == store
  }

  lemma ByEvent(s: State, mid: State, e: Event, s': State, p: Pid, store: Option<Token>)
    requires Apply(s, e) == Some(mid) && Finished(mid, s', p, store)
    ensures Finished(s, s', p, store)
  {
    LeadsByEvent(s, e, mid);
    LeadsTransitively(s, mid, s');
  }

  lemma FinishReleasing(s: State, p: Pid) returns (s': State)
    requires PhaseOf(s, p) == Releasing
    ensures Finished(s, s', p, s.store)
  {
    s' := Apply(s, Release(p)).value;
    LeadsByEvent(s, Release(p), s');
  }

  lemma FinishEnding(s: State, p: Pid, t: Token, io: Io) returns (s': State)
    requires PhaseOf(s, p) == Ending(t)
    ensures Finished(s, s', p, AfterEnding(s.store, t, io))
  {
    var back := ReadBack(p, !io.readBackFails);
    var s1 := Apply(s, back).value;
    if PhaseOf(s1, p).Clearing? {
      var clear := Clear(p, !io.clearThrows);
      var s2 := Apply(s1, clear).value;
      s' := FinishReleasing(s2, p);
      ByEvent(s1, s2, clear, s', p, AfterEnding(s.store, t, io));
    } else {
      s' := FinishReleasing(s1, p);
    }
    ByEvent(s, s1, back, s', p, AfterEnding(s.store, t, io));
  }

  lemma FinishSaving(s: State, p: Pid, t: Token, minted: Token, io: Io) returns (s': State)
    requires PhaseOf(s, p) == Saving(t, minted)
    ensures Finished(s, s', p,
                     if !io.writeThrows then Some(minted)
                     else AfterEnding(if io.writeKept then Some(minted) else s.store, t, io))
  {
    var save := Save(p, Written(io), !io.writeThrows);
    var s1 := Apply(s, save).value;
    if io.writeThrows {
      s' := FinishEnding(s1, p, t, io);
    } else {
      s' := FinishReleasing(s1, p);
    }
    ByEvent(s, s1, save, s', p, s'.store);
  }

  /** The answer is a rejected fetch, or is already at the sender's door. */
  lemma FinishSent(s: State, p: Pid, t: Token, id: nat, answer: Answer, io: Io) returns (s': State)
    requires PhaseOf(s, p) == Sent(t, id) && id < |s.wire| && s.store == Some(t) && !io.readThrows
    requires answer.Http? ==> s.wire[id].answer == Some(answer)
    ensures Finished(s, s', p, StoreAfterRenewal(s.store, answer, io))
  {
    var receive := Receive(p, answer.Rejected?);
    var s1 := Apply(s, receive).value;
    match Judge(answer) {
      case Keep => s' := FinishReleasing(s1, p);
      case End => s' := FinishEnding(s1, p, t, io);
      case Absorb(_, minted) => s' := FinishSaving(s1, p, t, minted, io);
    }
    ByEvent(s, s1, receive, s', p, s'.store);
  }

  /** What the server may say to a token it has not consumed. */
  predicate Possible(s: State, answer: Answer) {
    Judge(answer).Absorb? ==>
      Judge(answer).refresh == s.issued && s.store.Some? && s.store.value !in s.consumed
  }

  lemma FinishOffered(s: State, p: Pid, t: Token, answer: Answer, io: Io) returns (s': State)
    requires s.store == Some(t) && !io.readThrows && Possible(s, answer)
    requires |s.wire| > 0 && s.wire[|s.wire| - 1] == Request(t, None)
    requires PhaseOf(s, p) == Sent(t, |s.wire| - 1)
    ensures Finished(s, s', p, StoreAfterRenewal(s.store, answer, io))
  {
    if answer.Rejected? {
      s' := FinishSent(s, p, t, |s.wire| - 1, answer, io);
    } else {
      var serve := Serve(|s.wire| - 1, answer, Judge(answer).Absorb?);
      var s1 := Apply(s, serve).value;
      s' := FinishSent(s1, p, t, |s.wire| - 1, answer, io);
      ByEvent(s, s1, serve, s', p, s'.store);
    }
  }

  /** From any state with the lock free, an uninterrupted renewal leads to the store
    * that `Session.RefreshLocked` leaves.
    */
  lemma UninterruptedRenewal(s: State, p: Pid, answer: Answer, io: Io) returns (s': State)
    requires s.lock == None && PhaseOf(s, p) == Idle && Possible(s, answer)
    ensures Finished(s, s', p, StoreAfterRenewal(s.store, answer, io))
  {
    if io.readThrows || s.store.None? {
      var s1 := s.(lock := Some(p), phase := s.phase[p := Locked]);
      TakeLock(s, p);
      var read := if io.readThrows then ReadThrows(p) else Read(p);
      var s2 := Apply(s1, read).value;
      s' := FinishReleasing(s2, p);
      ByEvent(s1, s2, read, s', p, s.store);
      LeadsTransitively(s, s1, s');
    } else {
      var t := s.store.value;
      var s1 := Offered(s, p, t, if Risked(s.wire, t) then 1 else 0);
      TakeAndSend(s, p, t);
      s' := FinishOffered(s1, p, t, answer, io);
      LeadsTransitively(s, s1, s');
    }
  }
}

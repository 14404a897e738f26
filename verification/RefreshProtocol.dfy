/** Single-use refresh rotation by any number of connector processes.
  *
  * The processes share one stored credential, one server that accepts each
  * refresh token once, and one loopback port that the operating system gives to
  * one process at a time and takes back when that process dies. Signing in and
  * disconnecting write the same store without taking the port.
  *
  * A run is a sequence of events. Every choice the outside world makes (which
  * process moves, what the server does, what is lost, what the store refuses)
  * is in the event, so `Apply` is a function and a run can be replayed.
  */
module RefreshProtocol {
  import opened Wrappers
  import opened Renewal

  type Pid = nat

  /** Where a process is in its current operation. */
  datatype Phase =
    | Idle
    | Waiting                             // trying to listen on the lock port
    | Locked                              // listening; the store has not been read yet
    | Have(token: Token)                  // read from the store, not yet sent
    | Sent(token: Token, id: nat)         // request `id` is out
    | Saving(token: Token, minted: Token)  // both replacement tokens arrived
    | Ending(token: Token)                // about to read the store back
    | Clearing(token: Token)              // it still held `token`; about to clear it
    | Releasing                           // done; about to close the listener
    | LoginSent
    | LoginSaving(minted: Token)
    | LogoutSent
    | Dead

  predicate Holding(ph: Phase) {
    ph.Locked? || ph.Have? || ph.Sent? || ph.Saving? || ph.Ending? || ph.Clearing? || ph.Releasing?
  }

  /** A renewal request. It outlives the process that sent it: the server may
    * take it up after the sender has given up or died.
    */
  datatype Request = Request(token: Token, answer: Option<Answer>)

  datatype State = State(
    store: Option<Token>,
    lock: Option<Pid>,
    phase: map<Pid, Phase>,
    wire: seq<Request>,
    issued: nat,           // every token below this number has been issued
    consumed: set<Token>,  // rotated away at the server
    deaths: nat,           // processes that died while listening on the port
    misclears: nat,        // spent credentials left behind because the read-back or the clear failed
    lateKeeps: nat,        // safe refusals of a token that an earlier request had put at risk
    repeats: nat)          // requests sent with a token that an earlier request had put at risk

  function PhaseOf(s: State, p: Pid): Phase {
    if p in s.phase then s.phase[p] else Idle
  }

  const INITIAL: State := State(None, None, map[], [], 0, {}, 0, 0, 0, 0)

  /** Whether the request may have rotated its token, as far as anyone can tell. */
  predicate Risky(r: Request) {
    r.answer.None? || Judge(r.answer.value) != Keep
  }

  /** Some request other than number `but` has put this token at risk. */
  ghost predicate RiskedByOther(wire: seq<Request>, t: Token, but: int) {
    exists i :: 0 <= i < |wire| && i != but && wire[i].token == t && Risky(wire[i])
  }

  /** Some request has put this token at risk. */
  ghost predicate Risked(wire: seq<Request>, t: Token) {
    RiskedByOther(wire, t, -1)
  }

  datatype Event =
    | Wait(p: Pid)
    | GiveUp(p: Pid)                                   // the deadline passed while another process listened
    | Acquire(p: Pid)
    | Read(p: Pid)
    | ReadThrows(p: Pid)                               // the credential is bound to another origin
    | Send(p: Pid)
    | Serve(id: nat, answer: Answer, rotate: bool)
    | Receive(p: Pid, lost: bool)
    | Save(p: Pid, written: bool, reported: bool)
    | ReadBack(p: Pid, works: bool)
    | Clear(p: Pid, works: bool)
    | Release(p: Pid)
    | Die(p: Pid)
    | Login(p: Pid)
    | LoginAnswered(p: Pid, issues: bool, lost: bool)
    | LoginSave(p: Pid, written: bool)
    | Logout(p: Pid)
    | LogoutClear(p: Pid, works: bool)

  function Move(s: State, p: Pid, ph: Phase): State {
    s.(phase := s.phase[p := ph])
  }

  /** The state after an event, or None when the event cannot happen. */
  ghost function Apply(s: State, e: Event): Option<State> {
    match e
    case Wait(p) =>
      if PhaseOf(s, p) == Idle then Some(Move(s, p, Waiting)) else None
    case GiveUp(p) =>
      if PhaseOf(s, p) == Waiting then Some(Move(s, p, Idle)) else None
    case Acquire(p) =>
      if PhaseOf(s, p) == Waiting && s.lock.None? then Some(Move(s.(lock := Some(p)), p, Locked)) else None
    case Read(p) =>
      if PhaseOf(s, p) == Locked then
        Some(Move(s, p, if s.store.Some? then Have(s.store.value) else Releasing))
      else None
    case ReadThrows(p) =>
      if PhaseOf(s, p) == Locked then Some(Move(s, p, Releasing)) else None
    case Send(p) =>
      var ph := PhaseOf(s, p);
      if ph.Have? then
        Some(Move(s, p, Sent(ph.token, |s.wire|)).(
             wire := s.wire + [Request(ph.token, None)],
             repeats := s.repeats + (if Risked(s.wire, ph.token) then 1 else 0)))
      else None
    case Serve(id, answer, rotate) =>
      if id < |s.wire| && s.wire[id].answer.None? && answer.Http? then
        var t := s.wire[id].token;
        var verdict := Judge(answer);
        var wire := s.wire[id := Request(t, Some(answer))];
        if rotate then
          // One use per token, and the four safe statuses mean the token did not rotate.
          if t in s.consumed || verdict == Keep || (verdict.Absorb? && verdict.refresh != s.issued) then None
          else Some(s.(wire := wire, consumed := s.consumed + {t}, issued := s.issued + 1))
        else if verdict.Absorb? then None
        else Some(s.(wire := wire))
      else None
    case Receive(p, lost) =>
      var ph := PhaseOf(s, p);
      if ph.Sent? && ph.id < |s.wire| && (lost || s.wire[ph.id].answer.Some?) then
        var answer := if lost then Rejected else s.wire[ph.id].answer.value;
        match Judge(answer)
        case Keep =>
          Some(Move(s, p, Releasing).(
               lateKeeps := s.lateKeeps + (if Risked(s.wire, ph.token) then 1 else 0)))
        case End => Some(Move(s, p, Ending(ph.token)))
        case Absorb(_, minted) => Some(Move(s, p, Saving(ph.token, minted)))
      else None
    case Save(p, written, reported) =>
      var ph := PhaseOf(s, p);
      // A write that reports success was kept; one that throws may have been kept or not.
      if ph.Saving? && (reported ==> written) then
        Some(Move(s, p, if reported then Releasing else Ending(ph.token)).(
             store := if written then Some(ph.minted) else s.store))
      else None
    case ReadBack(p, works) =>
      var ph := PhaseOf(s, p);
      if ph.Ending? then
        var present := s.store == Some(ph.token);
        Some(Move(s, p, if works && present then Clearing(ph.token) else Releasing).(
             misclears := s.misclears + (if !works && present then 1 else 0)))
      else None
    case Clear(p, works) =>
      var ph := PhaseOf(s, p);
      if ph.Clearing? then
        Some(Move(s, p, Releasing).(
             store := if works then None else s.store,
             misclears := s.misclears + (if !works && s.store == Some(ph.token) then 1 else 0)))
      else None
    case Release(p) =>
      if PhaseOf(s, p) == Releasing then Some(Move(s, p, Idle).(lock := None)) else None
    case Die(p) =>
      var ph := PhaseOf(s, p);
      if ph != Dead then
        Some(Move(s, p, Dead).(
             lock := if Holding(ph) then None else s.lock,
             deaths := s.deaths + (if Holding(ph) then 1 else 0)))
      else None
    case Login(p) =>
      if PhaseOf(s, p) == Idle then Some(Move(s, p, LoginSent)) else None
    case LoginAnswered(p, issues, lost) =>
      if PhaseOf(s, p) == LoginSent then
        var s' := if issues then s.(issued := s.issued + 1) else s;
        Some(Move(s', p, if issues && !lost then LoginSaving(s.issued) else Idle))
      else None
    case LoginSave(p, written) =>
      var ph := PhaseOf(s, p);
      if ph.LoginSaving? then
        Some(Move(s, p, Idle).(store := if written then Some(ph.minted) else s.store))
      else None
    case Logout(p) =>
      if PhaseOf(s, p) == Idle then Some(Move(s, p, LogoutSent)) else None
    case LogoutClear(p, works) =>
      if PhaseOf(s, p) == LogoutSent then
        Some(Move(s, p, Idle).(store := if works then None else s.store))
      else None
  }

  /** The state after a whole run, or None when some event cannot happen. */
  ghost function Run(s: State, es: seq<Event>): Option<State>
    decreases |es|
  {
    if es == [] then Some(s)
    else match Apply(s, es[0])
         case None => None
         case Some(s') => Run(s', es[1..])
  }

  ghost predicate Reachable(s: State) {
    exists es :: Run(INITIAL, es) == Some(s)
  }

  // ---- The inductive invariant ------------------------------------------------

  /** The token that a process is about to write, if any: it came from the server
    * and nobody else has seen it.
    */
  function Fresh(s: State, p: Pid): Option<Token> {
    match PhaseOf(s, p)
    case Saving(_, minted) => Some(minted)
    case LoginSaving(minted) => Some(minted)
    case Sent(_, id) =>
      if id < |s.wire| && s.wire[id].answer.Some? && Judge(s.wire[id].answer.value).Absorb?
      then Some(Judge(s.wire[id].answer.value).refresh) else None
    case _ => None
  }

  /** The token that the current renewal is about. */
  function Subject(ph: Phase): Option<Token> {
    match ph
    case Have(t) => Some(t)
    case Sent(t, _) => Some(t)
    case Saving(t, _) => Some(t)
    case Ending(t) => Some(t)
    case Clearing(t) => Some(t)
    case _ => None
  }

  function HolderPhase(s: State): Phase {
    if s.lock.Some? then PhaseOf(s, s.lock.value) else Releasing
  }

  ghost predicate MutualExclusion(s: State) {
    forall p: Pid :: Holding(PhaseOf(s, p)) <==> s.lock == Some(p)
  }

  ghost predicate Known(s: State) {
    && (s.store.Some? ==> s.store.value < s.issued)
    && (forall i :: 0 <= i < |s.wire| ==> s.wire[i].token < s.issued)
    && (forall p: Pid :: Subject(PhaseOf(s, p)).Some? ==> Subject(PhaseOf(s, p)).value < s.issued)
    && (forall p: Pid :: PhaseOf(s, p).Sent? ==>
          PhaseOf(s, p).id < |s.wire| && s.wire[PhaseOf(s, p).id].token == PhaseOf(s, p).token)
  }

  /** A token about to be written is in nobody else's hands: not in the store, not
    * on the wire, not the subject of a renewal, not in another process.
    */
  ghost predicate FreshIsPrivate(s: State) {
    && (forall p: Pid :: Fresh(s, p).Some? ==>
          var f := Fresh(s, p).value;
          f < s.issued && s.store != Some(f) &&
          (forall i :: 0 <= i < |s.wire| ==> s.wire[i].token != f) &&
          Subject(HolderPhase(s)) != Some(f))
    && (forall p: Pid, q: Pid :: p != q && Fresh(s, p).Some? ==> Fresh(s, q) != Fresh(s, p))
  }

  /** Some answered request may have rotated this token. */
  ghost predicate Rotated(wire: seq<Request>, t: Token) {
    exists i :: 0 <= i < |wire| && wire[i].token == t && wire[i].answer.Some? && Risky(wire[i])
  }

  /** Only a request can rotate a token. */
  ghost predicate ConsumedIsRotated(s: State) {
    forall t :: t in s.consumed ==> Rotated(s.wire, t)
  }

  /** While a renewal is under way the store holds its subject or a token no
    * request has put at risk.
    */
  ghost predicate OthersUntouched(s: State) {
    Subject(HolderPhase(s)).Some? && s.store.Some? && s.store != Subject(HolderPhase(s)) ==>
      !Risked(s.wire, s.store.value)
  }

  /** The next request could carry a token that is already at risk. */
  ghost predicate Suspect(s: State) {
    match HolderPhase(s)
    case Have(t) => Risked(s.wire, t)
    case Sent(_, _) => false
    case Saving(_, _) => false
    case Ending(_) => false
    case Clearing(_) => false
    case _ => s.store.Some? && Risked(s.wire, s.store.value)
  }

  /** The request now out is one that `repeats` has counted and no answer has settled. */
  ghost predicate RepeatOut(s: State) {
    HolderPhase(s).Sent? && RiskedByOther(s.wire, HolderPhase(s).token, HolderPhase(s).id)
  }

  /** Every repeat is paid for by a death, a failed removal or a late safe refusal. */
  ghost predicate Accounts(s: State) {
    && s.repeats + (if Suspect(s) then 1 else 0) <= s.deaths + s.misclears + s.lateKeeps
    && s.lateKeeps + (if RepeatOut(s) then 1 else 0) <= s.repeats
    && (s.deaths + s.misclears == 0 ==> s.repeats == 0)
  }

  ghost predicate Inv(s: State) {
    MutualExclusion(s) && Known(s) && FreshIsPrivate(s) && ConsumedIsRotated(s) && OthersUntouched(s) && Accounts(s)
  }
}

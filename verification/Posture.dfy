/** What the session holds, asked of the API once (mcp/src/session-level.ts). */
module Posture {
  import opened Dispatch
  import opened ToolPipeline
  import opened Wrappers

  /** The API's answer; a build older than the scope says nothing about it. */
  datatype Answer = Answer(level: Level, scope: Option<bool>)

  type CallId = nat

  /** `answered` is what each call was told, in the order in which they were told. */
  datatype State = State(
    held: Option<Held>,
    resolving: bool,
    waiting: seq<CallId>,
    answered: seq<(CallId, Held)>,
    fetches: nat)

  datatype Event = Asks(call: CallId) | Settles(answer: Option<Answer>)

  const START := State(None, false, [], [], 0)

  function Read(answer: Answer, fallback: Held): Held {
    Held(answer.level, if answer.scope.None? then fallback.allowPersonalData else answer.scope.value)
  }

  function Tell(calls: seq<CallId>, held: Held): seq<(CallId, Held)> {
    seq(|calls|, i requires 0 <= i < |calls| => (calls[i], held))
  }

  function Ask(s: State, call: CallId): State {
    if s.held.Some? then s.(answered := s.answered + [(call, s.held.value)])
    else if s.resolving then s.(waiting := s.waiting + [call])
    else s.(resolving := true, waiting := s.waiting + [call], fetches := s.fetches + 1)
  }

  function Settle(s: State, answer: Option<Answer>, fallback: Held): State {
    var value := if answer.None? then fallback else Read(answer.value, fallback);
    State(if answer.None? then s.held else Some(value), false, [], s.answered + Tell(s.waiting, value), s.fetches)
  }

  /** The two variables of the closure, and the calls that wait on the one promise. */
  class Resolver {
    const fallback: Held
    var held: Option<Held>
    var resolving: bool
    var waiting: seq<CallId>
    var answered: seq<(CallId, Held)>
    var fetches: nat

    constructor (fallback: Held)
      ensures this.fallback == fallback && Now() == START
    {
      this.fallback := fallback;
      held, resolving, waiting, answered, fetches := None, false, [], [], 0;
    }

    function Now(): State
      reads this
    {
      State(held, resolving, waiting, answered, fetches)
    }

    method Resolve(call: CallId)
      modifies this
      ensures Now() == Ask(old(Now()), call)
      ensures held == old(held)
      ensures held.Some? ==> answered == old(answered) + [(call, held.value)] && waiting == old(waiting)
                             && resolving == old(resolving) && fetches == old(fetches)
      ensures held.None? ==> answered == old(answered) && waiting == old(waiting) + [call] && resolving
                             && fetches == old(fetches) + (if old(resolving) then 0 else 1)
    {
      if held.Some? {
        answered := answered + [(call, held.value)];
        return;
      }
      if !resolving {
        resolving := true;
        fetches := fetches + 1;
      }
      waiting := waiting + [call];
    }

    /** The fetch ends. Every call that waited is told the same: what the API says, its level
      * with the operator's own choice of scope where it says nothing about that, or all of
      * the operator's choice where it could not be asked. Only what it says is kept.
      */
    method Fetched(answer: Option<Answer>)
      requires resolving
      modifies this
      ensures Now() == Settle(old(Now()), answer, fallback)
      ensures var told := match answer
                          case None => fallback
                          case Some(Answer(level, None)) => Held(level, fallback.allowPersonalData)
                          case Some(Answer(level, Some(open))) => Held(level, open);
              && held == (if answer.Some? then Some(told) else old(held))
              && |answered| == |old(answered)| + |old(waiting)| && old(answered) <= answered
              && forall i :: 0 <= i < |old(waiting)| ==> answered[|old(answered)| + i] == (old(waiting)[i], told)
      ensures waiting == [] && !resolving && fetches == old(fetches)
    {
      var value := fallback;
      if answer.Some? {
        value := Held(answer.value.level,
                      if answer.value.scope.None? then fallback.allowPersonalData else answer.value.scope.value);
        held := Some(value);
      }
      var calls := waiting;
      for i := 0 to |calls|
        invariant answered == old(answered) + Tell(calls[..i], value)
        invariant held == (if answer.None? then old(held) else Some(value)) && fetches == old(fetches)
      {
        answered := answered + [(calls[i], value)];
        assert calls[..i + 1] == calls[..i] + [calls[i]];
      }
      assert calls[..|calls|] == calls;
      waiting := [];
      resolving := false;
    }
  }

  // ---- Runs ------------------------------------------------------------------------------------

  function Apply(s: State, e: Event, fallback: Held): Option<State> {
    match e
    case Asks(call) => Some(Ask(s, call))
    case Settles(answer) => if s.resolving then Some(Settle(s, answer, fallback)) else None
  }

  function RunOf(events: seq<Event>, fallback: Held): Option<State> {
    if events == [] then Some(START)
    else
      match RunOf(events[..|events| - 1], fallback)
      case None => None
      case Some(s) => Apply(s, events[|events| - 1], fallback)
  }

  lemma RunBegins(fallback: Held)
    ensures RunOf([], fallback) == Some(State(None, false, [], [], 0))
  {
  }

  /** A call can be made at any time, and a fetch can end exactly when one is under way. */
  lemma RunGoesOn(events: seq<Event>, e: Event, fallback: Held)
    requires RunOf(events, fallback).Some?
    ensures RunOf(events + [e], fallback).Some? <==> e.Asks? || RunOf(events, fallback).value.resolving
    ensures RunOf(events + [e], fallback).Some? ==>
              var (s, s') := (RunOf(events, fallback).value, RunOf(events + [e], fallback).value);
              match e
              case Asks(call) => s' == Ask(s, call)
              case Settles(answer) => s' == Settle(s, answer, fallback)
  {
    assert (events + [e])[..|events|] == events;
  }

  function Asked(events: seq<Event>): seq<CallId> {
    if events == [] then []
    else
      var rest := Asked(events[..|events| - 1]);
      match events[|events| - 1] { case Asks(call) => rest + [call] case Settles(_) => rest }
  }

  function Unknowns(events: seq<Event>): nat {
    if events == [] then 0
    else Unknowns(events[..|events| - 1]) + (if events[|events| - 1] == Settles(None) then 1 else 0)
  }

  function Callers(answered: seq<(CallId, Held)>): seq<CallId> {
    seq(|answered|, i requires 0 <= i < |answered| => answered[i].0)
  }

  /** Only an answer is kept: there is one fetch at a time, each fetch but the last
    * found nothing out, and no call is told anything but the fallback or the answer.
    * Every call is told once, in the order of asking, or is waiting.
    */
  lemma {:induction false} OneFetchAtATime(events: seq<Event>, fallback: Held)
    requires RunOf(events, fallback).Some?
    ensures var s := RunOf(events, fallback).value;
            && s.fetches == Unknowns(events) + (if s.resolving || s.held.Some? then 1 else 0)
            && !(s.resolving && s.held.Some?) && (s.waiting != [] ==> s.resolving)
            && (forall i :: 0 <= i < |s.answered| ==> s.answered[i].1 == fallback || Some(s.answered[i].1) == s.held)
            && Callers(s.answered) + s.waiting == Asked(events)
  {
    if events != [] {
      var before := events[..|events| - 1];
      OneFetchAtATime(before, fallback);
      var s0 := RunOf(before, fallback).value;
      var s1 := RunOf(events, fallback).value;
      match events[|events| - 1]
      case Asks(call) =>
        if s0.held.Some? {
          assert Callers(s1.answered) == Callers(s0.answered) + [call];
        } else {
          assert Callers(s1.answered) + s1.waiting == Callers(s0.answered) + s0.waiting + [call];
        }
      case Settles(answer) =>
        assert Callers(s1.answered) == Callers(s0.answered) + s0.waiting;
    }
  }

  /** Once the API has answered, the answer stays, nothing more is fetched, and every
    * later call is told it.
    */
  lemma {:induction false} AnswerIsKept(events: seq<Event>, more: seq<Event>, fallback: Held)
    requires RunOf(events, fallback).Some? && RunOf(events + more, fallback).Some?
    requires RunOf(events, fallback).value.held.Some?
    ensures var (s, s') := (RunOf(events, fallback).value, RunOf(events + more, fallback).value);
            && s'.held == s.held && s'.fetches == s.fetches && !s'.resolving
            && s'.answered == s.answered + Tell(Asked(more), s.held.value)
    decreases |more|
  {
    OneFetchAtATime(events, fallback);
    if more == [] {
      assert events + more == events;
    } else {
      var last := more[|more| - 1];
      assert (events + more)[..|events + more| - 1] == events + more[..|more| - 1];
      AnswerIsKept(events, more[..|more| - 1], fallback);
      assert (events + more)[|events + more| - 1] == last;
      if last.Asks? {
        assert Tell(Asked(more), RunOf(events, fallback).value.held.value) ==
               Tell(Asked(more[..|more| - 1]), RunOf(events, fallback).value.held.value)
               + [(last.call, RunOf(events, fallback).value.held.value)];
      }
    }
  }
}

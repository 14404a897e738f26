/** Waiting for every job to stop, against a timeout
  * (apps/api/src/jobs/production-scheduler.ts:1026-1038).
  */
module JobShutdown {
  import opened RecurringJob
  import opened Wrappers

  /** What has happened to each job so far, and what the wait has come to: true once
    * every stop has resolved, false once the timeout has fired, whichever was first.
    */
  datatype Wait = Wait(runs: seq<seq<Event>>, result: Option<bool>)

  datatype WaitEvent = OfJob(job: nat, event: Event) | TimesOut

  /** The jobs to wait for, and the name of the stop that each is sent. */
  datatype Jobs = Jobs(settings: seq<Settings>, stops: seq<StopId>)

  predicate Possible(jobs: Jobs, runs: seq<seq<Event>>) {
    && |runs| == |jobs.settings| == |jobs.stops|
    && forall i :: 0 <= i < |runs| ==> Run(jobs.settings[i], runs[i]).Some?
  }

  function StateOf(jobs: Jobs, runs: seq<seq<Event>>, i: nat): State
    requires Possible(jobs, runs) && i < |runs|
  {
    Run(jobs.settings[i], runs[i]).value
  }

  predicate AllResolved(jobs: Jobs, runs: seq<seq<Event>>)
    requires Possible(jobs, runs)
  {
    forall i :: 0 <= i < |runs| ==> jobs.stops[i] in StateOf(jobs, runs, i).resolved
  }

  /** Nobody is inside a run as it is entered, and the stops are new. */
  predicate Ready(jobs: Jobs, runs: seq<seq<Event>>) {
    && Possible(jobs, runs)
    && forall i :: 0 <= i < |runs| ==>
         StateOf(jobs, runs, i).entering.None? && jobs.stops[i] !in StateOf(jobs, runs, i).stops
  }

  function Stopped(jobs: Jobs, runs: seq<seq<Event>>): seq<seq<Event>>
    requires |runs| == |jobs.stops|
  {
    seq(|runs|, i requires 0 <= i < |runs| => runs[i] + [StopCalled(jobs.stops[i])])
  }

  function Settled(jobs: Jobs, runs: seq<seq<Event>>): Option<bool>
    requires Possible(jobs, runs)
  {
    if AllResolved(jobs, runs) then Some(true) else None
  }

  lemma StoppedIsPossible(jobs: Jobs, runs: seq<seq<Event>>)
    requires Ready(jobs, runs)
    ensures Possible(jobs, Stopped(jobs, runs))
  {
    forall i | 0 <= i < |runs| ensures Run(jobs.settings[i], Stopped(jobs, runs)[i]).Some? {
      OneMore(jobs.settings[i], runs[i], StopCalled(jobs.stops[i]));
    }
  }

  /** Every job is told to stop, and the clock is set. */
  function Begin(jobs: Jobs, runs: seq<seq<Event>>): Wait
    requires Ready(jobs, runs)
  {
    StoppedIsPossible(jobs, runs);
    Wait(Stopped(jobs, runs), Settled(jobs, Stopped(jobs, runs)))
  }

  predicate CanHappen(jobs: Jobs, w: Wait, e: WaitEvent)
    requires Possible(jobs, w.runs)
  {
    e.OfJob? ==> e.job < |w.runs| && Enabled(StateOf(jobs, w.runs, e.job), e.event)
  }

  function Extended(runs: seq<seq<Event>>, job: nat, event: Event): seq<seq<Event>>
    requires job < |runs|
  {
    runs[job := runs[job] + [event]]
  }

  lemma ExtendedIsPossible(jobs: Jobs, runs: seq<seq<Event>>, job: nat, event: Event)
    requires Possible(jobs, runs) && job < |runs| && Enabled(StateOf(jobs, runs, job), event)
    ensures Possible(jobs, Extended(runs, job, event))
  {
    OneMore(jobs.settings[job], runs[job], event);
  }

  function Step(jobs: Jobs, w: Wait, e: WaitEvent): Wait
    requires Possible(jobs, w.runs) && CanHappen(jobs, w, e)
  {
    match e
    case TimesOut => if w.result.None? then Wait(w.runs, Some(false)) else w
    case OfJob(job, event) =>
      ExtendedIsPossible(jobs, w.runs, job, event);
      var runs := Extended(w.runs, job, event);
      Wait(runs, if w.result.None? then Settled(jobs, runs) else w.result)
  }

  /** The wait after these events, or None where one of them cannot happen. */
  function After(jobs: Jobs, runs: seq<seq<Event>>, events: seq<WaitEvent>): (r: Option<Wait>)
    requires Ready(jobs, runs)
    ensures r.Some? ==> Possible(jobs, r.value.runs)
  {
    if events == [] then
      StoppedIsPossible(jobs, runs);
      Some(Begin(jobs, runs))
    else
      match After(jobs, runs, events[..|events| - 1])
      case None => None
      case Some(w) =>
        var e := events[|events| - 1];
        if !CanHappen(jobs, w, e) then None
        else
          StepIsPossible(jobs, w, e);
          Some(Step(jobs, w, e))
  }

  lemma StepIsPossible(jobs: Jobs, w: Wait, e: WaitEvent)
    requires Possible(jobs, w.runs) && CanHappen(jobs, w, e)
    ensures Possible(jobs, Step(jobs, w, e).runs)
  {
    if e.OfJob? {
      ExtendedIsPossible(jobs, w.runs, e.job, e.event);
    }
  }

  /** The wait begins once every job has been told to stop, and goes on with everything that
    * can happen: an event of a job adds to that job's run, and answers true where it makes
    * the last stop resolve; the timeout answers false. The first answer stands.
    */
  lemma WaitGoesOn(jobs: Jobs, before: seq<seq<Event>>, events: seq<WaitEvent>, e: WaitEvent)
    requires Ready(jobs, before) && After(jobs, before, events).Some?
    requires CanHappen(jobs, After(jobs, before, events).value, e)
    ensures After(jobs, before, events + [e]).Some?
    ensures var (w, w') := (After(jobs, before, events).value, After(jobs, before, events + [e]).value);
            && (e == TimesOut ==> w'.runs == w.runs && w'.result == if w.result == None then Some(false) else w.result)
            && (e.OfJob? ==>
                  && |w'.runs| == |w.runs| && w'.runs[e.job] == w.runs[e.job] + [e.event]
                  && (forall i :: 0 <= i < |w.runs| && i != e.job ==> w'.runs[i] == w.runs[i])
                  && (w.result.Some? ==> w'.result == w.result)
                  && (w.result.None? ==> w'.result == if AllResolved(jobs, w'.runs) then Some(true) else None))
  {
    assert (events + [e])[..|events|] == events;
  }

  lemma WaitBegins(jobs: Jobs, before: seq<seq<Event>>)
    requires Ready(jobs, before)
    ensures After(jobs, before, []).Some?
    ensures var w := After(jobs, before, []).value;
            && |w.runs| == |before|
            && (forall i :: 0 <= i < |before| ==> w.runs[i] == before[i] + [StopCalled(jobs.stops[i])])
            && w.result == if AllResolved(jobs, w.runs) then Some(true) else None
  {
  }

  // ---- What is kept ------------------------------------------------------------------------

  /** Each job has gone on from where it was told to stop. */
  ghost predicate GoesOn(jobs: Jobs, before: seq<seq<Event>>, w: Wait) {
    && Possible(jobs, w.runs) && |before| == |w.runs|
    && forall i :: 0 <= i < |w.runs| ==> before[i] + [StopCalled(jobs.stops[i])] <= w.runs[i]
  }

  /** What the result says is so, also later on. */
  ghost predicate Truthful(jobs: Jobs, w: Wait)
    requires Possible(jobs, w.runs)
  {
    && (w.result == Some(true) ==> AllResolved(jobs, w.runs))
    && (w.result.None? ==> !AllResolved(jobs, w.runs))
  }

  /** A stop that has resolved stays resolved. */
  lemma ExtendedKeepsResolved(jobs: Jobs, runs: seq<seq<Event>>, job: nat, event: Event)
    requires Possible(jobs, runs) && job < |runs| && Enabled(StateOf(jobs, runs, job), event)
    requires Possible(jobs, Extended(runs, job, event))
    ensures AllResolved(jobs, runs) ==> AllResolved(jobs, Extended(runs, job, event))
  {
    OneMore(jobs.settings[job], runs[job], event);
    assert StateOf(jobs, runs, job).resolved <= StateOf(jobs, Extended(runs, job, event), job).resolved;
    forall i | 0 <= i < |runs| && i != job ensures StateOf(jobs, Extended(runs, job, event), i) == StateOf(jobs, runs, i) {
    }
  }

  lemma StepKeeps(jobs: Jobs, before: seq<seq<Event>>, w: Wait, e: WaitEvent)
    requires GoesOn(jobs, before, w) && Truthful(jobs, w) && CanHappen(jobs, w, e)
    ensures GoesOn(jobs, before, Step(jobs, w, e)) && Truthful(jobs, Step(jobs, w, e))
  {
    StepIsPossible(jobs, w, e);
    if e.OfJob? {
      ExtendedKeepsResolved(jobs, w.runs, e.job, e.event);
    }
  }

  lemma {:induction false} WaitKeeps(jobs: Jobs, before: seq<seq<Event>>, events: seq<WaitEvent>)
    requires Ready(jobs, before) && After(jobs, before, events).Some?
    ensures GoesOn(jobs, before, After(jobs, before, events).value) && Truthful(jobs, After(jobs, before, events).value)
  {
    if events == [] {
      StoppedIsPossible(jobs, before);
    } else {
      var earlier := events[..|events| - 1];
      WaitKeeps(jobs, before, earlier);
      StepKeeps(jobs, before, After(jobs, before, earlier).value, events[|events| - 1]);
    }
  }

  // ---- What the answer means -----------------------------------------------------------------

  lemma JobIsIdle(jobs: Jobs, before: seq<seq<Event>>, runs: seq<seq<Event>>, i: nat)
    requires Ready(jobs, before) && Possible(jobs, runs) && i < |runs| == |before|
    requires before[i] + [StopCalled(jobs.stops[i])] <= runs[i] && jobs.stops[i] in StateOf(jobs, runs, i).resolved
    ensures StateOf(jobs, runs, i).running == {}
  {
    var called := before[i] + [StopCalled(jobs.stops[i])];
    CalledFromOutside(jobs.settings[i], before[i], jobs.stops[i], runs[i][|called|..]);
    assert runs[i] == called + runs[i][|called|..];
  }

  /** When the wait answers true nothing is running in any job, then or later. */
  lemma TrueMeansIdle(jobs: Jobs, before: seq<seq<Event>>, events: seq<WaitEvent>)
    requires Ready(jobs, before) && After(jobs, before, events).Some?
    ensures var w := After(jobs, before, events).value;
            w.result == Some(true) ==> forall i :: 0 <= i < |w.runs| ==> StateOf(jobs, w.runs, i).running == {}
  {
    WaitKeeps(jobs, before, events);
    var w := After(jobs, before, events).value;
    if w.result == Some(true) {
      forall i | 0 <= i < |w.runs| ensures StateOf(jobs, w.runs, i).running == {} {
        JobIsIdle(jobs, before, w.runs, i);
      }
    }
  }

  /** At this point the timeout fires while the stop of some job has yet to resolve. */
  ghost predicate TooLate(jobs: Jobs, before: seq<seq<Event>>, events: seq<WaitEvent>, k: nat)
    requires Ready(jobs, before)
  {
    && k < |events| && events[k] == TimesOut
    && After(jobs, before, events[..k]).Some?
    && !AllResolved(jobs, After(jobs, before, events[..k]).value.runs)
  }

  lemma TooLateGrows(jobs: Jobs, before: seq<seq<Event>>, events: seq<WaitEvent>, k: nat)
    requires Ready(jobs, before) && events != []
    ensures TooLate(jobs, before, events, k) <==>
            TooLate(jobs, before, events[..|events| - 1], k) || (k == |events| - 1 && TooLate(jobs, before, events, k))
  {
    if k < |events| - 1 {
      assert events[..|events| - 1][..k] == events[..k];
    }
  }

  lemma StepAnswers(jobs: Jobs, w: Wait, e: WaitEvent)
    requires Possible(jobs, w.runs) && CanHappen(jobs, w, e) && Truthful(jobs, w)
    ensures Step(jobs, w, e).result == Some(false) <==>
            w.result == Some(false) || (e.TimesOut? && !AllResolved(jobs, w.runs))
  {
    StepIsPossible(jobs, w, e);
    match w.result
    case Some(answer) => assert answer || !answer;
    case None =>
  }

  lemma LastEvent(jobs: Jobs, before: seq<seq<Event>>, events: seq<WaitEvent>)
    requires Ready(jobs, before) && events != [] && After(jobs, before, events).Some?
    ensures var (last, earlier) := (|events| - 1, After(jobs, before, events[..|events| - 1]));
            && earlier.Some?
            && (After(jobs, before, events).value.result == Some(false) <==>
                earlier.value.result == Some(false) || TooLate(jobs, before, events, last))
  {
    var w := After(jobs, before, events[..|events| - 1]).value;
    WaitKeeps(jobs, before, events[..|events| - 1]);
    StepAnswers(jobs, w, events[|events| - 1]);
  }

  lemma {:induction false} FalseIsTooLate(jobs: Jobs, before: seq<seq<Event>>, events: seq<WaitEvent>)
    returns (k: nat)
    requires Ready(jobs, before) && After(jobs, before, events).Some?
    requires After(jobs, before, events).value.result == Some(false)
    ensures TooLate(jobs, before, events, k)
  {
    LastEvent(jobs, before, events);
    k := |events| - 1;
    if !TooLate(jobs, before, events, k) {
      k := FalseIsTooLate(jobs, before, events[..|events| - 1]);
      TooLateGrows(jobs, before, events, k);
    }
  }

  lemma {:induction false} TooLateIsFalse(jobs: Jobs, before: seq<seq<Event>>, events: seq<WaitEvent>, k: nat)
    requires Ready(jobs, before) && After(jobs, before, events).Some? && TooLate(jobs, before, events, k)
    ensures After(jobs, before, events).value.result == Some(false)
    decreases |events|
  {
    LastEvent(jobs, before, events);
    if k < |events| - 1 {
      TooLateGrows(jobs, before, events, k);
      TooLateIsFalse(jobs, before, events[..|events| - 1], k);
    }
  }

  /** The wait answers false exactly when the timeout fires before the last stop has
    * resolved.
    */
  lemma AnswersFalseIff(jobs: Jobs, before: seq<seq<Event>>, events: seq<WaitEvent>)
    requires Ready(jobs, before) && After(jobs, before, events).Some?
    ensures After(jobs, before, events).value.result == Some(false) <==> exists k :: TooLate(jobs, before, events, k)
  {
    if After(jobs, before, events).value.result == Some(false) {
      var k := FalseIsTooLate(jobs, before, events);
    }
    if k :| TooLate(jobs, before, events, k) {
      TooLateIsFalse(jobs, before, events, k);
    }
  }
}

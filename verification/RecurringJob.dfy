/** A job that runs, waits, and runs again until it is stopped
  * (apps/api/src/jobs/production-scheduler.ts:954-1038).
  */
module RecurringJob {
  import opened Wrappers

  type RunId = nat
  type TimerId = nat
  type StopId = nat

  // ---- Delays ----------------------------------------------------------------------------------

  datatype Fraction = Absent | NotFinite | Finite(value: real)

  function Clamped(fraction: Fraction): (f: real)
    ensures 0.0 <= f <= 1.0
  {
    match fraction
    case Finite(value) => if value < 0.0 then 0.0 else if value > 1.0 then 1.0 else value
    case _ => 0.0
  }

  /** `Math.round` */
  function Round(x: real): int {
    (x + 0.5).Floor
  }

  /** An interval times a factor, in whole milliseconds. */
  function Stretch(intervalMs: nat, factor: real): int {
    Round(intervalMs as real * factor)
  }

  function Factor(jitter: real, random: real): real {
    1.0 + random * jitter
  }

  function NextDelay(intervalMs: nat, jitter: real, random: real): int {
    if jitter == 0.0 then intervalMs else Stretch(intervalMs, Factor(jitter, random))
  }

  function LongestDelay(intervalMs: nat, jitter: real): int {
    Stretch(intervalMs, 1.0 + jitter)
  }

  lemma Scaled(n: real, a: real, b: real)
    requires n >= 0.0 && a <= b
    ensures n * a <= n * b
  {
    assert n * (b - a) >= 0.0;
  }

  lemma FactorBounds(f: real, random: real)
    requires f >= 0.0 && 0.0 <= random < 1.0
    ensures 1.0 <= Factor(f, random) <= 1.0 + f
  {
    Scaled(f, 0.0, random);
    Scaled(f, random, 1.0);
  }

  lemma Rounded(n: nat, x: real, y: real)
    requires n as real <= x <= y
    ensures n <= Round(x) <= Round(y)
  {
  }

  /** An interval times a factor lies between the interval and it times a larger one. */
  lemma Stretched(n: nat, factor: real, most: real)
    requires 1.0 <= factor <= most
    ensures n <= Stretch(n, factor) <= Stretch(n, most)
  {
    Scaled(n as real, 1.0, factor);
    Scaled(n as real, factor, most);
    Rounded(n, n as real * factor, n as real * most);
  }

  /** Jitter is added and never subtracted, and is never more than the fraction. */
  lemma DelayBounds(intervalMs: nat, fraction: Fraction, random: real)
    requires 0.0 <= random < 1.0
    ensures intervalMs <= NextDelay(intervalMs, Clamped(fraction), random) <= LongestDelay(intervalMs, Clamped(fraction))
  {
    var f := Clamped(fraction);
    Stretched(intervalMs, 1.0, 1.0 + f);
    FactorBounds(f, random);
    Stretched(intervalMs, Factor(f, random), 1.0 + f);
  }

  /** The next run is planned after the interval itself where no jitter was asked for, and
    * otherwise after the interval and the random share of the jitter, to the nearest
    * millisecond: a fraction above one counts as one.
    */
  lemma DelayExact(intervalMs: nat, fraction: Fraction, random: real)
    requires 0.0 <= random < 1.0
    ensures var delay := NextDelay(intervalMs, Clamped(fraction), random);
            match fraction
            case Finite(value) =>
              var most := if value > 1.0 then 1.0 else value;
              if value <= 0.0 then delay == intervalMs
              else delay as real - 0.5 <= intervalMs as real * (1.0 + random * most) < delay as real + 0.5
            case _ => delay == intervalMs
  {
  }

  // ---- The job -----------------------------------------------------------------------------------

  /** `timer` and `activeRun` are the closure's variables. `pending` are the timeouts
    * that will fire, `running` the runs at work, `ended` the runs whose continuation
    * has yet to be called. While a run is `entering` its first, synchronous part is on
    * the stack, and `activeRun` has not been set to it. A stop waits for the run that
    * was active when it was called.
    */
  datatype State = State(
    stopped: bool,
    timer: Option<TimerId>,
    activeRun: Option<RunId>,
    pending: set<TimerId>,
    entering: Option<RunId>,
    running: set<RunId>,
    ended: set<RunId>,
    minted: nat,
    delays: seq<int>,
    stops: map<StopId, Option<RunId>>,
    resolved: set<StopId>)

  datatype Event =
    | Fires(timer: TimerId)
    | Enters
    | Ends(run: RunId)
    | Continues(run: RunId, random: real)
    | StopCalled(stop: StopId)
    | StopResolves(stop: StopId)

  datatype Settings = Settings(intervalMs: nat, fraction: Fraction)

  /** The first run has been started before anyone holds the handle. */
  const START := State(false, None, Some(0), {}, None, {0}, {}, 1, [], map[], {})

  /** The one thread does nothing else while a run's first part is on its stack, but
    * that part may itself call `stop`.
    */
  predicate Enabled(s: State, e: Event) {
    match e
    case Fires(timer) => s.entering.None? && timer in s.pending
    case Enters => s.entering.Some?
    case Ends(run) => s.entering.None? && run in s.running
    case Continues(run, random) => s.entering.None? && run in s.ended && 0.0 <= random < 1.0
    case StopCalled(stop) => stop !in s.stops
    case StopResolves(stop) =>
      && s.entering.None? && stop in s.stops && stop !in s.resolved
      && (s.stops[stop].Some? ==> s.stops[stop].value !in s.running && s.stops[stop].value !in s.ended)
  }

  function Apply(settings: Settings, s: State, e: Event): State
    requires Enabled(s, e)
  {
    match e
    case Fires(timer) =>
      var s' := s.(pending := s.pending - {timer});
      if s.stopped then s'
      else s'.(entering := Some(s.minted), running := s.running + {s.minted}, minted := s.minted + 1)
    case Enters => s.(activeRun := s.entering, entering := None)
    case Ends(run) => s.(running := s.running - {run}, ended := s.ended + {run})
    case Continues(run, random) =>
      var s' := s.(ended := s.ended - {run}, activeRun := if s.activeRun == Some(run) then None else s.activeRun);
      if s.stopped then s'
      else s'.(timer := Some(s.minted), pending := s.pending + {s.minted}, minted := s.minted + 1,
               delays := s.delays + [NextDelay(settings.intervalMs, Clamped(settings.fraction), random)])
    case StopCalled(stop) =>
      s.(stopped := true, pending := if s.timer.Some? then s.pending - {s.timer.value} else s.pending,
         stops := s.stops[stop := s.activeRun])
    case StopResolves(stop) => s.(resolved := s.resolved + {stop})
  }

  function Run(settings: Settings, events: seq<Event>): Option<State> {
    if events == [] then Some(START)
    else
      match Run(settings, events[..|events| - 1])
      case None => None
      case Some(s) =>
        var e := events[|events| - 1];
        if Enabled(s, e) then Some(Apply(settings, s, e)) else None
  }

  /** The closure, with the outside world in fields of its own. */
  class Job {
    const settings: Settings
    var stopped: bool
    var timer: Option<TimerId>
    var activeRun: Option<RunId>
    var pending: set<TimerId>
    var entering: Option<RunId>
    var running: set<RunId>
    var ended: set<RunId>
    var minted: nat
    var delays: seq<int>
    var stops: map<StopId, Option<RunId>>
    var resolved: set<StopId>

    constructor (settings: Settings)
      ensures this.settings == settings && Now() == START
    {
      this.settings := settings;
      stopped, timer, activeRun, pending, entering := false, None, Some(0), {}, None;
      running, ended, minted, delays, stops, resolved := {0}, {}, 1, [], map[], {};
    }

    function Now(): State
      reads this
    {
      State(stopped, timer, activeRun, pending, entering, running, ended, minted, delays, stops, resolved)
    }

    /** The timeout fires: `runAndSchedule` up to the call of the run. */
    method RunAndSchedule(fired: TimerId)
      requires Enabled(Now(), Fires(fired))
      modifies this
      ensures Now() == Apply(settings, old(Now()), Fires(fired))
    {
      pending := pending - {fired};
      if stopped {
        return;
      }
      entering := Some(minted);
      running := running + {minted};
      minted := minted + 1;
    }

    method Entered()
      requires Enabled(Now(), Enters)
      modifies this
      ensures Now() == Apply(settings, old(Now()), Enters)
    {
      activeRun := entering;
      entering := None;
    }

    /** What follows a run: it is not the active one any more, and the next is planned. */
    method Continue(run: RunId, random: real)
      requires Enabled(Now(), Continues(run, random))
      modifies this
      ensures Now() == Apply(settings, old(Now()), Continues(run, random))
    {
      ended := ended - {run};
      if activeRun == Some(run) {
        activeRun := None;
      }
      if !stopped {
        timer := Some(minted);
        pending := pending + {minted};
        minted := minted + 1;
        delays := delays + [NextDelay(settings.intervalMs, Clamped(settings.fraction), random)];
      }
    }

    method Stop(stop: StopId)
      requires Enabled(Now(), StopCalled(stop))
      modifies this
      ensures Now() == Apply(settings, old(Now()), StopCalled(stop))
    {
      stopped := true;
      if timer.Some? {
        pending := pending - {timer.value};
      }
      stops := stops[stop := activeRun];
    }
  }

  // ---- Every interleaving --------------------------------------------------------------------------

  /** There is a run, or a run to be followed up, or a timeout, and only one of them. */
  ghost predicate OneThing(s: State) {
    && (forall r, q :: r in s.running + s.ended && q in s.running + s.ended ==> r == q)
    && s.running !! s.ended
    && (s.pending != {} ==> s.running == {} && s.ended == {} && s.timer.Some? && s.pending == {s.timer.value})
  }

  ghost predicate Inv(settings: Settings, s: State) {
    && OneThing(s)
    && (forall r :: r in s.running + s.ended ==> r < s.minted)
    && (s.entering.Some? ==> s.running == {s.entering.value} && s.ended == {} && s.activeRun.None?)
    && (s.entering.None? ==>
          (forall r :: r in s.running + s.ended ==> s.activeRun == Some(r)) &&
          (s.activeRun.Some? ==> s.activeRun.value in s.running + s.ended))
    && (s.stops != map[] ==> s.stopped)
    && (s.stopped ==> s.pending == {})
    && (!s.stopped ==> s.running + s.ended != {} || s.pending != {})
    && s.resolved <= s.stops.Keys
    && (forall d :: d in s.delays ==>
          settings.intervalMs <= d <= LongestDelay(settings.intervalMs, Clamped(settings.fraction)))
  }

  lemma StepKeepsInv(settings: Settings, s: State, e: Event)
    requires Inv(settings, s) && Enabled(s, e)
    ensures Inv(settings, Apply(settings, s, e))
  {
    match e
    case Continues(run, random) => DelayBounds(settings.intervalMs, settings.fraction, random);
    case _ =>
  }

  lemma {:induction false} RunKeepsInv(settings: Settings, events: seq<Event>)
    requires Run(settings, events).Some?
    ensures Inv(settings, Run(settings, events).value)
  {
    if events != [] {
      RunKeepsInv(settings, events[..|events| - 1]);
      StepKeepsInv(settings, Run(settings, events[..|events| - 1]).value, events[|events| - 1]);
    }
  }

  /** In every interleaving: never two runs at once, until it is stopped always a run at work
    * or a timeout to start one, and every delay within its bounds.
    */
  lemma NeverTwoRuns(settings: Settings, events: seq<Event>)
    requires Run(settings, events).Some?
    ensures var s := Run(settings, events).value;
            && |s.running + s.ended| + |s.pending| <= 1
            && (!s.stopped ==> |s.running + s.ended| + |s.pending| == 1)
            && forall d :: d in s.delays ==>
                 settings.intervalMs <= d <= LongestDelay(settings.intervalMs, Clamped(settings.fraction))
  {
    RunKeepsInv(settings, events);
    var s := Run(settings, events).value;
    AtMostOne(s.running + s.ended);
    if s.running + s.ended != {} {
      assert |s.running + s.ended| == 1 && s.pending == {};
    }
  }

  lemma AtMostOne(xs: set<nat>)
    requires forall x, y :: x in xs && y in xs ==> x == y
    ensures |xs| <= 1
  {
    if xs != {} {
      var x :| x in xs;
      assert xs == {x};
    }
  }

  /** What follows a run: one timeout, under a number of its own, and one delay, unless the
    * job was stopped.
    */
  lemma ContinuesExact(settings: Settings, s: State, run: RunId, random: real)
    requires Enabled(s, Continues(run, random))
    ensures var s' := Apply(settings, s, Continues(run, random));
            && s'.running == s.running && s'.ended == s.ended - {run}
            && (s.stopped ==> s'.pending == s.pending && s'.delays == s.delays)
            && (!s.stopped ==>
                  && s'.timer == Some(s.minted) && s'.pending == s.pending + {s.minted} && s'.minted == s.minted + 1
                  && s'.delays == s.delays + [NextDelay(settings.intervalMs, Clamped(settings.fraction), random)])
  {
  }

  /** After `stop` is called no run is started. */
  lemma {:induction false} NoneStartsAfterStop(settings: Settings, events: seq<Event>, more: seq<Event>)
    requires Run(settings, events).Some? && Run(settings, events + more).Some?
    requires Run(settings, events).value.stopped
    ensures var (s, s') := (Run(settings, events).value, Run(settings, events + more).value);
            s'.stopped && s'.running <= s.running && s'.pending == {}
    decreases |more|
  {
    if more == [] {
      assert events + more == events;
      RunKeepsInv(settings, events);
    } else {
      assert (events + more)[..|events + more| - 1] == events + more[..|more| - 1];
      NoneStartsAfterStop(settings, events, more[..|more| - 1]);
      RunKeepsInv(settings, events + more);
    }
  }

  /** A stop that was called while no run was being entered waits for the run there was. */
  ghost predicate Waits(s: State, stop: StopId) {
    && s.stopped && s.entering.None? && stop in s.stops
    && (s.running + s.ended == {} || (s.stops[stop].Some? && s.stops[stop].value in s.running + s.ended))
    && (stop in s.resolved ==> s.running + s.ended == {})
  }

  lemma WaitingStep(settings: Settings, s: State, e: Event, stop: StopId)
    requires Inv(settings, s) && Waits(s, stop) && Enabled(s, e)
    ensures Waits(Apply(settings, s, e), stop)
  {
    var s' := Apply(settings, s, e);
    match e {
      case Ends(run) => assert s'.running + s'.ended == s.running + s.ended;
      case Continues(run, _) => assert s'.running + s'.ended == {};
      case StopResolves(other) => assert stop == other ==> s.running + s.ended == {};
      case _ =>
    }
  }

  lemma {:induction false} WaitsOn(settings: Settings, called: seq<Event>, more: seq<Event>, stop: StopId)
    requires Run(settings, called).Some? && Waits(Run(settings, called).value, stop)
    requires Run(settings, called + more).Some?
    ensures Waits(Run(settings, called + more).value, stop)
    decreases |more|
  {
    if more == [] {
      assert called + more == called;
    } else {
      var before := called + more[..|more| - 1];
      assert (called + more)[..|called + more| - 1] == before;
      WaitsOn(settings, called, more[..|more| - 1], stop);
      RunKeepsInv(settings, before);
      WaitingStep(settings, Run(settings, before).value, more[|more| - 1], stop);
    }
  }

  /** Once the stop has resolved, no run is at work. */
  ghost predicate IdleOnceResolved(settings: Settings, events: seq<Event>, stop: StopId) {
    Run(settings, events).Some? && stop in Run(settings, events).value.resolved ==>
      Run(settings, events).value.running == {}
  }

  lemma CalledFromOutside(settings: Settings, before: seq<Event>, stop: StopId, more: seq<Event>)
    requires Run(settings, before).Some? && stop !in Run(settings, before).value.stops
    requires Run(settings, before).value.entering.None?
    ensures IdleOnceResolved(settings, before + [StopCalled(stop)] + more, stop)
  {
    var called := before + [StopCalled(stop)];
    var s := Run(settings, before).value;
    RunKeepsInv(settings, before);
    OneMore(settings, before, StopCalled(stop));
    assert Waits(Run(settings, called).value, stop);
    if Run(settings, called + more).Some? {
      WaitsOn(settings, called, more, stop);
    }
  }

  lemma OneByOne(events: seq<Event>, e: Event, f: Event)
    ensures events + [e, f] == events + [e] + [f]
  {
  }

  lemma CalledFromInside(settings: Settings, before: seq<Event>, stop: StopId)
    requires Run(settings, before).Some? && stop !in Run(settings, before).value.stops
    requires Run(settings, before).value.entering.Some?
    ensures !IdleOnceResolved(settings, before + [StopCalled(stop)] + [Enters, StopResolves(stop)], stop)
  {
    var called := before + [StopCalled(stop)];
    var entered := called + [Enters];
    RunKeepsInv(settings, before);
    OneMore(settings, before, StopCalled(stop));
    OneMore(settings, called, Enters);
    OneMore(settings, entered, StopResolves(stop));
    OneByOne(called, Enters, StopResolves(stop));
  }

  /** However things go on, nothing is running once a stop has resolved: this holds of
    * exactly the stops that are not called by a run while it is being entered. Such a
    * run is not yet the active one, and its stop does not wait for it.
    */
  lemma StopWaitsIff(settings: Settings, before: seq<Event>, stop: StopId)
    requires Run(settings, before).Some? && stop !in Run(settings, before).value.stops
    ensures (forall more :: IdleOnceResolved(settings, before + [StopCalled(stop)] + more, stop)) <==>
            Run(settings, before).value.entering.None?
  {
    if Run(settings, before).value.entering.None? {
      forall more ensures IdleOnceResolved(settings, before + [StopCalled(stop)] + more, stop) {
        CalledFromOutside(settings, before, stop, more);
      }
    } else {
      CalledFromInside(settings, before, stop);
    }
  }

  /** That can happen: the second run of this job is entered with a stop in hand. */
  lemma SomeRunIsEntered(settings: Settings)
    ensures var events := [Ends(0), Continues(0, 0.0), Fires(1)];
            Run(settings, events).Some? && Run(settings, events).value.entering == Some(2)
  {
    OneMore(settings, [], Ends(0));
    OneMore(settings, [Ends(0)], Continues(0, 0.0));
    OneMore(settings, [Ends(0), Continues(0, 0.0)], Fires(1));
    assert [] + [Ends(0)] == [Ends(0)] && [Ends(0)] + [Continues(0, 0.0)] == [Ends(0), Continues(0, 0.0)];
    assert [Ends(0), Continues(0, 0.0)] + [Fires(1)] == [Ends(0), Continues(0, 0.0), Fires(1)];
  }

  lemma OneMore(settings: Settings, events: seq<Event>, e: Event)
    requires Run(settings, events).Some? && Enabled(Run(settings, events).value, e)
    ensures Run(settings, events + [e]) == Some(Apply(settings, Run(settings, events).value, e))
  {
    assert (events + [e])[..|events|] == events;
  }
}

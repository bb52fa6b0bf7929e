/**
 The perpetual sweep of one installation: a chain of ticks, each of which sends the next.
 A tick already sent cannot be recalled, so each carries the generation of its chain and
 stopping the chain means moving on to another generation.
 */
module Scheduler {
  import opened Wrappers
  import opened PrKeys

  /** What a tick carries; one sent before generations existed carries none. */
  type Carried = Option<u64>

  datatype SchedulerState = SchedulerState(started: bool, tickPending: bool, generation: u64)

  datatype SchedulerError = GenerationOverflow

  function Armed(generation: u64): SchedulerState {
    SchedulerState(true, true, generation)
  }

  function NextGeneration(current: u64): Result<u64, SchedulerError> {
    if current < U64_MAX then Success(current + 1) else Failure(GenerationOverflow)
  }

  function ArmNext(current: u64): Result<Option<SchedulerState>, SchedulerError> {
    match NextGeneration(current)
    case Success(generation) => Success(Some(Armed(generation)))
    case Failure(e) => Failure(e)
  }

  /** The state `start` leaves the object in, or nothing if a tick is on its way already. */
  function StartTransition(s: SchedulerState): Result<Option<SchedulerState>, SchedulerError> {
    if s.started && s.tickPending then Success(None)
    else if s.started && s.generation > 0 then Success(Some(Armed(s.generation)))
    else ArmNext(s.generation)
  }

  /** Whether `tick` must sweep and send its successor, and with which generation. */
  function TickTransition(s: SchedulerState, incoming: Carried): Result<Option<SchedulerState>, SchedulerError> {
    if !s.started then Success(None)
    else match incoming
      case Some(generation) =>
        if generation == s.generation then Success(Some(Armed(generation))) else Success(None)
      case None => if s.tickPending then Success(None) else ArmNext(s.generation)
  }

  function PauseTransition(s: SchedulerState): Result<SchedulerState, SchedulerError> {
    match NextGeneration(s.generation)
    case Success(generation) => Success(SchedulerState(false, false, generation))
    case Failure(e) => Failure(e)
  }

  /** The object's state and the ticks Restate has still to deliver to it. */
  datatype World = World(state: SchedulerState, inFlight: multiset<Carried>)

  /** Every handler that reads or writes the chain, with how its sweep or purge ended. */
  datatype Event =
    | Start
    | Tick(incoming: Carried, swept: Result<nat, string>)
    | Pause
    | Purge(purged: Result<nat, string>)

  predicate Enabled(w: World, e: Event) {
    e.Tick? ==> e.incoming in w.inFlight
  }

  /** Persist the next state and send its tick. */
  function Arm(w: World, transition: Result<Option<SchedulerState>, SchedulerError>): World {
    if transition.Success? && transition.value.Some? then
      var next := transition.value.value;
      World(next, w.inFlight + multiset{Some(next.generation)})
    else w
  }

  function Apply(w: World, e: Event): World {
    match e
    case Start => Arm(w, StartTransition(w.state))
    case Tick(incoming, _) =>
      Arm(w.(inFlight := w.inFlight - multiset{incoming}), TickTransition(w.state, incoming))
    case Pause => Stopped(w)
    case Purge(_) => Stopped(w)
  }

  function Stopped(w: World): World {
    match PauseTransition(w.state)
    case Success(next) => w.(state := next)
    case Failure(_) => w
  }

  predicate Runs(w: World, events: seq<Event>)
    decreases |events|
  {
    events == [] || (Enabled(w, events[0]) && Runs(Apply(w, events[0]), events[1..]))
  }

  function End(w: World, events: seq<Event>): World
    decreases |events|
  {
    if events == [] then w else End(Apply(w, events[0]), events[1..])
  }

  /** Whether a tick delivered now would sweep and send a successor. */
  predicate Sweeps(s: SchedulerState, incoming: Carried) {
    TickTransition(s, incoming).Success? && TickTransition(s, incoming).value.Some?
  }

  /** What the ticks that swept carried, in the order they did. */
  function Swept(w: World, events: seq<Event>): seq<Carried>
    decreases |events|
  {
    if events == [] then []
    else
      (if events[0].Tick? && Sweeps(w.state, events[0].incoming) then [events[0].incoming] else [])
      + Swept(Apply(w, events[0]), events[1..])
  }

  // ----- Never a second chain -----

  /** An object as an earlier release, which knew no generations, may have left it. */
  predicate Legacy(w: World) {
    !w.state.tickPending && forall t :: t in w.inFlight ==> t.None?
  }

  /**
   `tickPending` tells the truth: exactly one tick of the current generation is in flight
   when it is set and none when it is not, and none of a later generation ever is.
   */
  predicate OneChain(w: World) {
    && (forall t :: t in w.inFlight && t.Some? ==> t.value <= w.state.generation)
    && w.inFlight[Some(w.state.generation)] == (if w.state.tickPending then 1 else 0)
    && (w.state.tickPending ==> w.state.started)
  }

  /** Arming keeps it, as long as no tick of the generation armed is in flight already. */
  lemma {:induction false} ArmKeepsOneChain(w: World, next: SchedulerState)
    requires forall t :: t in w.inFlight && t.Some? ==> t.value <= w.state.generation
    requires next == Armed(next.generation) && w.state.generation <= next.generation
    requires next.generation == w.state.generation ==> Some(next.generation) !in w.inFlight
    ensures OneChain(Arm(w, Success(Some(next))))
  {
    assert forall t :: t in w.inFlight + multiset{Some(next.generation)} ==>
      t in w.inFlight || t == Some(next.generation);
  }

  lemma {:induction false} TickKeepsOneChain(w: World, e: Event)
    requires OneChain(w) && e.Tick? && Enabled(w, e)
    ensures OneChain(Apply(w, e))
  {
    var transition := TickTransition(w.state, e.incoming);
    var rest := w.(inFlight := w.inFlight - multiset{e.incoming});
    assert forall t :: t in rest.inFlight ==> t in w.inFlight;
    if transition.Success? && transition.value.Some? {
      ArmKeepsOneChain(rest, transition.value.value);
    }
  }

  lemma {:induction false} StartKeepsOneChain(w: World)
    requires OneChain(w)
    ensures OneChain(Apply(w, Start))
  {
    var transition := StartTransition(w.state);
    if transition.Success? && transition.value.Some? {
      ArmKeepsOneChain(w, transition.value.value);
    }
  }

  lemma {:induction false} StopKeepsOneChain(w: World)
    requires OneChain(w)
    ensures OneChain(Stopped(w))
  {
    assert w.state.generation < U64_MAX ==> Some(w.state.generation + 1) !in w.inFlight;
  }

  lemma {:induction false} GenerationGrows(w: World, e: Event)
    ensures w.state.generation <= Apply(w, e).state.generation
  {
  }

  lemma {:induction false} StepKeepsOneChain(w: World, e: Event)
    requires OneChain(w) && Enabled(w, e)
    ensures OneChain(Apply(w, e))
    ensures w.state.generation <= Apply(w, e).state.generation
  {
    GenerationGrows(w, e);
    match e {
      case Start => StartKeepsOneChain(w);
      case Tick(_, _) => TickKeepsOneChain(w, e);
      case Pause => StopKeepsOneChain(w);
      case Purge(_) => StopKeepsOneChain(w);
    }
  }

  lemma {:induction false} RunKeepsOneChain(w: World, events: seq<Event>)
    requires OneChain(w) && Runs(w, events)
    ensures OneChain(End(w, events)) && w.state.generation <= End(w, events).state.generation
    decreases |events|
  {
    if events != [] {
      StepKeepsOneChain(w, events[0]);
      RunKeepsOneChain(Apply(w, events[0]), events[1..]);
    }
  }

  /**
   Whatever stale and legacy ticks are in flight and however sweeps, purges and starts
   interleave: an armed object has exactly one tick in flight that would sweep, and one that
   is stopped has none.
   */
  lemma {:induction false} NeverASecondChain(w: World, events: seq<Event>)
    requires Legacy(w) && Runs(w, events)
    ensures var end := End(w, events);
      && (forall t :: t in end.inFlight && t.Some? ==> t.value <= end.state.generation)
      && (end.state.tickPending ==>
            && end.state.started && end.inFlight[Some(end.state.generation)] == 1
            && forall t :: Sweeps(end.state, t) <==> t == Some(end.state.generation))
      && (!end.state.started ==> !end.state.tickPending && forall t :: !Sweeps(end.state, t))
      && (!end.state.tickPending ==> Some(end.state.generation) !in end.inFlight)
  {
    assert Some(w.state.generation) !in w.inFlight;
    RunKeepsOneChain(w, events);
  }

  // ----- An armed chain never dies silently -----

  /** A pause or a purge, unless the generations have run out. */
  predicate Stops(w: World, e: Event) {
    (e.Pause? || e.Purge?) && w.state.generation < U64_MAX
  }

  /** Some handler of the run stopped the chain. */
  predicate EverStopped(w: World, events: seq<Event>)
    decreases |events|
  {
    events != [] && (Stops(w, events[0]) || EverStopped(Apply(w, events[0]), events[1..]))
  }

  lemma {:induction false} ArmedStep(w: World, e: Event)
    requires OneChain(w) && w.state.tickPending && Enabled(w, e)
    ensures Apply(w, e).state == if Stops(w, e) then SchedulerState(false, false, w.state.generation + 1) else w.state
  {
  }

  /**
   An armed chain stays armed, with its own generation and its one tick in flight, exactly
   as long as no pause or purge stops it: no failed sweep, stale tick or second start does.
   */
  lemma {:induction false} ArmedUntilStopped(w: World, events: seq<Event>)
    requires OneChain(w) && w.state.tickPending && Runs(w, events)
    ensures !EverStopped(w, events) <==> End(w, events).state == w.state
    ensures !EverStopped(w, events) ==> End(w, events).inFlight[Some(w.state.generation)] == 1
    ensures EverStopped(w, events) ==> w.state.generation < End(w, events).state.generation
    decreases |events|
  {
    if events != [] {
      ArmedStep(w, events[0]);
      StepKeepsOneChain(w, events[0]);
      if Stops(w, events[0]) {
        RunKeepsOneChain(Apply(w, events[0]), events[1..]);
      } else {
        ArmedUntilStopped(Apply(w, events[0]), events[1..]);
      }
    }
  }

  // ----- A chain of an earlier release -----

  /** A tick of an earlier release, or a start, arms its object: one tick in flight that sweeps. */
  lemma {:induction false} LegacyTickArms(w: World, e: Event)
    requires Legacy(w) && w.state.started && w.state.generation < U64_MAX
    requires Enabled(w, e) && !Stops(w, e)
    ensures OneChain(Apply(w, e)) && Apply(w, e).state.tickPending && Apply(w, e).state.started
    ensures e.Tick? ==>
      && e.incoming == None
      && Apply(w, e).state.generation == w.state.generation + 1
      && Apply(w, e).inFlight == w.inFlight - multiset{None} + multiset{Some(w.state.generation + 1)}
  {
    assert Some(w.state.generation) !in w.inFlight;
    StepKeepsOneChain(w, e);
  }

  /**
   So once the first tick of an earlier release is delivered its chain goes on for good: over
   any run that starts there and that no pause or purge stops, the object ends armed, with
   exactly one tick in flight that would sweep.
   */
  lemma {:induction false} LegacyChainGoesOn(w: World, events: seq<Event>)
    requires Legacy(w) && w.state.started && w.state.generation < U64_MAX
    requires events != [] && Runs(w, events) && !EverStopped(w, events)
    ensures var end := End(w, events);
      && end.state.started && end.state.tickPending && end.inFlight[Some(end.state.generation)] == 1
      && w.state.generation <= end.state.generation
      && (events[0].Tick? ==> end.state.generation == w.state.generation + 1)
      && forall t :: Sweeps(end.state, t) <==> t == Some(end.state.generation)
  {
    LegacyTickArms(w, events[0]);
    ArmedUntilStopped(Apply(w, events[0]), events[1..]);
  }

  // ----- A stopped chain stays stopped -----

  /** The object is past `generation` and owes nothing to the ticks of it or before. */
  predicate Past(s: SchedulerState, generation: u64) {
    generation < s.generation && (s.tickPending <==> s.started) && (s.started ==> generation + 1 < s.generation)
  }

  lemma {:induction false} PastStep(w: World, e: Event, generation: u64)
    requires OneChain(w) && Past(w.state, generation) && Enabled(w, e)
    ensures Past(Apply(w, e).state, generation)
    ensures !w.state.started && !e.Start? ==> !Apply(w, e).state.started
    ensures e.Tick? && Sweeps(w.state, e.incoming) ==> e.incoming.Some? && generation + 1 < e.incoming.value
  {
  }

  lemma {:induction false} PastSweeps(w: World, events: seq<Event>, generation: u64)
    requires OneChain(w) && Past(w.state, generation) && Runs(w, events)
    ensures forall t :: t in Swept(w, events) ==> t.Some? && generation + 1 < t.value
    ensures !w.state.started && (forall i :: 0 <= i < |events| ==> !events[i].Start?) ==> Swept(w, events) == []
    decreases |events|
  {
    if events != [] {
      PastStep(w, events[0], generation);
      StepKeepsOneChain(w, events[0]);
      PastSweeps(Apply(w, events[0]), events[1..], generation);
    }
  }

  /**
   The fence: once a pause or purge has stopped the chain, no tick then in flight ever
   sweeps again, legacy ones included, and nothing sweeps at all until the next start.
   */
  lemma {:induction false} StoppedStaysStopped(w: World, stop: Event, events: seq<Event>)
    requires OneChain(w) && Stops(w, stop) && Runs(Apply(w, stop), events)
    ensures forall t :: t in w.inFlight ==> t !in Swept(Apply(w, stop), events)
    ensures (forall i :: 0 <= i < |events| ==> !events[i].Start?) ==> Swept(Apply(w, stop), events) == []
  {
    StepKeepsOneChain(w, stop);
    PastSweeps(Apply(w, stop), events, w.state.generation);
  }

  // ----- Running out of generations -----

  /**
   `start` leaves the object armed unless it has to take a new generation and none is left,
   and a pause stops it exactly when one is left; what fails changes nothing.
   */
  lemma {:induction false} OverflowExactly(w: World)
    ensures Apply(w, Start).state.tickPending && Apply(w, Start).state.started
       <==> (w.state.started && (w.state.tickPending || w.state.generation > 0)) || w.state.generation < U64_MAX
    ensures Apply(w, Pause).state.started <==> w.state.started && w.state.generation == U64_MAX
    ensures w.state.generation == U64_MAX ==> Apply(w, Pause) == w
  {
  }

  /** At the last generation an armed chain can no longer be stopped, and so runs for ever. */
  lemma {:induction false} LastGenerationNeverStops(w: World, events: seq<Event>)
    requires OneChain(w) && w.state == Armed(U64_MAX) && Runs(w, events)
    ensures !EverStopped(w, events) && End(w, events).state == w.state
    decreases |events|
  {
    if events != [] {
      ArmedStep(w, events[0]);
      StepKeepsOneChain(w, events[0]);
      LastGenerationNeverStops(Apply(w, events[0]), events[1..]);
    }
  }

  // ----- The handlers -----

  datatype StartOutcome = AlreadyArmed | Started(generation: u64) | StartFailed(error: SchedulerError)

  datatype TickOutcome = Dropped | SweptAll(repositories: nat) | SweepFailed(reason: string) | TickFailed(error: SchedulerError)

  /** One installation's object, with the ticks sent to it and not yet delivered. */
  class InstallationSync {
    var started: bool
    var tickPending: bool
    var generation: u64
    var inFlight: multiset<Carried>

    function State(): SchedulerState
      reads this
    {
      SchedulerState(started, tickPending, generation)
    }

    ghost function View(): World
      reads this
    {
      World(State(), inFlight)
    }

    constructor (started: bool, generation: u64, legacyTicks: nat)
      ensures View() == World(SchedulerState(started, false, generation), multiset{}[None := legacyTicks])
      ensures OneChain(View())
    {
      this.started, this.tickPending, this.generation := started, false, generation;
      this.inFlight := multiset{}[None := legacyTicks];
    }

    method WriteState(state: SchedulerState)
      modifies this`started, this`tickPending, this`generation
      ensures State() == state
    {
      generation, started, tickPending := state.generation, state.started, state.tickPending;
    }

    method SendTick(carried: u64)
      modifies this`inFlight
      ensures inFlight == old(inFlight) + multiset{Some(carried)}
    {
      inFlight := inFlight + multiset{Some(carried)};
    }

    method Start() returns (outcome: StartOutcome)
      requires OneChain(View())
      modifies this
      ensures View() == Apply(old(View()), Event.Start) && OneChain(View())
      ensures outcome == AlreadyArmed <==> old(started) && old(tickPending)
      ensures outcome.Started? ==>
        && started && tickPending && generation == outcome.generation
        && generation == (if old(started) && old(generation) > 0 then old(generation) else old(generation) + 1)
        && inFlight == old(inFlight) + multiset{Some(generation)}
      ensures outcome.StartFailed? <==>
        !(old(started) && (old(tickPending) || old(generation) > 0)) && old(generation) == U64_MAX
      ensures outcome.StartFailed? ==> View() == old(View())
    {
      StepKeepsOneChain(View(), Event.Start);
      match StartTransition(State()) {
        case Failure(e) => outcome := StartFailed(e);
        case Success(None) => outcome := AlreadyArmed;
        case Success(Some(next)) =>
          WriteState(next);
          SendTick(next.generation);
          outcome := Started(next.generation);
      }
    }

    /** A tick is delivered; `sweep` is how the sweep goes if it comes to one. */
    method Tick(incoming: Carried, sweep: Result<nat, string>) returns (outcome: TickOutcome)
      requires OneChain(View()) && incoming in inFlight
      modifies this
      ensures View() == Apply(old(View()), Event.Tick(incoming, sweep)) && OneChain(View())
      ensures outcome.SweptAll? || outcome.SweepFailed? <==>
        && old(started)
        && (|| incoming == Some(old(generation))
            || (incoming.None? && !old(tickPending) && old(generation) < U64_MAX))
      ensures outcome.SweptAll? || outcome.SweepFailed? ==>
        && started && generation == (if incoming.Some? then old(generation) else old(generation) + 1)
        && inFlight == old(inFlight) - multiset{incoming} + multiset{Some(generation)}
      ensures outcome.Dropped? ==> State() == old(State()) && inFlight == old(inFlight) - multiset{incoming}
      ensures outcome.SweptAll? || outcome.SweepFailed? ==> tickPending && inFlight[Some(generation)] == 1
      ensures outcome.SweptAll? ==> sweep == Success(outcome.repositories)
      ensures outcome.SweepFailed? ==> sweep == Failure(outcome.reason)
      ensures outcome.TickFailed? <==>
                old(started) && !old(tickPending) && incoming.None? && old(generation) == U64_MAX
    {
      StepKeepsOneChain(View(), Event.Tick(incoming, sweep));
      inFlight := inFlight - multiset{incoming};
      match TickTransition(State(), incoming) {
        case Failure(e) => outcome := TickFailed(e);
        case Success(None) => outcome := Dropped;
        case Success(Some(next)) =>
          WriteState(next);
          SendTick(next.generation);
          match sweep {
            case Success(repositories) => outcome := SweptAll(repositories);
            case Failure(reason) => outcome := SweepFailed(reason);
          }
      }
    }

    method Pause() returns (result: Result<(), SchedulerError>)
      requires OneChain(View())
      modifies this
      ensures View() == Apply(old(View()), Event.Pause) && OneChain(View())
      ensures result.Success? <==> old(generation) < U64_MAX
      ensures if result.Success? then !started && Some(generation) !in inFlight else View() == old(View())
      ensures result.Success? ==> !tickPending && generation == old(generation) + 1 && inFlight == old(inFlight)
    {
      StepKeepsOneChain(View(), Event.Pause);
      match PauseTransition(State()) {
        case Failure(e) => return Failure(e);
        case Success(next) =>
          WriteState(next);
          return Success(());
      }
    }

    /** Stops the chain before it drops the projection, so a purge that fails leaves it stopped. */
    method Purge(purge: Result<nat, string>) returns (result: Result<nat, Option<string>>)
      requires OneChain(View())
      modifies this
      ensures View() == Apply(old(View()), Event.Purge(purge)) && OneChain(View())
      ensures old(generation) < U64_MAX ==>
                && !started && Some(generation) !in inFlight
                && result == match purge case Success(n) => Success(n) case Failure(reason) => Failure(Some(reason))
      ensures old(generation) == U64_MAX ==> result == Failure(None) && View() == old(View())
    {
      var stopped := Pause();
      if stopped.Failure? {
        return Failure(None);
      }
      match purge {
        case Success(pullRequests) => return Success(pullRequests);
        case Failure(reason) => return Failure(Some(reason));
      }
    }
  }
}

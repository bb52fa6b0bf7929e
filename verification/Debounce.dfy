/**
 The debounce of one pull request's syncs. The first event inside the window has a trailing
 sync scheduled, which stands for those that follow it.

 Time is the clock every handler reads, in whole seconds. A delayed sync is delivered once,
 at some time no earlier than it is due.
 */
module Debounce {
  import opened Wrappers

  /** How a sync that was not debounced ended: the read failed, found nothing, or synced. */
  datatype Read = Failed | Gone | Synced(at: nat)

  /** The object's durable state, as far as the debounce goes. */
  datatype SyncState = SyncState(lastSyncedAt: Option<nat>, syncPending: bool)

  /** What `sync` did. */
  datatype Outcome = Debounced | Attempted

  datatype World = World(
    now: nat,
    state: SyncState,
    scheduled: seq<nat>,   // when each trailing sync was scheduled, oldest first
    inFlight: set<nat>,    // which of them have not been delivered
    unread: bool,          // an event was debounced and GitHub has not been asked since
    stale: bool)           // an event came and GitHub has not answered a read since

  datatype Event =
    | SetClock(now: nat)
    | Arrive(bypass: bool, read: Read, finish: nat)
    | Deliver(trailing: nat, read: Read, finish: nat)
    | Clear   // the pull request was closed: its state is forgotten

  function Minus(a: nat, b: nat): nat {
    if b <= a then a - b else 0
  }

  predicate ShouldDebounce(bypass: bool, lastSyncedAt: Option<nat>, now: nat, debounce: nat) {
    !bypass && lastSyncedAt.Some? && Minus(now, lastSyncedAt.value) < debounce
  }

  /** One run of the `sync` handler, which ends at `finish`. */
  function Sync(w: World, bypass: bool, read: Read, finish: nat, debounce: nat): World {
    if ShouldDebounce(bypass, w.state.lastSyncedAt, w.now, debounce) then
      if w.state.syncPending then w.(unread := true)
      else
        w.(state := w.state.(syncPending := true), unread := true,
           scheduled := w.scheduled + [w.now], inFlight := w.inFlight + {|w.scheduled|})
    else
      var state :=
        match read
        case Failed => w.state.(syncPending := false)
        case Gone => SyncState(None, false)
        case Synced(at) => SyncState(Some(at), false);
      w.(now := finish, state := state, unread := false, stale := w.stale && read.Failed?)
  }

  function Due(w: World, trailing: nat, debounce: nat): nat
    requires trailing < |w.scheduled|
  {
    w.scheduled[trailing] + debounce
  }

  /** The handler takes no time backwards, and a snapshot's time is read while it runs. */
  predicate Timely(w: World, read: Read, finish: nat) {
    w.now <= finish && (read.Synced? ==> w.now <= read.at <= finish)
  }

  predicate Enabled(w: World, e: Event, debounce: nat) {
    match e
    case SetClock(_) => true
    case Arrive(_, read, finish) => Timely(w, read, finish)
    case Deliver(trailing, read, finish) =>
      trailing in w.inFlight && trailing < |w.scheduled|
      && Due(w, trailing, debounce) <= w.now && Timely(w, read, finish)
    case Clear => true
  }

  function Apply(w: World, e: Event, debounce: nat): World {
    match e
    case SetClock(now) => w.(now := now)
    case Arrive(bypass, read, finish) => Sync(w.(stale := true), bypass, read, finish, debounce)
    case Deliver(trailing, read, finish) =>
      Sync(w.(inFlight := w.inFlight - {trailing}), false, read, finish, debounce)
    case Clear => w.(state := SyncState(None, false))
  }

  function Fresh(now: nat): World {
    World(now, SyncState(None, false), [], {}, false, false)
  }

  predicate Runs(w: World, events: seq<Event>, debounce: nat)
    decreases |events|
  {
    events == [] ||
      (Enabled(w, events[0], debounce) && Runs(Apply(w, events[0], debounce), events[1..], debounce))
  }

  function End(w: World, events: seq<Event>, debounce: nat): World
    decreases |events|
  {
    if events == [] then w else End(Apply(w, events[0], debounce), events[1..], debounce)
  }

  /** The clock is never set back. */
  predicate Forward(w: World, events: seq<Event>, debounce: nat)
    decreases |events|
  {
    events == [] ||
      ((events[0].SetClock? ==> w.now <= events[0].now) &&
       Forward(Apply(w, events[0], debounce), events[1..], debounce))
  }

  // ----- No event is lost -----

  /** A trailing sync still to come that will read GitHub when it does. */
  ghost predicate WillRead(w: World, trailing: nat, debounce: nat) {
    && trailing in w.inFlight && trailing < |w.scheduled|
    && (w.state.lastSyncedAt.Some? ==> w.state.lastSyncedAt.value + debounce <= Due(w, trailing, debounce))
  }

  ghost predicate NothingLost(w: World, debounce: nat) {
    && (w.state.syncPending ==> w.unread)
    && (w.unread ==> w.state.syncPending || w.state.lastSyncedAt.None?)
    && (w.unread ==> exists trailing :: WillRead(w, trailing, debounce))
  }

  ghost predicate ClockAhead(w: World) {
    && (w.state.lastSyncedAt.Some? ==> w.state.lastSyncedAt.value <= w.now)
    && (forall i :: i in w.inFlight ==> i < |w.scheduled|)
  }

  /** Delivered when it is due or later, such a sync is not debounced. */
  lemma {:induction false} DueIsRead(w: World, trailing: nat, debounce: nat)
    requires WillRead(w, trailing, debounce) && Due(w, trailing, debounce) <= w.now
    ensures !ShouldDebounce(false, w.state.lastSyncedAt, w.now, debounce)
  {
  }

  lemma {:induction false} SyncLosesNothing(w: World, bypass: bool, read: Read, finish: nat, debounce: nat)
    requires ClockAhead(w) && Timely(w, read, finish)
    requires NothingLost(w, debounce) || !ShouldDebounce(bypass, w.state.lastSyncedAt, w.now, debounce)
    ensures ClockAhead(Sync(w, bypass, read, finish, debounce))
    ensures NothingLost(Sync(w, bypass, read, finish, debounce), debounce)
  {
    var after := Sync(w, bypass, read, finish, debounce);
    if ShouldDebounce(bypass, w.state.lastSyncedAt, w.now, debounce) {
      if w.state.syncPending {
        var trailing :| WillRead(w, trailing, debounce);
        assert WillRead(after, trailing, debounce);
      } else {
        assert WillRead(after, |w.scheduled|, debounce);
      }
    }
  }

  lemma {:induction false} StepLosesNothing(w: World, e: Event, debounce: nat)
    requires ClockAhead(w) && NothingLost(w, debounce) && Enabled(w, e, debounce)
    requires e.SetClock? ==> w.now <= e.now
    ensures ClockAhead(Apply(w, e, debounce)) && NothingLost(Apply(w, e, debounce), debounce)
  {
    match e {
      case Arrive(bypass, read, finish) =>
        var heard := w.(stale := true);
        if w.unread {
          var other :| WillRead(w, other, debounce);
          assert WillRead(heard, other, debounce);
        }
        SyncLosesNothing(heard, bypass, read, finish, debounce);
      case Deliver(trailing, read, finish) =>
        var rest := w.(inFlight := w.inFlight - {trailing});
        if w.unread {
          var other :| WillRead(w, other, debounce);
          if other == trailing {
            DueIsRead(w, trailing, debounce);
          } else {
            assert WillRead(rest, other, debounce);
          }
        }
        SyncLosesNothing(rest, false, read, finish, debounce);
      case _ =>
        if w.unread {
          var other :| WillRead(w, other, debounce);
          assert WillRead(Apply(w, e, debounce), other, debounce);
        }
    }
  }

  lemma {:induction false} RunLosesNothing(w: World, events: seq<Event>, debounce: nat)
    requires ClockAhead(w) && NothingLost(w, debounce)
    requires Runs(w, events, debounce) && Forward(w, events, debounce)
    ensures ClockAhead(End(w, events, debounce)) && NothingLost(End(w, events, debounce), debounce)
    decreases |events|
  {
    if events != [] {
      StepLosesNothing(w, events[0], debounce);
      RunLosesNothing(Apply(w, events[0], debounce), events[1..], debounce);
    }
  }

  /**
   With a clock that is never set back, whatever arrives, fails or is forgotten: as long as
   a sync is pending, or a debounced event has not been followed by a read of GitHub, a
   trailing sync is in flight whose delivery will read it. Once none is in flight, every
   debounced event has been followed by a read.
   */
  lemma {:induction false} NoEventIsLost(start: nat, events: seq<Event>, debounce: nat)
    requires Runs(Fresh(start), events, debounce) && Forward(Fresh(start), events, debounce)
    ensures var w := End(Fresh(start), events, debounce);
      && (w.state.syncPending || w.unread ==>
            exists trailing :: WillRead(w, trailing, debounce) && forall now :: Due(w, trailing, debounce) <= now ==>
              !ShouldDebounce(false, w.state.lastSyncedAt, now, debounce))
      && (w.inFlight == {} ==> !w.state.syncPending && !w.unread)
  {
    RunLosesNothing(Fresh(start), events, debounce);
    var w := End(Fresh(start), events, debounce);
    if w.unread {
      var trailing :| WillRead(w, trailing, debounce);
      assert forall now :: Due(w, trailing, debounce) <= now ==>
        !ShouldDebounce(false, w.state.lastSyncedAt, now, debounce);
    }
  }

  /**
   What the clock has to do with it: a first debounced event keeps the promise exactly when
   the clock is not behind the last sync, or an older trailing sync is still due late enough.
   */
  lemma {:induction false} FirstDebouncedKeepsIffClockAhead(w: World, read: Read, finish: nat, debounce: nat)
    requires NothingLost(w, debounce) && w.state.lastSyncedAt.Some? && !w.state.syncPending
    requires ShouldDebounce(false, w.state.lastSyncedAt, w.now, debounce)
    ensures NothingLost(Sync(w, false, read, finish, debounce), debounce)
       <==> (w.state.lastSyncedAt.value <= w.now || exists trailing :: WillRead(w, trailing, debounce))
  {
    var after := Sync(w, false, read, finish, debounce);
    if w.state.lastSyncedAt.value <= w.now {
      assert WillRead(after, |w.scheduled|, debounce);
    }
    if trailing: nat :| WillRead(w, trailing, debounce) {
      assert WillRead(after, trailing, debounce);
    }
    if trailing: nat :| WillRead(after, trailing, debounce) {
      if trailing < |w.scheduled| {
        assert WillRead(w, trailing, debounce);
      }
    }
  }

  /**
   Set the clock back after a sync and the promise fails: the trailing sync is delivered when
   it is due, is still inside the window as `sync` reckons it, and coalesces behind itself.
   */
  lemma {:induction false} ClockSetBackLosesTheEvent() returns (events: seq<Event>)
    ensures Runs(Fresh(100), events, 20)
    ensures var w := End(Fresh(100), events, 20); w.inFlight == {} && w.state.syncPending && w.unread
  {
    events := [Arrive(false, Synced(100), 100), SetClock(50), Arrive(false, Failed, 50), SetClock(75),
               Deliver(0, Failed, 75)];
    var e1, e2, e3, e4 := events[1..], events[2..], events[3..], events[4..];
    assert e1[1..] == e2 && e2[1..] == e3 && e3[1..] == e4 && e4[1..] == [];
    var w1 := Apply(Fresh(100), events[0], 20);
    var w2 := Apply(w1, e1[0], 20);
    var w3 := Apply(w2, e2[0], 20);
    assert w3.inFlight == {0} && w3.scheduled == [50];
    var w4 := Apply(w3, e3[0], 20);
    var w5 := Apply(w4, e4[0], 20);
    assert w3.now == 50 && w4.now == 75 && Enabled(w4, e4[0], 20);
    assert End(w5, [], 20) == w5;
    assert End(w4, e4, 20) == w5 && Runs(w4, e4, 20);
    assert End(w3, e3, 20) == w5 && Runs(w3, e3, 20);
    assert End(w2, e2, 20) == w5 && Runs(w2, e2, 20);
  }

  /**
   A read that fails for good counts as one: the snapshot stays older than the event, and
   nothing is left to read GitHub again.
   */
  lemma {:induction false} FailedReadIsTheLast() returns (events: seq<Event>)
    ensures Runs(Fresh(100), events, 20) && Forward(Fresh(100), events, 20)
    ensures var w := End(Fresh(100), events, 20);
      && w.scheduled == [105] && w.inFlight == {} && !w.state.syncPending && w.state.lastSyncedAt == Some(100)
      && w.stale
  {
    events := [Arrive(false, Synced(100), 105), Arrive(false, Failed, 105), SetClock(125), Deliver(0, Failed, 125)];
    var e1, e2, e3 := events[1..], events[2..], events[3..];
    assert e1[1..] == e2 && e2[1..] == e3 && e3[1..] == [];
    var w1 := Apply(Fresh(100), events[0], 20);
    var w2 := Apply(w1, e1[0], 20);
    assert w2.inFlight == {0} && w2.scheduled == [105];
    var w3 := Apply(w2, e2[0], 20);
    var w4 := Apply(w3, e3[0], 20);
    assert w4.inFlight == {} && End(w4, [], 20) == w4;
    assert End(w3, e3, 20) == w4 && Runs(w3, e3, 20) && Forward(w3, e3, 20);
    assert End(w2, e2, 20) == w4 && Runs(w2, e2, 20) && Forward(w2, e2, 20);
  }

  // ----- When an event ends in a snapshot -----

  /** The latest event of a run: when it came, and how every read of GitHub tried since has ended. */
  datatype Heard = Nothing | Heard(at: nat, tried: seq<Read>)

  function Hear(w: World, e: Event, heard: Heard, debounce: nat): Heard {
    match e
    case Arrive(bypass, read, _) =>
      Heard(w.now, if ShouldDebounce(bypass, w.state.lastSyncedAt, w.now, debounce) then [] else [read])
    case Deliver(_, read, _) =>
      if heard.Nothing? || ShouldDebounce(false, w.state.lastSyncedAt, w.now, debounce) then heard
      else heard.(tried := heard.tried + [read])
    case _ => heard
  }

  function Latest(w: World, events: seq<Event>, heard: Heard, debounce: nat): Heard
    decreases |events|
  {
    if events == [] then heard
    else Latest(Apply(w, events[0], debounce), events[1..], Hear(w, events[0], heard, debounce), debounce)
  }

  ghost predicate AllFailed(tried: seq<Read>) {
    forall i :: 0 <= i < |tried| ==> tried[i].Failed?
  }

  ghost predicate StaleIfUnanswered(w: World, heard: Heard) {
    && (w.stale <==> heard.Heard? && AllFailed(heard.tried))
    && (heard.Heard? && heard.tried == [] ==> w.unread)
    && (heard.Heard? ==> heard.at <= w.now)
    && (heard.Heard? && !w.stale && w.state.lastSyncedAt.Some? ==> heard.at <= w.state.lastSyncedAt.value)
  }

  lemma {:induction false} AllFailedOn(tried: seq<Read>, read: Read)
    ensures AllFailed(tried + [read]) <==> AllFailed(tried) && read.Failed?
  {
    assert forall i :: 0 <= i < |tried| ==> (tried + [read])[i] == tried[i];
    assert (tried + [read])[|tried|] == read;
  }

  lemma {:induction false} StepTellsStale(w: World, e: Event, heard: Heard, debounce: nat)
    requires ClockAhead(w) && StaleIfUnanswered(w, heard) && Enabled(w, e, debounce)
    requires e.SetClock? ==> w.now <= e.now
    ensures StaleIfUnanswered(Apply(w, e, debounce), Hear(w, e, heard, debounce))
  {
    match e {
      case Arrive(_, read, _) => AllFailedOn([], read);
      case Deliver(_, read, _) => if heard.Heard? { AllFailedOn(heard.tried, read); }
      case _ =>
    }
  }

  lemma {:induction false} RunTellsStale(w: World, events: seq<Event>, heard: Heard, debounce: nat)
    requires ClockAhead(w) && NothingLost(w, debounce) && StaleIfUnanswered(w, heard)
    requires Runs(w, events, debounce) && Forward(w, events, debounce)
    ensures StaleIfUnanswered(End(w, events, debounce), Latest(w, events, heard, debounce))
    decreases |events|
  {
    if events != [] {
      StepTellsStale(w, events[0], heard, debounce);
      StepLosesNothing(w, events[0], debounce);
      RunTellsStale(Apply(w, events[0], debounce), events[1..], Hear(w, events[0], heard, debounce), debounce);
    }
  }

  /**
   What becomes of an event, with a clock that is never set back: once no trailing sync is in
   flight, GitHub has been asked since the latest event came, and that event is still not
   answered for exactly when every read tried since it came has failed. Otherwise the
   object's snapshot, if it has one, was synced when it came or later.
   */
  lemma {:induction false} StaleExactlyWhenReadsFailed(start: nat, events: seq<Event>, debounce: nat)
    requires Runs(Fresh(start), events, debounce) && Forward(Fresh(start), events, debounce)
    ensures var w, heard := End(Fresh(start), events, debounce), Latest(Fresh(start), events, Nothing, debounce);
      && (w.stale <==> heard.Heard? && AllFailed(heard.tried))
      && (heard.Heard? && !w.stale && w.state.lastSyncedAt.Some? ==> heard.at <= w.state.lastSyncedAt.value)
      && (heard.Heard? && w.inFlight == {} ==> heard.tried != [])
  {
    RunTellsStale(Fresh(start), events, Nothing, debounce);
    NoEventIsLost(start, events, debounce);
  }

  /** A manual refresh always reads: after it GitHub has been asked since, and by it. */
  lemma {:induction false} RefreshReads(w: World, read: Read, finish: nat, heard: Heard, debounce: nat)
    ensures var after := Apply(w, Arrive(true, read, finish), debounce);
      && !after.unread && !after.state.syncPending && after.scheduled == w.scheduled && after.now == finish
      && (after.stale <==> read.Failed?)
      && (read.Synced? ==> after.state.lastSyncedAt == Some(read.at))
    ensures Hear(w, Arrive(true, read, finish), heard, debounce) == Heard(w.now, [read])
  {
  }

  /** Over any run that ends with a refresh: the refresh is the latest event, and read GitHub itself. */
  lemma {:induction false} RefreshedRun(
    w: World, events: seq<Event>, read: Read, finish: nat, heard: Heard, debounce: nat)
    requires events != [] && events[|events| - 1] == Arrive(true, read, finish)
    ensures !End(w, events, debounce).unread && (End(w, events, debounce).stale <==> read.Failed?)
    ensures Latest(w, events, heard, debounce).Heard? && Latest(w, events, heard, debounce).tried == [read]
    decreases |events|
  {
    if |events| == 1 {
      RefreshReads(w, read, finish, heard, debounce);
      assert events[1..] == [];
    } else {
      RefreshedRun(Apply(w, events[0], debounce), events[1..], read, finish, Hear(w, events[0], heard, debounce), debounce);
    }
  }

  // ----- Few trailing syncs at once -----

  /** A run with no manual refresh and nothing that forgets the state. */
  predicate Ordinary(events: seq<Event>) {
    forall i :: 0 <= i < |events| ==> Usual(events[i])
  }

  predicate Usual(e: Event) {
    match e
    case SetClock(_) => true
    case Arrive(bypass, read, _) => !bypass && !read.Gone?
    case Deliver(_, read, _) => !read.Gone?
    case Clear => false
  }

  /** In order, and any two with one between them more than a debounce apart. */
  ghost predicate Gapped(s: seq<nat>, debounce: nat) {
    && (forall j :: 1 <= j < |s| ==> s[j - 1] <= s[j])
    && (forall j :: 2 <= j < |s| ==> s[j - 2] + debounce < s[j])
  }

  lemma {:induction false} GappedApart(s: seq<nat>, i: nat, j: nat, debounce: nat)
    requires Gapped(s, debounce) && i <= j < |s|
    ensures s[i] <= s[j]
    ensures i + 2 <= j ==> s[i] + debounce < s[j]
    decreases j
  {
    if i + 2 <= j {
      GappedApart(s, i, j - 2, debounce);
    } else if i < j {
      assert s[j - 1] <= s[j];
    }
  }

  /** The last sync lies between the two latest schedulings, or is at or before the latest. */
  ghost predicate AroundLast(s: seq<nat>, last: nat, now: nat, pending: bool, debounce: nat) {
    var m := |s|;
    && last <= now
    && (1 <= m ==> s[m - 1] <= now && s[m - 1] < last + debounce)
    && (2 <= m ==> s[m - 2] < last)
    && (2 <= m && s[m - 1] < last ==> s[m - 2] + debounce < last)
    && (pending ==> 1 <= m && last <= s[m - 1])
    && (1 <= m && last <= s[m - 1] && !pending ==> last + debounce <= now)
  }

  ghost predicate Spaced(w: World, debounce: nat) {
    && Gapped(w.scheduled, debounce)
    && (forall i :: i in w.inFlight ==> i < |w.scheduled|)
    && match w.state.lastSyncedAt
       case None => w.scheduled == [] && !w.state.syncPending
       case Some(last) => AroundLast(w.scheduled, last, w.now, w.state.syncPending, debounce)
  }

  lemma {:induction false} ScheduleSpaced(s: seq<nat>, last: nat, now: nat, debounce: nat)
    requires Gapped(s, debounce) && AroundLast(s, last, now, false, debounce) && now < last + debounce
    ensures Gapped(s + [now], debounce) && AroundLast(s + [now], last, now, true, debounce)
  {
    assert forall i :: 0 <= i < |s| ==> (s + [now])[i] == s[i];
  }

  /** A sync that was not debounced, whether or not it got a snapshot, at `last` then. */
  lemma {:induction false} ReadSpaced(s: seq<nat>, earlier: Option<nat>, pending: bool, now: nat, last: nat, finish: nat, debounce: nat)
    requires earlier.None? ==> s == []
    requires earlier.Some? ==> AroundLast(s, earlier.value, now, pending, debounce) && earlier.value + debounce <= now
    requires now <= finish
    requires Some(last) == earlier || now <= last <= finish
    ensures AroundLast(s, last, finish, false, debounce)
  {
  }

  lemma {:induction false} SyncSpaced(w: World, read: Read, finish: nat, debounce: nat)
    requires Spaced(w, debounce) && Timely(w, read, finish) && !read.Gone?
    ensures Spaced(Sync(w, false, read, finish, debounce), debounce)
  {
    var last := w.state.lastSyncedAt;
    if ShouldDebounce(false, last, w.now, debounce) {
      if !w.state.syncPending {
        ScheduleSpaced(w.scheduled, last.value, w.now, debounce);
      }
    } else if read.Synced? {
      ReadSpaced(w.scheduled, last, w.state.syncPending, w.now, read.at, finish, debounce);
    } else if last.Some? {
      ReadSpaced(w.scheduled, last, w.state.syncPending, w.now, last.value, finish, debounce);
    }
  }

  lemma {:induction false} StepSpaced(w: World, e: Event, debounce: nat)
    requires Spaced(w, debounce) && Enabled(w, e, debounce) && Usual(e)
    requires e.SetClock? ==> w.now <= e.now
    ensures Spaced(Apply(w, e, debounce), debounce)
  {
    match e {
      case Arrive(_, read, finish) => SyncSpaced(w.(stale := true), read, finish, debounce);
      case Deliver(trailing, read, finish) =>
        SyncSpaced(w.(inFlight := w.inFlight - {trailing}), read, finish, debounce);
      case _ =>
    }
  }

  lemma {:induction false} RunSpaced(w: World, events: seq<Event>, debounce: nat)
    requires Spaced(w, debounce) && Ordinary(events)
    requires Runs(w, events, debounce) && Forward(w, events, debounce)
    ensures Spaced(End(w, events, debounce), debounce)
    decreases |events|
  {
    if events != [] {
      assert Usual(events[0]) && Ordinary(events[1..]);
      StepSpaced(w, events[0], debounce);
      RunSpaced(Apply(w, events[0], debounce), events[1..], debounce);
    }
  }

  function NotYetDue(w: World, debounce: nat): set<nat>
    requires forall i :: i in w.inFlight ==> i < |w.scheduled|
  {
    set i | i in w.inFlight && w.now < Due(w, i, debounce)
  }

  /** However many events arrive and reads fail, at most two trailing syncs wait to be due. */
  lemma {:induction false} AtMostTwoWaiting(start: nat, events: seq<Event>, debounce: nat)
    requires Ordinary(events)
    requires Runs(Fresh(start), events, debounce) && Forward(Fresh(start), events, debounce)
    ensures var w := End(Fresh(start), events, debounce);
      && (forall i :: i in w.inFlight ==> i < |w.scheduled|)
      && |NotYetDue(w, debounce)| <= 2
      && forall i, j :: 0 <= i && i + 2 <= j < |w.scheduled| ==> w.scheduled[i] + debounce < w.scheduled[j]
  {
    RunSpaced(Fresh(start), events, debounce);
    var w := End(Fresh(start), events, debounce);
    var m := |w.scheduled|;
    var latest: set<nat> := if m == 0 then {} else if m == 1 then {0} else {m - 2, m - 1};
    forall i | i in NotYetDue(w, debounce)
      ensures i in latest
    {
      if i + 2 < m {
        GappedApart(w.scheduled, i, m - 3, debounce);
      }
    }
    SubsetSize(NotYetDue(w, debounce), latest);
    forall i, j | 0 <= i && i + 2 <= j < m
      ensures w.scheduled[i] + debounce < w.scheduled[j]
    {
      GappedApart(w.scheduled, i, j, debounce);
    }
  }

  lemma {:induction false} SubsetSize(a: set<nat>, b: set<nat>)
    requires a <= b
    ensures |a| <= |b|
  {
    assert b == a + (b - a);
  }

  /** Two at once does happen: the read that ends one window leaves its trailing sync waiting. */
  lemma {:induction false} TwoCanWait() returns (events: seq<Event>)
    ensures Ordinary(events) && Runs(Fresh(100), events, 20) && Forward(Fresh(100), events, 20)
    ensures var w := End(Fresh(100), events, 20);
      w.inFlight == {0, 1} && w.scheduled == [110, 121] && w.now == 121
  {
    events := [Arrive(false, Synced(100), 110), Arrive(false, Failed, 110), SetClock(120),
               Arrive(false, Synced(120), 121), Arrive(false, Failed, 121)];
    var e1, e2, e3, e4 := events[1..], events[2..], events[3..], events[4..];
    assert e1[1..] == e2 && e2[1..] == e3 && e3[1..] == e4 && e4[1..] == [];
    var w1 := Apply(Fresh(100), events[0], 20);
    var w2 := Apply(w1, e1[0], 20);
    assert w2.inFlight == {0} && w2.scheduled == [110];
    var w3 := Apply(w2, e2[0], 20);
    var w4 := Apply(w3, e3[0], 20);
    var w5 := Apply(w4, e4[0], 20);
    assert w3.now == 120 && w4 == World(121, SyncState(Some(120), false), [110], {0}, false, false);
    assert w5.inFlight == {0, 1} && w5.scheduled == [110, 121];
    assert End(w5, [], 20) == w5;
    assert End(w4, e4, 20) == w5;
    assert End(w3, e3, 20) == w5;
    assert End(w2, e2, 20) == w5;
    assert Runs(w4, e4, 20) && Forward(w4, e4, 20);
    assert Runs(w3, e3, 20) && Forward(w3, e3, 20);
    assert Runs(w2, e2, 20) && Forward(w2, e2, 20);
  }

  // ----- The handler -----

  /** The pull request object, its clock and the delayed syncs Restate holds for it. */
  class SyncedObject {
    const debounce: nat
    var now: nat
    var lastSyncedAt: Option<nat>
    var syncPending: bool
    var scheduled: seq<nat>
    var inFlight: set<nat>
    ghost var unread: bool
    ghost var stale: bool

    ghost function View(): World
      reads this
    {
      World(now, SyncState(lastSyncedAt, syncPending), scheduled, inFlight, unread, stale)
    }

    constructor (debounce: nat, now: nat)
      ensures this.debounce == debounce && View() == Fresh(now)
    {
      this.debounce, this.now := debounce, now;
      lastSyncedAt, syncPending, scheduled, inFlight, unread, stale := None, false, [], {}, false, false;
    }

    /** `run_sync`, `read` being what GitHub comes back with and `finish` when. */
    method RunSync(bypass: bool, read: Read, finish: nat) returns (outcome: Outcome)
      modifies this
      ensures View() == Sync(old(View()), bypass, read, finish, debounce)
      ensures outcome.Debounced? <==>
                !bypass && 0 < debounce && old(lastSyncedAt).Some? && old(now) < old(lastSyncedAt).value + debounce
      ensures outcome.Debounced? ==>
        && now == old(now) && lastSyncedAt == old(lastSyncedAt) && syncPending && unread
        && scheduled == (if old(syncPending) then old(scheduled) else old(scheduled) + [old(now)])
      ensures outcome.Attempted? ==>
        && now == finish && !syncPending && !unread && scheduled == old(scheduled)
        && (read.Failed? ==> lastSyncedAt == old(lastSyncedAt))
        && (read.Gone? ==> lastSyncedAt == None)
        && (read.Synced? ==> lastSyncedAt == Some(read.at))
    {
      if ShouldDebounce(bypass, lastSyncedAt, now, debounce) {
        unread := true;
        if !syncPending {
          syncPending := true;
          ScheduleSync();
        }
        return Debounced;
      }
      syncPending := false;
      unread, stale := false, stale && read.Failed?;
      now := finish;
      match read {
        case Failed =>
        case Gone => lastSyncedAt := None;
        case Synced(at) => lastSyncedAt := Some(at);
      }
      return Attempted;
    }

    /** Sends this object a sync to be delivered once the debounce has passed. */
    method ScheduleSync()
      modifies this`scheduled, this`inFlight
      ensures scheduled == old(scheduled) + [now] && inFlight == old(inFlight) + {|old(scheduled)|}
    {
      inFlight := inFlight + {|scheduled|};
      scheduled := scheduled + [now];
    }

    /** A webhook or a refresh asks for a sync. */
    method Arrive(bypass: bool, read: Read, finish: nat) returns (outcome: Outcome)
      requires Enabled(View(), Event.Arrive(bypass, read, finish), debounce)
      requires ClockAhead(View()) && NothingLost(View(), debounce)
      modifies this
      ensures View() == Apply(old(View()), Event.Arrive(bypass, read, finish), debounce)
      ensures ClockAhead(View()) && NothingLost(View(), debounce)
      ensures outcome.Debounced? <==>
                !bypass && 0 < debounce && old(lastSyncedAt).Some? && old(now) < old(lastSyncedAt).value + debounce
      ensures outcome.Attempted? ==> !unread && (stale <==> read.Failed?)
      ensures outcome.Debounced? ==> unread && stale
    {
      StepLosesNothing(View(), Event.Arrive(bypass, read, finish), debounce);
      stale := true;
      outcome := RunSync(bypass, read, finish);
    }

    /** A trailing sync arrives. While one was owed and the clock ran forward, none goes missing. */
    method Deliver(trailing: nat, read: Read, finish: nat) returns (outcome: Outcome)
      requires Enabled(View(), Event.Deliver(trailing, read, finish), debounce)
      requires ClockAhead(View()) && NothingLost(View(), debounce)
      modifies this
      ensures View() == Apply(old(View()), Event.Deliver(trailing, read, finish), debounce)
      ensures ClockAhead(View()) && NothingLost(View(), debounce)
      ensures old(WillRead(View(), trailing, debounce)) ==> outcome.Attempted?
    {
      StepLosesNothing(View(), Event.Deliver(trailing, read, finish), debounce);
      if WillRead(View(), trailing, debounce) {
        DueIsRead(View(), trailing, debounce);
      }
      inFlight := inFlight - {trailing};
      outcome := RunSync(false, read, finish);
    }
  }
}

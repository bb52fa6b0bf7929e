/**
 The handlers' own code, one atomic step at a time. Between any two of its steps anyone else
 takes any steps at all, other handlers that die and prunes that strand included. What comes
 of it is a run of the protocol, so all that is proved of runs holds of it.
 */
module FenceHandlers {
  import opened Wrappers
  import opened PrKeys
  import opened FenceProtocol

  /** What reading a pull request from GitHub came to. */
  datatype Read = Unread | Ineligible | Found(snapshot: PrRecord)

  /** What a sync meets: its debounce, GitHub, and whether its store step is given up on. */
  datatype SyncFate = SyncFate(debounced: bool, read: Read, refused: bool)

  datatype SyncOutcome = Debounced | Failed | Dropped | Synced(snapshot: PrRecord)

  function SyncEnds(fate: SyncFate): SyncOutcome {
    if fate.debounced then Debounced
    else
      match fate.read
      case Unread => Failed
      case Ineligible => if fate.refused then Failed else Dropped
      case Found(snapshot) => if fate.refused then Failed else Synced(snapshot)
  }

  datatype ClosedOutcome = Kept | Retired | GivenUp

  datatype MergeOutcome = Refused | NotMerged | Died | DiedAtClock | Done

  /** The object whose handler takes this step, if it is a step of one. */
  function HandlerOf(e: Event): Option<PrKey> {
    match e
    case Fetch(key, _) => Some(key)
    case FindGone(key) => Some(key)
    case Upsert(key) => Some(key)
    case CommitSync(key) => Some(key)
    case TakeClose(key, _) => Some(key)
    case Merge(key) => Some(key)
    case DeleteRow(key) => Some(key)
    case CommitDelete(key) => Some(key)
    case Die(key) => Some(key)
    case _ => None
  }

  /** The drain whose step this is, if it is a step of one. */
  function DrainOf(e: Event): Option<nat> {
    match e
    case DrainRead(d) => Some(d)
    case DrainSend(d) => Some(d)
    case DrainAck(d) => Some(d)
    case DrainEnd(d) => Some(d)
    case _ => None
  }

  /** Others' steps leave `key` as its handler has it, but that a prune may take its row. */
  ghost predicate KeyLeft(before: World, after: World, key: PrKey) {
    && after.At(key) == before.At(key) && after.State(key) == before.State(key)
    && (after.Row(key) == before.Row(key) || after.Row(key).None?)
  }

  ghost predicate DrainLeft(before: World, after: World, drain: nat) {
    && (drain in after.drains <==> drain in before.drains)
    && (drain in before.drains ==> after.drains[drain] == before.drains[drain])
  }

  /** What is queued and told only grows, and what has left the outbox never comes back. */
  ghost predicate Onward(before: World, after: World) {
    && before.queued <= after.queued && before.told <= after.told
    && before.nextId <= after.nextId
    && (forall r :: r in after.outbox && r.id < before.nextId ==> r in before.outbox)
  }

  /** What others' steps leave as it was for the handler of `key` and for drain `drain`. */
  ghost predicate Undisturbed(before: World, after: World, key: Option<PrKey>, drain: Option<nat>) {
    && (key.Some? ==> KeyLeft(before, after, key.value))
    && (drain.Some? ==> DrainLeft(before, after, drain.value))
    && Onward(before, after)
  }

  lemma {:induction false} LeavesKey(w: World, e: Event, key: PrKey)
    requires Enabled(w, e) && HandlerOf(e) != Some(key)
    ensures KeyLeft(w, Apply(w, e), key)
  {
    if IsOwn(e) {
      OwnOnly(w, e);
    } else if e.PruneRows? {
      PruneLeaves(w, e.prune, e.gone, key);
    }
  }

  lemma {:induction false} PruneLeaves(w: World, prune: Prune, gone: seq<PrKey>, key: PrKey)
    requires Enabled(w, PruneRows(prune, gone))
    ensures KeyLeft(w, Apply(w, PruneRows(prune, gone)), key)
  {
  }

  lemma {:induction false} LeavesDrain(w: World, e: Event, drain: nat)
    requires Enabled(w, e) && DrainOf(e) != Some(drain)
    ensures DrainLeft(w, Apply(w, e), drain)
  {
  }

  lemma {:induction false} GoesOnward(w: World, e: Event)
    requires Enabled(w, e)
    ensures Onward(w, Apply(w, e))
  {
    OnlyGrows(w, e);
  }

  lemma {:induction false} StepUndisturbs(before: World, w: World, e: Event, key: Option<PrKey>, drain: Option<nat>)
    requires Undisturbed(before, w, key, drain) && Enabled(w, e)
    requires (key.None? || HandlerOf(e) != key) && (drain.None? || DrainOf(e) != drain)
    ensures Undisturbed(before, Apply(w, e), key, drain)
  {
    if key.Some? { LeavesKey(w, e, key.value); }
    if drain.Some? { LeavesDrain(w, e, drain.value); }
    GoesOnward(w, e);
  }

  /** A name no drain under way has. */
  method FreshDrain(drains: map<nat, Drain>) returns (d: nat)
    ensures d !in drains
  {
    d := 0;
    var names := drains.Keys;
    while names != {}
      invariant forall n :: n in drains && n !in names ==> n < d
      decreases names
    {
      var n :| n in names;
      names := names - {n};
      d := if n < d then d else n + 1;
    }
  }

  method InSomeOrder(keys: set<PrKey>) returns (order: seq<PrKey>)
    ensures forall k :: k in order <==> k in keys
    ensures forall i, j :: 0 <= i < j < |order| ==> order[i] != order[j]
  {
    order := [];
    var left := keys;
    while left != {}
      invariant left <= keys
      invariant forall k :: k in order <==> k in keys - left
      invariant forall i, j :: 0 <= i < j < |order| ==> order[i] != order[j]
      decreases left
    {
      var k :| k in left;
      assert k !in order;
      left := left - {k};
      order := order + [k];
    }
  }

  /** A drain has sent `key` a close under `fence`. */
  ghost predicate Told(w: World, key: PrKey, fence: Option<nat>) {
    exists r :: r in w.told && r.key == key && r.syncedBefore == fence
  }

  /** A drain that has sent all it read has told everything queued when it read. */
  lemma {:induction false} AllTold(before: World, after: World, d: nat)
    requires BooksOk(before) && BooksOk(after) && before.told <= after.told
    requires d in after.drains && after.drains[d] == Drain(before.outbox, |before.outbox|)
    ensures before.queued <= after.told
  {
    assert DrainOk(after, after.drains[d]);
    forall r | r in before.queued
      ensures r in after.told
    {
      if r in before.outbox {
        var i :| 0 <= i < |before.outbox| && before.outbox[i] == r;
        assert after.drains[d].read[i] in after.told;
      }
    }
  }

  /** What a sweep came to: it did not get to its end, or it did and these syncs had failed. */
  datatype Sweep = NotSwept | Swept(pulls: nat) | SyncsFailed(failed: seq<PrKey>)

  function KeysIn(repositoryId: u64, numbers: seq<u64>): (keys: seq<PrKey>)
    ensures |keys| == |numbers|
  {
    seq(|numbers|, i requires 0 <= i < |numbers| => PrKey(repositoryId, numbers[i]))
  }

  function Live(numbers: seq<u64>): set<u64> {
    set n | n in numbers
  }

  /** The keys whose sync failed, in the order they were synced. */
  function FailedKeys(keys: seq<PrKey>, outcomes: seq<SyncOutcome>): seq<PrKey>
    requires |outcomes| <= |keys|
  {
    if outcomes == [] then []
    else
      var last := |outcomes| - 1;
      FailedKeys(keys, outcomes[..last]) + if outcomes[last].Failed? then [keys[last]] else []
  }

  function FailedPlaces(outcomes: seq<SyncOutcome>): set<nat> {
    set i: nat | i < |outcomes| && outcomes[i].Failed?
  }

  lemma {:induction false} FailedPlacesOn(outcomes: seq<SyncOutcome>, last: SyncOutcome)
    ensures FailedPlaces(outcomes + [last])
         == FailedPlaces(outcomes) + if last.Failed? then {|outcomes|} else {}
  {
    assert forall i :: 0 <= i < |outcomes| ==> (outcomes + [last])[i] == outcomes[i];
  }

  /** There is one for each failed sync, and those of a start come first. */
  lemma {:induction false} FailedKeysCounted(keys: seq<PrKey>, outcomes: seq<SyncOutcome>)
    requires |outcomes| <= |keys|
    ensures |FailedKeys(keys, outcomes)| == |FailedPlaces(outcomes)|
    ensures outcomes != [] ==> FailedKeys(keys, outcomes[..|outcomes| - 1]) <= FailedKeys(keys, outcomes)
  {
    if outcomes == [] {
      assert FailedPlaces(outcomes) == {};
    } else {
      var front, last := outcomes[..|outcomes| - 1], outcomes[|outcomes| - 1];
      FailedKeysCounted(keys, front);
      FailedPlacesOn(front, last);
      assert outcomes == front + [last];
    }
  }

  /** They are the keys at the places of failed syncs. */
  lemma {:induction false} FailedKeysExactly(keys: seq<PrKey>, outcomes: seq<SyncOutcome>)
    requires |outcomes| <= |keys|
    ensures forall k :: k in FailedKeys(keys, outcomes) <==> FailedAt(keys, outcomes, k)
  {
    if outcomes != [] {
      var front, last := outcomes[..|outcomes| - 1], |outcomes| - 1;
      FailedKeysExactly(keys, front);
      forall k
        ensures FailedAt(keys, outcomes, k) <==>
                  FailedAt(keys, front, k) || (outcomes[last].Failed? && keys[last] == k)
      {
        assert forall i :: 0 <= i < last ==> front[i] == outcomes[i];
      }
    }
  }

  ghost predicate FailedAt(keys: seq<PrKey>, outcomes: seq<SyncOutcome>, k: PrKey)
    requires |outcomes| <= |keys|
  {
    exists i :: 0 <= i < |outcomes| && outcomes[i].Failed? && keys[i] == k
  }

  lemma {:induction false} AnyFailed(keys: seq<PrKey>, outcomes: seq<SyncOutcome>)
    requires |outcomes| == |keys|
    ensures FailedKeys(keys, outcomes) == [] <==> forall i :: 0 <= i < |outcomes| ==> !outcomes[i].Failed?
  {
    FailedKeysExactly(keys, outcomes);
    assert forall i :: 0 <= i < |outcomes| && outcomes[i].Failed? ==> FailedAt(keys, outcomes, keys[i]);
    assert FailedKeys(keys, outcomes) != [] ==> FailedKeys(keys, outcomes)[0] in FailedKeys(keys, outcomes);
  }

  /** The step by which a sync of `key` ended as `outcome` was taken at `from` or later. */
  ghost predicate Shown(events: seq<Event>, from: nat, key: PrKey, outcome: SyncOutcome) {
    match outcome
    case Synced(_) => exists n :: from <= n < |events| && events[n] == CommitSync(key)
    case Dropped => exists n :: from <= n < |events| && events[n] == CommitDelete(key)
    case _ => true
  }

  lemma {:induction false} StillShown(events: seq<Event>, longer: seq<Event>, from: nat, key: PrKey, outcome: SyncOutcome)
    requires Shown(events, from, key, outcome) && events <= longer
    ensures Shown(longer, from, key, outcome)
  {
    if outcome.Synced? {
      var n :| from <= n < |events| && events[n] == CommitSync(key);
      assert longer[n] == CommitSync(key);
    } else if outcome.Dropped? {
      var n :| from <= n < |events| && events[n] == CommitDelete(key);
      assert longer[n] == CommitDelete(key);
    }
  }

  /**
   Step `at` of a run pruned, taking exactly the rows the prune selects of those there then
   and leaving the rest, and every one it took has by now been sent a close under its fence.
   */
  ghost predicate PrunedAndTold(events: seq<Event>, at: nat, prune: Prune, now: World) {
    && at < |events| && Runs(Start(), events[..at])
    && events[at].PruneRows? && events[at].prune == prune
    && var earlier := End(Start(), events[..at]);
       && Enabled(earlier, events[at])
       && (match prune
           case Retain(repositoryId, live, fence) =>
             forall k :: k in events[at].gone <==>
               && k in earlier.rows && k.repositoryId == repositoryId && k.number !in live
               && earlier.rows[k].syncedAt < fence
           case Purge(repositories) =>
             forall k :: k in events[at].gone <==> k in earlier.rows && k.repositoryId in repositories
           case Replace(dropped, _) =>
             forall k :: k in events[at].gone <==> k in earlier.rows && k.repositoryId in dropped)
       && (forall k :: k in earlier.rows && k !in events[at].gone ==> Apply(earlier, events[at]).Row(k) == earlier.Row(k))
       && (forall k :: k in events[at].gone ==>
             && k !in Apply(earlier, events[at]).rows
             && Told(now, k, match prune
                             case Retain(_, _, fence) => Some(fence)
                             case Purge(_) => None
                             case Replace(_, fence) => Some(fence)))
  }

  /**
   Step `at` pruned the repository to the numbers listed: it took exactly its unlisted rows
   synced before the fence, left every other row as it was, and all it took has been told
   to close under that fence.
   */
  ghost predicate Reconciled(
    events: seq<Event>, at: nat, repositoryId: u64, numbers: seq<u64>, fence: nat, now: World)
  {
    && at < |events| && events[at].PruneRows? && Runs(Start(), events[..at])
    && var earlier := End(Start(), events[..at]);
       && Enabled(earlier, events[at])
       && (forall k :: k in events[at].gone <==>
             && k in earlier.rows && k.repositoryId == repositoryId && k.number !in numbers
             && earlier.rows[k].syncedAt < fence)
       && (forall k :: k in events[at].gone ==> k !in Apply(earlier, events[at]).rows && Told(now, k, Some(fence)))
       && (forall k :: k in earlier.rows
                       && (k.repositoryId != repositoryId || k.number in numbers || fence <= earlier.rows[k].syncedAt) ==>
             k in Apply(earlier, events[at]).rows && Apply(earlier, events[at]).rows[k] == earlier.rows[k])
  }

  lemma {:induction false} RetainReconciles(
    events: seq<Event>, at: nat, repositoryId: u64, numbers: seq<u64>, fence: nat, now: World)
    requires PrunedAndTold(events, at, Retain(repositoryId, Live(numbers), fence), now)
    ensures Reconciled(events, at, repositoryId, numbers, fence, now)
  {
    var earlier := End(Start(), events[..at]);
    forall k | k in earlier.rows
               && (k.repositoryId != repositoryId || k.number in numbers || fence <= earlier.rows[k].syncedAt)
      ensures k in Apply(earlier, events[at]).rows && Apply(earlier, events[at]).rows[k] == earlier.rows[k]
    {
      assert k !in events[at].gone;
      assert Apply(earlier, events[at]).Row(k) == earlier.Row(k);
    }
  }

  /** Closes sent for all that was queued tell every key that a prune queued. */
  lemma {:induction false} AllInTold(
    gone: seq<PrKey>, queue: seq<Retirement>, queued: set<Retirement>, now: World, fence: Option<nat>)
    requires |queue| == |gone| && forall i :: 0 <= i < |gone| ==> queue[i].key == gone[i] && queue[i].syncedBefore == fence
    requires Members(queue) <= queued <= now.told
    ensures forall k :: k in gone ==> Told(now, k, fence)
  {
    forall k | k in gone
      ensures Told(now, k, fence)
    {
      var i :| 0 <= i < |gone| && gone[i] == k;
      assert queue[i] in Members(queue);
    }
  }

  lemma {:induction false} NowTold(
    pruned: seq<Event>, events: seq<Event>, at: nat, prune: Prune, gone: seq<PrKey>, now: World)
    requires pruned <= events && |pruned| == at + 1 && pruned[at] == PruneRows(prune, gone)
    requires Runs(Start(), pruned[..at]) && Enabled(End(Start(), pruned[..at]), PruneRows(prune, gone))
    requires forall k :: k in gone ==> Told(now, k, prune.Fence())
    ensures PrunedAndTold(events, at, prune, now)
  {
    assert events[..at] == pruned[..at] && events[at] == pruned[at];
  }

  class Deployment {
    var world: World
    /** Every step anyone has taken. */
    ghost var events: seq<Event>

    /** The world is what those steps have made of it. */
    ghost predicate Valid()
      reads this
    {
      Runs(Start(), events) && world == End(Start(), events) && BooksOk(world)
    }

    constructor ()
      ensures Valid() && events == []
    {
      world, events := Start(), [];
      StartInStep();
    }

    method Step(e: Event)
      requires Valid() && Enabled(world, e)
      modifies this
      ensures Valid() && world == Apply(old(world), e) && events == old(events) + [e]
    {
      BooksKept(world, e);
      OneMore(Start(), events, e);
      world := Apply(world, e);
      events := events + [e];
    }

    /** Any number of any steps by anyone but the handler of `key` and the drain `drain`. */
    method Others(key: Option<PrKey>, drain: Option<nat>)
      requires Valid()
      modifies this
      ensures Valid() && old(events) <= events
      ensures Undisturbed(old(world), world, key, drain)
    {
      var steps: nat := *;
      while 0 < steps
        invariant Valid() && old(events) <= events
        invariant Undisturbed(old(world), world, key, drain)
      {
        var e: Event := *;
        if Enabled(world, e) && (key.None? || HandlerOf(e) != key) && (drain.None? || DrainOf(e) != drain) {
          StepUndisturbs(old(world), world, e, key, drain);
          Step(e);
        }
        steps := steps - 1;
      }
    }

    /** The handler of `key` ends here, whatever it had done. */
    method CutShort(key: PrKey)
      requires Valid() && world.At(key) != Idle
      modifies this
      ensures Valid() && events == old(events) + [Die(key)]
      ensures world.At(key) == Idle && world.State(key) == old(world.State(key)) && world.rows == old(world.rows)
    {
      Step(Die(key));
    }

    /**
     `run_sync`: GitHub is read, the row written, then the state set. A store step given up on
     may have taken effect all the same.
     */
    method RunSync(key: PrKey, fate: SyncFate) returns (outcome: SyncOutcome)
      requires Valid() && world.At(key) == Idle
      modifies this
      ensures Valid() && old(events) <= events && world.At(key) == Idle
      ensures outcome == SyncEnds(fate) && Shown(events, |old(events)|, key, outcome)
      ensures outcome.Synced? ==>
        world.State(key) == PrState(Some(outcome.snapshot), Some(outcome.snapshot.syncedAt))
      ensures outcome.Dropped? ==> world.State(key) == PrState(None, None) && key !in world.rows
      ensures outcome.Failed? ==> world.State(key) == old(world.State(key))
      ensures fate.debounced || fate.read.Unread? ==> world == old(world)
    {
      if fate.debounced {
        return Debounced;
      }
      match fate.read {
        case Unread => return Failed;
        case Ineligible => outcome := DropPullRequest(key, fate.refused);
        case Found(snapshot) => outcome := KeepSnapshot(key, snapshot, fate.refused);
      }
    }

    method DropPullRequest(key: PrKey, refused: bool) returns (outcome: SyncOutcome)
      requires Valid() && world.At(key) == Idle
      modifies this
      ensures Valid() && old(events) <= events && world.At(key) == Idle
      ensures outcome == (if refused then Failed else Dropped) && Shown(events, |old(events)|, key, outcome)
      ensures world.State(key) == if refused then old(world.State(key)) else PrState(None, None)
      ensures !refused ==> key !in world.rows
    {
      Step(FindGone(key));
      Others(Some(key), None);
      DeleteRow(key, refused);
      if refused {
        return Failed;
      }
      Step(CommitDelete(key));
      assert events[|events| - 1] == CommitDelete(key);
      return Dropped;
    }

    method KeepSnapshot(key: PrKey, snapshot: PrRecord, refused: bool) returns (outcome: SyncOutcome)
      requires Valid() && world.At(key) == Idle
      modifies this
      ensures Valid() && old(events) <= events && world.At(key) == Idle
      ensures outcome == (if refused then Failed else Synced(snapshot)) && Shown(events, |old(events)|, key, outcome)
      ensures world.State(key) ==
        if refused then old(world.State(key)) else PrState(Some(snapshot), Some(snapshot.syncedAt))
    {
      Step(Fetch(key, snapshot));
      Others(Some(key), None);
      WriteRow(key, refused);
      if refused {
        return Failed;
      }
      Step(CommitSync(key));
      assert events[|events| - 1] == CommitSync(key);
      return Synced(snapshot);
    }

    /** The store step that writes a row, run again while its result is lost, or given up on. */
    method WriteRow(key: PrKey, refused: bool)
      requires Valid() && world.At(key).Fetched?
      modifies this
      ensures Valid() && old(events) <= events && world.State(key) == old(world.State(key))
      ensures world.At(key) == if refused then Idle else Written(old(world.At(key).snapshot))
    {
      var times: nat := *;
      if !refused && times < 1 {
        times := 1;
      }
      while 0 < times
        invariant Valid() && old(events) <= events && world.State(key) == old(world.State(key))
        invariant world.At(key).Fetched? || world.At(key).Written?
        invariant world.At(key).snapshot == old(world.At(key).snapshot)
        invariant times == 0 && !refused ==> world.At(key).Written?
      {
        Step(Upsert(key));
        Others(Some(key), None);
        times := times - 1;
      }
      if refused {
        CutShort(key);
      }
    }

    /** The store step that drops a row, run again while its result is lost, or given up on. */
    method DeleteRow(key: PrKey, refused: bool)
      requires Valid() && world.At(key).Deleting?
      modifies this
      ensures Valid() && old(events) <= events && world.State(key) == old(world.State(key))
      ensures world.At(key) == if refused then Idle else Deleted(old(world.At(key).cause))
      ensures !refused ==> key !in world.rows
    {
      var times: nat := *;
      if !refused && times < 1 {
        times := 1;
      }
      while 0 < times
        invariant Valid() && old(events) <= events && world.State(key) == old(world.State(key))
        invariant world.At(key).Deleting? || (world.At(key).Deleted? && key !in world.rows)
        invariant world.At(key).cause == old(world.At(key).cause)
        invariant times == 0 && !refused ==> world.At(key).Deleted?
      {
        Step(FenceProtocol.DeleteRow(key));
        Others(Some(key), None);
        times := times - 1;
      }
      if refused {
        CutShort(key);
      }
    }

    /** `run_closed`: unless the fence finds it synced since, the row goes and then the state. */
    method RunClosed(key: PrKey, syncedBefore: Option<nat>, refused: bool) returns (outcome: ClosedOutcome)
      requires Valid() && world.At(key) == Idle && Close(key, syncedBefore) in world.closes
      modifies this
      ensures Valid() && old(events) <= events && world.At(key) == Idle
      ensures outcome ==
        if !ClosedRetires(old(world.State(key)), syncedBefore) then Kept else if refused then GivenUp else Retired
      ensures outcome.Kept? <==>
        && syncedBefore.Some? && old(world.State(key)).lastSyncedAt.Some?
        && syncedBefore.value <= old(world.State(key)).lastSyncedAt.value
      ensures outcome.Retired? ==> world.State(key) == PrState(None, None) && key !in world.rows
      ensures outcome.Kept? ==> world.rows == old(world.rows)
      ensures !outcome.Retired? ==> world.State(key) == old(world.State(key))
    {
      var retires := ClosedRetires(world.State(key), syncedBefore);
      Step(TakeClose(key, syncedBefore));
      if !retires {
        return Kept;
      }
      Others(Some(key), None);
      DeleteRow(key, refused);
      if refused {
        return GivenUp;
      }
      Step(CommitDelete(key));
      return Retired;
    }

    /**
     `run_merge` around GitHub's answer: a merge that lands drops the row, reads the clock for
     its log line, then forgets the snapshot. Cut off at the clock it has done the first alone.
     */
    method RunMerge(key: PrKey, merged: bool, refused: bool, cutOff: bool) returns (outcome: MergeOutcome)
      requires Valid() && world.At(key) == Idle
      modifies this
      ensures Valid() && old(events) <= events && world.At(key) == Idle
      ensures outcome ==
        if old(world.State(key)).snapshot.None? then Refused else if !merged then NotMerged
        else if refused then Died else if cutOff then DiedAtClock else Done
      ensures outcome.Done? ==> key !in world.rows && world.State(key) == old(world.State(key)).(snapshot := None)
      ensures outcome.DiedAtClock? ==> key !in world.rows
      ensures !outcome.Done? ==> world.State(key) == old(world.State(key))
      ensures outcome.Refused? || outcome.NotMerged? ==> world == old(world)
    {
      if world.State(key).snapshot.None? {
        return Refused;
      }
      if !merged {
        return NotMerged;
      }
      Step(FenceProtocol.Merge(key));
      Others(Some(key), None);
      DeleteRow(key, refused);
      if refused {
        return Died;
      }
      Others(Some(key), None);
      if cutOff {
        CutShort(key);
        return DiedAtClock;
      }
      Step(CommitDelete(key));
      return Done;
    }

    /**
     `retire_pending`: reads the outbox, sends every close, acknowledges what it read. Once it
     has, everything queued before it began has been told, and all it read is out of the
     outbox for good.
     */
    method RetirePending(readRefused: bool, ackRefused: bool) returns (told: Option<nat>)
      requires Valid()
      modifies this
      ensures Valid() && old(events) <= events && Onward(old(world), world)
      ensures told ==
        if readRefused || (ackRefused && old(world.outbox) != []) then None else Some(|old(world.outbox)|)
      ensures readRefused ==> world == old(world)
      ensures !readRefused ==> old(world.queued) <= world.told
      ensures told.Some? ==> forall r :: r in old(world.outbox) ==> r !in world.outbox
    {
      if readRefused {
        return None;
      }
      ghost var before := world;
      var d, pending := SendPending();
      AllTold(before, world, d);
      if pending != [] {
        Acknowledge(d, ackRefused);
      }
      GoesOnward(world, DrainEnd(d));
      Step(DrainEnd(d));
      return if ackRefused && pending != [] then None else Some(|pending|);
    }

    /** The drain `d` reads the outbox and sends a close for everything in it. */
    method SendPending() returns (d: nat, pending: seq<Retirement>)
      requires Valid()
      modifies this
      ensures Valid() && old(events) <= events && Onward(old(world), world)
      ensures pending == old(world.outbox)
      ensures d in world.drains && world.drains[d] == Drain(pending, |pending|)
    {
      d := FreshDrain(world.drains);
      GoesOnward(world, DrainRead(d));
      Step(DrainRead(d));
      Others(None, Some(d));
      pending := world.drains[d].read;
      var sent := 0;
      while sent < |pending|
        invariant sent <= |pending| && Valid() && old(events) <= events
        invariant d in world.drains && world.drains[d] == Drain(pending, sent)
        invariant Onward(old(world), world)
      {
        SendNext(d);
        sent := sent + 1;
      }
    }

    method SendNext(d: nat)
      requires Valid() && Enabled(world, DrainSend(d))
      modifies this
      ensures Valid() && old(events) <= events && Onward(old(world), world)
      ensures d in world.drains && world.drains[d] == old(world).drains[d].(sent := old(world).drains[d].sent + 1)
    {
      GoesOnward(world, DrainSend(d));
      Step(DrainSend(d));
      Others(None, Some(d));
    }

    /** The acknowledgement, which may land several times, and may have landed if it is given up on. */
    method Acknowledge(d: nat, refused: bool)
      requires Valid() && Enabled(world, DrainAck(d))
      modifies this
      ensures Valid() && old(events) <= events && Onward(old(world), world)
      ensures d in world.drains && world.drains[d] == old(world).drains[d]
      ensures !refused ==> forall r :: r in old(world).drains[d].read ==> r !in world.outbox
    {
      ghost var read := world.drains[d].read;
      assert DrainOk(world, world.drains[d]);
      var times: nat := *;
      if !refused && times < 1 {
        times := 1;
      }
      ghost var acked := false;
      while 0 < times
        invariant Valid() && old(events) <= events && Onward(old(world), world)
        invariant d in world.drains && world.drains[d] == old(world).drains[d]
        invariant acked || (times == 0 ==> refused)
        invariant acked ==> forall r :: r in read ==> r !in world.outbox
      {
        AckForgetsAllRead(world, d);
        GoesOnward(world, DrainAck(d));
        Step(DrainAck(d));
        acked := true;
        Others(None, Some(d));
        times := times - 1;
      }
    }

    /**
     A prune and the drain it must be followed by. Every row the prune took has been sent a
     close under the prune's own fence once the drain has read the outbox; a prune given up on
     may have landed all the same, and is drained by whoever drains next.
     */
    method PruneAndRetire(prune: Prune, pruneRefused: bool, readRefused: bool, ackRefused: bool) returns (ok: bool)
      requires Valid()
      modifies this
      ensures Valid() && old(events) <= events
      ensures !pruneRefused && !readRefused ==> PrunedAndTold(events, |old(events)|, prune, world)
      ensures ok ==> !pruneRefused && !readRefused
      ensures !pruneRefused && !readRefused && !ackRefused ==> ok
    {
      ghost var from := events;
      var landed: bool := *;
      var gone := [];
      if !pruneRefused || landed {
        gone := PruneOnce(prune);
      }
      if pruneRefused {
        return false;
      }
      ghost var queue := Queue(gone, prune.Fence(), old(world).nextId);
      ghost var queued := world.queued;
      ghost var pruned := events;
      Others(None, None);
      var told := RetirePending(readRefused, ackRefused);
      if !readRefused {
        AllInTold(gone, queue, queued, world, prune.Fence());
        assert pruned <= events;
        NowTold(pruned, events, |from|, prune, gone, world);
      }
      ok := told.Some?;
    }

    /** The prune's own transaction: the rows it selects go and are queued for retirement. */
    method PruneOnce(prune: Prune) returns (gone: seq<PrKey>)
      requires Valid()
      modifies this
      ensures Valid() && events == old(events) + [PruneRows(prune, gone)]
      ensures Enabled(old(world), PruneRows(prune, gone)) && world == Apply(old(world), PruneRows(prune, gone))
    {
      gone := InSomeOrder(set k | k in world.rows && prune.Selects(k, world.rows[k]));
      Step(PruneRows(prune, gone));
    }

    /**
     `run_repo_reconcile`: the fence is read before the listing, every listed pull request is
     synced by its own object, whose failing is noted, then the repository is pruned to the
     listing and told. A listing that fails prunes nothing. `outcomes` is how each sync ended
     and `at` the step that pruned.
     */
    method RunRepoReconcile(
      repositoryId: u64, fence: nat, listing: Option<seq<u64>>, fates: seq<SyncFate>,
      pruneRefused: bool, readRefused: bool, ackRefused: bool)
      returns (r: Sweep, outcomes: seq<SyncOutcome>, ghost at: nat)
      requires Valid() && (listing.Some? ==> |fates| == |listing.value|)
      modifies this
      ensures Valid() && old(events) <= events
      ensures listing.None? ==> r == NotSwept && outcomes == [] && world == old(world)
      ensures listing.Some? ==>
        && |outcomes| == |fates|
        && forall i :: 0 <= i < |fates| ==>
             && outcomes[i] == SyncEnds(fates[i])
             && Shown(events, |old(events)|, PrKey(repositoryId, listing.value[i]), outcomes[i])
      ensures r.Swept? ==>
        && listing.Some? && r.pulls == |listing.value|
        && forall i :: 0 <= i < |outcomes| ==> !outcomes[i].Failed?
      ensures r.SyncsFailed? ==>
        && listing.Some? && r.failed != []
        && |r.failed| == |FailedPlaces(outcomes)|
        && forall k :: k in r.failed <==>
             exists i :: 0 <= i < |outcomes| && outcomes[i].Failed? && PrKey(repositoryId, listing.value[i]) == k
      ensures listing.Some? && !pruneRefused && !readRefused ==>
        && |old(events)| <= at
        && Reconciled(events, at, repositoryId, listing.value, fence, world)
      ensures !r.NotSwept? ==> !pruneRefused && !readRefused
      ensures listing.Some? && !pruneRefused && !readRefused && !ackRefused ==> !r.NotSwept?
    {
      outcomes, at := [], 0;
      if listing.None? {
        return NotSwept, outcomes, at;
      }
      var pulls := listing.value;
      outcomes := SyncEach(repositoryId, pulls, fates);
      at := |events|;
      ghost var synced := events;
      var swept := PruneAndRetire(Retain(repositoryId, Live(pulls), fence), pruneRefused, readRefused, ackRefused);
      forall i | 0 <= i < |pulls|
        ensures Shown(events, |old(events)|, PrKey(repositoryId, pulls[i]), outcomes[i])
      {
        StillShown(synced, events, |old(events)|, PrKey(repositoryId, pulls[i]), outcomes[i]);
      }
      if !pruneRefused && !readRefused {
        RetainReconciles(events, at, repositoryId, pulls, fence, world);
      }
      var failed := FailedKeys(KeysIn(repositoryId, pulls), outcomes);
      FailedKeysExactly(KeysIn(repositoryId, pulls), outcomes);
      FailedKeysCounted(KeysIn(repositoryId, pulls), outcomes);
      assert forall k :: FailedAt(KeysIn(repositoryId, pulls), outcomes, k) <==>
        exists i :: 0 <= i < |outcomes| && outcomes[i].Failed? && PrKey(repositoryId, pulls[i]) == k;
      AnyFailed(KeysIn(repositoryId, pulls), outcomes);
      r := if !swept then NotSwept else if failed == [] then Swept(|pulls|) else SyncsFailed(failed);
    }

    /** One after another, each listed pull request is synced; one that fails stops none. */
    method SyncEach(repositoryId: u64, pulls: seq<u64>, fates: seq<SyncFate>) returns (outcomes: seq<SyncOutcome>)
      requires Valid() && |fates| == |pulls|
      modifies this
      ensures Valid() && old(events) <= events && |outcomes| == |pulls|
      ensures forall i :: 0 <= i < |pulls| ==>
        && outcomes[i] == SyncEnds(fates[i])
        && Shown(events, |old(events)|, PrKey(repositoryId, pulls[i]), outcomes[i])
    {
      outcomes := [];
      for i := 0 to |pulls|
        invariant Valid() && old(events) <= events && |outcomes| == i
        invariant forall n :: 0 <= n < i ==>
          && outcomes[n] == SyncEnds(fates[n])
          && Shown(events, |old(events)|, PrKey(repositoryId, pulls[n]), outcomes[n])
      {
        ghost var before := events;
        var outcome := SyncPullRequest(PrKey(repositoryId, pulls[i]), fates[i]);
        forall n | 0 <= n < i
          ensures Shown(events, |old(events)|, PrKey(repositoryId, pulls[n]), outcomes[n])
        {
          StillShown(before, events, |old(events)|, PrKey(repositoryId, pulls[n]), outcomes[n]);
        }
        outcomes := outcomes + [outcome];
      }
    }

    /** A sync of `key` by its own object, once the handler in its way, if there is one, has ended. */
    method SyncPullRequest(key: PrKey, fate: SyncFate) returns (outcome: SyncOutcome)
      requires Valid()
      modifies this
      ensures Valid() && old(events) <= events
      ensures outcome == SyncEnds(fate) && Shown(events, |old(events)|, key, outcome)
    {
      Others(None, None);
      HandlerEnds(key);
      outcome := RunSync(key, fate);
    }

    /** Whatever handler of `key` is under way takes its remaining steps. */
    method HandlerEnds(key: PrKey)
      requires Valid()
      modifies this
      ensures Valid() && old(events) <= events && world.At(key) == Idle
    {
      if world.At(key).Fetched? {
        Step(Upsert(key));
      }
      if world.At(key).Written? {
        Step(CommitSync(key));
      }
      if world.At(key).Deleting? {
        Step(FenceProtocol.DeleteRow(key));
      }
      if world.At(key).Deleted? {
        Step(CommitDelete(key));
      }
    }
  }
}

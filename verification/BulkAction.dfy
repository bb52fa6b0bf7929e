/**
 The workflow of one batch: list it as running, send every target's action, settle each
 target as its call comes back in whatever order, record the finished batch.

 What Restate, GitHub and the store do is chosen freely by the environment: which calls
 land first and with what, which effect fails, and whether a store step that failed had
 already taken effect.
 */
module BulkAction {
  import opened Wrappers
  import opened PrKeys
  import opened BatchProgress
  import opened MergeRounds
  import opened MergePlans

  const MAX_CONCURRENT: nat := 3
  const MAX_BATCH_TARGETS: nat := 100

  datatype BulkRequest = BulkRequest(
    action: BulkActionKind, targets: seq<PrTarget>, userId: string, retriedFrom: Option<string>)

  datatype RunningBatch = RunningBatch(
    batchId: string, installationId: u64, action: BulkActionKind, requestedBy: string,
    retriedFrom: Option<string>, startedAt: nat, targetCount: nat)

  // ----- Validation -----

  datatype InvalidBatch = BatchId | RetriedFrom | TargetCount | DuplicateTargets

  function KeysOf(targets: seq<PrTarget>): set<PrKey> {
    set t | t in targets :: t.Key()
  }

  /** Whether some key was seen before it comes up, in `seen` or earlier in the list. */
  predicate AnySeen(targets: seq<PrTarget>, seen: set<PrKey>) {
    targets != [] && (targets[0].Key() in seen || AnySeen(targets[1..], seen + {targets[0].Key()}))
  }

  /** `isBatchId` says which texts are UUIDv7 (section 5.7 of RFC 9562). */
  function Validate(isBatchId: string -> bool, batchId: string, request: BulkRequest): Result<(), InvalidBatch> {
    if !isBatchId(batchId) then Failure(BatchId)
    else if request.retriedFrom.Some? && !isBatchId(request.retriedFrom.value) then Failure(RetriedFrom)
    else if request.targets == [] || MAX_BATCH_TARGETS < |request.targets| then Failure(TargetCount)
    else if AnySeen(request.targets, {}) then Failure(DuplicateTargets)
    else Success(())
  }

  lemma {:induction false} AnySeenExact(targets: seq<PrTarget>, seen: set<PrKey>)
    ensures !AnySeen(targets, seen) <==> Distinct(targets) && KeysOf(targets) !! seen
  {
    if targets != [] {
      var first, rest := targets[0], targets[1..];
      AnySeenExact(rest, seen + {first.Key()});
      DistinctFirst(first, rest);
      assert targets == [first] + rest;
    }
  }

  lemma {:induction false} DistinctFirst(first: PrTarget, rest: seq<PrTarget>)
    ensures KeysOf([first] + rest) == {first.Key()} + KeysOf(rest)
    ensures Distinct([first] + rest) <==> Distinct(rest) && first.Key() !in KeysOf(rest)
  {
    var all := [first] + rest;
    assert forall t :: t in all <==> t == first || t in rest;
    if Distinct(all) {
      forall i, j | 0 <= i < j < |rest|
        ensures rest[i].Key() != rest[j].Key()
      {
        assert all[i + 1] == rest[i] && all[j + 1] == rest[j];
      }
      forall j | 0 <= j < |rest|
        ensures rest[j].Key() != first.Key()
      {
        assert all[0] == first && all[j + 1] == rest[j];
      }
    }
    if Distinct(rest) && first.Key() !in KeysOf(rest) {
      forall i, j | 0 <= i < j < |all|
        ensures all[i].Key() != all[j].Key()
      {
        assert all[j] == rest[j - 1] && rest[j - 1] in rest;
        assert i == 0 || all[i] == rest[i - 1];
      }
    }
  }

  /** A request runs exactly when its ids are batch ids and it names 1 to 100 distinct targets. */
  lemma {:induction false} ValidExactly(isBatchId: string -> bool, batchId: string, request: BulkRequest)
    ensures Validate(isBatchId, batchId, request).Success? <==>
      && isBatchId(batchId)
      && (request.retriedFrom.Some? ==> isBatchId(request.retriedFrom.value))
      && 1 <= |request.targets| <= 100
      && Distinct(request.targets)
  {
    AnySeenExact(request.targets, {});
  }

  /** And one that may not is told the first of the four things that are wrong with it. */
  lemma {:induction false} InvalidExactly(isBatchId: string -> bool, batchId: string, request: BulkRequest)
    ensures var why := Validate(isBatchId, batchId, request);
      var badRetry := request.retriedFrom.Some? && !isBatchId(request.retriedFrom.value);
      var badCount := |request.targets| == 0 || |request.targets| > 100;
      && (why == Failure(BatchId) <==> !isBatchId(batchId))
      && (why == Failure(RetriedFrom) <==> isBatchId(batchId) && badRetry)
      && (why == Failure(TargetCount) <==> isBatchId(batchId) && !badRetry && badCount)
      && (why == Failure(DuplicateTargets) <==>
            isBatchId(batchId) && !badRetry && !badCount && !Distinct(request.targets))
  {
    AnySeenExact(request.targets, {});
  }

  // ----- The projection's batch tables -----

  datatype BatchStore = BatchStore(running: map<string, RunningBatch>, finished: map<string, BatchRecord>)

  function ListBatch(store: BatchStore, batch: RunningBatch): BatchStore {
    if batch.batchId in store.running then store
    else store.(running := store.running[batch.batchId := batch])
  }

  function UnlistBatch(store: BatchStore, batchId: string): BatchStore {
    store.(running := store.running - {batchId})
  }

  function RecordBatch(store: BatchStore, record: BatchRecord): BatchStore {
    BatchStore(
      store.running - {record.batchId},
      if record.batchId in store.finished then store.finished
      else store.finished[record.batchId := record])
  }

  /** A store step Restate runs again after losing its result changes nothing more. */
  lemma {:induction false} StoreStepsRepeat(store: BatchStore, batch: RunningBatch, record: BatchRecord)
    ensures ListBatch(ListBatch(store, batch), batch) == ListBatch(store, batch)
    ensures RecordBatch(RecordBatch(store, record), record) == RecordBatch(store, record)
    ensures UnlistBatch(UnlistBatch(store, record.batchId), record.batchId) == UnlistBatch(store, record.batchId)
  {
  }

  // ----- What a progress shows of the calls -----

  /** A call's outcome, or the message of the terminal failure it ended with. */
  type CallResult = Result<ActionOutcome, string>

  function Verdict(call: CallResult): TargetState {
    match call
    case Success(outcome) => OutcomeState(outcome)
    case Failure(message) => TargetState.Failed(message)
  }

  function StateOf(key: PrKey, answers: map<PrKey, CallResult>, running: set<PrKey>): TargetState {
    if key in answers then Verdict(answers[key]) else if key in running then Running else Queued
  }

  ghost predicate Shows(p: Progress, targets: seq<PrTarget>, answers: map<PrKey, CallResult>, running: set<PrKey>) {
    && SameTargets(p, targets)
    && forall i :: 0 <= i < |targets| ==> p.targets[i].state == StateOf(targets[i].Key(), answers, running)
  }

  function RunningSet(p: Progress): set<nat> {
    set i: nat | i < |p.targets| && p.targets[i].state.Running?
  }

  /** At most three targets run at once, one of a rebase, and no two merges in one repository. */
  ghost predicate Legal(p: Progress) {
    && |RunningSet(p)| <= (if p.action == Rebase then 1 else 3)
    && (p.action == Merge ==>
          forall i, j :: i in RunningSet(p) && j in RunningSet(p) && i != j ==>
            p.targets[i].target.repositoryId != p.targets[j].target.repositoryId)
  }

  /** Everything published so far, in order: legal, counted right, and never taken back. */
  ghost predicate Orderly(published: seq<Progress>) {
    && (forall n {:trigger Legal(published[n])} ::
          0 <= n < |published| ==> Legal(published[n]) && Consistent(published[n]))
    && forall m, n {:trigger Advances(published[m], published[n])} ::
         0 <= m < n < |published| ==> Advances(published[m], published[n])
  }

  lemma {:induction false} ShowsRunning(p: Progress, targets: seq<PrTarget>, answers: map<PrKey, CallResult>, running: set<PrKey>, target: PrTarget)
    requires Distinct(targets) && Shows(p, targets, answers, running)
    requires target in targets && target.Key() !in answers
    ensures Shows(SetState(p, target.Key(), Running), targets, answers, running + {target.Key()})
  {
    var i :| 0 <= i < |targets| && targets[i] == target;
    FindDistinct(p, targets, i);
  }

  lemma {:induction false} ShowsVerdict(p: Progress, targets: seq<PrTarget>, answers: map<PrKey, CallResult>, running: set<PrKey>, target: PrTarget, call: CallResult)
    requires Distinct(targets) && Shows(p, targets, answers, running)
    requires target in targets && target.Key() !in answers
    ensures Shows(SetState(p, target.Key(), Verdict(call)), targets, answers[target.Key() := call], running)
  {
    var i :| 0 <= i < |targets| && targets[i] == target;
    FindDistinct(p, targets, i);
  }

  lemma {:induction false} FewIndices(targets: seq<PrTarget>, round: seq<PrTarget>, indices: set<nat>)
    requires Distinct(targets)
    requires forall i :: i in indices ==> i < |targets| && targets[i].Key() in KeysOf(round)
    ensures |indices| <= |round|
    decreases |round|
  {
    if round == [] {
      assert forall i :: i !in indices;
      assert indices == {};
    } else {
      var front, last := round[..|round| - 1], round[|round| - 1];
      assert round == front + [last];
      var named := set i | i in indices && targets[i].Key() == last.Key();
      var others := indices - named;
      FewIndices(targets, front, others);
      if named != {} {
        var i :| i in named;
        assert named == {i};
      }
      assert |indices| == |others| + |named|;
    }
  }

  lemma {:induction false} ShowsLegal(p: Progress, targets: seq<PrTarget>, answers: map<PrKey, CallResult>, round: seq<PrTarget>)
    requires Distinct(targets) && Shows(p, targets, answers, KeysOf(round))
    requires forall t :: t in round ==> t in targets
    requires |round| <= if p.action == Rebase then 1 else MAX_CONCURRENT
    requires p.action == Merge ==> NoRepoTwice(round)
    ensures Legal(p)
  {
    FewIndices(targets, round, RunningSet(p));
    if p.action == Merge {
      forall i, j | i in RunningSet(p) && j in RunningSet(p) && i != j
        ensures targets[i].repositoryId != targets[j].repositoryId
      {
        var t :| t in round && t.Key() == targets[i].Key();
        var u :| u in round && u.Key() == targets[j].Key();
        assert t != u;
      }
    }
  }

  lemma {:induction false} AdvancesOn(p: Progress, q: Progress, r: Progress)
    requires Advances(p, q) && Advances(q, r)
    ensures Advances(p, r)
  {
  }

  lemma {:induction false} OrderlyOn(published: seq<Progress>, p: Progress)
    requires Orderly(published) && Legal(p) && Consistent(p)
    requires published != [] ==> Advances(published[|published| - 1], p)
    ensures Orderly(published + [p])
  {
    var more := published + [p];
    forall n | 0 <= n < |more|
      ensures Legal(more[n]) && Consistent(more[n])
    {
      assert n < |published| ==> more[n] == published[n] && Legal(published[n]);
    }
    forall m, n | 0 <= m < n < |more|
      ensures Advances(more[m], more[n])
    {
      assert more[m] == published[m];
      if n < |published| {
        assert more[n] == published[n] && Advances(published[m], published[n]);
      } else if m < n - 1 {
        assert Advances(published[m], published[n - 1]);
        AdvancesOn(published[m], published[n - 1], p);
      }
    }
  }

  // ----- The environment -----

  datatype RunError = Invalid(why: InvalidBatch) | Effect(message: string) | NotComplete

  /** What a run has shown the dashboard, sent, and heard back. */
  datatype View = View(published: seq<Progress>, rounds: seq<seq<PrTarget>>, answers: map<PrKey, CallResult>)

  /** One step of the run on the store: whether it reported success, and the store it left. */
  datatype StoreStep =
    | Listing(batch: RunningBatch, ok: bool, after: BatchStore)
    | Unlisting(ok: bool, after: BatchStore)
    | Recording(record: BatchRecord, ok: bool, after: BatchStore)

  /** A store step that reports failure may have landed all the same. */
  predicate Took(before: BatchStore, step: StoreStep, batchId: string) {
    var landed := match step
      case Listing(batch, _, _) => ListBatch(before, batch)
      case Unlisting(_, _) => UnlistBatch(before, batchId)
      case Recording(record, _, _) => RecordBatch(before, record);
    step.after == landed || (!step.ok && step.after == before)
  }

  /** A call of a round that has come back: which of the round's, and with what. */
  datatype Landing = Landing(index: nat, call: CallResult)

  /** What the workflow sees of Restate, with every outcome chosen by the environment. */
  class Restate {
    const batchId: string
    var store: BatchStore
    /** Every step taken on the store. */
    var steps: seq<StoreStep>
    /** Every time the clock gave. */
    var clock: seq<nat>
    /** For every pause begun, how many rounds had been sent. */
    var pauses: seq<nat>
    /** Every progress the dashboard was shown. */
    var published: seq<Progress>
    /** The rounds in which the targets' actions were sent, in order. */
    var rounds: seq<seq<PrTarget>>
    /** What each target's call came back with. */
    var answers: map<PrKey, CallResult>
    /** Whether something a run cannot do without has failed. */
    var broken: bool

    constructor (batchId: string, store: BatchStore)
      ensures this.batchId == batchId && this.store == store && Fresh()
    {
      this.batchId, this.store := batchId, store;
      steps, clock, pauses, published, rounds, answers, broken := [], [], [], [], [], map[], false;
    }

    function Seen(): View
      reads this
    {
      View(published, rounds, answers)
    }

    /** No run of this workflow has begun. */
    ghost predicate Fresh()
      reads this
    {
      && published == [] && rounds == [] && answers == map[]
      && steps == [] && clock == [] && pauses == [] && !broken
    }

    method Now() returns (r: Result<nat, string>)
      modifies this`clock, this`broken
      ensures r.Success? ==> clock == old(clock) + [r.value] && broken == old(broken)
      ensures r.Failure? ==> clock == old(clock) && broken
    {
      r := *;
      match r {
        case Success(now) => clock := clock + [now];
        case Failure(_) => broken := true;
      }
    }

    method Pause() returns (ok: bool)
      modifies this`pauses, this`broken
      ensures pauses == old(pauses) + [|rounds|] && broken == (old(broken) || !ok)
    {
      pauses := pauses + [|rounds|];
      ok := *;
      broken := broken || !ok;
    }

    method Send(round: seq<PrTarget>)
      modifies this`rounds
      ensures rounds == old(rounds) + [round]
    {
      rounds := rounds + [round];
    }

    /**
     The next call of the round just sent to come back, of those that have not, if any has
     not: the environment says which it is and what it came back with.
     */
    method Await(round: seq<PrTarget>) returns (ok: bool, landed: Option<Landing>)
      requires rounds != [] && rounds[|rounds| - 1] == round
      modifies this`answers, this`broken
      ensures broken == (old(broken) || !ok)
      ensures ok && landed.Some? ==>
        && landed.value.index < |round| && round[landed.value.index].Key() !in old(answers)
        && answers == old(answers)[round[landed.value.index].Key() := landed.value.call]
      ensures !(ok && landed.Some?) ==> answers == old(answers)
      ensures ok && landed.None? ==> forall i :: 0 <= i < |round| ==> round[i].Key() in answers
    {
      ok := *;
      landed := None;
      if !ok {
        broken := true;
      } else if i :| 0 <= i < |round| && round[i].Key() !in answers {
        var call: CallResult := *;
        landed := Some(Landing(i, call));
        answers := answers[round[i].Key() := call];
      }
    }

    /** One action sent and waited for by itself, a terminal failure being an answer too. */
    method Call(target: PrTarget) returns (call: CallResult)
      modifies this`rounds, this`answers
      ensures rounds == old(rounds) + [[target]]
      ensures answers == old(answers)[target.Key() := call]
    {
      call := *;
      rounds := rounds + [[target]];
      answers := answers[target.Key() := call];
    }

    method StartBatch(batch: RunningBatch) returns (ok: bool)
      modifies this`store, this`steps
      ensures steps == old(steps) + [Listing(batch, ok, store)]
      ensures Took(old(store), Listing(batch, ok, store), batchId)
    {
      ok := *;
      var landed: bool := *;
      if ok || landed {
        store := ListBatch(store, batch);
      }
      steps := steps + [Listing(batch, ok, store)];
    }

    method Unlist() returns (ok: bool)
      modifies this`store, this`steps
      ensures steps == old(steps) + [Unlisting(ok, store)]
      ensures Took(old(store), Unlisting(ok, store), batchId)
    {
      ok := *;
      var landed: bool := *;
      if ok || landed {
        store := UnlistBatch(store, batchId);
      }
      steps := steps + [Unlisting(ok, store)];
    }

    method RecordFinished(record: BatchRecord) returns (ok: bool)
      modifies this`store, this`steps, this`broken
      ensures steps == old(steps) + [Recording(record, ok, store)] && broken == (old(broken) || !ok)
      ensures Took(old(store), Recording(record, ok, store), batchId)
    {
      ok := *;
      var landed: bool := *;
      if ok || landed {
        store := RecordBatch(store, record);
      }
      steps := steps + [Recording(record, ok, store)];
      broken := broken || !ok;
    }

    method Publish(p: Progress)
      requires Orderly(published) && Legal(p) && Consistent(p)
      requires published != [] ==> Advances(published[|published| - 1], p)
      modifies this`published
      ensures published == old(published) + [p] && Orderly(published)
    {
      OrderlyOn(published, p);
      published := published + [p];
    }
  }

  // ----- The workflow -----

  /** The progress last shown. */
  function Latest(published: seq<Progress>): Progress
    requires published != []
  {
    published[|published| - 1]
  }

  /** The tracker and what has been published agree with the calls that have come back. */
  ghost predicate InStep(p: Progress, seen: View, targets: seq<PrTarget>, running: set<PrKey>) {
    && Distinct(targets)
    && Shows(p, targets, seen.answers, running)
    && Consistent(p)
    && Orderly(seen.published) && seen.published != [] && seen.published[|seen.published| - 1] == p
  }

  /** The state a call leaves its target in: done as GitHub said, refused for its reason, or failed as it did. */
  ghost predicate OwnVerdict(state: TargetState, call: CallResult) {
    match call
    case Success(outcome) =>
      && (outcome.Succeeded? ==> state == TargetState.Succeeded(outcome.detail, outcome.mergeSha))
      && (outcome.Rejected? ==> state == TargetState.Rejected(outcome.reason))
    case Failure(message) => state == TargetState.Failed(message)
  }

  /** The same wherever a run stops: each target has the verdict of its own call, or none. */
  ghost predicate Faithful(p: Progress, seen: View, targets: seq<PrTarget>) {
    && SameTargets(p, targets) && Consistent(p)
    && Orderly(seen.published) && seen.published != [] && seen.published[|seen.published| - 1] == p
    && (forall i :: 0 <= i < |targets| && targets[i].Key() in seen.answers ==>
          OwnVerdict(p.targets[i].state, seen.answers[targets[i].Key()]))
    && (forall i :: 0 <= i < |targets| && targets[i].Key() !in seen.answers ==>
          p.targets[i].state.Queued? || p.targets[i].state.Running?)
  }

  lemma {:induction false} InStepFaithful(p: Progress, seen: View, targets: seq<PrTarget>, running: set<PrKey>)
    requires InStep(p, seen, targets, running)
    ensures Faithful(p, seen, targets)
  {
  }

  /** How many of the targets were answered with a success, with a rejection, and with a failure. */
  ghost predicate TalliesAnswers(p: Progress, targets: seq<PrTarget>, answers: map<PrKey, CallResult>) {
    && (forall t :: t in targets ==> t.Key() in answers)
    && p.succeeded == |set i: nat | i < |targets| && Answered(answers[targets[i].Key()], true)|
    && p.rejected == |set i: nat | i < |targets| && Answered(answers[targets[i].Key()], false)|
    && p.failed == |set i: nat | i < |targets| && answers[targets[i].Key()].Failure?|
  }

  /** Whether the call came back with an outcome, of the kind that means done or of the other. */
  predicate Answered(call: CallResult, done: bool) {
    call.Success? && (call.value.Succeeded? <==> done)
  }

  lemma {:induction false} CountsAnswers(p: Progress, seen: View, targets: seq<PrTarget>)
    requires Faithful(p, seen, targets) && forall t :: t in targets ==> t.Key() in seen.answers
    ensures TalliesAnswers(p, targets, seen.answers)
  {
    TalliesAreSizes(p);
    assert forall i :: 0 <= i < |targets| ==> OwnVerdict(p.targets[i].state, seen.answers[targets[i].Key()]);
    assert (set i: nat | i < |p.targets| && p.targets[i].state.Succeeded?)
        == set i: nat | i < |targets| && Answered(seen.answers[targets[i].Key()], true);
    assert (set i: nat | i < |p.targets| && p.targets[i].state.Rejected?)
        == set i: nat | i < |targets| && Answered(seen.answers[targets[i].Key()], false);
    assert (set i: nat | i < |p.targets| && p.targets[i].state.Failed?)
        == set i: nat | i < |targets| && seen.answers[targets[i].Key()].Failure?;
  }

  /** How big a round may be, and which pull requests it may hold together. */
  ghost predicate RoundFits(action: BulkActionKind, round: seq<PrTarget>) {
    && |round| <= (if action == Rebase then 1 else MAX_CONCURRENT)
    && (action == Merge ==> NoRepoTwice(round))
    && Distinct(round)
  }

  lemma {:induction false} SettleStep(last: Progress, before: Progress, targets: seq<PrTarget>, answers: map<PrKey, CallResult>,
                   round: seq<PrTarget>, target: PrTarget, call: CallResult)
    requires Distinct(targets) && Shows(before, targets, answers, KeysOf(round))
    requires Consistent(before) && Advances(last, before)
    requires target in targets && target.Key() !in answers
    requires RoundFits(before.action, round) && forall t :: t in round ==> t in targets
    ensures var after := SetState(before, target.Key(), Verdict(call));
      && Shows(after, targets, answers[target.Key() := call], KeysOf(round))
      && Consistent(after) && Legal(after) && Advances(last, after)
  {
    var after := SetState(before, target.Key(), Verdict(call));
    ShowsVerdict(before, targets, answers, KeysOf(round), target, call);
    SetStateIsConsistent(before, target.Key(), Verdict(call));
    SetStateAdvances(before, target.Key(), Verdict(call));
    AdvancesOn(last, before, after);
    ShowsLegal(after, targets, answers[target.Key() := call], round);
  }

  /** The verdict of the call that came back since `before`, shown at once. */
  method Settle(restate: Restate, tracker: Tracker, target: PrTarget, call: CallResult,
                ghost before: View, ghost targets: seq<PrTarget>, ghost round: seq<PrTarget>)
    requires InStep(tracker.Value(), before, targets, KeysOf(round))
    requires target in targets && target.Key() !in before.answers
    requires restate.Seen() == before.(answers := before.answers[target.Key() := call])
    requires RoundFits(tracker.action, round) && forall t :: t in round ==> t in targets
    modifies restate`published, tracker
    ensures InStep(tracker.Value(), restate.Seen(), targets, KeysOf(round))
  {
    SettleStep(Latest(before.published), tracker.Value(), targets, before.answers, round, target, call);
    RecordCall(tracker, target, call);
    restate.Publish(tracker.Value());
  }

  method RecordCall(tracker: Tracker, target: PrTarget, call: CallResult)
    modifies tracker
    ensures tracker.Value() == SetState(old(tracker.Value()), target.Key(), Verdict(call))
  {
    match call {
      case Success(outcome) => tracker.Record(target.Key(), outcome);
      case Failure(message) => tracker.RecordFailure(target.Key(), message);
    }
  }

  lemma {:induction false} StartStep(last: Progress, before: Progress, targets: seq<PrTarget>, answers: map<PrKey, CallResult>,
                  round: seq<PrTarget>, i: nat)
    requires Distinct(targets) && i < |round| && round[i] in targets && round[i].Key() !in answers
    requires Shows(before, targets, answers, KeysOf(round[..i]))
    requires Consistent(before) && Advances(last, before)
    ensures var after := SetState(before, round[i].Key(), Running);
      && Shows(after, targets, answers, KeysOf(round[..i + 1]))
      && Consistent(after) && Advances(last, after)
  {
    ShowsRunning(before, targets, answers, KeysOf(round[..i]), round[i]);
    SetStateIsConsistent(before, round[i].Key(), Running);
    SetStateAdvances(before, round[i].Key(), Running);
    AdvancesOn(last, before, SetState(before, round[i].Key(), Running));
    KeysGrow(round, i);
  }

  /** One publish shows the whole round under way. */
  method StartRound(restate: Restate, tracker: Tracker, round: seq<PrTarget>, ghost targets: seq<PrTarget>)
    requires InStep(tracker.Value(), restate.Seen(), targets, {})
    requires RoundFits(tracker.action, round) && forall t :: t in round ==> t in targets
    requires KeysOf(round) !! restate.answers.Keys
    modifies restate`published, tracker
    ensures InStep(tracker.Value(), restate.Seen(), targets, KeysOf(round))
  {
    MarkStarted(tracker, round, targets, restate.answers, restate.published[|restate.published| - 1]);
    ShowsLegal(tracker.Value(), targets, restate.answers, round);
    restate.Publish(tracker.Value());
  }

  method MarkStarted(tracker: Tracker, round: seq<PrTarget>, ghost targets: seq<PrTarget>,
                     ghost answers: map<PrKey, CallResult>, ghost last: Progress)
    requires Distinct(targets) && Shows(tracker.Value(), targets, answers, {})
    requires Consistent(tracker.Value()) && Advances(last, tracker.Value())
    requires (forall t :: t in round ==> t in targets) && KeysOf(round) !! answers.Keys
    modifies tracker
    ensures Shows(tracker.Value(), targets, answers, KeysOf(round))
    ensures Consistent(tracker.Value()) && Advances(last, tracker.Value())
  {
    assert KeysOf(round[..0]) == {};
    for i := 0 to |round|
      invariant Shows(tracker.Value(), targets, answers, KeysOf(round[..i]))
      invariant Consistent(tracker.Value()) && Advances(last, tracker.Value())
    {
      assert round[i] in round && round[i].Key() in KeysOf(round);
      StartStep(last, tracker.Value(), targets, answers, round, i);
      tracker.Start(round[i].Key());
    }
    assert round[..|round|] == round;
  }

  lemma {:induction false} KeysGrow(round: seq<PrTarget>, i: nat)
    requires i < |round|
    ensures KeysOf(round[..i + 1]) == KeysOf(round[..i]) + {round[i].Key()}
  {
    assert round[..i + 1] == round[..i] + [round[i]];
    assert forall t :: t in round[..i + 1] <==> t in round[..i] || t == round[i];
  }

  /** Once a round's calls have all landed, what it had running no longer shows. */
  lemma {:induction false} RoundOver(p: Progress, targets: seq<PrTarget>, answers: map<PrKey, CallResult>, running: set<PrKey>)
    requires Shows(p, targets, answers, running) && running <= answers.Keys
    ensures Shows(p, targets, answers, {})
  {
  }

  /**
   Awaits every call of one round, settling each target as its call lands, in whatever
   order that is, until all have landed or awaiting them fails.
   */
  method LandRound(restate: Restate, tracker: Tracker, round: seq<PrTarget>, ghost targets: seq<PrTarget>)
    returns (ok: bool)
    requires InStep(tracker.Value(), restate.Seen(), targets, KeysOf(round))
    requires RoundFits(tracker.action, round) && forall t :: t in round ==> t in targets
    requires KeysOf(round) !! restate.answers.Keys
    requires !restate.broken && restate.rounds != [] && restate.rounds[|restate.rounds| - 1] == round
    modifies restate`published, restate`answers, restate`broken, tracker
    ensures InStep(tracker.Value(), restate.Seen(), targets, KeysOf(round))
    ensures ok ==> restate.answers.Keys == old(restate.answers.Keys) + KeysOf(round)
    ensures ok <==> !restate.broken
  {
    ghost var first := restate.answers.Keys;
    while true
      invariant !restate.broken && InStep(tracker.Value(), restate.Seen(), targets, KeysOf(round))
      invariant first <= restate.answers.Keys <= first + KeysOf(round)
      invariant restate.rounds == old(restate.rounds)
      decreases KeysOf(round) - restate.answers.Keys
    {
      ghost var before := restate.Seen();
      var landed;
      ok, landed := restate.Await(round);
      if !ok {
        return;
      }
      if landed.None? {
        AllLanded(round, first, restate.answers);
        return;
      }
      var target := round[landed.value.index];
      assert target in round && target.Key() in KeysOf(round);
      Settle(restate, tracker, target, landed.value.call, before, targets, round);
    }
  }

  lemma {:induction false} AllLanded(round: seq<PrTarget>, first: set<PrKey>, answers: map<PrKey, CallResult>)
    requires first <= answers.Keys <= first + KeysOf(round)
    requires forall i :: 0 <= i < |round| ==> round[i].Key() in answers
    ensures answers.Keys == first + KeysOf(round)
  {
    forall key | key in KeysOf(round)
      ensures key in answers
    {
      var t :| t in round && t.Key() == key;
    }
  }

  /** Sends one round to GitHub together and settles what comes back. */
  method SendRound(restate: Restate, tracker: Tracker, round: seq<PrTarget>, ghost targets: seq<PrTarget>)
    returns (ok: bool)
    requires InStep(tracker.Value(), restate.Seen(), targets, {})
    requires RoundFits(tracker.action, round) && forall t :: t in round ==> t in targets
    requires KeysOf(round) !! restate.answers.Keys
    requires !restate.broken
    modifies restate`published, restate`rounds, restate`answers, restate`broken, tracker
    ensures restate.rounds == old(restate.rounds) + [round]
    ensures Faithful(tracker.Value(), restate.Seen(), targets)
    ensures ok ==> InStep(tracker.Value(), restate.Seen(), targets, {})
    ensures ok ==> restate.answers.Keys == old(restate.answers.Keys) + KeysOf(round)
    ensures ok <==> !restate.broken
  {
    StartRound(restate, tracker, round, targets);
    restate.Send(round);
    ok := LandRound(restate, tracker, round, targets);
    InStepFaithful(tracker.Value(), restate.Seen(), targets, KeysOf(round));
    if ok {
      InStepOver(tracker.Value(), restate.Seen(), targets, KeysOf(round));
    }
  }

  /** The order a batch's actions are sent in. */
  function SendOrder(request: BulkRequest): seq<PrTarget> {
    if request.action == Merge then RoundRobin(request.targets) else request.targets
  }

  lemma {:induction false} DistinctInsert(b: seq<PrTarget>, n: nat)
    requires n < |b| && Distinct(b[..n] + b[n + 1..])
    requires forall t :: t in b[..n] + b[n + 1..] ==> t.Key() != b[n].Key()
    ensures Distinct(b)
  {
    var rest := b[..n] + b[n + 1..];
    assert forall i :: 0 <= i < n ==> b[i] == rest[i];
    assert forall i :: n < i < |b| ==> b[i] == rest[i - 1];
  }

  lemma {:induction false} DistinctPermutation(a: seq<PrTarget>, b: seq<PrTarget>)
    requires multiset(a) == multiset(b) && Distinct(a)
    ensures Distinct(b)
    decreases |a|
  {
    if a == [] {
      assert |b| == |multiset(b)| == 0;
    } else {
      var front, last := a[..|a| - 1], a[|a| - 1];
      assert a == front + [last];
      assert last in multiset(b);
      var n :| 0 <= n < |b| && b[n] == last;
      var rest := b[..n] + b[n + 1..];
      TakeOut(b, n, 0);
      assert multiset(front) == multiset(a) - multiset{last};
      DistinctPermutation(front, rest);
      forall t | t in rest
        ensures t.Key() != last.Key()
      {
        assert t in multiset(rest);
        assert t in front;
      }
      DistinctInsert(b, n);
    }
  }

  /** What has been sent is `rounds`, and all of it has come back. */
  ghost predicate SentUpTo(p: Progress, seen: View, targets: seq<PrTarget>, rounds: seq<seq<PrTarget>>) {
    && InStep(p, seen, targets, {})
    && seen.rounds == rounds
    && seen.answers.Keys == KeysOf(Concat(rounds))
  }

  /** The batch in its own order, every round but the last of `n`. */
  ghost predicate IsChunking(targets: seq<PrTarget>, rounds: seq<seq<PrTarget>>, n: nat) {
    && Concat(rounds) == targets
    && forall m :: 0 <= m < |rounds| ==> 1 <= |rounds[m]| <= n && (m < |rounds| - 1 ==> |rounds[m]| == n)
  }

  /** The rounds a batch goes out in: a merge plan's, chunks of three updates, or rebases one by one. */
  ghost predicate InRounds(request: BulkRequest, rounds: seq<seq<PrTarget>>) {
    match request.action
    case Merge => IsPlan(request.targets, rounds, 3)
    case UpdateBranch => IsChunking(request.targets, rounds, 3)
    case Rebase => IsChunking(request.targets, rounds, 1)
  }

  /** Whatever the action, the rounds put together are the send order. */
  lemma {:induction false} RoundsInOrder(request: BulkRequest, rounds: seq<seq<PrTarget>>)
    requires InRounds(request, rounds)
    ensures Concat(rounds) == SendOrder(request)
  {
  }

  lemma {:induction false} ConcatOn(rounds: seq<seq<PrTarget>>, round: seq<PrTarget>)
    ensures Concat(rounds + [round]) == Concat(rounds) + round
    ensures KeysOf(Concat(rounds + [round])) == KeysOf(Concat(rounds)) + KeysOf(round)
  {
    assert (rounds + [round])[..|rounds|] == rounds;
    assert forall t :: t in Concat(rounds) + round <==> t in Concat(rounds) || t in round;
  }

  /** A round that came back whole is one more of those that have. */
  lemma {:induction false} OneRoundMore(p: Progress, seen: View, targets: seq<PrTarget>, rounds: seq<seq<PrTarget>>, round: seq<PrTarget>)
    requires InStep(p, seen, targets, {}) && seen.rounds == rounds + [round]
    requires seen.answers.Keys == KeysOf(Concat(rounds)) + KeysOf(round)
    ensures SentUpTo(p, seen, targets, rounds + [round])
  {
    ConcatOn(rounds, round);
  }

  /** Why the next stretch of the send order may go out as a round. */
  lemma {:induction false} NextStretch(targets: seq<PrTarget>, order: seq<PrTarget>, from: nat, to: nat)
    requires Distinct(targets) && multiset(order) == multiset(targets) && from <= to <= |order|
    ensures Distinct(order[from..to])
    ensures forall t :: t in order[from..to] ==> t in targets
    ensures KeysOf(order[from..to]) !! KeysOf(order[..from])
    ensures KeysOf(order[..to]) == KeysOf(order[..from]) + KeysOf(order[from..to])
    ensures order[..to] == order[..from] + order[from..to]
  {
    DistinctPermutation(targets, order);
    forall t | t in order
      ensures t in targets
    {
      assert t in multiset(order);
    }
    assert order[..to] == order[..from] + order[from..to];
    assert forall t :: t in order[..to] <==> t in order[..from] || t in order[from..to];
  }

  lemma {:induction false} StretchFits(
    targets: seq<PrTarget>, order: seq<PrTarget>, before: seq<PrTarget>, round: seq<PrTarget>)
    requires Distinct(targets) && multiset(order) == multiset(targets) && before + round <= order
    ensures Distinct(round) && (forall t :: t in round ==> t in targets) && KeysOf(round) !! KeysOf(before)
  {
    var from, to := |before|, |before| + |round|;
    NextStretch(targets, order, from, to);
    assert order[..from] == before && order[from..to] == round;
  }

  /** A plan sends the whole batch, and a round of it is fit to be sent. */
  lemma {:induction false} PlanParts(targets: seq<PrTarget>, rounds: seq<seq<PrTarget>>, m: nat)
    requires IsPlan(targets, rounds, MAX_CONCURRENT) && m < |rounds|
    ensures multiset(Concat(rounds)) == multiset(targets)
    ensures |rounds[m]| <= MAX_CONCURRENT && NoRepoTwice(rounds[m])
  {
    NothingLost(targets);
  }

  /** Why the plan's rounds may go out one after another. */
  lemma {:induction false} RoundStretch(targets: seq<PrTarget>, rounds: seq<seq<PrTarget>>, m: nat)
    requires Distinct(targets) && IsPlan(targets, rounds, MAX_CONCURRENT) && m < |rounds|
    ensures RoundFits(Merge, rounds[m])
    ensures forall t :: t in rounds[m] ==> t in targets
    ensures KeysOf(rounds[m]) !! KeysOf(Concat(rounds[..m]))
    ensures rounds[..m + 1] == rounds[..m] + [rounds[m]]
  {
    PlanParts(targets, rounds, m);
    ConcatPrefix(rounds, m);
    StretchFits(targets, Concat(rounds), Concat(rounds[..m]), rounds[m]);
  }

  /** One more round, after `rounds` have come back. */
  method SendNext(restate: Restate, tracker: Tracker, ghost targets: seq<PrTarget>, ghost rounds: seq<seq<PrTarget>>,
                  round: seq<PrTarget>)
    returns (ok: bool)
    requires SentUpTo(tracker.Value(), restate.Seen(), targets, rounds) && !restate.broken
    requires RoundFits(tracker.action, round) && forall t :: t in round ==> t in targets
    requires KeysOf(round) !! KeysOf(Concat(rounds))
    modifies restate`published, restate`rounds, restate`answers, restate`broken, tracker
    ensures Faithful(tracker.Value(), restate.Seen(), targets)
    ensures ok ==> SentUpTo(tracker.Value(), restate.Seen(), targets, rounds + [round])
    ensures ok <==> !restate.broken
  {
    ok := SendRound(restate, tracker, round, targets);
    if ok {
      OneRoundMore(tracker.Value(), restate.Seen(), targets, rounds, round);
    }
  }

  method SendMerges(restate: Restate, tracker: Tracker, targets: seq<PrTarget>) returns (ok: bool)
    requires SentUpTo(tracker.Value(), restate.Seen(), targets, []) && tracker.action == Merge
    requires !restate.broken
    modifies restate`published, restate`rounds, restate`answers, restate`broken, tracker
    ensures Faithful(tracker.Value(), restate.Seen(), targets)
    ensures ok ==> SentUpTo(tracker.Value(), restate.Seen(), targets, restate.rounds)
    ensures ok ==> IsPlan(targets, restate.rounds, MAX_CONCURRENT)
    ensures ok <==> !restate.broken
  {
    var rounds := PlanMergeRounds(targets, MAX_CONCURRENT);
    InStepFaithful(tracker.Value(), restate.Seen(), targets, {});
    for m := 0 to |rounds|
      invariant !restate.broken && Faithful(tracker.Value(), restate.Seen(), targets)
      invariant SentUpTo(tracker.Value(), restate.Seen(), targets, rounds[..m])
    {
      RoundStretch(targets, rounds, m);
      ok := SendNext(restate, tracker, targets, rounds[..m], rounds[m]);
      if !ok {
        return;
      }
    }
    assert rounds[..|rounds|] == rounds;
    ok := true;
  }

  lemma {:induction false} ConcatPrefix(rounds: seq<seq<PrTarget>>, m: nat)
    requires m < |rounds|
    ensures Concat(rounds[..m + 1]) == Concat(rounds[..m]) + rounds[m]
    ensures Concat(rounds[..m + 1]) <= Concat(rounds)
    decreases |rounds|
  {
    assert rounds[..m + 1][..m] == rounds[..m];
    if m + 1 < |rounds| {
      var front := rounds[..|rounds| - 1];
      ConcatPrefix(front, m);
      assert front[..m + 1] == rounds[..m + 1];
    } else {
      assert rounds[..m + 1] == rounds;
    }
  }

  /** The first `next` targets, sent in chunks of `n`; only the batch's end may leave a short one. */
  ghost predicate ChunkedUpTo(targets: seq<PrTarget>, rounds: seq<seq<PrTarget>>, n: nat, next: nat) {
    && next <= |targets| && IsChunking(targets[..next], rounds, n)
    && (next < |targets| ==> forall m :: 0 <= m < |rounds| ==> |rounds[m]| == n)
  }

  lemma {:induction false} OneChunkMore(targets: seq<PrTarget>, rounds: seq<seq<PrTarget>>, n: nat, next: nat, end: nat)
    requires ChunkedUpTo(targets, rounds, n, next) && next < end <= |targets|
    requires end == next + n || (end == |targets| && end < next + n)
    ensures ChunkedUpTo(targets, rounds + [targets[next..end]], n, end)
  {
    Stretches(targets, next, end);
    ConcatOn(rounds, targets[next..end]);
  }

  lemma {:induction false} Stretches(targets: seq<PrTarget>, next: nat, end: nat)
    requires next <= end <= |targets|
    ensures targets[..end] == targets[..next] + targets[next..end]
  {
  }

  method SendUpdates(restate: Restate, tracker: Tracker, targets: seq<PrTarget>) returns (ok: bool)
    requires SentUpTo(tracker.Value(), restate.Seen(), targets, []) && tracker.action == UpdateBranch
    requires !restate.broken
    modifies restate`published, restate`rounds, restate`answers, restate`broken, tracker
    ensures Faithful(tracker.Value(), restate.Seen(), targets)
    ensures ok ==> SentUpTo(tracker.Value(), restate.Seen(), targets, restate.rounds)
    ensures ok ==> IsChunking(targets, restate.rounds, MAX_CONCURRENT)
    ensures ok <==> !restate.broken
  {
    var next := 0;
    while next < |targets|
      invariant !restate.broken
      invariant ChunkedUpTo(targets, restate.rounds, MAX_CONCURRENT, next)
      invariant SentUpTo(tracker.Value(), restate.Seen(), targets, restate.rounds)
    {
      var end := if next + MAX_CONCURRENT < |targets| then next + MAX_CONCURRENT else |targets|;
      ghost var rounds := restate.rounds;
      NextStretch(targets, targets, next, end);
      ok := SendNext(restate, tracker, targets, rounds, targets[next..end]);
      if !ok {
        return;
      }
      OneChunkMore(targets, rounds, MAX_CONCURRENT, next, end);
      next := end;
    }
    assert targets[..next] == targets;
    InStepFaithful(tracker.Value(), restate.Seen(), targets, {});
    ok := true;
  }

  /** The pauses of a rebase batch of `n` once `i` targets are done: after each but the last. */
  function PausesBefore(n: nat, i: nat): seq<nat> {
    if i == 0 then [] else PausesBefore(n, i - 1) + if i < n then [i] else []
  }

  function PausesOf(n: nat): seq<nat> {
    PausesBefore(n, n)
  }

  function PausesFor(request: BulkRequest): seq<nat> {
    if request.action == Rebase then PausesOf(|request.targets|) else []
  }

  /** A pause falls after every rebase but the last, told by how many rounds had been sent. */
  lemma {:induction false} PausesExactly(n: nat, i: nat)
    requires i <= n
    ensures |PausesBefore(n, i)| == if i < n || n == 0 then i else i - 1
    ensures forall k :: 0 <= k < |PausesBefore(n, i)| ==> PausesBefore(n, i)[k] == k + 1
  {
    if i != 0 {
      PausesExactly(n, i - 1);
    }
  }

  lemma {:induction false} NextPause(start: seq<nat>, before: seq<nat>, after: seq<nat>, n: nat, i: nat)
    requires before == start + PausesBefore(n, i) && after == before + if i + 1 < n then [i + 1] else []
    ensures after == start + PausesBefore(n, i + 1)
  {
  }

  /** A rebase batch is complete once its last target has been answered, and no earlier. */
  lemma {:induction false} CompletedAtLast(p: Progress, targets: seq<PrTarget>, answers: map<PrKey, CallResult>, i: nat)
    requires Distinct(targets) && i < |targets| && Consistent(p) && Shows(p, targets, answers, {})
    requires answers.Keys == KeysOf(targets[..i + 1])
    ensures p.completed <==> i + 1 == |targets|
  {
    if i + 1 == |targets| {
      assert targets[..i + 1] == targets;
      AllAnswered(p, targets, targets, answers);
    } else {
      assert forall t :: t in targets[..i + 1] ==> t.Key() != targets[i + 1].Key();
      assert p.targets[i + 1].state == Queued;
    }
  }

  method SendRebases(restate: Restate, tracker: Tracker, targets: seq<PrTarget>) returns (ok: bool)
    requires SentUpTo(tracker.Value(), restate.Seen(), targets, []) && tracker.action == Rebase
    requires !restate.broken
    modifies restate`published, restate`rounds, restate`answers, restate`broken, restate`pauses, tracker
    ensures ok ==> RebasedUpTo(tracker.Value(), restate.Seen(), targets, |targets|)
    ensures !ok ==> Faithful(tracker.Value(), restate.Seen(), targets)
    ensures ok <==> !restate.broken
    ensures ok ==> restate.pauses == old(restate.pauses) + PausesOf(|targets|)
  {
    ok := true;
    NoneRebased(tracker.Value(), restate.Seen(), targets);
    for i := 0 to |targets|
      invariant ok && !restate.broken && restate.pauses == old(restate.pauses) + PausesBefore(|targets|, i)
      invariant RebasedUpTo(tracker.Value(), restate.Seen(), targets, i)
    {
      ghost var pauses := restate.pauses;
      var done := RebaseAt(restate, tracker, targets, i);
      ghost var p, seen := tracker.Value(), restate.Seen();
      RebasedFaithful(p, seen, targets, i + 1);
      ok := PauseUnless(restate, done);
      assert tracker.Value() == p && restate.Seen() == seen;
      if !ok {
        return;
      }
      NextPause(old(restate.pauses), pauses, restate.pauses, |targets|, i);
    }
  }

  lemma {:induction false} NoneRebased(p: Progress, seen: View, targets: seq<PrTarget>)
    requires SentUpTo(p, seen, targets, [])
    ensures RebasedUpTo(p, seen, targets, 0)
  {
    assert targets[..0] == [];
  }

  lemma {:induction false} RebasedFaithful(p: Progress, seen: View, targets: seq<PrTarget>, i: nat)
    requires RebasedUpTo(p, seen, targets, i)
    ensures Faithful(p, seen, targets)
  {
    InStepFaithful(p, seen, targets, {});
  }

  /** The first `i` rebases have gone out one by one and come back, and the batch is complete if that is all. */
  ghost predicate RebasedUpTo(p: Progress, seen: View, targets: seq<PrTarget>, i: nat) {
    && InStep(p, seen, targets, {})
    && OneByOne(seen.rounds, targets, i) && seen.answers.Keys == KeysOf(targets[..i])
    && (0 < i ==> (p.completed <==> i == |targets|))
  }

  ghost predicate OneByOne(rounds: seq<seq<PrTarget>>, targets: seq<PrTarget>, i: nat) {
    |rounds| == i <= |targets| && forall m :: 0 <= m < i ==> rounds[m] == [targets[m]]
  }

  lemma {:induction false} OneByOneIsChunking(rounds: seq<seq<PrTarget>>, targets: seq<PrTarget>, i: nat)
    requires OneByOne(rounds, targets, i)
    ensures IsChunking(targets[..i], rounds, 1)
    decreases i
  {
    if i != 0 {
      var front := rounds[..i - 1];
      OneByOneIsChunking(front, targets, i - 1);
      ConcatOn(front, [targets[i - 1]]);
      assert rounds == front + [[targets[i - 1]]] && targets[..i] == targets[..i - 1] + [targets[i - 1]];
    }
  }

  lemma {:induction false} AllRebased(p: Progress, seen: View, targets: seq<PrTarget>)
    requires RebasedUpTo(p, seen, targets, |targets|)
    ensures Faithful(p, seen, targets) && SentUpTo(p, seen, targets, seen.rounds) && IsChunking(targets, seen.rounds, 1)
  {
    assert targets[..|targets|] == targets;
    OneByOneIsChunking(seen.rounds, targets, |targets|);
    InStepFaithful(p, seen, targets, {});
  }

  /** What may be said of the next target to rebase. */
  lemma {:induction false} RebaseStretch(targets: seq<PrTarget>, i: nat)
    requires Distinct(targets) && i < |targets|
    ensures targets[i] in targets && targets[i].Key() !in KeysOf(targets[..i])
  {
    NextStretch(targets, targets, i, i + 1);
    assert targets[i] in targets[i..i + 1];
  }

  lemma {:induction false} RebaseLanded(
    p: Progress, seen: View, targets: seq<PrTarget>, rounds: seq<seq<PrTarget>>, i: nat)
    requires i < |targets| && InStep(p, seen, targets, {})
    requires OneByOne(rounds, targets, i) && seen.rounds == rounds + [[targets[i]]]
    requires seen.answers.Keys == KeysOf(targets[..i]) + {targets[i].Key()}
    ensures RebasedUpTo(p, seen, targets, i + 1)
  {
    KeysGrow(targets, i);
    CompletedAtLast(p, targets, seen.answers, i);
  }

  method RebaseAt(restate: Restate, tracker: Tracker, targets: seq<PrTarget>, i: nat) returns (done: bool)
    requires i < |targets| && RebasedUpTo(tracker.Value(), restate.Seen(), targets, i)
    requires tracker.action == Rebase
    modifies restate`published, restate`rounds, restate`answers, tracker
    ensures RebasedUpTo(tracker.Value(), restate.Seen(), targets, i + 1)
    ensures |restate.rounds| == i + 1 && (done <==> i + 1 == |targets|)
  {
    ghost var rounds := restate.rounds;
    RebaseStretch(targets, i);
    RebaseOne(restate, tracker, targets[i], targets);
    RebaseLanded(tracker.Value(), restate.Seen(), targets, rounds, i);
    done := tracker.completed;
  }

  method PauseUnless(restate: Restate, done: bool) returns (ok: bool)
    requires !restate.broken
    modifies restate`broken, restate`pauses
    ensures restate.Seen() == old(restate.Seen()) && (ok <==> !restate.broken)
    ensures restate.pauses == old(restate.pauses) + if done then [] else [|restate.rounds|]
  {
    ok := true;
    if !done {
      ok := restate.Pause();
    }
  }

  /** Asks for one rebase and settles its target with how the call ended. */
  method RebaseOne(restate: Restate, tracker: Tracker, target: PrTarget, ghost targets: seq<PrTarget>)
    requires InStep(tracker.Value(), restate.Seen(), targets, {})
    requires target in targets && target.Key() !in restate.answers
    requires tracker.action == Rebase
    modifies restate`published, restate`rounds, restate`answers, tracker
    ensures InStep(tracker.Value(), restate.Seen(), targets, {})
    ensures restate.rounds == old(restate.rounds) + [[target]]
    ensures restate.answers.Keys == old(restate.answers.Keys) + {target.Key()}
  {
    var round := [target];
    OneKey(target);
    assert RoundFits(Rebase, round);
    StartRound(restate, tracker, round, targets);
    ghost var before := View(restate.published, restate.rounds + [round], restate.answers);
    var call := restate.Call(target);
    Settle(restate, tracker, target, call, before, targets, round);
    InStepOver(tracker.Value(), restate.Seen(), targets, KeysOf(round));
  }

  lemma {:induction false} InStepOver(p: Progress, seen: View, targets: seq<PrTarget>, running: set<PrKey>)
    requires InStep(p, seen, targets, running) && running <= seen.answers.Keys
    ensures InStep(p, seen, targets, {})
  {
    RoundOver(p, targets, seen.answers, running);
  }

  lemma {:induction false} OneKey(target: PrTarget)
    ensures KeysOf([target]) == {target.Key()}
  {
    assert target in [target];
  }

  /** The finished batch's record, as the store is given it. */
  ghost predicate IsRecord(
    record: BatchRecord, p: Progress, installationId: u64, request: BulkRequest, startedAt: nat, completedAt: nat)
  {
    p.completed && Says(record, p, installationId, request.userId, request.retriedFrom, startedAt, completedAt)
  }

  /** What running the batch has done to the store: nothing, and it failed, or its record was sent. */
  ghost predicate Driven(
    ok: bool, p: Progress, before: BatchStore, after: BatchStore, steps: seq<StoreStep>, clock: seq<nat>,
    batchId: string, installationId: u64, request: BulkRequest, startedAt: nat)
  {
    if steps == [] then !ok && after == before
    else
      && |steps| == 1 && steps[0].Recording? && steps[0].ok == ok
      && Took(before, steps[0], batchId) && after == steps[0].after
      && |clock| == 1 && IsRecord(steps[0].record, p, installationId, request, startedAt, clock[0])
  }

  /** Sends every target's action in the batch's order, and hears back from all of them or fails. */
  method SendAll(restate: Restate, tracker: Tracker, request: BulkRequest) returns (ok: bool)
    requires SentUpTo(tracker.Value(), restate.Seen(), request.targets, [])
    requires tracker.action == request.action
    requires !restate.broken
    modifies restate`published, restate`rounds, restate`answers, restate`broken, restate`pauses, tracker
    ensures Faithful(tracker.Value(), restate.Seen(), request.targets)
    ensures ok ==> SentUpTo(tracker.Value(), restate.Seen(), request.targets, restate.rounds)
    ensures ok ==> InRounds(request, restate.rounds)
    ensures ok <==> !restate.broken
    ensures ok ==> restate.pauses == old(restate.pauses) + PausesFor(request)
  {
    match request.action {
      case Merge => ok := SendMerges(restate, tracker, request.targets);
      case UpdateBranch => ok := SendUpdates(restate, tracker, request.targets);
      case Rebase =>
        ok := SendRebases(restate, tracker, request.targets);
        if ok {
          AllRebased(tracker.Value(), restate.Seen(), request.targets);
        }
    }
  }

  method Drive(restate: Restate, tracker: Tracker, installationId: u64, request: BulkRequest, startedAt: nat)
    returns (r: Result<(), RunError>)
    requires SentUpTo(tracker.Value(), restate.Seen(), request.targets, []) && request.targets != []
    requires tracker.action == request.action && !restate.broken
    modifies restate`published, restate`rounds, restate`answers, restate`broken, restate`pauses
    modifies restate`store, restate`steps, restate`clock, tracker
    ensures Faithful(tracker.Value(), restate.Seen(), request.targets)
    ensures r.Success? <==> !restate.broken
    ensures r.Failure? ==> r.error.Effect?
    ensures r.Success? ==>
      && tracker.completed && InRounds(request, restate.rounds)
      && restate.pauses == old(restate.pauses) + PausesFor(request)
      && (forall t :: t in request.targets ==> t.Key() in restate.answers)
    ensures old(restate.steps) <= restate.steps && old(restate.clock) <= restate.clock
    ensures Driven(r.Success?, tracker.Value(), old(restate.store), restate.store,
                   restate.steps[|old(restate.steps)|..], restate.clock[|old(restate.clock)|..],
                   restate.batchId, installationId, request, startedAt)
  {
    var ok := SendAll(restate, tracker, request);
    if !ok {
      var message: string := *;
      return Failure(Effect(message));
    }
    RoundsInOrder(request, restate.rounds);
    SendOrderComplete(request);
    AllAnswered(tracker.Value(), request.targets, SendOrder(request), restate.answers);
    r := Finish(restate, tracker, installationId, request, startedAt);
  }

  /** The end of a run whose targets have all settled: the clock, the record, the store. */
  method Finish(restate: Restate, tracker: Tracker, installationId: u64, request: BulkRequest, startedAt: nat)
    returns (r: Result<(), RunError>)
    requires Consistent(tracker.Value()) && AllSettled(tracker.targets) && tracker.targets != []
    requires !restate.broken
    modifies restate`store, restate`steps, restate`clock, restate`broken
    ensures tracker.completed && (r.Failure? ==> r.error.Effect?)
    ensures r.Success? <==> !restate.broken
    ensures old(restate.steps) <= restate.steps && old(restate.clock) <= restate.clock
    ensures Driven(r.Success?, tracker.Value(), old(restate.store), restate.store,
                   restate.steps[|old(restate.steps)|..], restate.clock[|old(restate.clock)|..],
                   restate.batchId, installationId, request, startedAt)
  {
    var now := restate.Now();
    if now.Failure? {
      return Failure(Effect(now.error));
    }
    RecordRoundTrip(tracker.Value(), installationId, request.userId, request.retriedFrom, startedAt, now.value);
    RecordSays(tracker.Value(), installationId, request.userId, request.retriedFrom, startedAt, now.value);
    var record := CompletedRecord(
      tracker.Value(), installationId, request.userId, request.retriedFrom, startedAt, now.value);
    if record.None? {
      return Failure(NotComplete);
    }
    var recorded := restate.RecordFinished(record.value);
    var message: string := *;
    r := if recorded then Success(()) else Failure(Effect(message));
  }

  lemma {:induction false} SendOrderComplete(request: BulkRequest)
    ensures multiset(SendOrder(request)) == multiset(request.targets)
  {
    NothingLost(request.targets);
  }

  lemma {:induction false} AllAnswered(p: Progress, targets: seq<PrTarget>, order: seq<PrTarget>, answers: map<PrKey, CallResult>)
    requires Shows(p, targets, answers, {}) && answers.Keys == KeysOf(order)
    requires multiset(order) == multiset(targets)
    ensures AllSettled(p.targets)
    ensures forall t :: t in targets ==> t.Key() in answers
  {
    forall i | 0 <= i < |targets|
      ensures targets[i].Key() in answers
    {
      assert targets[i] in multiset(targets);
      assert targets[i] in order;
    }
  }

  /**
   How a run that read its starting clock leaves the store, step by step: it is listed once;
   if it fails with a target unsettled it is unlisted once; otherwise it is driven to its
   record, or failed on the way there, and never unlisted.
   */
  ghost predicate Ended(
    before: BatchStore, after: BatchStore, steps: seq<StoreStep>, clock: seq<nat>, ok: bool, p: Progress,
    batchId: string, installationId: u64, request: BulkRequest)
    requires clock != []
  {
    && steps != [] && Took(before, steps[0], batchId)
    && steps[0] == Listing(
         RunningBatch(batchId, installationId, request.action, request.userId, request.retriedFrom, clock[0],
                      |request.targets|),
         steps[0].ok, steps[0].after)
    && p.batchId == batchId && p.action == request.action && (ok ==> p.completed)
    && if p.completed then
         Driven(ok, p, steps[0].after, after, steps[1..], clock[1..], batchId, installationId, request, clock[0])
       else
         |steps| == 2 && steps[1].Unlisting? && Took(steps[0].after, steps[1], batchId) && after == steps[1].after
  }

  /**
   However a run ends, a batch is never both listed and recorded. Success leaves it recorded
   and unlisted; failing before completion leaves nothing recorded, and nothing listed if the
   unlisting reported success; failing after completion keeps the listing it had unless the
   record landed all the same. No other batch is touched.
   */
  lemma {:induction false} NeverBoth(
    before: BatchStore, after: BatchStore, steps: seq<StoreStep>, clock: seq<nat>, ok: bool, p: Progress,
    batchId: string, installationId: u64, request: BulkRequest)
    requires clock != [] && Ended(before, after, steps, clock, ok, p, batchId, installationId, request)
    ensures batchId !in before.finished ==> !(batchId in after.running && batchId in after.finished)
    ensures ok ==>
      && batchId !in after.running && batchId in after.finished && |clock| == 2
      && (batchId !in before.finished ==>
            IsRecord(after.finished[batchId], p, installationId, request, clock[0], clock[1]))
    ensures !p.completed ==>
      after.finished == before.finished && (steps[1].ok ==> batchId !in after.running)
    ensures p.completed && !ok ==>
      || (steps == steps[..1] && after == steps[0].after)
      || (|steps| == 2 && steps[1].Recording?
          && (after == steps[0].after || (batchId !in after.running && batchId in after.finished)))
    ensures after.running - {batchId} == before.running - {batchId}
    ensures after.finished - {batchId} == before.finished - {batchId}
  {
    if p.completed && |steps| == 2 {
      assert steps[1..][0] == steps[1];
      assert steps[1].record.batchId == batchId;
    } else if p.completed {
      assert steps[..1] == steps;
    }
  }

  /**
   The whole workflow: publish the queued batch, list it, run it, record it; and on the way
   out of a run that did not complete, stop listing it. It succeeds exactly if nothing it
   cannot do without fails; before its clock is read it has done nothing.
   */
  method RunBulkAction(restate: Restate, installationId: u64, request: BulkRequest)
    returns (r: Result<Progress, RunError>)
    requires Distinct(request.targets) && request.targets != []
    requires restate.Fresh()
    modifies restate
    ensures r.Failure? ==> r.error.Effect?
    ensures r.Success? <==> !restate.broken
    ensures Orderly(restate.published)
    ensures restate.clock == [] ==>
      r.Failure? && restate.store == old(restate.store) && restate.steps == [] && restate.Seen() == View([], [], map[])
    ensures restate.clock != [] ==>
      && restate.published != []
      && Faithful(Latest(restate.published), restate.Seen(), request.targets)
      && Ended(old(restate.store), restate.store, restate.steps, restate.clock, r.Success?,
               Latest(restate.published), restate.batchId, installationId, request)
    ensures r.Success? ==>
      && restate.clock != [] && r.value == Latest(restate.published)
      && InRounds(request, restate.rounds) && restate.pauses == PausesFor(request)
      && (forall t :: t in request.targets ==> t.Key() in restate.answers)
  {
    var startedAt := restate.Now();
    if startedAt.Failure? {
      return Failure(Effect(startedAt.error));
    }
    QueuedIsConsistent(restate.batchId, request.action, request.targets);
    var tracker := new Tracker.Queued(restate.batchId, request.action, request.targets);
    assert RunningSet(tracker.Value()) == {};
    restate.Publish(tracker.Value());
    var outcome := DriveListed(restate, tracker, installationId, request, startedAt.value);
    r := if outcome.Success? then Success(tracker.Value()) else Failure(outcome.error);
  }

  /** The run from the moment its queued batch has been published. */
  method DriveListed(restate: Restate, tracker: Tracker, installationId: u64, request: BulkRequest, startedAt: nat)
    returns (r: Result<(), RunError>)
    requires SentUpTo(tracker.Value(), restate.Seen(), request.targets, []) && request.targets != []
    requires tracker.action == request.action && tracker.batchId == restate.batchId
    requires !restate.broken && restate.steps == [] && restate.clock == [startedAt] && restate.pauses == []
    modifies restate, tracker
    ensures Faithful(tracker.Value(), restate.Seen(), request.targets)
    ensures (r.Success? <==> !restate.broken) && (r.Failure? ==> r.error.Effect?)
    ensures r.Success? ==>
      && InRounds(request, restate.rounds) && restate.pauses == PausesFor(request)
      && (forall t :: t in request.targets ==> t.Key() in restate.answers)
    ensures restate.clock != []
    ensures Ended(old(restate.store), restate.store, restate.steps, restate.clock, r.Success?, tracker.Value(),
                  restate.batchId, installationId, request)
  {
    var running := RunningBatch(restate.batchId, installationId, request.action, request.userId,
                                request.retriedFrom, startedAt, |request.targets|);
    var listed := restate.StartBatch(running);
    r := Drive(restate, tracker, installationId, request, startedAt);
    if r.Failure? && !tracker.completed {
      var unlisted := restate.Unlist();
    }
  }

  /** The workflow's handler: a request that may not run as this batch touches nothing. */
  method Run(isBatchId: string -> bool, restate: Restate, installationId: u64, request: BulkRequest)
    returns (r: Result<Progress, RunError>)
    requires restate.Fresh()
    modifies restate
    ensures r.Failure? && r.error.Invalid? <==> Validate(isBatchId, restate.batchId, request).Failure?
    ensures Validate(isBatchId, restate.batchId, request).Failure? ==>
      r == Failure(Invalid(Validate(isBatchId, restate.batchId, request).error))
    ensures r.Failure? && r.error.Invalid? ==>
      restate.store == old(restate.store) && restate.steps == [] && restate.Seen() == View([], [], map[])
    ensures r != Failure(NotComplete)
    ensures Validate(isBatchId, restate.batchId, request).Success? ==>
      && (r.Success? <==> !restate.broken)
      && (restate.clock != [] ==>
            && restate.published != []
            && Faithful(Latest(restate.published), restate.Seen(), request.targets)
            && Ended(old(restate.store), restate.store, restate.steps, restate.clock, r.Success?,
                     Latest(restate.published), restate.batchId, installationId, request))
    ensures r.Success? ==>
      && r.value.completed && r.value.succeeded + r.value.rejected + r.value.failed == |request.targets|
      && TalliesAnswers(r.value, request.targets, restate.answers)
      && Faithful(r.value, restate.Seen(), request.targets)
      && InRounds(request, restate.rounds) && restate.pauses == PausesFor(request)
      && (forall t :: t in request.targets ==> t.Key() in restate.answers)
      && restate.batchId !in restate.store.running && restate.batchId in restate.store.finished
      && |restate.clock| == 2
      && (old(restate.batchId !in restate.store.finished) ==>
            IsRecord(restate.store.finished[restate.batchId], r.value, installationId, request,
                     restate.clock[0], restate.clock[1]))
    ensures Orderly(restate.published)
    ensures old(restate.batchId !in restate.store.finished) ==>
      restate.store == old(restate.store)
      || !(restate.batchId in restate.store.running && restate.batchId in restate.store.finished)
  {
    ValidExactly(isBatchId, restate.batchId, request);
    var valid := Validate(isBatchId, restate.batchId, request);
    if valid.Failure? {
      return Failure(Invalid(valid.error));
    }
    ghost var before := restate.store;
    r := RunBulkAction(restate, installationId, request);
    if restate.clock != [] {
      NeverBoth(before, restate.store, restate.steps, restate.clock, r.Success?, Latest(restate.published),
                restate.batchId, installationId, request);
    }
    if r.Success? {
      CountsSettled(r.value.targets);
      CountsAnswers(r.value, restate.Seen(), request.targets);
    }
  }
}

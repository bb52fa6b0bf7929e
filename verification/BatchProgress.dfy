/**
 Where a batch of bulk actions stands: one state per target and the running tally, the
 record it becomes once every target has settled, and the way back from that record.
 */
module BatchProgress {
  import opened Wrappers
  import opened PrKeys

  datatype BulkActionKind = Merge | Rebase | UpdateBranch

  datatype PrTarget = PrTarget(
    repositoryId: u64, owner: string, repo: string, number: u64,
    expectedSha: string, title: string, htmlUrl: string)
  {
    function Key(): (key: PrKey)
      ensures key.repositoryId == repositoryId && key.number == number
    {
      PrKey(repositoryId, number)
    }
  }

  datatype RejectReason =
    | StaleSha(expected: string, actual: string)
    | NotMergeable
    | MergeMethodDisallowed
    | Forbidden
    | NotFound
    | NoUserToken

  /** How one target's call ended when it did not fail terminally. */
  datatype ActionOutcome =
    | Succeeded(detail: string, mergeSha: Option<string>)
    | Rejected(reason: RejectReason)

  /** One of the three verdicts a target can settle with. */
  datatype TargetOutcome =
    | Succeeded(detail: string, mergeSha: Option<string>)
    | Rejected(reason: RejectReason)
    | Failed(detail: string)

  datatype TargetState =
    | Queued
    | Running
    | Succeeded(detail: string, mergeSha: Option<string>)
    | Rejected(reason: RejectReason)
    | Failed(detail: string)
  {
    /** The verdict this state is, if it is one. */
    function Outcome(): Option<TargetOutcome> {
      match this
      case Queued | Running => None
      case Succeeded(detail, sha) => Some(TargetOutcome.Succeeded(detail, sha))
      case Rejected(reason) => Some(TargetOutcome.Rejected(reason))
      case Failed(detail) => Some(TargetOutcome.Failed(detail))
    }
  }

  function FromOutcome(outcome: TargetOutcome): TargetState {
    match outcome
    case Succeeded(detail, sha) => TargetState.Succeeded(detail, sha)
    case Rejected(reason) => TargetState.Rejected(reason)
    case Failed(detail) => TargetState.Failed(detail)
  }

  datatype TargetProgress = TargetProgress(target: PrTarget, state: TargetState)

  /** One published progress: what the dashboard is shown. */
  datatype Progress = Progress(
    batchId: string, action: BulkActionKind, targets: seq<TargetProgress>,
    completed: bool, succeeded: nat, rejected: nat, failed: nat)
  {
    function Settled(): nat {
      succeeded + rejected + failed
    }
  }

  datatype BatchTargetRecord = BatchTargetRecord(
    repositoryId: u64, owner: string, repo: string, number: u64, title: string,
    htmlUrl: string, headSha: Option<string>, outcome: TargetOutcome)

  datatype BatchRecord = BatchRecord(
    batchId: string, installationId: u64, action: BulkActionKind, requestedBy: string,
    retriedFrom: Option<string>, startedAt: nat, completedAt: nat,
    succeeded: nat, rejected: nat, failed: nat, targets: seq<BatchTargetRecord>)

  function QueuedTargets(targets: seq<PrTarget>): (items: seq<TargetProgress>)
    ensures |items| == |targets|
    ensures forall i :: 0 <= i < |targets| ==> items[i] == TargetProgress(targets[i], Queued)
  {
    seq(|targets|, i requires 0 <= i < |targets| => TargetProgress(targets[i], Queued))
  }

  function QueuedProgress(batchId: string, action: BulkActionKind, targets: seq<PrTarget>): Progress {
    Progress(batchId, action, QueuedTargets(targets), false, 0, 0, 0)
  }

  /** The index of the first target named `key`, or the number of targets. */
  function Find(items: seq<TargetProgress>, key: PrKey): (i: nat)
    ensures i <= |items|
    ensures i < |items| ==> items[i].target.Key() == key
    ensures forall j :: 0 <= j < i ==> items[j].target.Key() != key
  {
    if items == [] || items[0].target.Key() == key then 0 else 1 + Find(items[1..], key)
  }

  /** What moving `key` to `state` makes of a progress. */
  function SetState(p: Progress, key: PrKey, state: TargetState): Progress {
    var i := Find(p.targets, key);
    if i == |p.targets| || p.targets[i].state.Outcome().Some? then p
    else
      var succeeded := p.succeeded + if state.Succeeded? then 1 else 0;
      var rejected := p.rejected + if state.Rejected? then 1 else 0;
      var failed := p.failed + if state.Failed? then 1 else 0;
      p.(targets := p.targets[i := p.targets[i].(state := state)],
         succeeded := succeeded, rejected := rejected, failed := failed,
         completed := succeeded + rejected + failed == |p.targets|)
  }

  function OutcomeState(outcome: ActionOutcome): TargetState {
    match outcome
    case Succeeded(detail, sha) => TargetState.Succeeded(detail, sha)
    case Rejected(reason) => TargetState.Rejected(reason)
  }

  function RecordedTarget(item: TargetProgress): Option<BatchTargetRecord> {
    match item.state.Outcome()
    case None => None
    case Some(outcome) =>
      var t := item.target;
      Some(BatchTargetRecord(t.repositoryId, t.owner, t.repo, t.number, t.title, t.htmlUrl,
                             Some(t.expectedSha), outcome))
  }

  function RecordedTargets(items: seq<TargetProgress>): Option<seq<BatchTargetRecord>> {
    if items == [] then Some([])
    else
      match (RecordedTarget(items[0]), RecordedTargets(items[1..]))
      case (Some(first), Some(rest)) => Some([first] + rest)
      case _ => None
  }

  function CompletedRecord(
    p: Progress, installationId: u64, requestedBy: string, retriedFrom: Option<string>,
    startedAt: nat, completedAt: nat): Option<BatchRecord>
  {
    match RecordedTargets(p.targets)
    case None => None
    case Some(targets) =>
      Some(BatchRecord(p.batchId, installationId, p.action, requestedBy, retriedFrom,
                       startedAt, completedAt, p.succeeded, p.rejected, p.failed, targets))
  }

  function TargetOfRecord(t: BatchTargetRecord): TargetProgress {
    var head := match t.headSha case Some(sha) => sha case None => "";
    TargetProgress(
      PrTarget(t.repositoryId, t.owner, t.repo, t.number, head, t.title, t.htmlUrl),
      FromOutcome(t.outcome))
  }

  function ReadBack(record: BatchRecord): Progress {
    var items := seq(|record.targets|,
                     i requires 0 <= i < |record.targets| => TargetOfRecord(record.targets[i]));
    Progress(record.batchId, record.action, items, true,
             record.succeeded, record.rejected, record.failed)
  }

  /** The progress a running workflow keeps and changes in place. */
  class Tracker {
    const batchId: string
    const action: BulkActionKind
    var targets: seq<TargetProgress>
    var completed: bool
    var succeeded: nat
    var rejected: nat
    var failed: nat

    function Value(): Progress
      reads this
    {
      Progress(batchId, action, targets, completed, succeeded, rejected, failed)
    }

    constructor Queued(batchId: string, action: BulkActionKind, targets: seq<PrTarget>)
      ensures Value() == QueuedProgress(batchId, action, targets)
    {
      this.batchId, this.action := batchId, action;
      this.targets := QueuedTargets(targets);
      completed, succeeded, rejected, failed := false, 0, 0, 0;
    }

    method Start(key: PrKey)
      modifies this
      ensures Value() == SetState(old(Value()), key, Running)
    {
      MoveTo(key, Running);
    }

    method Record(key: PrKey, outcome: ActionOutcome)
      modifies this
      ensures Value() == SetState(old(Value()), key, OutcomeState(outcome))
      ensures var i := Find(old(targets), key);
        i < |old(targets)| && (old(targets)[i].state.Queued? || old(targets)[i].state.Running?) ==>
          && |targets| == |old(targets)| && targets[i].target == old(targets)[i].target
          && (outcome.Succeeded? ==>
                && targets[i].state == TargetState.Succeeded(outcome.detail, outcome.mergeSha)
                && succeeded == old(succeeded) + 1 && rejected == old(rejected))
          && (outcome.Rejected? ==>
                && targets[i].state == TargetState.Rejected(outcome.reason)
                && rejected == old(rejected) + 1 && succeeded == old(succeeded))
          && failed == old(failed)
    {
      MoveTo(key, OutcomeState(outcome));
    }

    method RecordFailure(key: PrKey, detail: string)
      modifies this
      ensures Value() == SetState(old(Value()), key, TargetState.Failed(detail))
    {
      MoveTo(key, TargetState.Failed(detail));
    }

    method MoveTo(key: PrKey, state: TargetState)
      modifies this
      ensures Value() == SetState(old(Value()), key, state)
    {
      var i := Find(targets, key);
      if i == |targets| {
        return;
      }
      if targets[i].state.Outcome().Some? {
        return;
      }
      match state {
        case Succeeded(_, _) => succeeded := succeeded + 1;
        case Rejected(_) => rejected := rejected + 1;
        case Failed(_) => failed := failed + 1;
        case Queued | Running =>
      }
      targets := targets[i := targets[i].(state := state)];
      completed := succeeded + rejected + failed == |targets|;
    }
  }

  // ----- The tally -----

  datatype Column = SucceededColumn | RejectedColumn | FailedColumn

  function ColumnOf(state: TargetState): Option<Column> {
    match state
    case Succeeded(_, _) => Some(SucceededColumn)
    case Rejected(_) => Some(RejectedColumn)
    case Failed(_) => Some(FailedColumn)
    case _ => None
  }

  /** How many targets stand in `column`. */
  function Count(items: seq<TargetProgress>, column: Column): nat {
    if items == [] then 0
    else (if ColumnOf(items[0].state) == Some(column) then 1 else 0) + Count(items[1..], column)
  }

  lemma {:induction false} CountOn(items: seq<TargetProgress>, item: TargetProgress, column: Column)
    ensures Count(items + [item], column)
         == Count(items, column) + if ColumnOf(item.state) == Some(column) then 1 else 0
  {
    if items == [] {
      assert [item][1..] == [];
    } else {
      assert (items + [item])[1..] == items[1..] + [item];
      CountOn(items[1..], item, column);
    }
  }

  /** The targets that stand in `column`, by their places in the batch. */
  function Standing(items: seq<TargetProgress>, column: Column): set<nat> {
    set i: nat | i < |items| && ColumnOf(items[i].state) == Some(column)
  }

  lemma {:induction false} CountIsSize(items: seq<TargetProgress>, column: Column)
    ensures Count(items, column) == |Standing(items, column)|
  {
    if items == [] {
      assert Standing(items, column) == {};
    } else {
      var n := |items| - 1;
      var front := items[..n];
      CountIsSize(front, column);
      CountOn(front, items[n], column);
      StandingOn(front, items[n], column);
      assert items == front + [items[n]];
    }
  }

  lemma {:induction false} StandingOn(items: seq<TargetProgress>, item: TargetProgress, column: Column)
    ensures Standing(items + [item], column)
         == Standing(items, column) + if ColumnOf(item.state) == Some(column) then {|items|} else {}
  {
    assert forall i :: 0 <= i < |items| ==> (items + [item])[i] == items[i];
  }

  /** The three tallies are how many targets are in each of the three states. */
  lemma {:induction false} TalliesAreSizes(p: Progress)
    requires Consistent(p)
    ensures p.succeeded == |set i: nat | i < |p.targets| && p.targets[i].state.Succeeded?|
    ensures p.rejected == |set i: nat | i < |p.targets| && p.targets[i].state.Rejected?|
    ensures p.failed == |set i: nat | i < |p.targets| && p.targets[i].state.Failed?|
  {
    CountIsSize(p.targets, SucceededColumn);
    CountIsSize(p.targets, RejectedColumn);
    CountIsSize(p.targets, FailedColumn);
    assert Standing(p.targets, SucceededColumn) == set i: nat | i < |p.targets| && p.targets[i].state.Succeeded?;
    assert Standing(p.targets, RejectedColumn) == set i: nat | i < |p.targets| && p.targets[i].state.Rejected?;
    assert Standing(p.targets, FailedColumn) == set i: nat | i < |p.targets| && p.targets[i].state.Failed?;
  }

  predicate AllSettled(items: seq<TargetProgress>) {
    forall i :: 0 <= i < |items| ==> items[i].state.Outcome().Some?
  }

  /** The tally counts the targets, and the batch is complete when all of them have settled. */
  predicate Consistent(p: Progress) {
    && p.succeeded == Count(p.targets, SucceededColumn)
    && p.rejected == Count(p.targets, RejectedColumn)
    && p.failed == Count(p.targets, FailedColumn)
    && (p.completed <==> p.targets != [] && AllSettled(p.targets))
  }

  lemma {:induction false} CountUpdate(items: seq<TargetProgress>, i: nat, item: TargetProgress, column: Column)
    requires i < |items|
    ensures Count(items[i := item], column) + (if ColumnOf(items[i].state) == Some(column) then 1 else 0)
         == Count(items, column) + (if ColumnOf(item.state) == Some(column) then 1 else 0)
  {
    if i == 0 {
      assert items[i := item][1..] == items[1..];
    } else {
      assert items[i := item][1..] == items[1..][i - 1 := item];
      CountUpdate(items[1..], i - 1, item, column);
    }
  }

  lemma {:induction false} CountsSettled(items: seq<TargetProgress>)
    ensures var settled := Count(items, SucceededColumn) + Count(items, RejectedColumn)
                         + Count(items, FailedColumn);
            settled <= |items| && (settled == |items| <==> AllSettled(items))
  {
    if items != [] {
      CountsSettled(items[1..]);
      assert AllSettled(items) ==> AllSettled(items[1..]);
      if AllSettled(items[1..]) && items[0].state.Outcome().Some? {
        assert forall i :: 1 <= i < |items| ==> items[i] == items[1..][i - 1];
      }
    }
  }

  lemma {:induction false} NoneCounted(targets: seq<PrTarget>, column: Column)
    ensures Count(QueuedTargets(targets), column) == 0
  {
    if targets != [] {
      assert QueuedTargets(targets)[1..] == QueuedTargets(targets[1..]);
      NoneCounted(targets[1..], column);
    }
  }

  lemma {:induction false} QueuedIsConsistent(batchId: string, action: BulkActionKind, targets: seq<PrTarget>)
    ensures Consistent(QueuedProgress(batchId, action, targets))
  {
    NoneCounted(targets, SucceededColumn);
    NoneCounted(targets, RejectedColumn);
    NoneCounted(targets, FailedColumn);
    if targets != [] {
      assert QueuedTargets(targets)[0].state == Queued;
    }
  }

  lemma {:induction false} SetStateIsConsistent(p: Progress, key: PrKey, state: TargetState)
    requires Consistent(p)
    ensures Consistent(SetState(p, key, state))
  {
    var i := Find(p.targets, key);
    if i < |p.targets| && p.targets[i].state.Outcome().None? {
      var item := p.targets[i].(state := state);
      CountUpdate(p.targets, i, item, SucceededColumn);
      CountUpdate(p.targets, i, item, RejectedColumn);
      CountUpdate(p.targets, i, item, FailedColumn);
      CountsSettled(p.targets[i := item]);
    }
  }

  // ----- Any sequence of reports -----

  datatype Report =
    | Start(key: PrKey)
    | Record(key: PrKey, outcome: ActionOutcome)
    | RecordFailure(key: PrKey, detail: string)
  {
    function State(): TargetState {
      match this
      case Start(_) => Running
      case Record(_, outcome) => OutcomeState(outcome)
      case RecordFailure(_, detail) => TargetState.Failed(detail)
    }
  }

  function After(p: Progress, reports: seq<Report>): Progress
    decreases |reports|
  {
    if reports == [] then p
    else
      var before := After(p, reports[..|reports| - 1]);
      var last := reports[|reports| - 1];
      SetState(before, last.key, last.State())
  }

  /** Where `reports` leave a target on their own account: its first verdict, if there is one. */
  function Expected(reports: seq<Report>, key: PrKey): TargetState
    decreases |reports|
  {
    if reports == [] then Queued
    else
      var before := Expected(reports[..|reports| - 1], key);
      var last := reports[|reports| - 1];
      if last.key == key && before.Outcome().None? then last.State() else before
  }

  predicate Distinct(targets: seq<PrTarget>) {
    forall i, j :: 0 <= i < j < |targets| ==> targets[i].Key() != targets[j].Key()
  }

  predicate SameTargets(p: Progress, targets: seq<PrTarget>) {
    && |p.targets| == |targets|
    && forall i :: 0 <= i < |targets| ==> p.targets[i].target == targets[i]
  }

  lemma {:induction false} FindDistinct(p: Progress, targets: seq<PrTarget>, i: nat)
    requires SameTargets(p, targets) && Distinct(targets) && i < |targets|
    ensures Find(p.targets, targets[i].Key()) == i
  {
    assert p.targets[i].target == targets[i];
    assert forall j :: 0 <= j < i ==> p.targets[j].target == targets[j];
  }

  /** Whatever is reported, in whatever order, the tally counts the targets. */
  lemma {:induction false} TallyCounts(
    batchId: string, action: BulkActionKind, targets: seq<PrTarget>, reports: seq<Report>)
    ensures Consistent(After(QueuedProgress(batchId, action, targets), reports))
    ensures SameTargets(After(QueuedProgress(batchId, action, targets), reports), targets)
    decreases |reports|
  {
    if reports == [] {
      QueuedIsConsistent(batchId, action, targets);
    } else {
      var earlier, last := reports[..|reports| - 1], reports[|reports| - 1];
      TallyCounts(batchId, action, targets, earlier);
      SetStateIsConsistent(After(QueuedProgress(batchId, action, targets), earlier),
                           last.key, last.State());
    }
  }

  /** In a batch of distinct targets each one carries the first verdict reported for it. */
  lemma {:induction false} FirstVerdictStands(
    batchId: string, action: BulkActionKind, targets: seq<PrTarget>, reports: seq<Report>, i: nat)
    requires Distinct(targets) && i < |targets|
    ensures SameTargets(After(QueuedProgress(batchId, action, targets), reports), targets)
    ensures After(QueuedProgress(batchId, action, targets), reports).targets[i].state
         == Expected(reports, targets[i].Key())
    decreases |reports|
  {
    TallyCounts(batchId, action, targets, reports);
    if reports != [] {
      var earlier, last := reports[..|reports| - 1], reports[|reports| - 1];
      FirstVerdictStands(batchId, action, targets, earlier, i);
      var before := After(QueuedProgress(batchId, action, targets), earlier);
      if last.key == targets[i].Key() {
        FindDistinct(before, targets, i);
      }
    }
  }

  /**
   Why a batch must be held to distinct targets: a second target under one key is never
   moved, so the batch it is in never completes, whatever is reported.
   */
  lemma {:induction false} DuplicateStaysQueued(
    batchId: string, action: BulkActionKind, targets: seq<PrTarget>, reports: seq<Report>, i: nat, j: nat)
    requires i < j < |targets| && targets[i].Key() == targets[j].Key()
    ensures SameTargets(After(QueuedProgress(batchId, action, targets), reports), targets)
    ensures After(QueuedProgress(batchId, action, targets), reports).targets[j].state == Queued
    ensures !After(QueuedProgress(batchId, action, targets), reports).completed
    decreases |reports|
  {
    TallyCounts(batchId, action, targets, reports);
    if reports != [] {
      var earlier := reports[..|reports| - 1];
      DuplicateStaysQueued(batchId, action, targets, earlier, i, j);
      var before := After(QueuedProgress(batchId, action, targets), earlier);
      assert before.targets[i].target.Key() == before.targets[j].target.Key();
    }
  }

  // ----- The record and the way back -----

  lemma {:induction false} RecordedTargetsExact(items: seq<TargetProgress>)
    ensures RecordedTargets(items).Some? <==> AllSettled(items)
    ensures RecordedTargets(items).Some? ==>
      && |RecordedTargets(items).value| == |items|
      && forall i :: 0 <= i < |items| ==> RecordedTarget(items[i]) == Some(RecordedTargets(items).value[i])
  {
    if items != [] {
      RecordedTargetsExact(items[1..]);
      assert AllSettled(items) ==> AllSettled(items[1..]);
      if RecordedTargets(items[1..]).Some? && RecordedTarget(items[0]).Some? {
        assert forall i :: 1 <= i < |items| ==> items[i] == items[1..][i - 1];
      }
    }
  }

  /** What a record says of one target: who it is, the head it was sent at, and its verdict. */
  ghost predicate TargetSays(t: BatchTargetRecord, item: TargetProgress) {
    && t.repositoryId == item.target.repositoryId && t.owner == item.target.owner && t.repo == item.target.repo
    && t.number == item.target.number && t.title == item.target.title && t.htmlUrl == item.target.htmlUrl
    && t.headSha == Some(item.target.expectedSha)
    && match item.state
       case Succeeded(detail, sha) => t.outcome == TargetOutcome.Succeeded(detail, sha)
       case Rejected(reason) => t.outcome == TargetOutcome.Rejected(reason)
       case Failed(detail) => t.outcome == TargetOutcome.Failed(detail)
       case _ => false
  }

  /** What a record says of the batch, its targets in batch order. */
  ghost predicate Says(
    record: BatchRecord, p: Progress, installationId: u64, requestedBy: string, retriedFrom: Option<string>,
    startedAt: nat, completedAt: nat)
  {
    && record.batchId == p.batchId && record.installationId == installationId && record.action == p.action
    && record.requestedBy == requestedBy && record.retriedFrom == retriedFrom
    && record.startedAt == startedAt && record.completedAt == completedAt
    && record.succeeded == p.succeeded && record.rejected == p.rejected && record.failed == p.failed
    && |record.targets| == |p.targets|
    && forall i :: 0 <= i < |p.targets| ==> TargetSays(record.targets[i], p.targets[i])
  }

  lemma {:induction false} RecordSays(
    p: Progress, installationId: u64, requestedBy: string, retriedFrom: Option<string>,
    startedAt: nat, completedAt: nat)
    ensures var record := CompletedRecord(p, installationId, requestedBy, retriedFrom, startedAt, completedAt);
      record.Some? ==> Says(record.value, p, installationId, requestedBy, retriedFrom, startedAt, completedAt)
  {
    RecordedTargetsExact(p.targets);
    var record := CompletedRecord(p, installationId, requestedBy, retriedFrom, startedAt, completedAt);
    if record.Some? {
      forall i | 0 <= i < |p.targets|
        ensures TargetSays(record.value.targets[i], p.targets[i])
      {
        assert RecordedTarget(p.targets[i]) == Some(record.value.targets[i]);
      }
    }
  }

  /**
   After any reports a record exists exactly when every target has settled, which for a
   batch with a target is when it calls itself complete; and reading the record back gives
   the very progress it was written from. An empty batch is the one exception: it has a
   record at once and never calls itself complete.
   */
  lemma {:induction false} RecordRoundTrip(
    p: Progress, installationId: u64, requestedBy: string, retriedFrom: Option<string>,
    startedAt: nat, completedAt: nat)
    requires Consistent(p)
    ensures var record := CompletedRecord(p, installationId, requestedBy, retriedFrom, startedAt, completedAt);
      && (record.Some? <==> AllSettled(p.targets))
      && (p.completed <==> record.Some? && p.targets != [])
      && (record.Some? ==> (ReadBack(record.value) == p <==> p.targets != []))
  {
    RecordedTargetsExact(p.targets);
    var record := CompletedRecord(p, installationId, requestedBy, retriedFrom, startedAt, completedAt);
    if record.Some? {
      assert ReadBack(record.value).targets == p.targets;
    }
  }

  /** Settled targets keep their verdicts and the settled count never falls. */
  predicate Advances(p: Progress, q: Progress) {
    && |q.targets| == |p.targets|
    && p.Settled() <= q.Settled()
    && forall i :: 0 <= i < |p.targets| ==>
         && q.targets[i].target == p.targets[i].target
         && (p.targets[i].state.Outcome().Some? ==> q.targets[i] == p.targets[i])
  }

  lemma {:induction false} SetStateAdvances(p: Progress, key: PrKey, state: TargetState)
    ensures Advances(p, SetState(p, key, state))
  {
  }

  lemma {:induction false} ReportsAdvance(p: Progress, earlier: seq<Report>, later: seq<Report>)
    ensures Advances(After(p, earlier), After(p, earlier + later))
    decreases |later|
  {
    if later == [] {
      assert earlier + later == earlier;
    } else {
      var shorter := later[..|later| - 1];
      var all := earlier + later;
      assert all[..|all| - 1] == earlier + shorter;
      ReportsAdvance(p, earlier, shorter);
      SetStateAdvances(After(p, earlier + shorter), later[|later| - 1].key, later[|later| - 1].State());
    }
  }
}

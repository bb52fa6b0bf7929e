/**
 How the projection's rows, the pull request objects' state and the retirement outbox stay
 in step while syncs, closes, merges, prunes and drains interleave.

 Every event is one atomic step. Between writing a row and setting the object's state, and
 between any two steps of a drain, anything else may happen; a store step whose result
 Restate lost simply happens again.
 */
module FenceProtocol {
  import opened Wrappers
  import opened PrKeys

  /** A pull request's snapshot, as the row and the object both keep it. */
  datatype PrRecord = PrRecord(headSha: string, syncedAt: nat)

  datatype PrState = PrState(snapshot: Option<PrRecord>, lastSyncedAt: Option<nat>)

  /** One row of the outbox: a pruned pull request whose object has not been told. */
  datatype Retirement = Retirement(id: nat, key: PrKey, syncedBefore: Option<nat>)

  /** A `closed` message on its way to the object of `key`. */
  datatype Close = Close(key: PrKey, syncedBefore: Option<nat>)

  /** Why an object deletes its row. */
  datatype Cause = Gone | Closed | Merged

  /** Where an object's exclusive handler stands. */
  datatype Phase =
    | Idle
    | Fetched(snapshot: PrRecord)   // sync: GitHub was read, the row not yet written
    | Written(snapshot: PrRecord)   // sync: the row was written, the state not yet set
    | Deleting(cause: Cause)        // the row is about to be deleted
    | Deleted(cause: Cause)         // the row was deleted, the state not yet changed

  /** A drain of the outbox: what it read and how many closes it has sent. */
  datatype Drain = Drain(read: seq<Retirement>, sent: nat)

  /** What a prune deletes. */
  datatype Prune =
    | Retain(repositoryId: u64, live: set<u64>, fence: nat)
    | Purge(repositories: set<u64>)
    | Replace(dropped: set<u64>, fence: nat)
  {
    function Fence(): Option<nat> {
      if Purge? then None else Some(fence)
    }

    predicate Selects(key: PrKey, row: PrRecord) {
      match this
      case Retain(repositoryId, live, fence) =>
        key.repositoryId == repositoryId && key.number !in live && row.syncedAt < fence
      case Purge(repositories) => key.repositoryId in repositories
      case Replace(dropped, _) => key.repositoryId in dropped
    }
  }

  datatype World = World(
    states: map<PrKey, PrState>, phases: map<PrKey, Phase>, rows: map<PrKey, PrRecord>,
    outbox: seq<Retirement>, nextId: nat, closes: multiset<Close>, drains: map<nat, Drain>,
    queued: set<Retirement>,   // every retirement a prune ever queued
    told: set<Retirement>)     // every retirement a drain ever sent a close for
  {
    function State(key: PrKey): PrState {
      if key in states then states[key] else PrState(None, None)
    }

    function At(key: PrKey): Phase {
      if key in phases then phases[key] else Idle
    }

    function Row(key: PrKey): Option<PrRecord> {
      if key in rows then Some(rows[key]) else None
    }

    function Set(key: PrKey, state: PrState, phase: Phase): World {
      this.(states := states[key := state], phases := phases[key := phase])
    }
  }

  datatype Event =
    | Fetch(key: PrKey, snapshot: PrRecord)
    | FindGone(key: PrKey)
    | Upsert(key: PrKey)
    | CommitSync(key: PrKey)
    | SendClose(key: PrKey)
    | TakeClose(key: PrKey, syncedBefore: Option<nat>)
    | Merge(key: PrKey)
    | DeleteRow(key: PrKey)
    | CommitDelete(key: PrKey)
    | Die(key: PrKey)
    | PruneRows(prune: Prune, gone: seq<PrKey>)
    | DrainRead(drain: nat)
    | DrainSend(drain: nat)
    | DrainAck(drain: nat)
    | DrainEnd(drain: nat)

  /** Whether a close under `syncedBefore` retires an object in `state`. */
  predicate ClosedRetires(state: PrState, syncedBefore: Option<nat>) {
    syncedBefore.None? || state.lastSyncedAt.None? || state.lastSyncedAt.value < syncedBefore.value
  }

  function Queue(gone: seq<PrKey>, fence: Option<nat>, nextId: nat): (queue: seq<Retirement>)
    ensures |queue| == |gone|
    ensures forall i :: 0 <= i < |gone| ==> queue[i] == Retirement(nextId + i, gone[i], fence)
  {
    seq(|gone|, i requires 0 <= i < |gone| => Retirement(nextId + i, gone[i], fence))
  }

  function Members(rs: seq<Retirement>): set<Retirement> {
    set r | r in rs
  }

  /** The outbox once everything up to `through` is forgotten. */
  function Forget(outbox: seq<Retirement>, through: nat): (left: seq<Retirement>)
    ensures forall r :: r in left <==> r in outbox && through < r.id
    ensures Increasing(outbox) ==> Increasing(left)
  {
    if outbox == [] then []
    else
      var front := Forget(outbox[..|outbox| - 1], through);
      if through < outbox[|outbox| - 1].id then front + [outbox[|outbox| - 1]] else front
  }

  predicate Increasing(rs: seq<Retirement>) {
    forall i, j :: 0 <= i < j < |rs| ==> rs[i].id < rs[j].id
  }

  predicate Enabled(w: World, e: Event) {
    match e
    case Fetch(key, _) => w.At(key) == Idle
    case FindGone(key) => w.At(key) == Idle
    case Upsert(key) => w.At(key).Fetched? || w.At(key).Written?
    case CommitSync(key) => w.At(key).Written?
    case SendClose(key) => true
    case TakeClose(key, syncedBefore) => w.At(key) == Idle && Close(key, syncedBefore) in w.closes
    case Merge(key) => w.At(key) == Idle && w.State(key).snapshot.Some?
    case DeleteRow(key) => w.At(key).Deleting? || w.At(key).Deleted?
    case CommitDelete(key) => w.At(key).Deleted?
    case Die(key) => w.At(key) != Idle
    case PruneRows(prune, gone) =>
      && (forall i, j :: 0 <= i < j < |gone| ==> gone[i] != gone[j])
      && (forall k :: k in gone ==> k in w.rows && prune.Selects(k, w.rows[k]))
      && (forall k :: k in w.rows && prune.Selects(k, w.rows[k]) ==> k in gone)
    case DrainRead(d) => d !in w.drains || w.drains[d].sent == 0
    case DrainSend(d) => d in w.drains && w.drains[d].sent < |w.drains[d].read|
    case DrainAck(d) => d in w.drains && w.drains[d].read != [] && w.drains[d].sent == |w.drains[d].read|
    case DrainEnd(d) => d in w.drains
  }

  function Apply(w: World, e: Event): World
    requires Enabled(w, e)
  {
    match e
    case Fetch(key, snapshot) => w.Set(key, w.State(key), Fetched(snapshot))
    case FindGone(key) => w.Set(key, w.State(key), Deleting(Gone))
    case Upsert(key) =>
      var snapshot := w.At(key).snapshot;
      w.Set(key, w.State(key), Written(snapshot)).(rows := w.rows[key := snapshot])
    case CommitSync(key) =>
      var snapshot := w.At(key).snapshot;
      w.Set(key, PrState(Some(snapshot), Some(snapshot.syncedAt)), Idle)
    case SendClose(key) => w.(closes := w.closes + multiset{Close(key, None)})
    case TakeClose(key, syncedBefore) =>
      var rest := w.(closes := w.closes - multiset{Close(key, syncedBefore)});
      if ClosedRetires(w.State(key), syncedBefore) then rest.Set(key, w.State(key), Deleting(Closed))
      else rest
    case Merge(key) => w.Set(key, w.State(key), Deleting(Merged))
    case DeleteRow(key) =>
      w.Set(key, w.State(key), Deleted(w.At(key).cause)).(rows := w.rows - {key})
    case CommitDelete(key) =>
      var state := if w.At(key).cause == Merged then w.State(key).(snapshot := None) else PrState(None, None);
      w.Set(key, state, Idle)
    case Die(key) => w.Set(key, w.State(key), Idle)
    case PruneRows(prune, gone) =>
      var queue := Queue(gone, prune.Fence(), w.nextId);
      w.(rows := map k | k in w.rows && k !in gone :: w.rows[k],
         outbox := w.outbox + queue, nextId := w.nextId + |gone|, queued := w.queued + Members(queue))
    case DrainRead(d) => w.(drains := w.drains[d := Drain(w.outbox, 0)])
    case DrainSend(d) =>
      var drain := w.drains[d];
      var r := drain.read[drain.sent];
      w.(drains := w.drains[d := drain.(sent := drain.sent + 1)],
         closes := w.closes + multiset{Close(r.key, r.syncedBefore)}, told := w.told + {r})
    case DrainAck(d) =>
      var read := w.drains[d].read;
      w.(outbox := Forget(w.outbox, read[|read| - 1].id))
    case DrainEnd(d) => w.(drains := w.drains - {d})
  }

  // ----- What stays true -----

  /** A fence that lets a close retire an object last synced at `t`. */
  predicate Covers(syncedBefore: Option<nat>, t: nat) {
    syncedBefore.None? || t < syncedBefore.value
  }

  ghost predicate SentByDrain(w: World, r: Retirement) {
    exists d, i :: d in w.drains && 0 <= i < w.drains[d].sent <= |w.drains[d].read| && w.drains[d].read[i] == r
  }

  ghost predicate ComingFor(w: World, key: PrKey, t: nat, c: Close) {
    c in w.closes && c.key == key && Covers(c.syncedBefore, t)
  }

  ghost predicate QueuedFor(w: World, key: PrKey, t: nat, r: Retirement) {
    r in w.outbox && r.key == key && Covers(r.syncedBefore, t) && !SentByDrain(w, r)
  }

  /** A close that will retire `key`, last synced at `t`, is on its way or will be sent. */
  ghost predicate Owed(w: World, key: PrKey, t: nat) {
    (exists c :: ComingFor(w, key, t, c)) || (exists r :: QueuedFor(w, key, t, r))
  }

  /** The row is the snapshot's, and a snapshot with no row is about to be told so. */
  ghost predicate Paired(w: World, key: PrKey) {
    && (w.Row(key).Some? ==> w.State(key).snapshot == w.Row(key))
    && (w.Row(key).None? && w.State(key).snapshot.Some? ==> Owed(w, key, w.State(key).snapshot.value.syncedAt))
  }

  ghost predicate KeyOk(w: World, key: PrKey) {
    && (w.State(key).snapshot.Some? ==> w.State(key).lastSyncedAt == Some(w.State(key).snapshot.value.syncedAt))
    && match w.At(key)
       case Idle | Fetched(_) => Paired(w, key)
       case Written(snapshot) =>
         if w.Row(key).Some? then w.Row(key) == Some(snapshot) else Owed(w, key, snapshot.syncedAt)
       case Deleting(cause) =>
         if cause == Closed then w.Row(key).Some? ==> w.State(key).snapshot == w.Row(key) else Paired(w, key)
       case Deleted(_) => w.Row(key).None?
  }

  /** The outbox's ids grow, and a drain has read everything its acknowledgement will forget. */
  ghost predicate BooksOk(w: World) {
    && Increasing(w.outbox)
    && (forall r :: r in w.outbox ==> r.id < w.nextId && r in w.queued)
    && (forall d :: d in w.drains ==> DrainOk(w, w.drains[d]))
    && (forall r :: r in w.queued ==> r in w.outbox || r in w.told)
  }

  ghost predicate DrainOk(w: World, drain: Drain) {
    && drain.sent <= |drain.read| && Increasing(drain.read)
    && (forall i :: 0 <= i < |drain.read| ==> drain.read[i].id < w.nextId)
    && (forall i :: 0 <= i < drain.sent ==> drain.read[i] in w.told)
    && (drain.read != [] ==>
          forall r :: r in w.outbox && r.id <= drain.read[|drain.read| - 1].id ==> r in drain.read)
  }

  /** A row a prune takes from `key` leaves the object waiting to be told. */
  ghost predicate NeedsTelling(w: World, key: PrKey) {
    w.Row(key).Some? && !w.At(key).Deleted? && w.At(key) != Deleting(Closed)
  }

  /** The object has a snapshot that no close on its way or to be sent will retire. */
  ghost predicate Untold(w: World, key: PrKey) {
    w.State(key).snapshot.Some? && !Owed(w, key, w.State(key).snapshot.value.syncedAt)
  }

  /**
   When a handler can die and strand nothing, phase by phase. With the row written, when what
   it wrote is what the object already had, or when it has gone again and the object will be
   told. Closing, when the row is still there or another close is coming. With the row
   deleted, when there is no snapshot or a close is coming. Anywhere else, always.
   */
  ghost predicate MayDie(w: World, key: PrKey) {
    match w.At(key)
    case Written(snapshot) =>
      if w.Row(key).Some? then w.State(key).snapshot == Some(snapshot) else !Untold(w, key)
    case Deleting(cause) => cause == Closed ==> w.Row(key).Some? || !Untold(w, key)
    case Deleted(_) => !Untold(w, key)
    case _ => true
  }

  /**
   When an event keeps the object and row of `key` in step. All but two always do: its own
   handler dying, and replacing the repository set, which does unless it takes the row,
   synced at its fence or later, of an object no close is coming for.
   */
  ghost predicate HarmlessTo(w: World, e: Event, key: PrKey)
    requires Enabled(w, e)
  {
    match e
    case Die(dying) => dying == key ==> MayDie(w, key)
    case PruneRows(Replace(_, fence), gone) =>
      key in gone && NeedsTelling(w, key) ==>
        w.rows[key].syncedAt < fence || Owed(w, key, w.rows[key].syncedAt)
    case _ => true
  }

  // ----- The books: no event whatever upsets them -----

  lemma {:induction false} SameBooks(w: World, after: World)
    requires BooksOk(w)
    requires after.outbox == w.outbox && after.nextId == w.nextId && after.drains == w.drains
    requires after.queued == w.queued && after.told == w.told
    ensures BooksOk(after)
  {
    assert forall d :: d in w.drains ==> DrainOk(w, w.drains[d]) && DrainOk(after, w.drains[d]);
  }

  lemma {:induction false} DrainReadBooks(w: World, d: nat)
    requires BooksOk(w) && Enabled(w, DrainRead(d))
    ensures BooksOk(Apply(w, DrainRead(d)))
  {
    var after := Apply(w, DrainRead(d));
    forall e | e in after.drains
      ensures DrainOk(after, after.drains[e])
    {
      assert e != d ==> DrainOk(w, w.drains[e]);
    }
  }

  /** Sending a drain's next close leaves every drain in order, and that one too. */
  lemma {:induction false} DrainSendOk(w: World, d: nat, e: nat)
    requires Enabled(w, DrainSend(d)) && e in w.drains && DrainOk(w, w.drains[e])
    ensures DrainOk(Apply(w, DrainSend(d)), Apply(w, DrainSend(d)).drains[e])
  {
  }

  lemma {:induction false} DrainSendBooks(w: World, d: nat)
    requires BooksOk(w) && Enabled(w, DrainSend(d))
    ensures BooksOk(Apply(w, DrainSend(d)))
  {
    var after := Apply(w, DrainSend(d));
    forall e | e in after.drains
      ensures DrainOk(after, after.drains[e])
    {
      DrainSendOk(w, d, e);
    }
  }

  /** What an acknowledgement forgets, its drain has read and sent a close for. */
  lemma {:induction false} AckForgetsOnlyTold(w: World, d: nat, r: Retirement)
    requires BooksOk(w) && Enabled(w, DrainAck(d))
    requires r in w.outbox && r !in Apply(w, DrainAck(d)).outbox
    ensures r in w.drains[d].read && SentByDrain(w, r) && r in w.told
  {
    var drain := w.drains[d];
    assert DrainOk(w, drain);
    assert r in drain.read;
    var i :| 0 <= i < |drain.read| && drain.read[i] == r;
    assert 0 <= i < drain.sent;
  }

  /** And it forgets all of them: nothing it read is left, so acknowledging again is a no-op. */
  lemma {:induction false} AckForgetsAllRead(w: World, d: nat)
    requires BooksOk(w) && Enabled(w, DrainAck(d))
    ensures forall r :: r in w.drains[d].read ==> r !in Apply(w, DrainAck(d)).outbox
    ensures Enabled(Apply(w, DrainAck(d)), DrainAck(d))
    ensures forall r :: r in Apply(Apply(w, DrainAck(d)), DrainAck(d)).outbox
                   <==> r in Apply(w, DrainAck(d)).outbox
  {
    assert DrainOk(w, w.drains[d]);
  }

  lemma {:induction false} DrainAckBooks(w: World, d: nat)
    requires BooksOk(w) && Enabled(w, DrainAck(d))
    ensures BooksOk(Apply(w, DrainAck(d)))
  {
    var after := Apply(w, DrainAck(d));
    forall r | r in w.outbox && r !in after.outbox { AckForgetsOnlyTold(w, d, r); }
    assert forall e :: e in w.drains ==> DrainOk(w, w.drains[e]) && DrainOk(after, w.drains[e]);
  }

  lemma {:induction false} DrainEndBooks(w: World, d: nat)
    requires BooksOk(w) && Enabled(w, DrainEnd(d))
    ensures BooksOk(Apply(w, DrainEnd(d)))
  {
    var after := Apply(w, DrainEnd(d));
    assert forall e :: e in after.drains ==> DrainOk(w, w.drains[e]) && DrainOk(after, w.drains[e]);
  }

  lemma {:induction false} PruneBooks(w: World, prune: Prune, gone: seq<PrKey>)
    requires BooksOk(w) && Enabled(w, PruneRows(prune, gone))
    ensures BooksOk(Apply(w, PruneRows(prune, gone)))
  {
    var after := Apply(w, PruneRows(prune, gone));
    var queue := Queue(gone, prune.Fence(), w.nextId);
    assert forall r :: r in after.outbox <==> r in w.outbox || r in queue;
    assert forall d :: d in w.drains ==> DrainOk(w, w.drains[d]) && DrainOk(after, w.drains[d]);
  }

  /** Every event keeps the books, a stranding one too: nothing queued is forgotten untold. */
  lemma {:induction false} BooksKept(w: World, e: Event)
    requires BooksOk(w) && Enabled(w, e)
    ensures BooksOk(Apply(w, e))
  {
    match e
    case PruneRows(prune, gone) => PruneBooks(w, prune, gone);
    case DrainRead(d) => DrainReadBooks(w, d);
    case DrainSend(d) => DrainSendBooks(w, d);
    case DrainAck(d) => DrainAckBooks(w, d);
    case DrainEnd(d) => DrainEndBooks(w, d);
    case _ =>
      BooksAside(w, e);
      SameBooks(w, Apply(w, e));
  }

  /** No handler touches the books. */
  lemma {:induction false} BooksAside(w: World, e: Event)
    requires Enabled(w, e) && (IsOwn(e) || e.SendClose? || e.TakeClose?)
    ensures var after := Apply(w, e);
      && after.outbox == w.outbox && after.nextId == w.nextId && after.drains == w.drains
      && after.queued == w.queued && after.told == w.told
  {
  }

  lemma {:induction false} OnlyGrows(w: World, e: Event)
    requires Enabled(w, e)
    ensures w.queued <= Apply(w, e).queued && w.told <= Apply(w, e).told
  {
  }

  // ----- One object and its row -----

  /** Nothing that was owed to `key` is taken away without a close taking its place. */
  lemma {:induction false} OwedKept(w: World, after: World, key: PrKey, t: nat)
    requires Owed(w, key, t)
    requires forall c :: ComingFor(w, key, t, c) ==> c in after.closes
    requires forall r :: QueuedFor(w, key, t, r) ==>
      (r in after.outbox && !SentByDrain(after, r)) || Close(key, r.syncedBefore) in after.closes
    ensures Owed(after, key, t)
  {
    if c :| ComingFor(w, key, t, c) {
      assert ComingFor(after, key, t, c);
    } else {
      var r :| QueuedFor(w, key, t, r);
      if r in after.outbox && !SentByDrain(after, r) {
        assert QueuedFor(after, key, t, r);
      } else {
        assert ComingFor(after, key, t, Close(key, r.syncedBefore));
      }
    }
  }

  /** An event that leaves a key's own state, row and debt alone leaves it in step. */
  lemma {:induction false} KeyKept(w: World, after: World, key: PrKey)
    requires after.State(key) == w.State(key) && after.At(key) == w.At(key) && after.Row(key) == w.Row(key)
    requires forall t :: Owed(w, key, t) ==> Owed(after, key, t)
    ensures KeyOk(w, key) ==> KeyOk(after, key)
  {
  }

  /** The events of one object's own handler: they touch nothing but its state, phase and row. */
  ghost predicate OwnStep(w: World, after: World, key: PrKey) {
    && after.closes == w.closes && after.outbox == w.outbox && after.drains == w.drains
    && after.nextId == w.nextId && after.queued == w.queued && after.told == w.told
    && forall k :: k != key ==>
         after.State(k) == w.State(k) && after.At(k) == w.At(k) && after.Row(k) == w.Row(k)
  }

  lemma {:induction false} SameDebts(w: World, after: World, key: PrKey, t: nat)
    requires after.closes == w.closes && after.outbox == w.outbox && after.drains == w.drains
    ensures Owed(after, key, t) <==> Owed(w, key, t)
  {
    assert forall r :: SentByDrain(after, r) <==> SentByDrain(w, r);
    assert forall r :: QueuedFor(after, key, t, r) <==> QueuedFor(w, key, t, r);
    assert forall c :: ComingFor(after, key, t, c) <==> ComingFor(w, key, t, c);
  }

  predicate IsOwn(e: Event) {
    e.Fetch? || e.FindGone? || e.Upsert? || e.CommitSync? || e.Merge? || e.DeleteRow? || e.CommitDelete? || e.Die?
  }

  lemma {:induction false} OwnOnly(w: World, e: Event)
    requires Enabled(w, e) && IsOwn(e)
    ensures OwnStep(w, Apply(w, e), e.key)
  {
  }

  lemma {:induction false} OwnKey(w: World, e: Event)
    requires Enabled(w, e) && IsOwn(e) && KeyOk(w, e.key)
    requires forall t :: Owed(Apply(w, e), e.key, t) <==> Owed(w, e.key, t)
    ensures KeyOk(Apply(w, e), e.key) <==> HarmlessTo(w, e, e.key)
  {
  }

  lemma {:induction false} OwnEvents(w: World, e: Event, key: PrKey)
    requires KeyOk(w, key) && Enabled(w, e) && IsOwn(e)
    ensures KeyOk(Apply(w, e), key) <==> HarmlessTo(w, e, key)
  {
    OwnOnly(w, e);
    forall t { SameDebts(w, Apply(w, e), key, t); }
    if key == e.key {
      OwnKey(w, e);
    } else {
      KeyKept(w, Apply(w, e), key);
    }
  }

  lemma {:induction false} SendCloseOwes(w: World, to: PrKey, key: PrKey, t: nat)
    requires Owed(w, key, t)
    ensures Owed(Apply(w, SendClose(to)), key, t)
  {
    var after := Apply(w, SendClose(to));
    assert forall r :: SentByDrain(after, r) <==> SentByDrain(w, r);
    OwedKept(w, after, key, t);
  }

  lemma {:induction false} TakeCloseOwes(w: World, e: Event, key: PrKey, t: nat)
    requires Enabled(w, e) && e.TakeClose? && Owed(w, key, t)
    requires key == e.key ==> !Covers(e.syncedBefore, t)
    ensures Owed(Apply(w, e), key, t)
  {
    assert forall r :: SentByDrain(Apply(w, e), r) <==> SentByDrain(w, r);
    OwedKept(w, Apply(w, e), key, t);
  }

  /** A close taken for `key` is not owed any more: the object acts on it, or it was too old to. */
  lemma {:induction false} TakeCloseKeeps(w: World, e: Event, key: PrKey)
    requires KeyOk(w, key) && Enabled(w, e) && e.TakeClose?
    ensures KeyOk(Apply(w, e), key)
  {
    if key != e.key {
      forall t | Owed(w, key, t) { TakeCloseOwes(w, e, key, t); }
      KeyKept(w, Apply(w, e), key);
    } else {
      TakenKey(w, e);
    }
  }

  lemma {:induction false} TakenKey(w: World, e: Event)
    requires Enabled(w, e) && e.TakeClose? && KeyOk(w, e.key)
    ensures KeyOk(Apply(w, e), e.key)
  {
    if !ClosedRetires(w.State(e.key), e.syncedBefore) && w.State(e.key).snapshot.Some? {
      var t := w.State(e.key).snapshot.value.syncedAt;
      if Owed(w, e.key, t) { TakeCloseOwes(w, e, e.key, t); }
    }
  }

  lemma {:induction false} DrainReadOwes(w: World, d: nat, key: PrKey, t: nat)
    requires Enabled(w, DrainRead(d)) && Owed(w, key, t)
    ensures Owed(Apply(w, DrainRead(d)), key, t)
  {
    var after := Apply(w, DrainRead(d));
    assert forall r :: SentByDrain(after, r) ==> SentByDrain(w, r);
    OwedKept(w, after, key, t);
  }

  lemma {:induction false} SentNow(w: World, d: nat, r: Retirement)
    requires Enabled(w, DrainSend(d)) && SentByDrain(Apply(w, DrainSend(d)), r)
    ensures SentByDrain(w, r) || r == w.drains[d].read[w.drains[d].sent]
  {
    var after := Apply(w, DrainSend(d));
    var e, i :| e in after.drains && 0 <= i < after.drains[e].sent <= |after.drains[e].read|
             && after.drains[e].read[i] == r;
    assert (e == d && i == w.drains[d].sent) || (0 <= i < w.drains[e].sent && w.drains[e].read[i] == r);
  }

  lemma {:induction false} DrainSendOwes(w: World, d: nat, key: PrKey, t: nat)
    requires Enabled(w, DrainSend(d)) && Owed(w, key, t)
    ensures Owed(Apply(w, DrainSend(d)), key, t)
  {
    var after := Apply(w, DrainSend(d));
    forall r | SentByDrain(after, r) { SentNow(w, d, r); }
    OwedKept(w, after, key, t);
  }

  lemma {:induction false} DrainAckOwes(w: World, d: nat, key: PrKey, t: nat)
    requires BooksOk(w) && Enabled(w, DrainAck(d)) && Owed(w, key, t)
    ensures Owed(Apply(w, DrainAck(d)), key, t)
  {
    var after := Apply(w, DrainAck(d));
    assert forall r :: SentByDrain(after, r) <==> SentByDrain(w, r);
    forall r | r in w.outbox && r !in after.outbox { AckForgetsOnlyTold(w, d, r); }
    OwedKept(w, after, key, t);
  }

  lemma {:induction false} DrainEndOwes(w: World, d: nat, key: PrKey, t: nat)
    requires Enabled(w, DrainEnd(d)) && Owed(w, key, t)
    ensures Owed(Apply(w, DrainEnd(d)), key, t)
  {
    var after := Apply(w, DrainEnd(d));
    assert forall r :: SentByDrain(after, r) ==> SentByDrain(w, r);
    OwedKept(w, after, key, t);
  }

  predicate IsCourier(e: Event) {
    e.SendClose? || e.DrainRead? || e.DrainSend? || e.DrainAck? || e.DrainEnd?
  }

  /** Sending closes, and a drain's every step, leaves each key what it was owed. */
  lemma {:induction false} CourierKeeps(w: World, e: Event, key: PrKey)
    requires BooksOk(w) && KeyOk(w, key) && Enabled(w, e) && IsCourier(e)
    ensures KeyOk(Apply(w, e), key)
  {
    forall t | Owed(w, key, t)
      ensures Owed(Apply(w, e), key, t)
    {
      match e
      case SendClose(to) => SendCloseOwes(w, to, key, t);
      case DrainRead(d) => DrainReadOwes(w, d, key, t);
      case DrainSend(d) => DrainSendOwes(w, d, key, t);
      case DrainAck(d) => DrainAckOwes(w, d, key, t);
      case DrainEnd(d) => DrainEndOwes(w, d, key, t);
    }
    KeyKept(w, Apply(w, e), key);
  }

  // ----- Prunes -----

  /** A retirement queued by a prune is new to every drain. */
  lemma {:induction false} NewlyQueued(w: World, prune: Prune, gone: seq<PrKey>, i: nat, t: nat)
    requires BooksOk(w) && Enabled(w, PruneRows(prune, gone)) && i < |gone|
    requires Covers(prune.Fence(), t)
    ensures Owed(Apply(w, PruneRows(prune, gone)), gone[i], t)
  {
    var after := Apply(w, PruneRows(prune, gone));
    var queue := Queue(gone, prune.Fence(), w.nextId);
    var r := queue[i];
    assert r in after.outbox;
    assert forall d :: d in w.drains ==> DrainOk(w, w.drains[d]);
    assert QueuedFor(after, gone[i], t, r);
  }

  lemma {:induction false} PruneKeepsDebts(w: World, prune: Prune, gone: seq<PrKey>, key: PrKey, t: nat)
    requires Enabled(w, PruneRows(prune, gone)) && Owed(w, key, t)
    ensures Owed(Apply(w, PruneRows(prune, gone)), key, t)
  {
    var after := Apply(w, PruneRows(prune, gone));
    assert forall r :: SentByDrain(after, r) <==> SentByDrain(w, r);
    assert forall r :: r in w.outbox ==> r in after.outbox;
    OwedKept(w, after, key, t);
  }

  /** Whatever is owed after a prune was owed before, or is this prune's own doing. */
  lemma {:induction false} DebtsOfPrune(w: World, prune: Prune, gone: seq<PrKey>, key: PrKey, t: nat)
    requires Enabled(w, PruneRows(prune, gone)) && Owed(Apply(w, PruneRows(prune, gone)), key, t)
    ensures Owed(w, key, t) || (key in gone && Covers(prune.Fence(), t))
  {
    var after := Apply(w, PruneRows(prune, gone));
    var queue := Queue(gone, prune.Fence(), w.nextId);
    assert forall r :: SentByDrain(after, r) <==> SentByDrain(w, r);
    if c :| ComingFor(after, key, t, c) {
      assert ComingFor(w, key, t, c);
    } else {
      var r :| QueuedFor(after, key, t, r);
      if r in w.outbox {
        assert QueuedFor(w, key, t, r);
      } else {
        assert r in queue;
      }
    }
  }

  /** One key after a prune: in step exactly when its row stayed or a close is owed for it. */
  lemma {:induction false} PrunedKey(w: World, prune: Prune, gone: seq<PrKey>, key: PrKey)
    requires BooksOk(w) && KeyOk(w, key) && Enabled(w, PruneRows(prune, gone))
    ensures KeyOk(Apply(w, PruneRows(prune, gone)), key)
       <==> (key in gone && NeedsTelling(w, key) ==>
               Covers(prune.Fence(), w.rows[key].syncedAt) || Owed(w, key, w.rows[key].syncedAt))
  {
    var after := Apply(w, PruneRows(prune, gone));
    if key !in gone {
      forall t | Owed(w, key, t) { PruneKeepsDebts(w, prune, gone, key, t); }
      KeyKept(w, after, key);
    } else {
      var t := w.rows[key].syncedAt;
      var i :| 0 <= i < |gone| && gone[i] == key;
      if Covers(prune.Fence(), t) { NewlyQueued(w, prune, gone, i, t); }
      if Owed(w, key, t) { PruneKeepsDebts(w, prune, gone, key, t); }
      if Owed(after, key, t) { DebtsOfPrune(w, prune, gone, key, t); }
    }
  }

  /** Every event keeps `key` in step exactly when it is harmless to it. */
  lemma {:induction false} InStepIffHarmless(w: World, e: Event, key: PrKey)
    requires BooksOk(w) && KeyOk(w, key) && Enabled(w, e)
    ensures KeyOk(Apply(w, e), key) <==> HarmlessTo(w, e, key)
  {
    match e
    case PruneRows(prune, gone) => PrunedKey(w, prune, gone, key);
    case TakeClose(_, _) => TakeCloseKeeps(w, e, key);
    case SendClose(_) => CourierKeeps(w, e, key);
    case DrainRead(_) => CourierKeeps(w, e, key);
    case DrainSend(_) => CourierKeeps(w, e, key);
    case DrainAck(_) => CourierKeeps(w, e, key);
    case DrainEnd(_) => CourierKeeps(w, e, key);
    case _ => OwnEvents(w, e, key);
  }

  // ----- Runs -----

  function Start(): World {
    World(map[], map[], map[], [], 0, multiset{}, map[], {}, {})
  }

  predicate Runs(w: World, events: seq<Event>)
    decreases |events|
  {
    events == [] || (Enabled(w, events[0]) && Runs(Apply(w, events[0]), events[1..]))
  }

  function End(w: World, events: seq<Event>): World
    requires Runs(w, events)
    decreases |events|
  {
    if events == [] then w else End(Apply(w, events[0]), events[1..])
  }

  ghost predicate AllHarmlessTo(w: World, events: seq<Event>, key: PrKey)
    requires Runs(w, events)
    decreases |events|
  {
    events == [] || (HarmlessTo(w, events[0], key) && AllHarmlessTo(Apply(w, events[0]), events[1..], key))
  }

  lemma {:induction false} StartInStep()
    ensures BooksOk(Start()) && forall key :: KeyOk(Start(), key)
  {
  }

  lemma {:induction false} RunsKeepBooks(w: World, events: seq<Event>)
    requires BooksOk(w) && Runs(w, events)
    ensures BooksOk(End(w, events))
    ensures w.queued <= End(w, events).queued && w.told <= End(w, events).told
    decreases |events|
  {
    if events != [] {
      BooksKept(w, events[0]);
      OnlyGrows(w, events[0]);
      RunsKeepBooks(Apply(w, events[0]), events[1..]);
    }
  }

  /**
   In any interleaving whatever, handlers that die and prunes that strand included: whatever a
   prune ever queued is still queued or was told, and an acknowledgement that may now be made
   forgets only what its own drain read and sent a close for.
   */
  lemma {:induction false} NothingForgottenUntold(events: seq<Event>)
    requires Runs(Start(), events)
    ensures var w := End(Start(), events);
      && (forall r :: r in w.queued ==> r in w.outbox || r in w.told)
      && forall d, r :: Enabled(w, DrainAck(d)) && r in w.outbox && r !in Apply(w, DrainAck(d)).outbox ==>
           r in w.drains[d].read && r in w.told
  {
    StartInStep();
    RunsKeepBooks(Start(), events);
    var w := End(Start(), events);
    forall d, r | Enabled(w, DrainAck(d)) && r in w.outbox && r !in Apply(w, DrainAck(d)).outbox
      ensures r in w.drains[d].read && r in w.told
    {
      AckForgetsOnlyTold(w, d, r);
    }
  }

  /** Step `n` put a close for the retirement's key in flight, under the retirement's own fence. */
  ghost predicate SentAt(w: World, events: seq<Event>, n: nat, r: Retirement) {
    && n < |events| && Runs(w, events[..n]) && Runs(w, events[..n + 1])
    && End(w, events[..n + 1]).closes == End(w, events[..n]).closes + multiset{Close(r.key, r.syncedBefore)}
  }

  /** What a run calls told was sent a close of its own. */
  lemma {:induction false} ToldWasSent(w: World, events: seq<Event>, r: Retirement) returns (n: nat)
    requires Runs(w, events) && r !in w.told && r in End(w, events).told
    ensures SentAt(w, events, n, r)
    decreases |events|
  {
    var next := Apply(w, events[0]);
    if r in next.told {
      n := 0;
      assert events[..1][0] == events[0] && events[..1][1..] == [] && events[..0] == [];
      assert End(w, events[..1]) == next;
    } else {
      var m := ToldWasSent(next, events[1..], r);
      n := m + 1;
      PrefixFrom(w, events, m);
      PrefixFrom(w, events, m + 1);
    }
  }

  lemma {:induction false} PrefixFrom(w: World, events: seq<Event>, m: nat)
    requires m < |events| && Enabled(w, events[0]) && Runs(Apply(w, events[0]), events[1..][..m])
    ensures Runs(w, events[..m + 1])
    ensures End(w, events[..m + 1]) == End(Apply(w, events[0]), events[1..][..m])
  {
    assert events[..m + 1][1..] == events[1..][..m];
  }

  /** Whose object was ever sent an unconditional close from outside. */
  function Notified(events: seq<Event>): set<PrKey> {
    if events == [] then {}
    else Notified(events[1..]) + if events[0].SendClose? then {events[0].key} else {}
  }

  /** Every close in flight was sent from outside, or is a told retirement's, under its own fence. */
  ghost predicate Sourced(w: World, notified: set<PrKey>) {
    forall c :: c in w.closes ==>
      || (c.syncedBefore.None? && c.key in notified)
      || exists r :: r in w.told && r.key == c.key && r.syncedBefore == c.syncedBefore
  }

  lemma {:induction false} ClosesSourced(w: World, events: seq<Event>, notified: set<PrKey>)
    requires Runs(w, events) && Sourced(w, notified)
    ensures Sourced(End(w, events), notified + Notified(events))
    decreases |events|
  {
    if events != [] {
      var e := events[0];
      var more := notified + if e.SendClose? then {e.key} else {};
      SourcedOn(w, e, notified, more);
      ClosesSourced(Apply(w, e), events[1..], more);
      assert more + Notified(events[1..]) == notified + Notified(events);
    } else {
      assert notified + Notified(events) == notified;
    }
  }

  lemma {:induction false} SourcedOn(w: World, e: Event, notified: set<PrKey>, more: set<PrKey>)
    requires Enabled(w, e) && Sourced(w, notified)
    requires notified <= more && (e.SendClose? ==> e.key in more)
    ensures Sourced(Apply(w, e), more)
  {
    var after := Apply(w, e);
    forall c | c in after.closes
      ensures || (c.syncedBefore.None? && c.key in more)
              || exists r :: r in after.told && r.key == c.key && r.syncedBefore == c.syncedBefore
    {
      if c in w.closes {
        if r :| r in w.told && r.key == c.key && r.syncedBefore == c.syncedBefore {
          assert r in after.told;
        }
      } else if e.DrainSend? {
        var r := w.drains[e.drain].read[w.drains[e.drain].sent];
        assert r in after.told;
      }
    }
  }

  lemma {:induction false} RunsInStep(w: World, events: seq<Event>, key: PrKey)
    requires BooksOk(w) && KeyOk(w, key) && Runs(w, events) && AllHarmlessTo(w, events, key)
    ensures BooksOk(End(w, events)) && KeyOk(End(w, events), key)
    decreases |events|
  {
    if events != [] {
      BooksKept(w, events[0]);
      InStepIffHarmless(w, events[0], key);
      RunsInStep(Apply(w, events[0]), events[1..], key);
    }
  }

  /** Synced before the fence, or never, or told to close whenever it was synced. */
  predicate WouldRetire(state: PrState, fence: Option<nat>) {
    fence.Some? && state.lastSyncedAt.Some? ==> state.lastSyncedAt.value < fence.value
  }

  /** The promise to one idle object: its row is its snapshot, or it will be told there is none. */
  ghost predicate InStep(w: World, key: PrKey) {
    var state := w.State(key);
    && (key in w.rows ==> state == PrState(Some(w.rows[key]), Some(w.rows[key].syncedAt)))
    && (key !in w.rows && state.snapshot.Some? ==>
          exists fence :: WouldRetire(state, fence)
            && (Close(key, fence) in w.closes || exists r :: r in w.outbox && r.key == key && r.syncedBefore == fence))
  }

  lemma {:induction false} OkIsInStep(w: World, key: PrKey)
    requires KeyOk(w, key) && w.At(key) == Idle
    ensures InStep(w, key)
  {
    var state := w.State(key);
    if key !in w.rows && state.snapshot.Some? {
      var t := state.snapshot.value.syncedAt;
      if c :| ComingFor(w, key, t, c) {
        assert c == Close(key, c.syncedBefore) && WouldRetire(state, c.syncedBefore);
      } else {
        var r :| QueuedFor(w, key, t, r);
        assert WouldRetire(state, r.syncedBefore);
      }
    }
  }

  /**
   In every state a run reaches, whatever it does to other pull requests: while no event was
   harmful to `key` itself, an idle object whose row exists holds that very snapshot and its
   sync time, and one with a snapshot and no row has a close queued or on its way that will
   retire it.
   */
  lemma {:induction false} RowsAndObjectsPaired(events: seq<Event>, key: PrKey)
    requires Runs(Start(), events) && AllHarmlessTo(Start(), events, key)
    requires End(Start(), events).At(key) == Idle
    ensures InStep(End(Start(), events), key)
  {
    StartInStep();
    RunsInStep(Start(), events, key);
    OkIsInStep(End(Start(), events), key);
  }

  // ----- Which events are harmless -----

  /** What can be checked of an event beforehand that makes it harmless to `key`. */
  predicate CleanTo(w: World, e: Event, key: PrKey) {
    match e
    case Die(dying) =>
      dying == key ==> w.At(key).Fetched? || w.At(key) == Deleting(Gone) || w.At(key) == Deleting(Merged)
    case PruneRows(Replace(_, fence), gone) => key in gone && key in w.rows ==> w.rows[key].syncedAt < fence
    case _ => true
  }

  /** A handler whose store step failed before it took effect leaves nothing to mend. */
  lemma {:induction false} CleanIsHarmless(w: World, e: Event, key: PrKey)
    requires Enabled(w, e) && CleanTo(w, e, key)
    ensures HarmlessTo(w, e, key)
  {
  }

  /** A close whose row delete fails for good is harmless just when it had nothing to do yet. */
  lemma {:induction false} ClosedDies(w: World, key: PrKey)
    requires BooksOk(w) && KeyOk(w, key) && w.At(key) == Deleting(Closed)
    ensures KeyOk(Apply(w, Die(key)), key) <==>
      w.Row(key).Some? || w.State(key).snapshot.None? || Owed(w, key, w.State(key).snapshot.value.syncedAt)
  {
    InStepIffHarmless(w, Die(key), key);
  }

  /** A handler that ends once it has deleted the row strands a snapshot no close is coming for. */
  lemma {:induction false} DeletedDies(w: World, key: PrKey)
    requires BooksOk(w) && KeyOk(w, key) && w.At(key).Deleted?
    ensures KeyOk(Apply(w, Die(key)), key) <==>
      w.State(key).snapshot.None? || Owed(w, key, w.State(key).snapshot.value.syncedAt)
  {
    InStepIffHarmless(w, Die(key), key);
  }

  predicate AllCleanTo(w: World, events: seq<Event>, key: PrKey)
    requires Runs(w, events)
    decreases |events|
  {
    events == [] || (CleanTo(w, events[0], key) && AllCleanTo(Apply(w, events[0]), events[1..], key))
  }

  lemma {:induction false} CleanRunsHarmless(w: World, events: seq<Event>, key: PrKey)
    requires Runs(w, events) && AllCleanTo(w, events, key)
    ensures AllHarmlessTo(w, events, key)
    decreases |events|
  {
    if events != [] {
      CleanIsHarmless(w, events[0], key);
      CleanRunsHarmless(Apply(w, events[0]), events[1..], key);
    }
  }

  /**
   So a run keeps its promise to `key` if no handler of it died but before its store step took
   effect, and every repository replacement that took its row had a later fence.
   */
  lemma {:induction false} CleanRunsPaired(events: seq<Event>, key: PrKey)
    requires Runs(Start(), events) && AllCleanTo(Start(), events, key)
    requires End(Start(), events).At(key) == Idle
    ensures InStep(End(Start(), events), key)
  {
    CleanRunsHarmless(Start(), events, key);
    RowsAndObjectsPaired(events, key);
  }

  lemma {:induction false} OneMore(w: World, events: seq<Event>, e: Event)
    requires Runs(w, events) && Enabled(End(w, events), e)
    ensures Runs(w, events + [e]) && End(w, events + [e]) == Apply(End(w, events), e)
    decreases |events|
  {
    var longer := events + [e];
    if events == [] {
      assert longer[1..] == [];
    } else {
      assert longer[1..] == events[1..] + [e];
      OneMore(Apply(w, events[0]), events[1..], e);
    }
  }

  const HEAD := PrRecord("head", 7)

  /** `key` synced at time 7, and nothing else going on. */
  function SyncedWorld(key: PrKey): World {
    Start().(states := map[key := PrState(Some(HEAD), Some(7))], phases := map[key := Idle], rows := map[key := HEAD])
  }

  /** Its row since taken by `prune`. */
  function PrunedWorld(key: PrKey, prune: Prune): World {
    var r := Retirement(0, key, prune.Fence());
    SyncedWorld(key).(rows := map[], outbox := [r], nextId := 1, queued := {r})
  }

  /** And the outbox drained. */
  function ToldWorld(key: PrKey, prune: Prune): World {
    var r := Retirement(0, key, prune.Fence());
    PrunedWorld(key, prune).(outbox := [], closes := multiset{Close(key, prune.Fence())},
                             drains := map[0 := Drain([r], 1)], told := {r})
  }

  lemma {:induction false} Sync(key: PrKey) returns (events: seq<Event>)
    ensures Runs(Start(), events) && End(Start(), events) == SyncedWorld(key)
    ensures forall e :: e in events ==> !e.Die? && !e.PruneRows?
  {
    events := [];
    OneMore(Start(), events, Fetch(key, HEAD));
    events := events + [Fetch(key, HEAD)];
    OneMore(Start(), events, Upsert(key));
    events := events + [Upsert(key)];
    OneMore(Start(), events, CommitSync(key));
    events := events + [CommitSync(key)];
  }

  lemma {:induction false} PruneStep(key: PrKey, prune: Prune)
    requires prune.Selects(key, HEAD)
    ensures Enabled(SyncedWorld(key), PruneRows(prune, [key]))
    ensures Apply(SyncedWorld(key), PruneRows(prune, [key])) == PrunedWorld(key, prune)
  {
    var r := Retirement(0, key, prune.Fence());
    assert Queue([key], prune.Fence(), 0) == [r] && Members([r]) == {r};
    assert Apply(SyncedWorld(key), PruneRows(prune, [key])).rows == map[];
  }

  lemma {:induction false} DrainSteps(key: PrKey, prune: Prune)
    ensures var events := [DrainRead(0), DrainSend(0), DrainAck(0)];
      Runs(PrunedWorld(key, prune), events) && End(PrunedWorld(key, prune), events) == ToldWorld(key, prune)
  {
    var a := Apply(PrunedWorld(key, prune), DrainRead(0));
    var b := Apply(a, DrainSend(0));
    assert b.drains == ToldWorld(key, prune).drains;
    assert b.closes == ToldWorld(key, prune).closes && b.told == ToldWorld(key, prune).told;
    assert Forget(b.outbox, 0) == [];
    assert Apply(b, DrainAck(0)) == ToldWorld(key, prune);
    var events := [DrainRead(0), DrainSend(0), DrainAck(0)];
    assert events[1..] == [DrainSend(0), DrainAck(0)] && events[1..][1..] == [DrainAck(0)];
  }

  lemma {:induction false} Append(w: World, first: seq<Event>, next: seq<Event>)
    requires Runs(w, first) && Runs(End(w, first), next)
    ensures Runs(w, first + next) && End(w, first + next) == End(End(w, first), next)
    decreases |first|
  {
    if first == [] {
      assert first + next == next;
    } else {
      assert (first + next)[1..] == first[1..] + next;
      Append(Apply(w, first[0]), first[1..], next);
    }
  }

  /** A run that syncs `key` at time 7 and then has its row taken by `prune`, told, and taken up. */
  lemma {:induction false} SyncedPrunedTold(key: PrKey, prune: Prune) returns (events: seq<Event>)
    requires prune.Selects(key, HEAD)
    ensures Runs(Start(), events) && forall e :: e in events ==> !e.Die? && (e.PruneRows? ==> e.prune == prune)
    ensures var w := End(Start(), events);
      && w.rows == map[] && w.outbox == [] && w.closes == multiset{}
      && w.State(key) == PrState(Some(HEAD), Some(7))
      && w.At(key) == if ClosedRetires(w.State(key), prune.Fence()) then Deleting(Closed) else Idle
  {
    events := Sync(key);
    PruneStep(key, prune);
    OneMore(Start(), events, PruneRows(prune, [key]));
    events := events + [PruneRows(prune, [key])];
    DrainSteps(key, prune);
    Append(Start(), events, [DrainRead(0), DrainSend(0), DrainAck(0)]);
    events := events + [DrainRead(0), DrainSend(0), DrainAck(0)];
    OneMore(Start(), events, TakeClose(key, prune.Fence()));
    events := events + [TakeClose(key, prune.Fence())];
  }

  /**
   The pairing is not unconditional. A pull request synced while an installation sweep is
   listing, in a repository the sweep then drops, loses its row to a fence it is newer than:
   the close that follows finds it synced since and leaves its snapshot, with no row and
   nothing left to tell it.
   */
  lemma {:induction false} DroppedRepositoryStrandsFreshSync(key: PrKey) returns (events: seq<Event>)
    ensures Runs(Start(), events) && forall e :: e in events ==> !e.Die?
    ensures var w := End(Start(), events);
      && w.At(key) == Idle && w.State(key).snapshot.Some?
      && w.rows == map[] && w.outbox == [] && w.closes == multiset{}
  {
    events := SyncedPrunedTold(key, Replace({key.repositoryId}, 7));
  }

  /**
   Nor a merge whose handler ends at its clock, after the row delete and before the state is
   set: the row is gone and nobody else will tell the object.
   */
  lemma {:induction false} MergeCutShortStrandsSnapshot(key: PrKey) returns (events: seq<Event>)
    ensures Runs(Start(), events) && forall e :: e in events ==> !e.PruneRows?
    ensures var w := End(Start(), events);
      && w.At(key) == Idle && w.State(key).snapshot.Some?
      && w.rows == map[] && w.outbox == [] && w.closes == multiset{}
  {
    events := Sync(key);
    MergeSteps(key);
    Append(Start(), events, [Event.Merge(key), DeleteRow(key), Die(key)]);
    events := events + [Event.Merge(key), DeleteRow(key), Die(key)];
  }

  lemma {:induction false} MergeSteps(key: PrKey)
    ensures var events := [Event.Merge(key), DeleteRow(key), Die(key)];
      Runs(SyncedWorld(key), events) && End(SyncedWorld(key), events) == SyncedWorld(key).(rows := map[])
  {
    var a := Apply(SyncedWorld(key), Event.Merge(key));
    var b := Apply(a, DeleteRow(key));
    var c := Apply(b, Die(key));
    assert b.rows == map[] && c.states == SyncedWorld(key).states && c.phases == SyncedWorld(key).phases;
    var events := [Event.Merge(key), DeleteRow(key), Die(key)];
    var later, last := events[1..], events[2..];
    assert later[1..] == last && last[1..] == [];
    assert Runs(c, []) && End(c, []) == c;
    assert Runs(b, last) && End(b, last) == c;
    assert Runs(a, later) && End(a, later) == c;
  }

  /** Nor does it survive a close whose row delete is given up on: the message is used up. */
  lemma {:induction false} ClosedGivenUpStrandsSnapshot(key: PrKey) returns (events: seq<Event>)
    ensures Runs(Start(), events) && forall e :: e in events && e.PruneRows? ==> e.prune.Retain?
    ensures var w := End(Start(), events);
      && w.At(key) == Idle && w.State(key).snapshot.Some?
      && w.rows == map[] && w.outbox == [] && w.closes == multiset{}
  {
    events := SyncedPrunedTold(key, Retain(key.repositoryId, {}, 8));
    OneMore(Start(), events, Die(key));
    events := events + [Die(key)];
  }
}

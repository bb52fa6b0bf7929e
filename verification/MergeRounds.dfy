/**
 How a merge batch is split into the rounds that go to GitHub together: round robin over
 the repositories, at most a bound at a time, never two pull requests of one repository.
 */
module MergeRounds {
  import opened PrKeys
  import opened BatchProgress

  /** One repository's pull requests still to be sent, in batch order. */
  datatype RepoQueue = RepoQueue(repositoryId: u64, pulls: seq<PrTarget>)

  // ----- The order a reader would write down -----

  /** The targets of one repository, in batch order. */
  function OfRepo(targets: seq<PrTarget>, r: u64): seq<PrTarget> {
    if targets == [] then []
    else
      var last := targets[|targets| - 1];
      OfRepo(targets[..|targets| - 1], r) + if last.repositoryId == r then [last] else []
  }

  /** Each repository once, by its first pull request in the batch. */
  function RepoOrder(targets: seq<PrTarget>): (repos: seq<u64>)
    ensures forall i, j :: 0 <= i < j < |repos| ==> repos[i] != repos[j]
    ensures forall t :: t in targets ==> t.repositoryId in repos
    ensures |repos| <= |targets|
  {
    if targets == [] then []
    else
      var before := RepoOrder(targets[..|targets| - 1]);
      var r := targets[|targets| - 1].repositoryId;
      if r in before then before else before + [r]
  }

  function Nth(pulls: seq<PrTarget>, k: nat): seq<PrTarget> {
    if k < |pulls| then [pulls[k]] else []
  }

  /** One queue for each of them. */
  function QueuesOf(targets: seq<PrTarget>): seq<RepoQueue> {
    var repos := RepoOrder(targets);
    seq(|repos|, i requires 0 <= i < |repos| => RepoQueue(repos[i], OfRepo(targets, repos[i])))
  }

  /** The `k`-th pull request of every queue that has one. */
  function Turn(queues: seq<RepoQueue>, k: nat): seq<PrTarget> {
    if queues == [] then []
    else Turn(queues[..|queues| - 1], k) + Nth(queues[|queues| - 1].pulls, k)
  }

  function Turns(queues: seq<RepoQueue>, k: nat): seq<PrTarget> {
    if k == 0 then [] else Turns(queues, k - 1) + Turn(queues, k - 1)
  }

  /** Every repository's first pull request, then every one's second, and so on. */
  function RoundRobin(targets: seq<PrTarget>): seq<PrTarget> {
    Turns(QueuesOf(targets), |targets|)
  }

  function Concat(rounds: seq<seq<PrTarget>>): seq<PrTarget> {
    if rounds == [] then [] else Concat(rounds[..|rounds| - 1]) + rounds[|rounds| - 1]
  }

  function ReposOf(round: seq<PrTarget>): set<u64> {
    set t | t in round :: t.repositoryId
  }

  predicate NoRepoTwice(round: seq<PrTarget>) {
    forall i, j :: 0 <= i < j < |round| ==> round[i].repositoryId != round[j].repositoryId
  }

  /** A round below the bound holds one of every repository still waiting after it. */
  ghost predicate FullOrCovers(rounds: seq<seq<PrTarget>>, m: nat, bound: nat)
    requires m < |rounds|
  {
    || |rounds[m]| == bound
    || forall n, t :: m < n < |rounds| && t in rounds[n] ==> t.repositoryId in ReposOf(rounds[m])
  }

  ghost predicate GoodRounds(rounds: seq<seq<PrTarget>>, bound: nat) {
    forall m :: 0 <= m < |rounds| ==>
      1 <= |rounds[m]| <= bound && NoRepoTwice(rounds[m]) && FullOrCovers(rounds, m, bound)
  }

  ghost predicate IsPlan(targets: seq<PrTarget>, rounds: seq<seq<PrTarget>>, bound: nat) {
    Concat(rounds) == RoundRobin(targets) && GoodRounds(rounds, bound)
  }

  // ----- The planner -----

  /** The queue of `repositoryId`, or the number of queues. */
  function FindQueue(queues: seq<RepoQueue>, repositoryId: u64): (i: nat)
    ensures i <= |queues|
    ensures i < |queues| ==> queues[i].repositoryId == repositoryId
    ensures forall j :: 0 <= j < i ==> queues[j].repositoryId != repositoryId
  {
    if queues == [] || queues[0].repositoryId == repositoryId then 0
    else 1 + FindQueue(queues[1..], repositoryId)
  }

  /** Every queue holds its own repository's pull requests, and no two are one repository's. */
  predicate Filed(queues: seq<RepoQueue>) {
    && (forall i, x :: 0 <= i < |queues| && x in queues[i].pulls ==> x.repositoryId == queues[i].repositoryId)
    && forall i, j :: 0 <= i < j < |queues| ==> queues[i].repositoryId != queues[j].repositoryId
  }

  predicate Waiting(queues: seq<RepoQueue>, r: u64) {
    exists i :: 0 <= i < |queues| && queues[i].repositoryId == r && queues[i].pulls != []
  }

  function Total(queues: seq<RepoQueue>): nat {
    if queues == [] then 0 else |queues[0].pulls| + Total(queues[1..])
  }

  /** Which repository the visit after `t` others goes to. */
  function Pos(t: nat, n: nat): (p: nat)
    requires 0 < n
    ensures p < n
  {
    if t == 0 then 0
    else if Pos(t - 1, n) + 1 == n then 0
    else Pos(t - 1, n) + 1
  }

  /** The repository `j` places on from `start`, going round. */
  function Seat(start: nat, j: nat, n: nat): (i: nat)
    requires start < n && j < n
    ensures i < n
  {
    if start + j < n then start + j else start + j - n
  }

  /** The queues after `t` visits going round them in order, each visit taking one pull request. */
  function Drained(all: seq<RepoQueue>, t: nat): (queues: seq<RepoQueue>)
    ensures |queues| == |all|
  {
    if t == 0 || all == [] then all
    else
      var before := Drained(all, t - 1);
      var i := Pos(t - 1, |all|);
      if before[i].pulls == [] then before
      else before[i := before[i].(pulls := before[i].pulls[1..])]
  }

  /** What those visits took, in order. */
  function Emitted(all: seq<RepoQueue>, t: nat): seq<PrTarget> {
    if t == 0 || all == [] then []
    else Emitted(all, t - 1) + Nth(Drained(all, t - 1)[Pos(t - 1, |all|)].pulls, 0)
  }

  // ----- Going round -----

  lemma {:induction false} RoundAgain(x: nat, n: nat)
    requires 0 < n && x < n + n
    ensures x % n == if x < n then x else x - n
  {
  }

  lemma {:induction false} PosSeat(t: nat, j: nat, n: nat)
    requires 0 < n && j <= n
    ensures Pos(t + j, n) == if j < n then Seat(Pos(t, n), j, n) else Pos(t, n)
    decreases j
  {
    if 0 < j {
      PosSeat(t, j - 1, n);
    }
  }

  /** The index the planner computes is where the next visit goes. */
  lemma {:induction false} NextIndex(t: nat, visited: nat, n: nat)
    requires 0 < n && visited <= n
    ensures (Pos(t, n) + visited) % n == Pos(t + visited, n)
  {
    RoundAgain(Pos(t, n) + visited, n);
    PosSeat(t, visited, n);
  }

  lemma {:induction false} SeatReaches(start: nat, i: nat, n: nat) returns (j: nat)
    requires start < n && i < n
    ensures j < n && Seat(start, j, n) == i
  {
    j := if start <= i then i - start else i + n - start;
  }

  /** How many visits `k` whole passes make. */
  function Lap(k: nat, n: nat): nat {
    if k == 0 then 0 else Lap(k - 1, n) + n
  }

  lemma {:induction false} LapStarts(k: nat, n: nat)
    requires 0 < n
    ensures Pos(Lap(k, n), n) == 0
  {
    if 0 < k {
      LapStarts(k - 1, n);
      PosSeat(Lap(k - 1, n), n, n);
    }
  }

  lemma {:induction false} TotalUpdate(queues: seq<RepoQueue>, i: nat, queue: RepoQueue)
    requires i < |queues|
    ensures Total(queues[i := queue]) + |queues[i].pulls| == Total(queues) + |queue.pulls|
  {
    if i == 0 {
      assert queues[i := queue][1..] == queues[1..];
    } else {
      assert queues[i := queue][1..] == queues[1..][i - 1 := queue];
      TotalUpdate(queues[1..], i - 1, queue);
    }
  }

  lemma {:induction false} NoneLeft(queues: seq<RepoQueue>)
    requires Total(queues) == 0
    ensures forall i :: 0 <= i < |queues| ==> queues[i].pulls == []
  {
    if queues != [] {
      NoneLeft(queues[1..]);
      assert forall i :: 1 <= i < |queues| ==> queues[i] == queues[1..][i - 1];
    }
  }

  lemma {:induction false} TotalZero(queues: seq<RepoQueue>)
    requires forall i :: 0 <= i < |queues| ==> queues[i].pulls == []
    ensures Total(queues) == 0
  {
    if queues != [] {
      TotalZero(queues[1..]);
    }
  }

  lemma {:induction false} OfRepoMembers(targets: seq<PrTarget>, r: u64)
    ensures |OfRepo(targets, r)| <= |targets|
    ensures forall x :: x in OfRepo(targets, r) ==> x.repositoryId == r
  {
    if targets != [] {
      OfRepoMembers(targets[..|targets| - 1], r);
    }
  }

  lemma {:induction false} QueuesFiled(targets: seq<PrTarget>)
    ensures Filed(QueuesOf(targets))
  {
    forall i | 0 <= i < |QueuesOf(targets)|
      ensures forall x :: x in QueuesOf(targets)[i].pulls ==> x.repositoryId == QueuesOf(targets)[i].repositoryId
    {
      OfRepoMembers(targets, RepoOrder(targets)[i]);
    }
  }

  lemma {:induction false} DrainedFiled(all: seq<RepoQueue>, t: nat)
    requires Filed(all)
    ensures Filed(Drained(all, t))
    ensures forall i :: 0 <= i < |all| ==> Drained(all, t)[i].repositoryId == all[i].repositoryId
  {
    if t != 0 && all != [] {
      DrainedFiled(all, t - 1);
    }
  }

  /** A queue empty once stays empty, so what is waiting later was waiting before. */
  lemma {:induction false} StillWaiting(all: seq<RepoQueue>, t: nat, visited: nat, r: u64)
    requires Waiting(Drained(all, t + visited), r)
    ensures Waiting(Drained(all, t), r)
    decreases visited
  {
    if visited != 0 && all != [] {
      var i :| 0 <= i < |all| && Drained(all, t + visited)[i].repositoryId == r
            && Drained(all, t + visited)[i].pulls != [];
      assert Drained(all, t + visited - 1)[i].repositoryId == r;
      StillWaiting(all, t, visited - 1, r);
    }
  }

  // ----- What the visits take is the round-robin order -----

  function Drop(pulls: seq<PrTarget>, k: nat): seq<PrTarget> {
    if k < |pulls| then pulls[k..] else []
  }

  /** The visits made when `k` passes are over and `j` repositories of the next one done. */
  predicate InPass(t: nat, k: nat, j: nat, n: nat) {
    t == Lap(k, n) + j
  }

  lemma {:induction false} InPassPos(t: nat, k: nat, j: nat, n: nat)
    requires j < n && InPass(t, k, j, n)
    ensures Pos(t, n) == j
  {
    LapStarts(k, n);
    PosSeat(Lap(k, n), j, n);
  }

  /** Then the first `j` queues are one pull request ahead of the rest. */
  lemma {:induction false} QueuesInPass(all: seq<RepoQueue>, t: nat, k: nat, j: nat, i: nat)
    requires j <= |all| && i < |all| && InPass(t, k, j, |all|)
    ensures Drained(all, t)[i].pulls == Drop(all[i].pulls, if i < j then k + 1 else k)
    decreases k, j
  {
    if 0 < j {
      QueuesInPass(all, t - 1, k, j - 1, i);
      QueueStep(all, t - 1, k, j - 1, i);
    } else if 0 < k {
      QueuesInPass(all, t, k - 1, |all|, i);
    }
  }

  lemma {:induction false} QueueStep(all: seq<RepoQueue>, t: nat, k: nat, j: nat, i: nat)
    requires j < |all| && i < |all| && InPass(t, k, j, |all|)
    requires Drained(all, t)[i].pulls == Drop(all[i].pulls, if i < j then k + 1 else k)
    ensures Drained(all, t + 1)[i].pulls == Drop(all[i].pulls, if i < j + 1 then k + 1 else k)
  {
    InPassPos(t, k, j, |all|);
  }

  lemma {:induction false} Taken(all: seq<RepoQueue>, t: nat, k: nat, j: nat)
    requires j < |all| && InPass(t, k, j, |all|)
    ensures Emitted(all, t + 1) == Emitted(all, t) + Nth(all[j].pulls, k)
  {
    QueuesInPass(all, t, k, j, j);
    InPassPos(t, k, j, |all|);
    var left := Drained(all, t)[j].pulls;
    assert Nth(left, 0) == Nth(all[j].pulls, k);
  }

  ghost predicate EmittedAt(all: seq<RepoQueue>, t: nat, k: nat, j: nat)
    requires j <= |all|
  {
    Emitted(all, t) == Turns(all, k) + Turn(all[..j], k)
  }

  lemma {:induction false} EmittedInPass(all: seq<RepoQueue>, t: nat, k: nat, j: nat)
    requires j <= |all| && InPass(t, k, j, |all|)
    ensures EmittedAt(all, t, k, j)
    decreases k, j
  {
    if 0 < j {
      EmittedInPass(all, t - 1, k, j - 1);
      EmittedStep(all, t - 1, k, j - 1);
    } else {
      if 0 < k {
        PassBefore(t, k, |all|);
        EmittedInPass(all, t, k - 1, |all|);
      }
      PassOver(all, t, k);
    }
  }

  lemma {:induction false} PassBefore(t: nat, k: nat, n: nat)
    requires 0 < k && InPass(t, k, 0, n)
    ensures InPass(t, k - 1, n, n)
  {
  }

  lemma {:induction false} PassOver(all: seq<RepoQueue>, t: nat, k: nat)
    requires k == 0 ==> t == 0
    requires 0 < k ==> EmittedAt(all, t, k - 1, |all|)
    ensures EmittedAt(all, t, k, 0)
  {
    NoTurnYet(all, k);
    assert all[..|all|] == all;
  }

  lemma {:induction false} EmittedStep(all: seq<RepoQueue>, t: nat, k: nat, j: nat)
    requires j < |all| && InPass(t, k, j, |all|) && EmittedAt(all, t, k, j)
    ensures EmittedAt(all, t + 1, k, j + 1)
  {
    Taken(all, t, k, j);
    TurnGrows(all, k, j);
    Associates(Turns(all, k), Turn(all[..j], k), Nth(all[j].pulls, k));
  }

  lemma {:induction false} Associates(a: seq<PrTarget>, b: seq<PrTarget>, c: seq<PrTarget>)
    ensures (a + b) + c == a + (b + c)
  {
  }

  lemma {:induction false} NoTurnYet(all: seq<RepoQueue>, k: nat)
    ensures Turns(all, k) + Turn(all[..0], k) == Turns(all, k)
  {
    assert all[..0] == [];
  }

  lemma {:induction false} TurnGrows(all: seq<RepoQueue>, k: nat, j: nat)
    requires j < |all|
    ensures Turn(all[..j + 1], k) == Turn(all[..j], k) + Nth(all[j].pulls, k)
  {
    assert all[..j + 1][..j] == all[..j];
  }

  lemma {:induction false} NothingMore(all: seq<RepoQueue>, a: nat, b: nat)
    requires a <= b
    requires forall i :: 0 <= i < |all| ==> Drained(all, a)[i].pulls == []
    ensures Drained(all, b) == Drained(all, a) && Emitted(all, b) == Emitted(all, a)
    decreases b
  {
    if a < b && all != [] {
      NothingMore(all, a, b - 1);
    }
  }

  lemma {:induction false} EmittedIsRoundRobin(targets: seq<PrTarget>, t: nat)
    requires Total(Drained(QueuesOf(targets), t)) == 0
    ensures Emitted(QueuesOf(targets), t) == RoundRobin(targets)
  {
    var all := QueuesOf(targets);
    var end := Lap(|targets|, |all|);
    EmittedInPass(all, end, |targets|, 0);
    NoneLeft(Drained(all, t));
    if t <= end {
      NothingMore(all, t, end);
    } else {
      AllTaken(targets, end);
      NothingMore(all, end, t);
    }
  }

  lemma {:induction false} AllTaken(targets: seq<PrTarget>, end: nat)
    requires InPass(end, |targets|, 0, |QueuesOf(targets)|)
    ensures forall i :: 0 <= i < |QueuesOf(targets)| ==> Drained(QueuesOf(targets), end)[i].pulls == []
  {
    var all := QueuesOf(targets);
    forall i | 0 <= i < |all|
      ensures Drained(all, end)[i].pulls == []
    {
      QueuesInPass(all, end, |targets|, 0, i);
      OfRepoMembers(targets, RepoOrder(targets)[i]);
    }
  }

  /** The target joins its repository's queue, at the end of a new one if there is none. */
  function Filing(queues: seq<RepoQueue>, target: PrTarget): seq<RepoQueue> {
    var i := FindQueue(queues, target.repositoryId);
    if i < |queues| then queues[i := queues[i].(pulls := queues[i].pulls + [target])]
    else queues + [RepoQueue(target.repositoryId, [target])]
  }

  lemma {:induction false} OfRepoGrows(targets: seq<PrTarget>, target: PrTarget, r: u64)
    ensures OfRepo(targets + [target], r)
         == if target.repositoryId == r then OfRepo(targets, r) + [target] else OfRepo(targets, r)
  {
    var longer := targets + [target];
    assert longer[..|longer| - 1] == targets;
  }

  lemma {:induction false} RepoOrderGrows(targets: seq<PrTarget>, target: PrTarget)
    ensures RepoOrder(targets + [target])
         == if target.repositoryId in RepoOrder(targets) then RepoOrder(targets)
            else RepoOrder(targets) + [target.repositoryId]
  {
    var longer := targets + [target];
    assert longer[..|longer| - 1] == targets;
  }

  lemma {:induction false} QueueOne(targets: seq<PrTarget>, target: PrTarget)
    ensures QueuesOf(targets + [target]) == Filing(QueuesOf(targets), target)
  {
    var repos, queues := RepoOrder(targets), QueuesOf(targets);
    var longer, filed := QueuesOf(targets + [target]), Filing(queues, target);
    assert forall j :: 0 <= j < |queues| ==> queues[j].repositoryId == repos[j];
    RepoOrderGrows(targets, target);
    FilesUnderOne(repos, queues, target.repositoryId);
    forall j | 0 <= j < |longer|
      ensures longer[j] == filed[j]
    {
      var r := RepoOrder(targets + [target])[j];
      OfRepoGrows(targets, target, r);
      if j == |repos| {
        NotNamed(targets, r);
      }
    }
  }

  lemma {:induction false} FilesUnderOne(repos: seq<u64>, queues: seq<RepoQueue>, r: u64)
    requires |queues| == |repos| && forall j :: 0 <= j < |queues| ==> queues[j].repositoryId == repos[j]
    requires forall i, j :: 0 <= i < j < |repos| ==> repos[i] != repos[j]
    ensures r in repos <==> FindQueue(queues, r) < |queues|
    ensures forall j :: 0 <= j < |repos| ==> (repos[j] == r <==> j == FindQueue(queues, r))
  {
  }

  lemma {:induction false} NotNamed(targets: seq<PrTarget>, r: u64)
    requires r !in RepoOrder(targets)
    ensures OfRepo(targets, r) == []
  {
    if targets != [] {
      NotNamed(targets[..|targets| - 1], r);
      assert targets[|targets| - 1] in targets;
    }
  }

  lemma {:induction false} QueueNext(targets: seq<PrTarget>, n: nat)
    requires n < |targets|
    ensures QueuesOf(targets[..n + 1]) == Filing(QueuesOf(targets[..n]), targets[n])
  {
    assert targets[..n] + [targets[n]] == targets[..n + 1];
    QueueOne(targets[..n], targets[n]);
  }

  lemma {:induction false} NoQueues()
    ensures QueuesOf([]) == []
  {
  }

  method FillQueues(targets: seq<PrTarget>) returns (queues: seq<RepoQueue>)
    ensures queues == QueuesOf(targets)
  {
    queues := [];
    NoQueues();
    for n := 0 to |targets|
      invariant queues == QueuesOf(targets[..n])
    {
      QueueNext(targets, n);
      queues := Filing(queues, targets[n]);
    }
    assert targets[..|targets|] == targets;
  }

  lemma {:induction false} ReposGrow(round: seq<PrTarget>, target: PrTarget)
    ensures ReposOf(round + [target]) == ReposOf(round) + {target.repositoryId}
  {
    forall r | r in ReposOf(round) + {target.repositoryId}
      ensures r in ReposOf(round + [target])
    {
      if r in ReposOf(round) {
        var x :| x in round && x.repositoryId == r;
        assert x in round + [target];
      } else {
        assert target in round + [target];
      }
    }
  }

  // ----- One round: what `visited` visits take from visit `t` on -----

  function Segment(all: seq<RepoQueue>, t: nat, visited: nat): seq<PrTarget> {
    if visited == 0 || all == [] then []
    else
      var before := t + (visited - 1);
      Segment(all, t, visited - 1) + Nth(Drained(all, before)[Pos(before, |all|)].pulls, 0)
  }

  lemma {:induction false} VisitStep(all: seq<RepoQueue>, t: nat, visited: nat)
    requires all != []
    ensures var queues, i := Drained(all, t + visited), Pos(t + visited, |all|);
      && Segment(all, t, visited + 1) == Segment(all, t, visited) + Nth(queues[i].pulls, 0)
      && Drained(all, t + (visited + 1))
         == if queues[i].pulls == [] then queues else queues[i := queues[i].(pulls := queues[i].pulls[1..])]
  {
  }

  lemma {:induction false} SegmentEmitted(all: seq<RepoQueue>, t: nat, visited: nat)
    ensures Emitted(all, t) + Segment(all, t, visited) == Emitted(all, t + visited)
  {
    if visited != 0 && all != [] {
      SegmentEmitted(all, t, visited - 1);
    }
  }

  lemma {:induction false} SegmentTotal(all: seq<RepoQueue>, t: nat, visited: nat)
    ensures Total(Drained(all, t + visited)) + |Segment(all, t, visited)| == Total(Drained(all, t))
  {
    if visited != 0 && all != [] {
      SegmentTotal(all, t, visited - 1);
      var before := Drained(all, t + visited - 1);
      var i := Pos(t + visited - 1, |all|);
      if before[i].pulls != [] {
        TotalUpdate(before, i, before[i].(pulls := before[i].pulls[1..]));
      }
    }
  }

  /** A repository not yet visited in this round has the queue it had when the round began. */
  lemma {:induction false} Untouched(all: seq<RepoQueue>, t: nat, visited: nat, j: nat)
    requires visited <= j < |all|
    ensures var i := Seat(Pos(t, |all|), j, |all|);
            Drained(all, t + visited)[i] == Drained(all, t)[i]
  {
    if 0 < visited {
      Untouched(all, t, visited - 1, j);
      PosSeat(t, visited - 1, |all|);
    }
  }

  /** The round's next pull request, if the repository visited has one, is its first waiting one. */
  lemma {:induction false} SegmentStep(all: seq<RepoQueue>, t: nat, visited: nat)
    requires visited < |all|
    ensures var i := Seat(Pos(t, |all|), visited, |all|);
            Segment(all, t, visited + 1) == Segment(all, t, visited) + Nth(Drained(all, t)[i].pulls, 0)
  {
    Untouched(all, t, visited, visited);
    PosSeat(t, visited, |all|);
  }

  /** Every pull request of the round comes from a repository visited, which was waiting. */
  lemma {:induction false} SegmentSource(all: seq<RepoQueue>, t: nat, visited: nat, x: PrTarget) returns (j: nat)
    requires Filed(all) && visited <= |all| && x in Segment(all, t, visited)
    ensures j < visited
    ensures var queue := Drained(all, t)[Seat(Pos(t, |all|), j, |all|)];
            queue.repositoryId == x.repositoryId && queue.pulls != []
  {
    SegmentStep(all, t, visited - 1);
    if x in Segment(all, t, visited - 1) {
      j := SegmentSource(all, t, visited - 1, x);
    } else {
      j := visited - 1;
      DrainedFiled(all, t);
      var i := Seat(Pos(t, |all|), j, |all|);
      assert x in Drained(all, t)[i].pulls;
    }
  }

  lemma {:induction false} SegmentDistinct(all: seq<RepoQueue>, t: nat, visited: nat)
    requires Filed(all) && visited <= |all|
    ensures NoRepoTwice(Segment(all, t, visited))
  {
    if 0 < visited {
      SegmentDistinct(all, t, visited - 1);
      SegmentStep(all, t, visited - 1);
      forall x, y | x in Segment(all, t, visited - 1)
                 && y in Nth(Drained(all, t)[Seat(Pos(t, |all|), visited - 1, |all|)].pulls, 0)
        ensures x.repositoryId != y.repositoryId
      {
        NotAgain(all, t, visited - 1, x, y);
      }
    }
  }

  lemma {:induction false} NotAgain(all: seq<RepoQueue>, t: nat, visited: nat, x: PrTarget, y: PrTarget)
    requires Filed(all) && visited < |all| && x in Segment(all, t, visited)
    requires y in Drained(all, t)[Seat(Pos(t, |all|), visited, |all|)].pulls
    ensures x.repositoryId != y.repositoryId
  {
    var j := SegmentSource(all, t, visited, x);
    DrainedFiled(all, t);
  }

  /** A round that went all the way round has one of every repository that was waiting. */
  lemma {:induction false} SegmentCovers(all: seq<RepoQueue>, t: nat, visited: nat, j: nat)
    requires Filed(all) && j < visited <= |all|
    ensures var queue := Drained(all, t)[Seat(Pos(t, |all|), j, |all|)];
            queue.pulls != [] ==> queue.repositoryId in ReposOf(Segment(all, t, visited))
  {
    if j < visited - 1 {
      SegmentCovers(all, t, visited - 1, j);
      SegmentStep(all, t, visited - 1);
      ReposOnlyGrow(Segment(all, t, visited - 1), Segment(all, t, visited));
    } else {
      VisitedIsCovered(all, t, j);
    }
  }

  lemma {:induction false} ReposOnlyGrow(round: seq<PrTarget>, longer: seq<PrTarget>)
    requires round <= longer
    ensures ReposOf(round) <= ReposOf(longer)
  {
    assert forall x :: x in round ==> x in longer;
  }

  lemma {:induction false} VisitedIsCovered(all: seq<RepoQueue>, t: nat, j: nat)
    requires Filed(all) && j < |all|
    ensures var queue := Drained(all, t)[Seat(Pos(t, |all|), j, |all|)];
            queue.pulls != [] ==> queue.repositoryId in ReposOf(Segment(all, t, j + 1))
  {
    var queue := Drained(all, t)[Seat(Pos(t, |all|), j, |all|)];
    if queue.pulls != [] {
      SegmentStep(all, t, j);
      DrainedFiled(all, t);
      assert queue.pulls[0] in queue.pulls;
      assert queue.pulls[0] in Segment(all, t, j + 1);
    }
  }

  /** Nothing of a repository is left after a round below the bound unless that round had one of it. */
  ghost predicate Covered(queues: seq<RepoQueue>, round: seq<PrTarget>, bound: nat) {
    |round| == bound || forall r :: Waiting(queues, r) ==> r in ReposOf(round)
  }

  /** The planner's state between rounds. */
  ghost predicate Planned(all: seq<RepoQueue>, t: nat, rounds: seq<seq<PrTarget>>, bound: nat) {
    && Concat(rounds) == Emitted(all, t)
    && GoodRounds(rounds, bound)
    && forall m :: 0 <= m < |rounds| ==> Covered(Drained(all, t), rounds[m], bound)
  }

  lemma {:induction false} RoundPlanned(all: seq<RepoQueue>, t: nat, rounds: seq<seq<PrTarget>>, bound: nat, visited: nat)
    requires Filed(all) && Planned(all, t, rounds, bound)
    requires visited <= |all| && 1 <= |Segment(all, t, visited)| <= bound
    requires |Segment(all, t, visited)| == bound || visited == |all|
    ensures Planned(all, t + visited, rounds + [Segment(all, t, visited)], bound)
  {
    var round := Segment(all, t, visited);
    forall x | x in round
      ensures Waiting(Drained(all, t), x.repositoryId)
    {
      var j := SegmentSource(all, t, visited, x);
    }
    SegmentDistinct(all, t, visited);
    SegmentEmitted(all, t, visited);
    AddRound(rounds, round, Drained(all, t), bound);
    forall m | 0 <= m <= |rounds|
      ensures Covered(Drained(all, t + visited), (rounds + [round])[m], bound)
    {
      CoveredLater(all, t, rounds, bound, visited, m);
    }
  }

  lemma {:induction false} CoveredLater(all: seq<RepoQueue>, t: nat, rounds: seq<seq<PrTarget>>, bound: nat, visited: nat, m: nat)
    requires Filed(all) && visited <= |all| && m <= |rounds|
    requires |Segment(all, t, visited)| == bound || visited == |all|
    requires m < |rounds| ==> Covered(Drained(all, t), rounds[m], bound)
    ensures Covered(Drained(all, t + visited), (rounds + [Segment(all, t, visited)])[m], bound)
  {
    var round := (rounds + [Segment(all, t, visited)])[m];
    if |round| != bound {
      forall r | Waiting(Drained(all, t + visited), r)
        ensures r in ReposOf(round)
      {
        StillWaiting(all, t, visited, r);
        if m == |rounds| {
          WaitingCovered(all, t, r);
        }
      }
    }
  }

  lemma {:induction false} WaitingCovered(all: seq<RepoQueue>, t: nat, r: u64)
    requires Filed(all) && Waiting(Drained(all, t), r)
    ensures r in ReposOf(Segment(all, t, |all|))
  {
    var queues := Drained(all, t);
    var i :| 0 <= i < |queues| && queues[i].repositoryId == r && queues[i].pulls != [];
    var j := SeatReaches(Pos(t, |all|), i, |all|);
    SegmentCovers(all, t, |all|, j);
  }

  lemma {:induction false} NothingTaken(all: seq<RepoQueue>, t: nat)
    requires Filed(all) && Segment(all, t, |all|) == []
    ensures Total(Drained(all, t)) == 0
  {
    forall r | Waiting(Drained(all, t), r)
      ensures false
    {
      WaitingCovered(all, t, r);
    }
    NothingWaits(Drained(all, t));
  }

  /** One round: on round the repositories from `start` until it is full or all were visited. */
  method NextRound(queues: seq<RepoQueue>, start: nat, bound: nat, ghost all: seq<RepoQueue>, ghost t: nat)
    returns (left: seq<RepoQueue>, round: seq<PrTarget>, visited: nat)
    requires queues == Drained(all, t) && 0 < bound
    requires queues != [] ==> start == Pos(t, |queues|)
    ensures visited <= |all| && left == Drained(all, t + visited) && round == Segment(all, t, visited)
    ensures |round| <= bound && (|round| == bound || visited == |all|)
  {
    left, round, visited := queues, [], 0;
    while visited < |left| && |round| < bound
      invariant visited <= |left| == |all| && |round| <= bound
      invariant left == Drained(all, t + visited) && round == Segment(all, t, visited)
    {
      var index := (start + visited) % |left|;
      NextIndex(t, visited, |left|);
      if left[index].pulls != [] {
        round := round + [left[index].pulls[0]];
        left := left[index := left[index].(pulls := left[index].pulls[1..])];
      }
      VisitStep(all, t, visited);
      visited := visited + 1;
    }
  }

  method PlanMergeRounds(targets: seq<PrTarget>, bound: nat) returns (rounds: seq<seq<PrTarget>>)
    requires 0 < bound
    ensures IsPlan(targets, rounds, bound)
  {
    var queues := FillQueues(targets);
    ghost var all, t: nat := queues, 0;
    QueuesFiled(targets);
    rounds := [];
    var start: nat := 0;
    while true
      invariant queues == Drained(all, t) && Planned(all, t, rounds, bound)
      invariant queues != [] ==> start == Pos(t, |queues|)
      decreases Total(queues)
    {
      var left, round, visited := NextRound(queues, start, bound, all, t);
      if round == [] {
        NothingTaken(all, t);
        EmittedIsRoundRobin(targets, t);
        return;
      }
      RoundPlanned(all, t, rounds, bound, visited);
      SegmentTotal(all, t, visited);
      NextIndex(t, visited, |queues|);
      start := (start + visited) % |queues|;
      queues := left;
      t := t + visited;
      rounds := rounds + [round];
    }
  }

  lemma {:induction false} NothingWaits(queues: seq<RepoQueue>)
    requires forall r :: !Waiting(queues, r)
    ensures Total(queues) == 0
  {
    forall i | 0 <= i < |queues|
      ensures queues[i].pulls == []
    {
      assert !Waiting(queues, queues[i].repositoryId);
    }
    TotalZero(queues);
  }

  lemma {:induction false} AddRound(rounds: seq<seq<PrTarget>>, round: seq<PrTarget>, queues: seq<RepoQueue>, bound: nat)
    requires GoodRounds(rounds, bound) && 1 <= |round| <= bound && NoRepoTwice(round)
    requires forall m :: 0 <= m < |rounds| ==> Covered(queues, rounds[m], bound)
    requires forall x :: x in round ==> Waiting(queues, x.repositoryId)
    ensures Concat(rounds + [round]) == Concat(rounds) + round
    ensures GoodRounds(rounds + [round], bound)
  {
    var longer := rounds + [round];
    assert longer[..|longer| - 1] == rounds;
    forall m | 0 <= m < |longer|
      ensures FullOrCovers(longer, m, bound)
    {
      if m < |rounds| {
        assert longer[m] == rounds[m] && FullOrCovers(rounds, m, bound) && Covered(queues, rounds[m], bound);
      }
    }
  }
}

/** What being a merge plan means for the batch: nothing lost, order kept, few rounds. */
module MergePlans {
  import opened PrKeys
  import opened BatchProgress
  import opened MergeRounds

  // ----- Every repository's pull requests in batch order, and all of them -----

  lemma {:induction false} OfRepoConcat(a: seq<PrTarget>, b: seq<PrTarget>, r: u64)
    ensures OfRepo(a + b, r) == OfRepo(a, r) + OfRepo(b, r)
    decreases |b|
  {
    if b == [] {
      assert a + b == a;
    } else {
      assert (a + b)[..|a + b| - 1] == a + b[..|b| - 1];
      OfRepoConcat(a, b[..|b| - 1], r);
    }
  }

  function PullsOf(queues: seq<RepoQueue>, r: u64): seq<PrTarget> {
    if queues == [] then []
    else if queues[|queues| - 1].repositoryId == r then queues[|queues| - 1].pulls
    else PullsOf(queues[..|queues| - 1], r)
  }

  lemma {:induction false} PullsAt(queues: seq<RepoQueue>, i: nat)
    requires Filed(queues) && i < |queues|
    ensures PullsOf(queues, queues[i].repositoryId) == queues[i].pulls
  {
    if i < |queues| - 1 {
      PullsAt(queues[..|queues| - 1], i);
    }
  }

  lemma {:induction false} NoPulls(queues: seq<RepoQueue>, r: u64)
    requires forall i :: 0 <= i < |queues| ==> queues[i].repositoryId != r
    ensures PullsOf(queues, r) == []
  {
    if queues != [] {
      NoPulls(queues[..|queues| - 1], r);
    }
  }

  lemma {:induction false} OfRepoNth(pulls: seq<PrTarget>, k: nat, r: u64)
    ensures OfRepo(Nth(pulls, k), r)
         == if k < |pulls| && pulls[k].repositoryId == r then Nth(pulls, k) else []
  {
    if k < |pulls| {
      assert Nth(pulls, k)[..0] == [];
    }
  }

  lemma {:induction false} OfQueueNth(q: RepoQueue, k: nat, r: u64)
    requires forall x :: x in q.pulls ==> x.repositoryId == q.repositoryId
    ensures OfRepo(Nth(q.pulls, k), r) == if q.repositoryId == r then Nth(q.pulls, k) else []
  {
    OfRepoNth(q.pulls, k, r);
  }

  lemma {:induction false} FiledFront(queues: seq<RepoQueue>)
    requires Filed(queues) && queues != []
    ensures Filed(queues[..|queues| - 1])
    ensures forall x :: x in queues[|queues| - 1].pulls ==> x.repositoryId == queues[|queues| - 1].repositoryId
    ensures PullsOf(queues[..|queues| - 1], queues[|queues| - 1].repositoryId) == []
  {
    NoPulls(queues[..|queues| - 1], queues[|queues| - 1].repositoryId);
  }

  lemma {:induction false} TurnOfRepo(queues: seq<RepoQueue>, k: nat, r: u64)
    requires Filed(queues)
    ensures OfRepo(Turn(queues, k), r) == Nth(PullsOf(queues, r), k)
  {
    if queues != [] {
      FiledFront(queues);
      var front, last := queues[..|queues| - 1], queues[|queues| - 1];
      TurnOfRepo(front, k, r);
      OfRepoConcat(Turn(front, k), Nth(last.pulls, k), r);
      OfQueueNth(last, k, r);
    }
  }

  function Firsts(pulls: seq<PrTarget>, k: nat): seq<PrTarget> {
    if k <= |pulls| then pulls[..k] else pulls
  }

  lemma {:induction false} OneMoreFirst(pulls: seq<PrTarget>, k: nat)
    ensures Firsts(pulls, k) + Nth(pulls, k) == Firsts(pulls, k + 1)
  {
  }

  /** After `k` turns each repository has sent its first `k` pull requests. */
  ghost predicate Sent(queues: seq<RepoQueue>, k: nat, r: u64) {
    OfRepo(Turns(queues, k), r) == Firsts(PullsOf(queues, r), k)
  }

  lemma {:induction false} NextTurn(queues: seq<RepoQueue>, k: nat, r: u64)
    requires Filed(queues) && Sent(queues, k, r)
    ensures Sent(queues, k + 1, r)
  {
    OfRepoConcat(Turns(queues, k), Turn(queues, k), r);
    TurnOfRepo(queues, k, r);
    OneMoreFirst(PullsOf(queues, r), k);
  }

  lemma {:induction false} TurnsOfRepo(queues: seq<RepoQueue>, k: nat, r: u64)
    requires Filed(queues)
    ensures Sent(queues, k, r)
  {
    if 0 < k {
      TurnsOfRepo(queues, k - 1, r);
      NextTurn(queues, k - 1, r);
    }
  }

  /** The send order keeps every repository's pull requests in batch order, all of them. */
  lemma {:induction false} OrderKept(targets: seq<PrTarget>, r: u64)
    ensures OfRepo(RoundRobin(targets), r) == OfRepo(targets, r)
  {
    var queues, repos := QueuesOf(targets), RepoOrder(targets);
    QueuesFiled(targets);
    TurnsOfRepo(queues, |targets|, r);
    OfRepoMembers(targets, r);
    if r in repos {
      var i :| 0 <= i < |repos| && repos[i] == r;
      assert queues[i].repositoryId == r;
      PullsAt(queues, i);
    } else {
      NotNamed(targets, r);
      NoPulls(queues, r);
    }
  }

  lemma {:induction false} CountInRepo(targets: seq<PrTarget>, x: PrTarget)
    ensures multiset(targets)[x] == multiset(OfRepo(targets, x.repositoryId))[x]
  {
    if targets != [] {
      var front, last := targets[..|targets| - 1], targets[|targets| - 1];
      CountInRepo(front, x);
      assert targets == front + [last];
    }
  }

  /** Every target is sent exactly as often as the batch names it. */
  lemma {:induction false} NothingLost(targets: seq<PrTarget>)
    ensures multiset(RoundRobin(targets)) == multiset(targets)
  {
    forall x
      ensures multiset(RoundRobin(targets))[x] == multiset(targets)[x]
    {
      CountInRepo(RoundRobin(targets), x);
      CountInRepo(targets, x);
      OrderKept(targets, x.repositoryId);
    }
  }

  // ----- The plan is the only one -----

  lemma {:induction false} ConcatFront(first: seq<PrTarget>, rest: seq<seq<PrTarget>>)
    ensures Concat([first] + rest) == first + Concat(rest)
    decreases |rest|
  {
    if rest == [] {
      assert ([first] + rest)[..0] == [];
    } else {
      var all := [first] + rest;
      assert all[..|all| - 1] == [first] + rest[..|rest| - 1];
      ConcatFront(first, rest[..|rest| - 1]);
    }
  }

  lemma {:induction false} GoodTail(rounds: seq<seq<PrTarget>>, bound: nat)
    requires rounds != [] && GoodRounds(rounds, bound)
    ensures GoodRounds(rounds[1..], bound)
    ensures rounds == [rounds[0]] + rounds[1..]
    ensures Concat(rounds) == rounds[0] + Concat(rounds[1..])
  {
    assert rounds == [rounds[0]] + rounds[1..];
    ConcatFront(rounds[0], rounds[1..]);
    forall m | 0 <= m < |rounds[1..]|
      ensures FullOrCovers(rounds[1..], m, bound)
    {
      assert FullOrCovers(rounds, m + 1, bound);
      assert forall n :: 0 <= n < |rounds[1..]| ==> rounds[1..][n] == rounds[n + 1];
    }
  }

  /** A first round cannot stop short where another plan of the same order goes on. */
  lemma {:induction false} FirstAsLong(a: seq<seq<PrTarget>>, b: seq<seq<PrTarget>>, bound: nat)
    requires GoodRounds(a, bound) && GoodRounds(b, bound) && Concat(a) == Concat(b)
    requires a != [] && b != []
    ensures |b[0]| <= |a[0]|
  {
    GoodTail(a, bound);
    GoodTail(b, bound);
    if |a[0]| < |b[0]| {
      assert Concat(a)[|a[0]|] == b[0][|a[0]|];
      NextRepeats(a, bound);
    }
  }

  /** A round that is not full is followed by a pull request of a repository it has. */
  lemma {:induction false} NextRepeats(a: seq<seq<PrTarget>>, bound: nat)
    requires GoodRounds(a, bound) && a != [] && |a[0]| < bound && |a[0]| < |Concat(a)|
    ensures exists i :: 0 <= i < |a[0]| && Concat(a)[i].repositoryId == Concat(a)[|a[0]|].repositoryId
  {
    GoodTail(a, bound);
    var rest := a[1..];
    assert rest != [];
    GoodTail(rest, bound);
    var next := a[1][0];
    assert Concat(a)[|a[0]|] == Concat(rest)[0] == next;
    assert next in a[1] && FullOrCovers(a, 0, bound);
    var x :| x in a[0] && x.repositoryId == next.repositoryId;
    var i :| 0 <= i < |a[0]| && a[0][i] == x;
    assert Concat(a)[i] == x;
  }

  /** The rounds are determined: by the order, the bound, and nothing left out needlessly. */
  lemma {:induction false} OnlyPlan(a: seq<seq<PrTarget>>, b: seq<seq<PrTarget>>, bound: nat)
    requires GoodRounds(a, bound) && GoodRounds(b, bound) && Concat(a) == Concat(b)
    ensures a == b
    decreases |a|
  {
    if a != [] { GoodTail(a, bound); }
    if b != [] { GoodTail(b, bound); }
    if a != [] && b != [] {
      FirstAsLong(a, b, bound);
      FirstAsLong(b, a, bound);
      assert a[0] == Concat(a)[..|a[0]|] == b[0];
      assert Concat(a[1..]) == Concat(a)[|a[0]|..] == Concat(b[1..]);
      OnlyPlan(a[1..], b[1..], bound);
    }
  }

  // ----- How many rounds -----

  lemma {:induction false} AtMostOne(round: seq<PrTarget>, r: u64)
    requires NoRepoTwice(round)
    ensures |OfRepo(round, r)| <= 1
    ensures |OfRepo(round, r)| == 1 <==> r in ReposOf(round)
  {
    if round != [] {
      var front, last := round[..|round| - 1], round[|round| - 1];
      AtMostOne(front, r);
      assert round == front + [last];
      ReposGrow(front, last);
    }
  }

  lemma {:induction false} FewRounds(rounds: seq<seq<PrTarget>>, bound: nat, longest: nat)
    requires 0 < bound && GoodRounds(rounds, bound)
    requires forall r :: |OfRepo(Concat(rounds), r)| <= longest
    ensures (|rounds| - longest) * bound <= |Concat(rounds)|
    decreases |rounds|
  {
    if rounds == [] {
      NotPositive(longest, bound);
    } else {
      GoodTail(rounds, bound);
      var first, rest := rounds[0], rounds[1..];
      forall r
        ensures |OfRepo(Concat(rounds), r)| == |OfRepo(first, r)| + |OfRepo(Concat(rest), r)|
      {
        OfRepoConcat(first, Concat(rest), r);
      }
      if |first| == bound {
        FewRounds(rest, bound, longest);
        OneMore(|rest| - longest, bound);
      } else {
        ShortFirst(rounds, bound, longest);
        FewRounds(rest, bound, longest - 1);
      }
    }
  }

  lemma {:induction false} NotPositive(longest: nat, bound: nat)
    ensures (0 - longest) * bound <= 0
  {
  }

  lemma {:induction false} OneMore(k: int, bound: nat)
    ensures (k + 1) * bound == k * bound + bound
  {
  }

  /** A round below the bound takes one from every repository, so the longest queue shrinks. */
  lemma {:induction false} ShortFirst(rounds: seq<seq<PrTarget>>, bound: nat, longest: nat)
    requires rounds != [] && GoodRounds(rounds, bound) && |rounds[0]| != bound
    requires forall r :: |OfRepo(rounds[0], r)| + |OfRepo(Concat(rounds[1..]), r)| <= longest
    ensures 1 <= longest
    ensures forall r :: |OfRepo(Concat(rounds[1..]), r)| <= longest - 1
  {
    var first := rounds[0];
    assert first[0] in first;
    AtMostOne(first, first[0].repositoryId);
    assert |OfRepo(first, first[0].repositoryId)| == 1;
    forall r
      ensures |OfRepo(Concat(rounds[1..]), r)| <= longest - 1
    {
      AtMostOne(first, r);
      if OfRepo(Concat(rounds[1..]), r) != [] {
        var n, t := InSomeRound(rounds[1..], r);
        assert t in rounds[n + 1] && FullOrCovers(rounds, 0, bound);
      }
    }
  }

  lemma {:induction false} InSomeRound(rounds: seq<seq<PrTarget>>, r: u64) returns (n: nat, t: PrTarget)
    requires OfRepo(Concat(rounds), r) != []
    ensures n < |rounds| && t in rounds[n] && t.repositoryId == r
  {
    var front, last := rounds[..|rounds| - 1], rounds[|rounds| - 1];
    OfRepoConcat(Concat(front), last, r);
    if OfRepo(last, r) != [] {
      OfRepoMembers(last, r);
      n, t := |rounds| - 1, OfRepo(last, r)[0];
      OfRepoWithin(last, r, t);
    } else {
      n, t := InSomeRound(front, r);
    }
  }

  lemma {:induction false} OfRepoWithin(targets: seq<PrTarget>, r: u64, x: PrTarget)
    requires x in OfRepo(targets, r)
    ensures x in targets
  {
    if x in OfRepo(targets[..|targets| - 1], r) {
      OfRepoWithin(targets[..|targets| - 1], r, x);
    }
  }

  lemma {:induction false} Quotient(k: int, bound: nat, n: nat)
    requires 0 < bound && k * bound <= n
    ensures k <= n / bound
  {
    assert k * bound <= n < (n / bound + 1) * bound;
  }

  /** At most one round per `bound` targets, and one more per pull request of the longest queue. */
  lemma {:induction false} RoundCount(targets: seq<PrTarget>, rounds: seq<seq<PrTarget>>, bound: nat, longest: nat)
    requires 0 < bound && IsPlan(targets, rounds, bound)
    requires forall r :: |OfRepo(targets, r)| <= longest
    ensures |rounds| <= |targets| / bound + longest
  {
    forall r { OrderKept(targets, r); }
    NothingLost(targets);
    assert |RoundRobin(targets)| == |multiset(RoundRobin(targets))| == |targets|;
    FewRounds(rounds, bound, longest);
    Quotient(|rounds| - longest, bound, |targets|);
  }

  // ----- Against any other way of splitting the batch -----

  /** A way of sending `targets` that keeps to the bound and never doubles up on a repository. */
  ghost predicate Obeys(targets: seq<PrTarget>, rival: seq<seq<PrTarget>>, bound: nat) {
    && multiset(Concat(rival)) == multiset(targets)
    && forall m :: 0 <= m < |rival| ==> |rival[m]| <= bound && NoRepoTwice(rival[m])
  }

  lemma {:induction false} RivalNeeds(rival: seq<seq<PrTarget>>, bound: nat, r: u64)
    requires forall m :: 0 <= m < |rival| ==> |rival[m]| <= bound && NoRepoTwice(rival[m])
    ensures |OfRepo(Concat(rival), r)| <= |rival|
    ensures |Concat(rival)| <= |rival| * bound
  {
    if rival != [] {
      var front, last := rival[..|rival| - 1], rival[|rival| - 1];
      RivalNeeds(front, bound, r);
      OfRepoConcat(Concat(front), last, r);
      AtMostOne(last, r);
      OneMore(|front|, bound);
    }
  }

  lemma {:induction false} TakeOut(b: seq<PrTarget>, i: nat, r: u64)
    requires i < |b|
    ensures |OfRepo(b, r)| == |OfRepo(b[..i] + b[i + 1..], r)| + if b[i].repositoryId == r then 1 else 0
    ensures multiset(b[..i] + b[i + 1..]) == multiset(b) - multiset{b[i]}
  {
    var before, after := b[..i], b[i + 1..];
    assert b == (before + [b[i]]) + after;
    OfRepoConcat(before, after, r);
    OfRepoConcat(before + [b[i]], after, r);
    OfRepoGrows(before, b[i], r);
  }

  lemma {:induction false} SameCount(a: seq<PrTarget>, b: seq<PrTarget>, r: u64)
    requires multiset(a) == multiset(b)
    ensures |OfRepo(a, r)| == |OfRepo(b, r)|
    decreases |a|
  {
    if a == [] {
      assert |b| == |multiset(b)| == 0;
    } else {
      var front, last := a[..|a| - 1], a[|a| - 1];
      assert a == front + [last];
      assert last in multiset(b);
      var i :| 0 <= i < |b| && b[i] == last;
      TakeOut(b, i, r);
      SameCount(front, b[..i] + b[i + 1..], r);
      OfRepoGrows(front, last, r);
    }
  }

  /** No split that keeps the same two rules uses fewer than half as many rounds. */
  lemma {:induction false} WithinTwiceTheBest(
    targets: seq<PrTarget>, rounds: seq<seq<PrTarget>>, rival: seq<seq<PrTarget>>, bound: nat)
    requires 0 < bound && IsPlan(targets, rounds, bound) && Obeys(targets, rival, bound)
    ensures |rounds| <= 2 * |rival|
  {
    forall r
      ensures |OfRepo(targets, r)| <= |rival|
    {
      SameCount(targets, Concat(rival), r);
      RivalNeeds(rival, bound, r);
    }
    RivalNeeds(rival, bound, 0);
    assert |Concat(rival)| == |multiset(Concat(rival))| == |targets|;
    RoundCount(targets, rounds, bound, |rival|);
    AtMostFactor(|targets|, bound, |rival|);
  }

  lemma {:induction false} AtMostFactor(n: nat, bound: nat, k: nat)
    requires 0 < bound && n <= k * bound
    ensures n / bound <= k
  {
    assert n / bound * bound <= n <= k * bound;
  }
}

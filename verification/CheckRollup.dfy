/**
 The check verdict of a pull request's head: what its check runs, commit statuses and check
 suites, read page by page, roll up into.
 */
module CheckRollup {
  import opened Wrappers
  import opened Text
  import opened GithubSteps

  datatype CheckStatus = AllPassed | SomeFailed | StillPending | NoChecks

  datatype CheckSignal = Pass | Fail | Pending

  datatype CheckContext = CheckRun(status: Option<string>, conclusion: Option<string>) | StatusContext(state: string)

  datatype CheckSuite = CheckSuite(status: Option<string>, conclusion: Option<string>)

  const PASSED: set<string> := {"success", "neutral", "skipped"}
  const FAILED: set<string> := {"failure", "timed_out", "action_required", "cancelled", "stale", "startup_failure"}
  const UNDER_WAY: set<string> := {"queued", "in_progress", "waiting", "pending", "requested", "expected"}

  function LowerOption(value: Option<string>): Option<string> {
    if value.Some? then Some(Lower(value.value)) else None
  }

  /** Where there is a conclusion the status is not looked at. */
  function SignalOf(status: Option<string>, conclusion: Option<string>): Option<CheckSignal> {
    match conclusion
    case Some(c) => if c in PASSED then Some(Pass) else if c in FAILED then Some(Fail) else None
    case None => if status.Some? && status.value in UNDER_WAY then Some(Pending) else None
  }

  function StatusSignal(state: string): Option<CheckSignal> {
    if state == "success" then Some(Pass)
    else if state in {"failure", "error"} then Some(Fail)
    else if state in {"pending", "expected"} then Some(Pending)
    else None
  }

  function ContextSignal(context: CheckContext): Option<CheckSignal> {
    match context
    case CheckRun(status, conclusion) => SignalOf(LowerOption(status), LowerOption(conclusion))
    case StatusContext(state) => StatusSignal(Lower(state))
  }

  /** A suite adds only its failure. */
  function SuiteSignal(suite: CheckSuite): Option<CheckSignal> {
    var signal := SignalOf(LowerOption(suite.status), LowerOption(suite.conclusion));
    if signal == Some(Fail) then signal else None
  }

  // ----- What GitHub's words mean -----

  /** What the words of a check run or a suite come to: passed, failed, under way, or nothing. */
  ghost predicate RunSays(status: Option<string>, conclusion: Option<string>, s: CheckSignal) {
    match s
    case Pass =>
      conclusion.Some? && (
        var word := Lower(conclusion.value);
        word == "success" || word == "neutral" || word == "skipped")
    case Fail =>
      conclusion.Some? && (
        var word := Lower(conclusion.value);
        || word == "failure" || word == "timed_out" || word == "action_required"
        || word == "cancelled" || word == "stale" || word == "startup_failure")
    case Pending =>
      conclusion.None? && status.Some? && (
        var word := Lower(status.value);
        || word == "queued" || word == "in_progress" || word == "waiting"
        || word == "pending" || word == "requested" || word == "expected")
  }

  /** And of a check run or a commit status. */
  ghost predicate ContextSays(context: CheckContext, s: CheckSignal) {
    match context
    case CheckRun(status, conclusion) => RunSays(status, conclusion, s)
    case StatusContext(state) =>
      var word := Lower(state);
      match s
      case Pass => word == "success"
      case Fail => word == "failure" || word == "error"
      case Pending => word == "pending" || word == "expected"
  }

  ghost predicate SuiteFails(suite: CheckSuite) {
    RunSays(suite.status, suite.conclusion, Fail)
  }

  lemma {:induction false} ContextSaysExactly(context: CheckContext, s: CheckSignal)
    ensures ContextSignal(context) == Some(s) <==> ContextSays(context, s)
  {
  }

  lemma {:induction false} SuiteSaysExactly(suite: CheckSuite)
    ensures SuiteSignal(suite) == Some(Fail) <==> SuiteFails(suite)
    ensures SuiteSignal(suite) == Some(Fail) || SuiteSignal(suite).None?
  {
  }

  // ----- The rollup -----

  /** Any failure, else anything pending, else any pass, else nothing. */
  ghost function Verdict(signals: seq<CheckSignal>): CheckStatus {
    if Fail in signals then SomeFailed
    else if Pending in signals then StillPending
    else if Pass in signals then AllPassed
    else NoChecks
  }

  method RollupChecks(signals: seq<CheckSignal>) returns (status: CheckStatus)
    ensures status == Verdict(signals)
  {
    var sawPass, sawPending := false, false;
    for i := 0 to |signals|
      invariant Fail !in signals[..i]
      invariant sawPending <==> Pending in signals[..i]
      invariant sawPass <==> Pass in signals[..i]
    {
      match signals[i] {
        case Fail => return SomeFailed;
        case Pending => sawPending := true;
        case Pass => sawPass := true;
      }
    }
    assert signals[..|signals|] == signals;
    if sawPending {
      status := StillPending;
    } else if sawPass {
      status := AllPassed;
    } else {
      status := NoChecks;
    }
  }

  // ----- The pages -----

  datatype Connection<T> = Connection(hasNextPage: bool, endCursor: Option<string>, nodes: seq<T>)
  {
    /** Where the next page starts, if one is named. */
    function NextCursor(): Option<string> {
      if hasNextPage then endCursor else None
    }
  }

  /** What a page read comes to: a page, or nothing when the commit is no longer served. */
  type PageAnswer<T> = Result<Option<Connection<T>>, GithubError>

  function Collect<T>(nodes: seq<T>, signal: T -> Option<CheckSignal>): seq<CheckSignal> {
    if nodes == [] then []
    else
      (match signal(nodes[0]) case Some(s) => [s] case None => [])
      + Collect(nodes[1..], signal)
  }

  lemma {:induction false} CollectAppend<T>(a: seq<T>, b: seq<T>, signal: T -> Option<CheckSignal>)
    ensures Collect(a + b, signal) == Collect(a, signal) + Collect(b, signal)
  {
    if a == [] {
      assert a + b == b;
    } else {
      assert (a + b)[0] == a[0] && (a + b)[1..] == a[1..] + b;
      CollectAppend(a[1..], b, signal);
    }
  }

  /** A signal is collected exactly when some node gives it. */
  lemma {:induction false} CollectedExactly<T>(nodes: seq<T>, signal: T -> Option<CheckSignal>, s: CheckSignal)
    ensures s in Collect(nodes, signal) <==> exists n :: n in nodes && signal(n) == Some(s)
  {
    if nodes != [] {
      CollectedExactly(nodes[1..], signal, s);
      assert nodes == [nodes[0]] + nodes[1..];
    }
  }

  /**
   The nodes of the pages a listing reads, from `page` on, given how its page reads are
   going to be answered: until a page names no next one, or none is served any more.
   */
  function NodesRead<T>(page: Connection<T>, answers: seq<PageAnswer<T>>): Result<seq<T>, GithubError>
    decreases |answers|
  {
    if !page.hasNextPage || page.endCursor.None? then Success(page.nodes)
    else if answers == [] then Failure(Transport)
    else
      match answers[0]
      case Failure(e) => Failure(e)
      case Success(None) => Success(page.nodes)
      case Success(Some(next)) =>
        match NodesRead(next, answers[1..])
        case Success(nodes) => Success(page.nodes + nodes)
        case Failure(e) => Failure(e)
  }

  /** The cursors the pages are asked for at: each where the page before it ended. */
  function CursorsAsked<T>(page: Connection<T>, answers: seq<PageAnswer<T>>): seq<string>
    decreases |answers|
  {
    if !page.hasNextPage || page.endCursor.None? then []
    else
      [page.endCursor.value]
      + if answers != [] && answers[0].Success? && answers[0].value.Some? then
          CursorsAsked(answers[0].value.value, answers[1..])
        else []
  }

  /** `signals_across_pages`; `asked` is where each page read was asked for. */
  method SignalsAcrossPages<T>(first: Connection<T>, signal: T -> Option<CheckSignal>, answers: seq<PageAnswer<T>>)
    returns (result: Result<seq<CheckSignal>, GithubError>, asked: seq<string>)
    ensures asked == CursorsAsked(first, answers)
    ensures result ==
      match NodesRead(first, answers)
      case Success(nodes) => Success(Collect(nodes, signal))
      case Failure(e) => Failure(e)
  {
    var signals := Collect(first.nodes, signal);
    var cursor := first.NextCursor();
    var next := 0;
    asked := [];
    ghost var last := first;
    StartsReading(first, answers, signal);
    while cursor.Some?
      invariant next <= |answers|
      invariant cursor == None || cursor == last.NextCursor()
      invariant cursor.Some? ==> ReadsOn(first, answers, last, answers[next..], signals, signal)
      invariant cursor.Some? ==> CursorsAsked(first, answers) == asked + CursorsAsked(last, answers[next..])
      invariant cursor.None? ==> asked == CursorsAsked(first, answers)
      invariant cursor.None? ==>
        NodesRead(first, answers).Success? && Collect(NodesRead(first, answers).value, signal) == signals
      decreases |answers| - next
    {
      assert ReadsOn(first, answers, last, answers[next..], signals, signal);
      asked := asked + [cursor.value];
      if next == |answers| {
        return Failure(Transport), asked;
      }
      var answer := answers[next];
      assert answers[next..][0] == answer && answers[next..][1..] == answers[next + 1..];
      if answer.Failure? {
        return Failure(answer.error), asked;
      }
      next := next + 1;
      cursor := None;
      if answer.value.Some? {
        var page := answer.value.value;
        ReadOn(first, answers, last, answers[next - 1..], signals, signal);
        last := page;
        signals := signals + Collect(page.nodes, signal);
        cursor := page.NextCursor();
      }
    }
    result := Success(signals);
  }

  /** Having collected `signals` up to `last`, what is left to read makes up the whole. */
  ghost predicate ReadsOn<T>(
    first: Connection<T>, answers: seq<PageAnswer<T>>, last: Connection<T>, rest: seq<PageAnswer<T>>,
    signals: seq<CheckSignal>, signal: T -> Option<CheckSignal>)
  {
    var whole, left := NodesRead(first, answers), NodesRead(last, rest);
    && (whole.Failure? <==> left.Failure?)
    && (whole.Failure? ==> whole.error == left.error)
    && (whole.Success? ==>
          last.nodes <= left.value
          && Collect(whole.value, signal) == signals + Collect(left.value[|last.nodes|..], signal))
  }

  lemma {:induction false} StartsReading<T>(first: Connection<T>, answers: seq<PageAnswer<T>>, signal: T -> Option<CheckSignal>)
    ensures ReadsOn(first, answers, first, answers, Collect(first.nodes, signal), signal)
  {
    var whole := NodesRead(first, answers);
    if whole.Success? {
      StartsWithPage(first, answers);
      assert whole.value == first.nodes + whole.value[|first.nodes|..];
      CollectAppend(first.nodes, whole.value[|first.nodes|..], signal);
    }
  }

  lemma {:induction false} ReadOn<T>(
    first: Connection<T>, answers: seq<PageAnswer<T>>, last: Connection<T>, rest: seq<PageAnswer<T>>,
    signals: seq<CheckSignal>, signal: T -> Option<CheckSignal>)
    requires ReadsOn(first, answers, last, rest, signals, signal)
    requires last.NextCursor().Some? && rest != [] && rest[0].Success? && rest[0].value.Some?
    ensures var page := rest[0].value.value;
      ReadsOn(first, answers, page, rest[1..], signals + Collect(page.nodes, signal), signal)
  {
    var page := rest[0].value.value;
    var left := NodesRead(page, rest[1..]);
    if left.Success? {
      StartsWithPage(page, rest[1..]);
      assert NodesRead(last, rest).value[|last.nodes|..] == left.value;
      assert left.value == page.nodes + left.value[|page.nodes|..];
      CollectAppend(page.nodes, left.value[|page.nodes|..], signal);
    }
  }

  lemma {:induction false} StartsWithPage<T>(page: Connection<T>, answers: seq<PageAnswer<T>>)
    ensures NodesRead(page, answers).Success? ==> page.nodes <= NodesRead(page, answers).value
  {
  }

  // ----- What the verdict does not depend on -----

  /** The nodes of a connection's pages, one page after another. */
  function Nodes<T>(pages: seq<Connection<T>>): seq<T> {
    if pages == [] then [] else pages[0].nodes + Nodes(pages[1..])
  }

  /** Every page but the last names the next one. */
  predicate Chained<T>(pages: seq<Connection<T>>) {
    pages != [] && forall i :: 0 <= i < |pages| ==>
      (pages[i].hasNextPage && pages[i].endCursor.Some? <==> i < |pages| - 1)
  }

  function Serving<T>(pages: seq<Connection<T>>): seq<PageAnswer<T>> {
    seq(|pages|, i requires 0 <= i < |pages| => Success(Some(pages[i])))
  }

  /** However a connection is cut into pages, serving them all reads all its nodes in order. */
  lemma {:induction false} CutsDoNotMatter<T>(pages: seq<Connection<T>>)
    requires Chained(pages)
    ensures NodesRead(pages[0], Serving(pages[1..])) == Success(Nodes(pages))
    decreases |pages|
  {
    var answers := Serving(pages[1..]);
    if |pages| == 1 {
      assert Nodes(pages) == pages[0].nodes + [] == pages[0].nodes;
    } else {
      assert answers[1..] == Serving(pages[1..][1..]);
      CutsDoNotMatter(pages[1..]);
    }
  }

  lemma {:induction false} ServingTail<T>(pages: seq<Connection<T>>)
    requires pages != []
    ensures |Serving(pages)| == |pages| && Serving(pages)[0] == Success(Some(pages[0]))
    ensures Serving(pages)[1..] == Serving(pages[1..])
  {
  }

  /** A commit no longer served part of the way reads as the pages before, and not as an error. */
  lemma {:induction false} CutShort<T>(pages: seq<Connection<T>>, k: nat, more: seq<PageAnswer<T>>)
    requires Chained(pages) && 1 <= k < |pages|
    ensures NodesRead(pages[0], Serving(pages[1..k]) + [Success(None)] + more) == Success(Nodes(pages[..k]))
    decreases k
  {
    var answers := Serving(pages[1..k]) + [Success(None)] + more;
    if k == 1 {
      assert Nodes(pages[..1]) == pages[0].nodes + [] == pages[0].nodes;
    } else {
      ServingTail(pages[1..k]);
      assert pages[1..k][1..] == pages[1..][1..k - 1];
      assert answers[1..] == Serving(pages[1..][1..k - 1]) + [Success(None)] + more;
      assert pages[..k][1..] == pages[1..][..k - 1];
      CutShort(pages[1..], k - 1, more);
    }
  }

  /** How much worse than nothing a verdict is: the worse of two stands. */
  function Severity(status: CheckStatus): nat {
    match status
    case NoChecks => 0
    case AllPassed => 1
    case StillPending => 2
    case SomeFailed => 3
  }

  lemma {:induction false} NodesSplit<T>(pages: seq<Connection<T>>, k: nat)
    requires k <= |pages|
    ensures Nodes(pages) == Nodes(pages[..k]) + Nodes(pages[k..])
    decreases k
  {
    if k == 0 {
      assert pages[..0] == [] && pages[0..] == pages;
    } else {
      NodesSplit(pages[1..], k - 1);
      assert pages[..k][1..] == pages[1..][..k - 1] && pages[k..] == pages[1..][k - 1..];
    }
  }

  /** The verdict of the pages before is the whole one's exactly when those never read are no worse. */
  lemma {:induction false} CutShortIsRightExactly<T>(pages: seq<Connection<T>>, k: nat, signal: T -> Option<CheckSignal>)
    requires k <= |pages|
    ensures var seen, unseen := Verdict(Collect(Nodes(pages[..k]), signal)), Verdict(Collect(Nodes(pages[k..]), signal));
      seen == Verdict(Collect(Nodes(pages), signal)) <==> Severity(unseen) <= Severity(seen)
  {
    NodesSplit(pages, k);
    CollectAppend(Nodes(pages[..k]), Nodes(pages[k..]), signal);
    WorseStands(Collect(Nodes(pages[..k]), signal), Collect(Nodes(pages[k..]), signal));
  }

  lemma {:induction false} WorseStands(a: seq<CheckSignal>, b: seq<CheckSignal>)
    ensures Verdict(a + b) == if Severity(Verdict(b)) <= Severity(Verdict(a)) then Verdict(a) else Verdict(b)
  {
    assert forall s :: s in a + b <==> s in a || s in b;
  }

  /** So the verdict can pass while a page that was never read has the failure. */
  lemma {:induction false} VanishingHidesFailure() returns (pages: seq<Connection<CheckContext>>)
    ensures Chained(pages) && Verdict(Collect(Nodes(pages), ContextSignal)) == SomeFailed
    ensures NodesRead(pages[0], [Success(None)]).Success?
    ensures Verdict(Collect(NodesRead(pages[0], [Success(None)]).value, ContextSignal)) == AllPassed
  {
    var passed, failed := StatusContext("success"), StatusContext("failure");
    assert Lower("success") == "success" && Lower("failure") == "failure";
    var first, second := Connection(true, Some("more"), [passed]), Connection(false, None, [failed]);
    pages := [first, second];
    assert pages[1..] == [second] && [second][1..] == [];
    assert Nodes([second]) == [failed] + Nodes([]) == [failed];
    assert Nodes(pages) == [passed] + Nodes([second]) == [passed, failed];
    CollectedExactly(Nodes(pages), ContextSignal, Fail);
    assert first.nodes[1..] == [] && Collect(first.nodes, ContextSignal) == [Pass];
  }

  /** Nor does the order the nodes come in: only which nodes there are. */
  lemma {:induction false} OrderDoesNotMatter<T>(a: seq<T>, b: seq<T>, signal: T -> Option<CheckSignal>)
    requires forall n :: n in a <==> n in b
    ensures Verdict(Collect(a, signal)) == Verdict(Collect(b, signal))
  {
    forall s
      ensures s in Collect(a, signal) <==> s in Collect(b, signal)
    {
      CollectedExactly(a, signal, s);
      CollectedExactly(b, signal, s);
    }
  }

  /** Whether some check run or status of the head gives this signal. */
  ghost predicate SomeContext(contexts: seq<CheckContext>, s: CheckSignal) {
    exists c :: c in contexts && ContextSays(c, s)
  }

  ghost predicate SomeSuiteFailed(suites: seq<CheckSuite>) {
    exists u :: u in suites && SuiteFails(u)
  }

  lemma {:induction false} SomeContextExactly(contexts: seq<CheckContext>, s: CheckSignal)
    ensures s in Collect(contexts, ContextSignal) <==> SomeContext(contexts, s)
  {
    CollectedExactly(contexts, ContextSignal, s);
    forall c | c in contexts
      ensures ContextSignal(c) == Some(s) <==> ContextSays(c, s)
    {
      ContextSaysExactly(c, s);
    }
  }

  lemma {:induction false} SomeSuiteExactly(suites: seq<CheckSuite>, s: CheckSignal)
    ensures s in Collect(suites, SuiteSignal) <==> s == Fail && SomeSuiteFailed(suites)
  {
    CollectedExactly(suites, SuiteSignal, s);
    forall u | u in suites
      ensures SuiteSignal(u) == Some(s) <==> s == Fail && SuiteFails(u)
    {
      SuiteSaysExactly(u);
    }
  }

  /** Reading the suites too leaves the verdict as it is, or makes it a failure. */
  lemma {:induction false} SuitesOnlyFail(contexts: seq<CheckContext>, suites: seq<CheckSuite>)
    ensures Verdict(Collect(contexts, ContextSignal) + Collect(suites, SuiteSignal))
         == if SomeSuiteFailed(suites) then SomeFailed else Verdict(Collect(contexts, ContextSignal))
  {
    SomeSuiteExactly(suites, Fail);
    SomeSuiteExactly(suites, Pending);
    SomeSuiteExactly(suites, Pass);
  }

  /** A suite fails by its conclusion alone, however GitHub spells it. */
  lemma {:induction false} SuiteFailsExactly(suite: CheckSuite)
    ensures SuiteSignal(suite) == Some(Fail) <==>
      suite.conclusion.Some? && Lower(suite.conclusion.value) in
        {"failure", "timed_out", "action_required", "cancelled", "stale", "startup_failure"}
    ensures SuiteSignal(suite).None? || SuiteSignal(suite) == Some(Fail)
  {
  }

  // ----- The head's verdict -----

  /** What the snapshot query answers of the head: the first page of each, where it has any. */
  datatype Commit = Commit(contexts: Option<Connection<CheckContext>>, suites: Option<Connection<CheckSuite>>)

  function AllRead<T>(first: Option<Connection<T>>, answers: seq<PageAnswer<T>>): Result<seq<T>, GithubError> {
    match first
    case None => Success([])
    case Some(page) => NodesRead(page, answers)
  }

  /** `check_signals`: the contexts' pages first, then the suites'. */
  method CheckSignals(
    commit: Commit, contextAnswers: seq<PageAnswer<CheckContext>>, suiteAnswers: seq<PageAnswer<CheckSuite>>)
    returns (result: Result<seq<CheckSignal>, GithubError>)
    ensures var contexts, suites := AllRead(commit.contexts, contextAnswers), AllRead(commit.suites, suiteAnswers);
      result ==
        if contexts.Failure? then Failure(contexts.error)
        else if suites.Failure? then Failure(suites.error)
        else Success(Collect(contexts.value, ContextSignal) + Collect(suites.value, SuiteSignal))
  {
    ghost var contexts, suites := AllRead(commit.contexts, contextAnswers), AllRead(commit.suites, suiteAnswers);
    var signals := [];
    if commit.contexts.Some? {
      var read, asked := SignalsAcrossPages(commit.contexts.value, ContextSignal, contextAnswers);
      if read.Failure? {
        return Failure(read.error);
      }
      signals := signals + read.value;
    }
    assert signals == Collect(contexts.value, ContextSignal);
    if commit.suites.Some? {
      var read, asked := SignalsAcrossPages(commit.suites.value, SuiteSignal, suiteAnswers);
      if read.Failure? {
        return Failure(read.error);
      }
      signals := signals + read.value;
    }
    assert signals == Collect(contexts.value, ContextSignal) + Collect(suites.value, SuiteSignal);
    result := Success(signals);
  }

  /**
   The verdict of the head: failed if any context or suite of any page did, else pending if
   any context is, else passed if any did; and no verdict at all if a page could not be read.
   */
  method HeadVerdict(
    commit: Commit, contextAnswers: seq<PageAnswer<CheckContext>>, suiteAnswers: seq<PageAnswer<CheckSuite>>)
    returns (result: Result<CheckStatus, GithubError>)
    ensures var contexts, suites := AllRead(commit.contexts, contextAnswers), AllRead(commit.suites, suiteAnswers);
      && (result.Success? <==> contexts.Success? && suites.Success?)
      && (result.Success? ==>
            var failed := SomeContext(contexts.value, Fail) || SomeSuiteFailed(suites.value);
            var pending := SomeContext(contexts.value, Pending);
            && (result.value == SomeFailed <==> failed)
            && (result.value == StillPending <==> !failed && pending)
            && (result.value == AllPassed <==> !failed && !pending && SomeContext(contexts.value, Pass))
            && (result.value == NoChecks <==> !failed && !pending && !SomeContext(contexts.value, Pass)))
      && (contexts.Failure? ==> result == Failure(contexts.error))
      && (contexts.Success? && suites.Failure? ==> result == Failure(suites.error))
  {
    var signals := CheckSignals(commit, contextAnswers, suiteAnswers);
    if signals.Failure? {
      return Failure(signals.error);
    }
    var status := RollupChecks(signals.value);
    ghost var contexts := AllRead(commit.contexts, contextAnswers).value;
    SuitesOnlyFail(contexts, AllRead(commit.suites, suiteAnswers).value);
    SomeContextExactly(contexts, Fail);
    SomeContextExactly(contexts, Pending);
    SomeContextExactly(contexts, Pass);
    result := Success(status);
  }
}

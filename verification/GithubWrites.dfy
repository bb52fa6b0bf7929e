/**
 Writes to GitHub that may be sent again: every request may be lost on the way there or on
 the way back, answered with something unreadable, or refused although it took effect, and
 others push, close, merge and comment in between.

 One write to a pull request is in progress at a time, as its object sees to, and a request
 that GitHub gets has taken effect, or never will, before the next one arrives.
 */
module GithubWrites {
  import opened Wrappers
  import opened PrKeys
  import opened Text
  import opened GithubSteps
  import BatchProgress

  type PrTarget = BatchProgress.PrTarget

  const MAX_RATE_LIMIT_WAITS: nat := 3

  // ----- GitHub -----

  datatype IssueComment = IssueComment(id: nat, body: string)

  datatype GithubPull = GithubPull(
    open: bool, byDependabot: bool, head: string, merged: bool, mergeCommit: Option<string>)

  /** One pull request on GitHub, and the heads an accepted branch update was asked of. */
  datatype Site = Site(comments: seq<IssueComment>, pull: GithubPull, updated: set<string>)

  /** What a request asks of GitHub. */
  datatype Effect =
    | ReadPull
    | ReadComments(page: nat)
    | PutMerge(sha: string)
    | PostComment(body: string)
    | PutUpdate(sha: string)

  predicate IsRead(effect: Effect) {
    effect.ReadPull? || effect.ReadComments?
  }

  predicate IsSendError(error: GithubError) {
    error.Transport? || error.Http? || error.Protocol? || error.Config?
  }

  /** What one request, or the one for its token, can fail with. */
  type SendError = error: GithubError | IsSendError(error) witness Transport

  /** How one request is answered. */
  datatype Answer =
    | Unsent(error: SendError)   // no token to send it with
    | Lost
    | Refused(response: ErrorResponse)
    | Unreadable
    | Answered(message: string)

  /** What happens before and at one request: what others made of the pull request, and its answer. */
  datatype Turn = Turn(pull: GithubPull, chatter: seq<string>, takesEffect: bool, commit: Option<string>, answer: Answer)

  /** A turn on which nothing goes wrong and nobody else does anything. */
  function Calm(site: Site): Turn {
    Turn(site.pull, [], true, None, Answered(""))
  }

  function NextTurn(site: Site, turns: seq<Turn>): Turn {
    if turns == [] then Calm(site) else turns[0]
  }

  function Said(comments: seq<IssueComment>, bodies: seq<string>): seq<IssueComment>
    decreases |bodies|
  {
    if bodies == [] then comments
    else Said(comments + [IssueComment(|comments|, bodies[0])], bodies[1..])
  }

  /** Others' doings: comments are only ever added, and a merged pull request stays as it is. */
  function Meanwhile(site: Site, turn: Turn): Site {
    site.(comments := Said(site.comments, turn.chatter),
          pull := if site.pull.merged then site.pull else turn.pull)
  }

  /** GitHub merges, and updates, only at the head it is given. */
  function Done(site: Site, effect: Effect, commit: Option<string>): Site {
    match effect
    case ReadPull => site
    case ReadComments(_) => site
    case PostComment(body) => site.(comments := Said(site.comments, [body]))
    case PutMerge(sha) =>
      if site.pull.open && !site.pull.merged && site.pull.head == sha then
        site.(pull := site.pull.(open := false, merged := true, mergeCommit := commit))
      else site
    case PutUpdate(sha) =>
      if site.pull.open && site.pull.head == sha then site.(updated := site.updated + {sha}) else site
  }

  predicate TakesEffect(turn: Turn) {
    match turn.answer
    case Unsent(_) => false
    case Answered(_) => true
    case _ => turn.takesEffect
  }

  function Arrive(site: Site, effect: Effect, turn: Turn): Site {
    if TakesEffect(turn) then Done(Meanwhile(site, turn), effect, turn.commit) else Meanwhile(site, turn)
  }

  /** GitHub does not claim an update it did not accept. */
  function Reply(site: Site, effect: Effect, turn: Turn): Answer {
    if turn.answer.Answered? && effect.PutUpdate? && effect.sha !in site.updated then
      Answer.Refused(Plain(422, turn.answer.message))
    else turn.answer
  }

  // ----- Comments that carry the batch's marker -----

  function Marker(batchId: string): string {
    "<!-- dependaboard-batch:" + batchId + " -->"
  }

  function Body(command: string, userId: string, batchId: string): string {
    Preamble(command, userId) + Marker(batchId)
  }

  function Preamble(command: string, userId: string): string {
    "@dependabot " + command + "\n\n\U{2014} via dependabot-dashboard (" + userId + ")\n"
  }

  predicate Without(s: string, c: char) {
    forall i :: 0 <= i < |s| ==> s[i] != c
  }

  /** What a posted command says first is what it asks of Dependabot. */
  lemma {:induction false} BodyAsks(command: string, userId: string, batchId: string)
    ensures "@dependabot " + command + "\n" <= Body(command, userId, batchId)
  {
  }

  /** Comments that ask for different things differ, whoever posts them for whichever batch. */
  lemma {:induction false} CommandsTellApart(a: string, b: string, userA: string, userB: string, batchA: string, batchB: string)
    requires Without(a, '\n') && Without(b, '\n')
    requires Body(a, userA, batchA) == Body(b, userB, batchB)
    ensures a == b
  {
    var body := Body(a, userA, batchA);
    BodyAsks(a, userA, batchA);
    BodyAsks(b, userB, batchB);
    FirstLine(a, body);
    FirstLine(b, body);
    assert body[12..12 + |a|] == a && body[12..12 + |b|] == b;
  }

  /** The command is what stands between the mention and the first line break. */
  lemma {:induction false} FirstLine(command: string, body: string)
    requires Without(command, '\n') && "@dependabot " + command + "\n" <= body
    ensures 12 + |command| < |body| && body[12..12 + |command|] == command && body[12 + |command|] == '\n'
    ensures forall k :: 12 <= k < 12 + |command| ==> body[k] != '\n'
  {
    var line := "@dependabot " + command + "\n";
    assert |"@dependabot "| == 12 && line[12..12 + |command|] == command;
    assert forall k :: 12 <= k < 12 + |command| ==> body[k] == line[k] == command[k - 12];
  }

  /** How many comments carry the marker. */
  function Marked(comments: seq<IssueComment>, marker: string): nat {
    if comments == [] then 0
    else
      Marked(comments[..|comments| - 1], marker)
      + (if Contains(comments[|comments| - 1].body, marker) then 1 else 0)
  }

  lemma {:induction false} MarkedGrows(comments: seq<IssueComment>, comment: IssueComment, marker: string)
    ensures Marked(comments + [comment], marker)
         == Marked(comments, marker) + if Contains(comment.body, marker) then 1 else 0
  {
    assert (comments + [comment])[..|comments|] == comments;
  }

  lemma {:induction false} MarkedNone(comments: seq<IssueComment>, marker: string)
    requires forall c :: c in comments ==> !Contains(c.body, marker)
    ensures Marked(comments, marker) == 0
  {
    if comments != [] {
      MarkedNone(comments[..|comments| - 1], marker);
    }
  }

  lemma {:induction false} MarkedSome(comments: seq<IssueComment>, c: IssueComment, marker: string)
    requires c in comments && Contains(c.body, marker)
    ensures Marked(comments, marker) >= 1
  {
    var rest := comments[..|comments| - 1];
    if c != comments[|comments| - 1] {
      assert c in rest;
      MarkedSome(rest, c, marker);
    }
  }

  lemma {:induction false} BodyMarked(command: string, userId: string, batchId: string)
    ensures Contains(Body(command, userId, batchId), Marker(batchId))
  {
    var body, marker := Body(command, userId, batchId), Marker(batchId);
    assert At(body, marker, |body| - |marker|);
  }

  /** A marker tells batches apart: the comment of one batch carries another's marker only if they are one. */
  lemma {:induction false} OwnMarkerOnly(command: string, userId: string, posted: string, batchId: string)
    requires Without(command, '<') && Without(userId, '<')
    requires Without(posted, '<') && Without(posted, ' ') && Without(batchId, ' ')
    ensures Contains(Body(command, userId, posted), Marker(batchId)) <==> posted == batchId
  {
    BodyMarked(command, userId, posted);
    if Contains(Body(command, userId, posted), Marker(batchId)) {
      var i: nat :| i <= |Body(command, userId, posted)| && At(Body(command, userId, posted), Marker(batchId), i);
      OnlyAtTheEnd(Preamble(command, userId), posted, Marker(batchId), i);
      SameMarker(Marker(posted), Marker(batchId), posted, batchId);
    }
  }

  lemma {:induction false} OnlyAtTheEnd(preamble: string, posted: string, marker: string, i: nat)
    requires Without(preamble, '<') && Without(posted, '<')
    requires At(preamble + Marker(posted), marker, i) && |marker| > 0 && marker[0] == '<'
    ensures i == |preamble| && marker <= Marker(posted)
  {
    var body := preamble + Marker(posted);
    assert body[i] == body[i..i + |marker|][0] == '<';
    assert Marker(posted)[0] == '<' && forall k :: 0 < k < |Marker(posted)| ==> Marker(posted)[k] != '<';
  }

  lemma {:induction false} SameMarker(own: string, marker: string, posted: string, batchId: string)
    requires own == Marker(posted) && marker == Marker(batchId) && marker <= own
    requires Without(posted, ' ') && Without(batchId, ' ')
    ensures posted == batchId
  {
    var lead := |"<!-- dependaboard-batch:"|;
    assert marker[lead + |batchId|] == ' ' && own[lead + |posted|] == ' ';
    assert forall k :: 0 <= k < |posted| ==> own[lead + k] == posted[k];
    assert marker[lead..lead + |batchId|] == batchId && own[lead..lead + |posted|] == posted;
  }

  /** Nobody else posts the marker. */
  ghost predicate Unmarked(turns: seq<Turn>, marker: string) {
    forall i, k :: 0 <= i < |turns| && 0 <= k < |turns[i].chatter| ==> !Contains(turns[i].chatter[k], marker)
  }

  lemma {:induction false} NextUnmarked(site: Site, turns: seq<Turn>, marker: string)
    requires Unmarked(turns, marker)
    ensures var turn := NextTurn(site, turns);
      forall k :: 0 <= k < |turn.chatter| ==> !Contains(turn.chatter[k], marker)
    ensures Unmarked(if turns == [] then [] else turns[1..], marker)
  {
  }

  /** Requests later: at most one comment with the marker was added, and only where there was none. */
  ghost predicate Once(a: Site, b: Site, marker: string) {
    && a.comments <= b.comments
    && (a.pull.merged ==> b.pull == a.pull)
    && (Marked(b.comments, marker) == Marked(a.comments, marker)
        || (Marked(a.comments, marker) == 0 && Marked(b.comments, marker) == 1))
  }

  /** Requests later, with no comment of the marker added. */
  ghost predicate Quiet(a: Site, b: Site, marker: string) {
    Once(a, b, marker) && Marked(b.comments, marker) == Marked(a.comments, marker)
  }

  lemma {:induction false} SaidUnmarked(comments: seq<IssueComment>, bodies: seq<string>, marker: string)
    requires forall k :: 0 <= k < |bodies| ==> !Contains(bodies[k], marker)
    ensures comments <= Said(comments, bodies)
    ensures Marked(Said(comments, bodies), marker) == Marked(comments, marker)
    decreases |bodies|
  {
    if bodies != [] {
      MarkedGrows(comments, IssueComment(|comments|, bodies[0]), marker);
      SaidUnmarked(comments + [IssueComment(|comments|, bodies[0])], bodies[1..], marker);
    }
  }

  lemma {:induction false} MeanwhileQuiet(site: Site, turn: Turn, marker: string)
    requires forall k :: 0 <= k < |turn.chatter| ==> !Contains(turn.chatter[k], marker)
    ensures Quiet(site, Meanwhile(site, turn), marker)
  {
    SaidUnmarked(site.comments, turn.chatter, marker);
  }

  lemma {:induction false} ArriveQuiet(site: Site, effect: Effect, turn: Turn, marker: string)
    requires forall k :: 0 <= k < |turn.chatter| ==> !Contains(turn.chatter[k], marker)
    requires !effect.PostComment?
    ensures Quiet(site, Arrive(site, effect, turn), marker)
  {
    MeanwhileQuiet(site, turn, marker);
  }

  lemma {:induction false} PostOnce(site: Site, body: string, turn: Turn, marker: string)
    requires forall k :: 0 <= k < |turn.chatter| ==> !Contains(turn.chatter[k], marker)
    requires Marked(site.comments, marker) == 0 && Contains(body, marker)
    ensures var after := Arrive(site, PostComment(body), turn);
      && Once(site, after, marker)
      && (TakesEffect(turn) ==>
            && after.comments != [] && after.comments[|after.comments| - 1].body == body
            && Marked(after.comments, marker) == 1)
  {
    MeanwhileQuiet(site, turn, marker);
    var between := Meanwhile(site, turn).comments;
    var comment := IssueComment(|between|, body);
    assert [body][1..] == [];
    assert Said(between, [body]) == Said(between + [comment], []) == between + [comment];
    MarkedGrows(between, comment, marker);
  }

  /** Wherever at most one comment carried the marker, at most one still does. */
  lemma {:induction false} OnceAgain(a: Site, b: Site, c: Site, marker: string)
    requires Once(a, b, marker) && Once(b, c, marker)
    ensures Once(a, c, marker)
    ensures Quiet(a, b, marker) && Quiet(b, c, marker) ==> Quiet(a, c, marker)
    ensures Marked(a.comments, marker) <= 1 ==> Marked(c.comments, marker) <= 1
  {
  }

  function Page(comments: seq<IssueComment>, page: nat): (shown: seq<IssueComment>)
    requires 1 <= page && LISTING_PAGE_SIZE * (page - 1) <= |comments|
    ensures |shown| <= LISTING_PAGE_SIZE
  {
    var start := LISTING_PAGE_SIZE * (page - 1);
    if start + LISTING_PAGE_SIZE < |comments| then comments[start..start + LISTING_PAGE_SIZE] else comments[start..]
  }

  /** The index of the first comment with the marker, or how many there are. */
  function FirstMarked(comments: seq<IssueComment>, marker: string): (i: nat)
    ensures i <= |comments|
    ensures i < |comments| ==> Contains(comments[i].body, marker)
    ensures forall c :: c in comments[..i] ==> !Contains(c.body, marker)
  {
    if comments == [] || Contains(comments[0].body, marker) then 0
    else
      var rest := FirstMarked(comments[1..], marker);
      assert comments[..1 + rest] == [comments[0]] + comments[1..][..rest];
      1 + rest
  }

  /** What one page of a scan comes to. */
  datatype Scan = Found(id: nat) | NotThere | ReadOn

  /** The pages before `page` are full, and no comment on them carries the marker. */
  ghost predicate Scanned(site: Site, page: nat, marker: string) {
    && 1 <= page && LISTING_PAGE_SIZE * (page - 1) <= |site.comments|
    && forall c :: c in site.comments[..LISTING_PAGE_SIZE * (page - 1)] ==> !Contains(c.body, marker)
  }

  /** Comments already read are where they were. */
  lemma {:induction false} StillUnmarked(before: seq<IssueComment>, after: seq<IssueComment>, n: nat, marker: string)
    requires before <= after && n <= |before| && forall c :: c in before[..n] ==> !Contains(c.body, marker)
    ensures forall c :: c in after[..n] ==> !Contains(c.body, marker)
  {
    assert after[..n] == before[..n];
  }

  /** What a page tells of the whole, the pages before it having shown no marker. */
  lemma {:induction false} PageScanned(comments: seq<IssueComment>, page: nat, found: nat, marker: string)
    requires 1 <= page && LISTING_PAGE_SIZE * (page - 1) <= |comments|
    requires forall c :: c in comments[..LISTING_PAGE_SIZE * (page - 1)] ==> !Contains(c.body, marker)
    requires found == FirstMarked(Page(comments, page), marker)
    ensures found < |Page(comments, page)| ==>
              Page(comments, page)[found] in comments && Marked(comments, marker) >= 1
    ensures found == |Page(comments, page)| < LISTING_PAGE_SIZE ==> Marked(comments, marker) == 0
    ensures found == |Page(comments, page)| == LISTING_PAGE_SIZE ==>
              && LISTING_PAGE_SIZE * page <= |comments|
              && forall c :: c in comments[..LISTING_PAGE_SIZE * page] ==> !Contains(c.body, marker)
  {
    var start, shown := LISTING_PAGE_SIZE * (page - 1), Page(comments, page);
    if found < |shown| {
      MarkedSome(comments, shown[found], marker);
    } else if |shown| < LISTING_PAGE_SIZE {
      assert comments == comments[..start] + shown && shown[..found] == shown;
      MarkedNone(comments, marker);
    } else {
      assert comments[..start + LISTING_PAGE_SIZE] == comments[..start] + shown && shown[..found] == shown;
    }
  }

  /** What a page that shows these comments makes of the scan. */
  function ScanOf(shown: seq<IssueComment>, marker: string): Scan {
    var found := FirstMarked(shown, marker);
    if found < |shown| then Found(shown[found].id)
    else if |shown| < LISTING_PAGE_SIZE then NotThere
    else ReadOn
  }

  /** And what that says of all the comments. */
  ghost predicate ScanSays(site: Site, page: nat, marker: string, scan: Scan) {
    match scan
    case Found(id) =>
      && Marked(site.comments, marker) >= 1
      && exists c :: c in site.comments && c.id == id && Contains(c.body, marker)
    case NotThere => Marked(site.comments, marker) == 0
    case ReadOn => Scanned(site, page + 1, marker)
  }

  lemma {:induction false} PageTells(before: Site, site: Site, page: nat, marker: string)
    requires Scanned(before, page, marker) && before.comments <= site.comments
    ensures ScanSays(site, page, marker, ScanOf(Page(site.comments, page), marker))
  {
    StillUnmarked(before.comments, site.comments, LISTING_PAGE_SIZE * (page - 1), marker);
    PageScanned(site.comments, page, FirstMarked(Page(site.comments, page), marker), marker);
  }

  // ----- The requests made -----

  /** One request: what was to happen at it, and what did. */
  datatype Exchange = Exchange(effect: Effect, turn: Turn, before: Site, after: Site, reply: Answer)

  /** The requests follow one another through the script, and `site` and `turns` are what they leave. */
  ghost predicate Linked(log: seq<Exchange>, start: Site, script: seq<Turn>, site: Site, turns: seq<Turn>) {
    && (forall n :: 0 <= n < |log| ==> Follows(log, n, start, script))
    && site == SiteAt(log, |log|, start)
    && turns == if |log| <= |script| then script[|log|..] else []
  }

  /** GitHub before request `n`. */
  function SiteAt(log: seq<Exchange>, n: nat, start: Site): Site
    requires n <= |log|
  {
    if n == 0 then start else log[n - 1].after
  }

  ghost predicate Follows(log: seq<Exchange>, n: nat, start: Site, script: seq<Turn>)
    requires n < |log|
  {
    var x := log[n];
    && x.before == SiteAt(log, n, start)
    && x.turn == (if n < |script| then script[n] else Calm(x.before))
    && x.after == Arrive(x.before, x.effect, x.turn)
    && x.reply == Reply(x.after, x.effect, x.turn)
  }

  lemma {:induction false} LinkOn(log: seq<Exchange>, start: Site, script: seq<Turn>, site: Site, turns: seq<Turn>, effect: Effect)
    requires Linked(log, start, script, site, turns)
    ensures var turn := NextTurn(site, turns);
      var after := Arrive(site, effect, turn);
      Linked(log + [Exchange(effect, turn, site, after, Reply(after, effect, turn))], start, script, after,
             if turns == [] then [] else turns[1..])
  {
    var turn := NextTurn(site, turns);
    var after := Arrive(site, effect, turn);
    var longer := log + [Exchange(effect, turn, site, after, Reply(after, effect, turn))];
    forall n | 0 <= n < |longer|
      ensures Follows(longer, n, start, script)
    {
      if n < |log| {
        assert Follows(log, n, start, script);
      }
    }
  }

  /** One request from `from` on, or two of the same: two exactly if the first was refused with a 401. */
  ghost predicate OnceOrAgain(log: seq<Exchange>, from: nat, effect: Effect) {
    && from < |log| <= from + 2
    && log[from].effect == effect && log[|log| - 1].effect == effect
    && (|log| == from + 2 <==> log[from].reply.Refused? && log[from].reply.response.status == 401)
  }

  /** From request `from` on nothing but reads. */
  ghost predicate OnlyReads(log: seq<Exchange>, from: nat) {
    forall n :: from <= n < |log| ==> IsRead(log[n].effect)
  }

  /** From request `from` on no write but this one. */
  ghost predicate OnlyWrites(log: seq<Exchange>, from: nat, write: Effect) {
    forall n :: from <= n < |log| ==> IsRead(log[n].effect) || log[n].effect == write
  }

  /** From request `from` on at most one write. */
  ghost predicate WritesOnce(log: seq<Exchange>, from: nat) {
    forall m, n :: from <= m < n < |log| ==> IsRead(log[m].effect) || IsRead(log[n].effect)
  }

  /** From request `from` on no write left for GitHub. */
  ghost predicate NoneLeft(log: seq<Exchange>, from: nat) {
    forall n :: from <= n < |log| ==> IsRead(log[n].effect) || log[n].reply.Unsent?
  }

  /** Request `m` is a read GitHub answered with `pull`, and from `from` on nothing but reads went before it. */
  ghost predicate ReadShows(log: seq<Exchange>, from: nat, m: nat, pull: GithubPull) {
    && from <= m < |log|
    && log[m].effect.ReadPull? && log[m].reply.Answered? && log[m].after.pull == pull
    && forall k :: from <= k < m ==> IsRead(log[k].effect)
  }

  /** Every write from `from` on comes after a read, since then, of the pull request fit to be written to. */
  ghost predicate VerifiedFirst(log: seq<Exchange>, from: nat, target: PrTarget) {
    forall n :: from <= n < |log| && !IsRead(log[n].effect) ==>
      exists m :: from <= m < n && log[m].effect.ReadPull? && log[m].reply.Answered?
                  && Verified(log[m].after.pull, target)
  }

  lemma {:induction false} ReadsThen(a: seq<Exchange>, b: seq<Exchange>, from: nat, write: Effect)
    requires a <= b && from <= |a| && OnlyReads(a, from)
    ensures OnlyReads(b, |a|) ==> OnlyReads(b, from)
    ensures OnlyWrites(b, |a|, write) ==> OnlyWrites(b, from, write)
    ensures WritesOnce(b, |a|) ==> WritesOnce(b, from)
    ensures NoneLeft(b, |a|) ==> NoneLeft(b, from)
  {
    assert forall n :: from <= n < |a| ==> b[n] == a[n];
  }

  lemma {:induction false} ThenReads(a: seq<Exchange>, b: seq<Exchange>, from: nat, write: Effect)
    requires a <= b && from <= |a| && OnlyReads(b, |a|)
    ensures OnlyReads(a, from) ==> OnlyReads(b, from)
    ensures OnlyWrites(a, from, write) ==> OnlyWrites(b, from, write)
    ensures WritesOnce(a, from) ==> WritesOnce(b, from)
    ensures NoneLeft(a, from) ==> NoneLeft(b, from)
  {
    assert forall n :: from <= n < |a| ==> b[n] == a[n];
  }

  lemma {:induction false} WritesThen(a: seq<Exchange>, b: seq<Exchange>, from: nat, write: Effect, target: PrTarget)
    requires a <= b && from <= |a|
    ensures OnlyReads(a, from) && OnlyReads(b, |a|) ==> OnlyReads(b, from)
    ensures OnlyWrites(a, from, write) && OnlyWrites(b, |a|, write) ==> OnlyWrites(b, from, write)
    ensures VerifiedFirst(a, from, target) && VerifiedFirst(b, |a|, target) ==> VerifiedFirst(b, from, target)
  {
    assert forall n :: from <= n < |a| ==> b[n] == a[n];
    if VerifiedFirst(a, from, target) && VerifiedFirst(b, |a|, target) {
      forall n | from <= n < |b| && !IsRead(b[n].effect)
        ensures exists m :: from <= m < n && b[m].effect.ReadPull? && b[m].reply.Answered?
                            && Verified(b[m].after.pull, target)
      {
        if n < |a| {
          var m :| from <= m < n && a[m].effect.ReadPull? && a[m].reply.Answered? && Verified(a[m].after.pull, target);
          assert b[m] == a[m];
        } else {
          var m :| |a| <= m < n && b[m].effect.ReadPull? && b[m].reply.Answered? && Verified(b[m].after.pull, target);
        }
      }
    }
  }

  lemma {:induction false} VerifiedThen(
    fetched: seq<Exchange>, log: seq<Exchange>, from: nat, pull: GithubPull, site: Site, request: Request,
    result: Result<MutationOutcome, GithubError>)
    requires from < |fetched| && fetched <= log && OnlyReads(fetched, from)
    requires ReadShows(fetched, from, |fetched| - 1, pull) && Verified(pull, request.target)
    ensures ReadShows(log, from, |fetched| - 1, pull) && VerifiedFirst(log, from, request.target)
    ensures OnlyReads(log, |fetched|) ==> OnlyReads(log, from)
    ensures OnlyWrites(log, |fetched|, Write(request)) ==> OnlyWrites(log, from, Write(request))
    ensures WritesOnce(log, |fetched|) ==> WritesOnce(log, from)
    ensures NoneLeft(log, |fetched|) ==> NoneLeft(log, from)
    ensures result.Failure? && FailsProperly(log, |fetched|, request, result.error) ==>
              FailsProperly(log, from, request, result.error)
    ensures AnswerRead(log, |fetched|, site, request, ReadOut(result)) ==>
              AnswerRead(log, from, site, request, ReadOut(result))
  {
    ReadsThen(fetched, log, from, Write(request));
    assert forall n :: from <= n < |fetched| ==> log[n] == fetched[n];
    ReadIsFirst(log, from, |fetched| - 1, pull, request.target);
  }

  lemma {:induction false} ReadIsFirst(log: seq<Exchange>, from: nat, m: nat, pull: GithubPull, target: PrTarget)
    requires ReadShows(log, from, m, pull) && (Verified(pull, target) || OnlyReads(log, from))
    ensures VerifiedFirst(log, from, target)
  {
  }

  // ----- Where a merge happened -----

  /** At this request others had merged the pull request, at another head than `sha`. */
  predicate MergedByOthers(x: Exchange, sha: string) {
    !x.before.pull.merged && x.turn.pull.merged && x.turn.pull.head != sha
  }

  /** From `from` to before `n`, the pull request was merged at another head than `sha` by others. */
  ghost predicate OthersMerged(log: seq<Exchange>, from: nat, n: nat, sha: string) {
    exists k :: from <= k < n <= |log| && MergedByOthers(log[k], sha)
  }

  ghost predicate MergedElsewhere(pull: GithubPull, sha: string) {
    pull.merged && pull.head != sha
  }

  /**
   The head a pull request is merged at, when nothing but a merge at `sha` was asked for: it is
   another exactly when it already was, or when others merged it at another in between.
   */
  lemma {:induction false} MergeHead(log: seq<Exchange>, start: Site, script: seq<Turn>, from: nat, n: nat, sha: string)
    requires from <= n <= |log| && OnlyWrites(log, from, PutMerge(sha))
    requires forall k :: 0 <= k < |log| ==> Follows(log, k, start, script)
    ensures var first, last := SiteAt(log, from, start).pull, SiteAt(log, n, start).pull;
      && (last.merged ==>
            (last.head != sha <==> MergedElsewhere(first, sha) || OthersMerged(log, from, n, sha)))
      && (!last.merged ==> !first.merged && !OthersMerged(log, from, n, sha))
    decreases n
  {
    if from < n {
      MergeHead(log, start, script, from, n - 1, sha);
      MergeStep(log, start, script, from, n - 1, sha);
    }
  }

  /** The same, of a client's own requests. */
  lemma {:induction false} MergedWhere(
    log: seq<Exchange>, start: Site, script: seq<Turn>, site: Site, turns: seq<Turn>, from: nat, sha: string)
    requires Linked(log, start, script, site, turns) && from <= |log| && OnlyWrites(log, from, PutMerge(sha))
    ensures site.pull.merged ==>
      (site.pull.head != sha <==>
         MergedElsewhere(SiteAt(log, from, start).pull, sha) || OthersMerged(log, from, |log|, sha))
  {
    MergeHead(log, start, script, from, |log|, sha);
  }

  lemma {:induction false} MergeStep(log: seq<Exchange>, start: Site, script: seq<Turn>, from: nat, k: nat, sha: string)
    requires from <= k < |log| && Follows(log, k, start, script)
    requires IsRead(log[k].effect) || log[k].effect == PutMerge(sha)
    ensures OthersMerged(log, from, k + 1, sha) <==> OthersMerged(log, from, k, sha) || MergedByOthers(log[k], sha)
    ensures var was, now := SiteAt(log, k, start).pull, SiteAt(log, k + 1, start).pull;
      && (was.merged ==> now == was)
      && (!was.merged && now.merged ==> (now.head != sha <==> MergedByOthers(log[k], sha)))
      && (!now.merged ==> !MergedByOthers(log[k], sha))
  {
  }

  // ----- The client -----

  datatype Request =
    | Merge(target: PrTarget)
    | PostCommand(target: PrTarget, command: string, userId: string, batchId: string)
    | UpdateBranch(target: PrTarget)

  function OperationOf(request: Request): Operation {
    match request
    case Merge(_) => Operation.Merge
    case PostCommand(_, _, _, _) => Operation.Comment
    case UpdateBranch(_) => Operation.UpdateBranch
  }

  /** The write a request comes to. */
  function Write(request: Request): Effect {
    match request
    case Merge(target) => PutMerge(target.expectedSha)
    case PostCommand(_, command, userId, batchId) => PostComment(Body(command, userId, batchId))
    case UpdateBranch(target) => PutUpdate(target.expectedSha)
  }

  /** The one thing a request may ask GitHub to change, word for word. */
  ghost predicate AsksFor(effect: Effect, request: Request) {
    match request
    case Merge(target) => effect == PutMerge(target.expectedSha)
    case UpdateBranch(target) => effect == PutUpdate(target.expectedSha)
    case PostCommand(_, command, userId, batchId) =>
      effect == PostComment(
        "@dependabot " + command + "\n\n\U{2014} via dependabot-dashboard (" + userId + ")\n"
        + "<!-- dependaboard-batch:" + batchId + " -->")
  }

  /** From request `from` on nothing is asked for but what the request is for. */
  ghost predicate AsksOnlyFor(log: seq<Exchange>, from: nat, request: Request) {
    forall n :: from <= n < |log| ==> IsRead(log[n].effect) || AsksFor(log[n].effect, request)
  }

  lemma {:induction false} WriteAsksFor(log: seq<Exchange>, from: nat, request: Request)
    requires OnlyWrites(log, from, Write(request))
    ensures AsksOnlyFor(log, from, request)
  {
    if request.PostCommand? {
      var front := "@dependabot " + request.command + "\n\n\U{2014} via dependabot-dashboard (" + request.userId + ")\n";
      assert front + ("<!-- dependaboard-batch:" + request.batchId + " -->")
          == front + "<!-- dependaboard-batch:" + request.batchId + " -->";
    }
  }

  /** What GitHub's answer to the write itself is made of: its words, and for a merge not made a conflict. */
  ghost predicate AnswerMeans(site: Site, request: Request, message: string, result: Result<Landed, GithubError>) {
    match request
    case Merge(_) =>
      if site.pull.merged then result == Success(Landed(message, site.pull.mergeCommit))
      else
        && result.Failure? && result.error.Http? && result.error.knownResource
        && result.error.response == ErrorResponse(409, message, None, None, None)
    case UpdateBranch(_) => result == Success(Landed(message, None))
    case PostCommand(_, _, _, _) =>
      && site.comments != []
      && result == Success(
           Landed("GitHub accepted comment #" + Decimal(site.comments[|site.comments| - 1].id), None))
  }

  /** If the last request was the write itself and GitHub answered it, the result is what the answer means. */
  ghost predicate AnswerRead(
    log: seq<Exchange>, from: nat, site: Site, request: Request, result: Result<Landed, GithubError>)
  {
    from < |log| && !IsRead(log[|log| - 1].effect) && log[|log| - 1].reply.Answered? ==>
      AnswerMeans(site, request, log[|log| - 1].reply.message, result)
  }

  function ReadOut(outcome: Result<MutationOutcome, GithubError>): Result<Landed, GithubError> {
    match outcome
    case Success(outcome) => IntoApplied(outcome)
    case Failure(error) => Failure(error)
  }

  /** What an answer that did not succeed fails with. */
  ghost predicate Tells(reply: Answer, error: GithubError) {
    match reply
    case Answered(_) => false
    case Unreadable => error == Protocol
    case Refused(response) => error == Http(response, false)
    case Lost => error == Transport
    case Unsent(e) => error == e
  }

  /** What the verify read decides by itself, before anything is asked for. */
  function DecidedByRead(pull: GithubPull, request: Request): Option<Result<MutationOutcome, GithubError>> {
    if request.Merge? && pull.merged then Some(Success(Applied(Landed("already merged", pull.mergeCommit))))
    else if !pull.open || !pull.byDependabot then Some(Failure(NotFoundError))
    else if pull.head != request.target.expectedSha then
      Some(Failure(StaleSha(request.target.expectedSha, pull.head)))
    else None
  }

  datatype Sending = Sent(reply: Answer) | AlreadyApplied(landed: Landed)

  /** What GitHub's answer to a write reads as. */
  datatype GithubReply =
    | MergeResult(merged: bool, message: string, sha: Option<string>)
    | CommentCreated(id: nat)
    | UpdateResult(message: string)

  datatype MutationOutcome = Replied(reply: GithubReply) | Applied(landed: Landed)

  const NotFoundError: GithubError :=
    Http(Plain(404, "pull request is closed or is not owned by Dependabot"), true)

  const NoUserToken: GithubError :=
    Config("no GitHub user token is configured; set GITHUB_USER_PAT to post @dependabot commands")

  /** `parse_response`, but for the body. */
  function Parsed(answer: Answer): Result<string, GithubError> {
    match answer
    case Answered(message) => Success(message)
    case Unreadable => Failure(Protocol)
    case Refused(response) => Failure(Http(response, false))
    case Lost => Failure(Transport)
    case Unsent(error) => Failure(error)
  }

  predicate NotAuthorized(reply: Answer) {
    reply.Refused? && reply.response.status == 401
  }

  /** The pull request is the open one of Dependabot's at the head the caller last saw. */
  predicate Verified(pull: GithubPull, target: PrTarget) {
    pull.open && pull.byDependabot && pull.head == target.expectedSha
  }

  ghost predicate RefusedOnce(x: Exchange, effect: Effect) {
    x.effect == effect && x.reply.Refused? && x.reply.response.status == 401
  }

  lemma {:induction false} OnceOrAgainNow(asked: seq<Exchange>, log: seq<Exchange>, from: nat, effect: Effect)
    requires asked <= log && |log| == |asked| + 1 && from <= |asked| <= from + 1 && log[|asked|].effect == effect
    requires |asked| == from + 1 ==> RefusedOnce(asked[from], effect)
    ensures |asked| == from + 1 || !RefusedOnce(log[from], effect) ==> OnceOrAgain(log, from, effect)
  {
  }

  /** What the request asked for is the case on GitHub. */
  ghost predicate Holds(site: Site, request: Request) {
    match request
    case Merge(_) => site.pull.merged
    case PostCommand(_, _, _, batchId) => Marked(site.comments, Marker(batchId)) >= 1
    case UpdateBranch(target) =>
      target.expectedSha in site.updated || site.pull.head != target.expectedSha
  }

  /** A read of this shows that what was asked for is so. */
  ghost predicate Sees(site: Site, request: Request) {
    match request
    case Merge(_) => site.pull.merged
    case PostCommand(_, _, _, batchId) => Marked(site.comments, Marker(batchId)) >= 1
    case UpdateBranch(target) => site.pull.head != target.expectedSha
  }

  /** The last request was a read back, and if it was answered it did not show the effect. */
  ghost predicate Unconfirmed(log: seq<Exchange>, from: nat, request: Request) {
    && from < |log| && IsRead(log[|log| - 1].effect)
    && (log[|log| - 1].reply.Answered? ==> !Sees(log[|log| - 1].after, request))
  }

  /**
   What a write fails with. Its answer lost or unreadable, it was read back and not seen to
   have landed; no unreadable answer to a write is left at that; and once a command has left
   for GitHub, a refusal is of a pull request known to be there.
   */
  ghost predicate FailsProperly(log: seq<Exchange>, from: nat, request: Request, error: GithubError) {
    && (error.Transport? || error.Ambiguous? ==> Unconfirmed(log, from, request))
    && (error.Protocol? ==> from < |log| && (IsRead(log[|log| - 1].effect) || log[|log| - 1].reply.Unsent?))
    && (request.PostCommand? && !NoneLeft(log, from) ==>
          || error.Transport? || error == Ambiguous(Operation.Comment) || (error.Http? && error.knownResource))
  }

  /** What a read-back leaves of what was so before it, and what failing after it means. */
  lemma {:induction false} AfterReadBack(
    first: Site, wrote: Site, site: Site, mutated: seq<Exchange>, log: seq<Exchange>, from: nat, request: Request,
    lost: GithubError, marker: string)
    requires mutated <= log && from <= |mutated| < |log| && OnlyReads(log, |mutated|)
    requires Once(first, wrote, marker) && Quiet(wrote, site, marker)
    requires lost == Transport || lost == Ambiguous(OperationOf(request))
    ensures Once(first, site, marker) && (Quiet(first, wrote, marker) ==> Quiet(first, site, marker))
    ensures OnlyReads(mutated, from) ==> OnlyReads(log, from)
    ensures OnlyWrites(mutated, from, Write(request)) ==> OnlyWrites(log, from, Write(request))
    ensures WritesOnce(mutated, from) ==> WritesOnce(log, from)
    ensures Unconfirmed(log, |mutated|, request) ==> FailsProperly(log, from, request, lost)
    ensures forall r :: AnswerRead(log, from, site, request, r)
  {
    OnceAgain(first, wrote, site, marker);
    ThenReads(mutated, log, from, Write(request));
  }

  /** The pull request is fit for the request: to be written to, or merged as asked already. */
  predicate Fit(pull: GithubPull, request: Request) {
    Verified(pull, request.target) || (request.Merge? && pull.merged)
  }

  /** And `landed` says so truly: of a merge it names the commit GitHub does. */
  ghost predicate Truly(site: Site, request: Request, landed: Landed) {
    Holds(site, request) && landed.sha == if request.Merge? then site.pull.mergeCommit else None
  }

  function MergedAs(detail: string, pull: GithubPull): Option<Landed> {
    if pull.merged then Some(Landed(detail, pull.mergeCommit)) else None
  }

  /** `into_applied`: what the caller makes of GitHub's answer when there is one. */
  function IntoApplied(outcome: MutationOutcome): Result<Landed, GithubError> {
    match outcome
    case Applied(landed) => Success(landed)
    case Replied(MergeResult(merged, message, sha)) =>
      if merged then Success(Landed(message, sha)) else Failure(Http(Plain(409, message), true))
    case Replied(CommentCreated(id)) => Success(Landed("GitHub accepted comment #" + Decimal(id), None))
    case Replied(UpdateResult(message)) => Success(Landed(message, None))
  }

  /** The client, GitHub as it finds it, what is going to happen at each request, and what has. */
  class Client {
    const userCommands: bool
    ghost const start: Site
    ghost const script: seq<Turn>
    var site: Site
    var turns: seq<Turn>
    ghost var log: seq<Exchange>
    /** What each call came to. */
    ghost var calls: seq<Result<Landed, GithubError>>

    constructor (userCommands: bool, site: Site, turns: seq<Turn>)
      ensures this.userCommands == userCommands && this.site == site && this.turns == turns
      ensures Valid() && log == [] && calls == []
    {
      this.userCommands, this.site, this.turns := userCommands, site, turns;
      start, script, log, calls := site, turns, [], [];
    }

    ghost predicate Valid()
      reads this
    {
      Linked(log, start, script, site, turns)
    }

    method Send(effect: Effect) returns (reply: Answer)
      requires Valid()
      modifies this`site, this`turns, this`log
      ensures Valid()
      ensures var turn := NextTurn(old(site), old(turns));
        && site == Arrive(old(site), effect, turn) && reply == Reply(site, effect, turn)
        && turns == (if old(turns) == [] then [] else old(turns)[1..])
        && log == old(log) + [Exchange(effect, turn, old(site), site, reply)]
    {
      LinkOn(log, start, script, site, turns, effect);
      var turn := NextTurn(site, turns);
      ghost var before := site;
      site := Arrive(site, effect, turn);
      turns := if turns == [] then [] else turns[1..];
      reply := Reply(site, effect, turn);
      log := log + [Exchange(effect, turn, before, site, reply)];
    }

    /** One request that posts no comment, and what it leaves as it was. */
    method SendQuietly(effect: Effect, ghost marker: string) returns (reply: Answer)
      requires Valid() && Unmarked(turns, marker) && !effect.PostComment?
      modifies this`site, this`turns, this`log
      ensures Valid() && old(log) <= log && |log| == |old(log)| + 1
      ensures log[|log| - 1].effect == effect && log[|log| - 1].reply == reply
      ensures Unmarked(turns, marker) && |turns| <= |old(turns)| && (old(turns) != [] ==> |turns| < |old(turns)|)
      ensures Quiet(old(site), site, marker)
      ensures reply.Answered? && effect.PutUpdate? ==> effect.sha in site.updated
      ensures old(turns) == [] ==>
                && turns == [] && site == Arrive(old(site), effect, Calm(old(site)))
                && reply == Reply(site, effect, Calm(old(site)))
    {
      NextUnmarked(site, turns, marker);
      ArriveQuiet(site, effect, NextTurn(site, turns), marker);
      reply := Send(effect);
    }

    /** `installation_send`: once more with a new token if the first was not accepted. */
    method InstallationSend(effect: Effect, ghost marker: string) returns (result: Result<Answer, GithubError>)
      requires Valid() && Unmarked(turns, marker) && !effect.PostComment?
      modifies this`site, this`turns, this`log
      ensures Valid() && old(log) <= log
      ensures Unmarked(turns, marker) && |turns| <= |old(turns)| && (old(turns) != [] ==> |turns| < |old(turns)|)
      ensures Quiet(old(site), site, marker)
      ensures OnceOrAgain(log, |old(log)|, effect)
      ensures result.Success? ==> log[|log| - 1].reply == result.value
      ensures result.Failure? ==>
                && (log[|log| - 1].reply.Unsent? || log[|log| - 1].reply.Lost?)
                && Tells(log[|log| - 1].reply, result.error)
      ensures result.Success? ==> !result.value.Unsent? && !result.value.Lost?
      ensures result.Success? && result.value.Answered? && effect.PutUpdate? ==> effect.sha in site.updated
      ensures old(turns) == [] ==>
                && turns == [] && site == Arrive(old(site), effect, Calm(old(site)))
                && result == Success(Reply(site, effect, Calm(old(site))))
    {
      var attempt := 0;
      while true
        invariant attempt < 2 && |log| == |old(log)| + attempt
        invariant Valid() && old(log) <= log
        invariant Unmarked(turns, marker) && |turns| <= |old(turns)|
        invariant attempt == 1 ==> old(turns) != [] && |turns| < |old(turns)| && RefusedOnce(log[|old(log)|], effect)
        invariant attempt == 0 ==> site == old(site) && turns == old(turns)
        invariant Quiet(old(site), site, marker)
        decreases 2 - attempt
      {
        ghost var before, asked := site, log;
        var reply := SendQuietly(effect, marker);
        OnceAgain(old(site), before, site, marker);
        OnceOrAgainNow(asked, log, |old(log)|, effect);
        if !NotAuthorized(reply) || attempt == 1 {
          return match reply
            case Unsent(error) => Failure(error)
            case Lost => Failure(Transport)
            case _ => Success(reply);
        }
        attempt := attempt + 1;
      }
    }

    method FetchTarget(ghost marker: string) returns (result: Result<GithubPull, GithubError>)
      requires Valid() && Unmarked(turns, marker)
      modifies this`site, this`turns, this`log
      ensures Valid() && old(log) <= log
      ensures Unmarked(turns, marker) && |turns| <= |old(turns)|
      ensures Quiet(old(site), site, marker) && OnlyReads(log, |old(log)|)
      ensures |old(log)| < |log| && (result.Success? <==> log[|log| - 1].reply.Answered?)
      ensures result.Success? ==>
                result.value == site.pull && ReadShows(log, |old(log)|, |log| - 1, result.value)
      ensures result.Failure? ==> IsSendError(result.error) && Tells(log[|log| - 1].reply, result.error)
      ensures old(turns) == [] ==> turns == [] && result.Success? && site == old(site)
    {
      var answer := InstallationSend(ReadPull, marker);
      if answer.Failure? {
        return Failure(answer.error);
      }
      var message := Parsed(answer.value);
      result := if message.Success? then Success(site.pull) else Failure(message.error);
    }

    method FetchComments(page: nat, ghost marker: string) returns (result: Result<seq<IssueComment>, GithubError>)
      requires Valid() && Unmarked(turns, marker)
      requires 1 <= page && LISTING_PAGE_SIZE * (page - 1) <= |site.comments|
      modifies this`site, this`turns, this`log
      ensures Valid() && old(log) <= log
      ensures Unmarked(turns, marker) && |turns| <= |old(turns)| && (old(turns) != [] ==> |turns| < |old(turns)|)
      ensures Quiet(old(site), site, marker) && OnlyReads(log, |old(log)|)
      ensures result.Success? ==> result.value == Page(site.comments, page)
      ensures |old(log)| < |log| && (result.Success? <==> log[|log| - 1].reply.Answered?)
      ensures result.Failure? ==> IsSendError(result.error) && Tells(log[|log| - 1].reply, result.error)
      ensures old(turns) == [] ==> turns == [] && result.Success? && site == old(site)
      ensures OnceOrAgain(log, |old(log)|, ReadComments(page))
    {
      var answer := InstallationSend(ReadComments(page), marker);
      if answer.Failure? {
        return Failure(answer.error);
      }
      var message := Parsed(answer.value);
      result := if message.Success? then Success(Page(site.comments, page)) else Failure(message.error);
    }

    /**
     Reads pages of comments until one carries the marker or one is short. Comments are only
     added, so the pages already read stay as they were: what it did not find is not there.
     */
    method FindCommentWithMarker(marker: string) returns (result: Result<Option<nat>, GithubError>)
      requires Valid() && Unmarked(turns, marker)
      modifies this`site, this`turns, this`log
      ensures Valid() && old(log) <= log
      ensures Unmarked(turns, marker) && |turns| <= |old(turns)|
      ensures Quiet(old(site), site, marker) && OnlyReads(log, |old(log)|)
      ensures result.Success? ==> (result.value.Some? <==> Marked(site.comments, marker) >= 1)
      ensures |old(log)| < |log| && (result.Success? <==> log[|log| - 1].reply.Answered?)
      ensures result.Failure? ==> IsSendError(result.error)
      ensures result.Success? && result.value.Some? ==>
                exists c :: c in site.comments && c.id == result.value.value && Contains(c.body, marker)
      ensures old(turns) == [] ==> turns == [] && result.Success? && site == old(site)
    {
      var page := 1;
      while true
        invariant Scanned(site, page, marker)
        invariant Valid() && old(log) <= log
        invariant Unmarked(turns, marker) && |turns| <= |old(turns)|
        invariant Quiet(old(site), site, marker) && OnlyReads(log, |old(log)|)
        invariant old(turns) == [] ==> turns == [] && site == old(site)
        decreases |turns|, |site.comments| - LISTING_PAGE_SIZE * (page - 1)
      {
        ghost var before, asked := site, log;
        var scan := ScanPage(page, marker);
        OnceAgain(old(site), before, site, marker);
        ReadsThen(asked, log, |old(log)|, ReadPull);
        match scan {
          case Failure(error) => return Failure(error);
          case Success(Found(id)) => return Success(Some(id));
          case Success(NotThere) => return Success(None);
          case Success(ReadOn) => page := page + 1;
        }
      }
    }

    /** One page of the scan, the pages before it having shown no marker. */
    method ScanPage(page: nat, marker: string) returns (result: Result<Scan, GithubError>)
      requires Valid() && Unmarked(turns, marker) && Scanned(site, page, marker)
      modifies this`site, this`turns, this`log
      ensures Valid() && old(log) <= log
      ensures Unmarked(turns, marker) && |turns| <= |old(turns)| && (old(turns) != [] ==> |turns| < |old(turns)|)
      ensures Quiet(old(site), site, marker) && OnlyReads(log, |old(log)|)
      ensures |old(log)| < |log| && (result.Success? <==> log[|log| - 1].reply.Answered?)
      ensures if result.Failure? then IsSendError(result.error) else ScanSays(site, page, marker, result.value)
      ensures old(turns) == [] ==> turns == [] && result.Success? && site == old(site)
    {
      ghost var before := site;
      var read := FetchComments(page, marker);
      if read.Failure? {
        return Failure(read.error);
      }
      PageTells(before, site, page, marker);
      return Success(ScanOf(read.value, marker));
    }

    /** The write itself; a command is posted only once a scan has found no comment of its batch. */
    method Mutate(request: Request, ghost marker: string) returns (result: Result<Sending, GithubError>)
      requires Valid() && Unmarked(turns, marker)
      requires request.PostCommand? ==> marker == Marker(request.batchId)
      modifies this`site, this`turns, this`log
      ensures Valid() && old(log) <= log
      ensures Unmarked(turns, marker) && |turns| <= |old(turns)|
      ensures Once(old(site), site, marker) && (!request.PostCommand? ==> Quiet(old(site), site, marker))
      ensures OnlyWrites(log, |old(log)|, Write(request)) && (request.PostCommand? ==> WritesOnce(log, |old(log)|))
      ensures request.PostCommand? && Marked(old(site).comments, marker) >= 1 ==> OnlyReads(log, |old(log)|)
      ensures request.PostCommand? && result.Failure? && !NoneLeft(log, |old(log)|) ==> result.error.Transport?
      ensures result.Success? && result.value.Sent? ==>
                && !result.value.reply.Unsent? && !result.value.reply.Lost?
                && |old(log)| < |log| && log[|log| - 1].reply == result.value.reply
      ensures |old(log)| < |log| && !IsRead(log[|log| - 1].effect) && log[|log| - 1].reply.Answered? ==>
                result.Success? && result.value.Sent?
      ensures result.Success? && result.value.AlreadyApplied? ==>
                request.PostCommand? && Truly(site, request, result.value.landed)
      ensures result.Success? && result.value.Sent? && result.value.reply.Answered? ==>
                && (request.PostCommand? ==> site.comments != [] && Holds(site, request))
                && (request.UpdateBranch? ==> Holds(site, request))
      ensures old(turns) == [] && Verified(old(site).pull, request.target)
                && !(request.Merge? && old(site).pull.merged) ==>
                && turns == [] && result.Success? && Holds(site, request) && Fit(site.pull, request)
                && (result.value.Sent? ==> result.value.reply.Answered?)
      ensures result.Failure? ==> IsSendError(result.error)
      ensures result.Failure? && result.error.Protocol? ==>
                |old(log)| < |log| && (IsRead(log[|log| - 1].effect) || log[|log| - 1].reply.Unsent?)
    {
      if request.PostCommand? {
        var found := FindCommentWithMarker(Marker(request.batchId));
        if found.Failure? {
          return Failure(found.error);
        }
        if found.value.Some? {
          return Success(AlreadyApplied(
            Landed("command already accepted as comment #" + Decimal(found.value.value), None)));
        }
        ghost var before, scanned := site, log;
        result := Post(request, marker);
        OnceAgain(old(site), before, site, marker);
        ReadsThen(scanned, log, |old(log)|, Write(request));
      } else {
        var reply := InstallationSend(Write(request), marker);
        result := if reply.Success? then Success(Sent(reply.value)) else Failure(reply.error);
      }
    }

    /** The one request that posts a command, no comment of its batch being there. */
    method Post(request: Request, ghost marker: string) returns (result: Result<Sending, GithubError>)
      requires Valid() && Unmarked(turns, marker)
      requires request.PostCommand? && marker == Marker(request.batchId) && Marked(site.comments, marker) == 0
      modifies this`site, this`turns, this`log
      ensures Valid() && old(log) <= log
      ensures Unmarked(turns, marker) && |turns| <= |old(turns)|
      ensures Once(old(site), site, marker)
      ensures OnlyWrites(log, |old(log)|, Write(request)) && WritesOnce(log, |old(log)|)
      ensures result.Failure? && !NoneLeft(log, |old(log)|) ==> result.error.Transport?
      ensures result.Success? ==>
                && result.value.Sent? && !result.value.reply.Unsent? && !result.value.reply.Lost?
                && |old(log)| < |log| && log[|log| - 1].reply == result.value.reply
      ensures |old(log)| < |log| && log[|log| - 1].reply.Answered? ==> result.Success?
      ensures result.Success? && result.value.reply.Answered? ==> site.comments != [] && Holds(site, request)
      ensures result.Failure? ==>
                IsSendError(result.error) && |old(log)| < |log| && (log[|log| - 1].reply.Unsent? || result.error.Transport?)
      ensures old(turns) == [] ==>
                turns == [] && site.pull == old(site).pull && result.Success? && result.value.reply.Answered?
    {
      ghost var turn := NextTurn(site, turns);
      NextUnmarked(site, turns, marker);
      BodyMarked(request.command, request.userId, request.batchId);
      PostOnce(site, Body(request.command, request.userId, request.batchId), turn, marker);
      var reply := Send(Write(request));
      result := if reply.Unsent? || reply.Lost? then Failure(Parsed(reply).error) else Success(Sent(reply));
    }

    /** The read-back: whether the write is seen to have landed. */
    method Confirm(request: Request, ghost marker: string) returns (result: Result<Option<Landed>, GithubError>)
      requires Valid() && Unmarked(turns, marker)
      requires request.PostCommand? ==> marker == Marker(request.batchId)
      modifies this`site, this`turns, this`log
      ensures Valid() && old(log) <= log
      ensures Unmarked(turns, marker) && |turns| <= |old(turns)|
      ensures Quiet(old(site), site, marker) && OnlyReads(log, |old(log)|)
      ensures |old(log)| < |log| && (result.Success? <==> log[|log| - 1].reply.Answered?)
      ensures result.Success? ==> (result.value.Some? <==> Sees(site, request))
      ensures result.Success? && result.value.Some? ==> Truly(site, request, result.value.value)
    {
      if request.PostCommand? {
        var found := FindCommentWithMarker(Marker(request.batchId));
        if found.Failure? {
          return Failure(found.error);
        }
        return Success(
          match found.value
          case Some(id) =>
            Some(Landed("command accepted as comment #" + Decimal(id) + " (confirmed after an ambiguous response)", None))
          case None => None);
      }
      var pull := FetchTarget(marker);
      if pull.Failure? {
        return Failure(pull.error);
      }
      return Success(
        if request.Merge? then MergedAs("merged (confirmed after an ambiguous response)", pull.value)
        else if pull.value.head != request.target.expectedSha then
          Some(Landed("branch updated (confirmed after an ambiguous response)", None))
        else None);
    }

    /** What GitHub's answer to the write says, GitHub having given it at the last request. */
    function ReplyTo(request: Request, message: string): GithubReply
      requires request.PostCommand? ==> site.comments != []
      reads this`site
    {
      match request
      case Merge(_) => MergeResult(site.pull.merged, message, site.pull.mergeCommit)
      case PostCommand(_, _, _, _) => CommentCreated(site.comments[|site.comments| - 1].id)
      case UpdateBranch(_) => UpdateResult(message)
    }

    /**
     `verified_mutation`: fetch, verify, mutate, confirm. `seen` is what the verify read
     showed. No write is asked for before it, and none at all unless it was of the open pull
     request at the head expected.
     */
    method VerifiedMutation(request: Request, ghost marker: string)
      returns (result: Result<MutationOutcome, GithubError>, ghost seen: Option<GithubPull>)
      requires Valid() && Unmarked(turns, marker)
      requires request.PostCommand? ==> marker == Marker(request.batchId)
      modifies this`site, this`turns, this`log
      ensures Valid() && old(log) <= log
      ensures Unmarked(turns, marker) && |turns| <= |old(turns)|
      ensures Once(old(site), site, marker) && (!request.PostCommand? ==> Quiet(old(site), site, marker))
      ensures OnlyWrites(log, |old(log)|, Write(request)) && (request.PostCommand? ==> WritesOnce(log, |old(log)|))
      ensures request.PostCommand? && Marked(old(site).comments, marker) >= 1 ==> OnlyReads(log, |old(log)|)
      ensures VerifiedFirst(log, |old(log)|, request.target)
      ensures !OnlyReads(log, |old(log)|) ==>
                seen.Some? && Verified(seen.value, request.target) && !(request.Merge? && seen.value.merged)
      ensures seen.None? ==> result.Failure?
      ensures seen.Some? ==> exists m :: ReadShows(log, |old(log)|, m, seen.value)
      ensures seen.Some? && request.Merge? && seen.value.merged ==>
                result == Success(Applied(Landed("already merged", seen.value.mergeCommit)))
      ensures seen.Some? && !(request.Merge? && seen.value.merged) && !Verified(seen.value, request.target) ==>
                result == Failure(
                  if seen.value.open && seen.value.byDependabot then
                    StaleSha(request.target.expectedSha, seen.value.head)
                  else NotFoundError)
      ensures AnswerRead(log, |old(log)|, site, request, ReadOut(result))
      ensures ReadOut(result).Success? ==> Truly(site, request, ReadOut(result).value)
      ensures result.Failure? ==> FailsProperly(log, |old(log)|, request, result.error)
      ensures old(turns) == [] ==> turns == [] && seen == Some(old(site).pull)
      ensures old(turns) == [] && Fit(old(site).pull, request) ==>
                result.Success? && IntoApplied(result.value).Success? && Fit(site.pull, request)
    {
      seen := None;
      var pull := FetchTarget(marker);
      if pull.Failure? {
        return Failure(pull.error), seen;
      }
      seen := Some(pull.value);
      var early := DecidedByRead(pull.value, request);
      if early.Some? {
        return early.value, seen;
      }
      ghost var read, fetched := site, log;
      result := MutateAndConfirm(request, marker);
      OnceAgain(old(site), read, site, marker);
      VerifiedThen(fetched, log, |old(log)|, pull.value, site, request, result);
    }

    /** The write to a verified pull request, and the read-back if it is not known to have landed. */
    method MutateAndConfirm(request: Request, ghost marker: string) returns (result: Result<MutationOutcome, GithubError>)
      requires Valid() && Unmarked(turns, marker)
      requires request.PostCommand? ==> marker == Marker(request.batchId)
      modifies this`site, this`turns, this`log
      ensures Valid() && old(log) <= log
      ensures Unmarked(turns, marker) && |turns| <= |old(turns)|
      ensures Once(old(site), site, marker) && (!request.PostCommand? ==> Quiet(old(site), site, marker))
      ensures OnlyWrites(log, |old(log)|, Write(request)) && (request.PostCommand? ==> WritesOnce(log, |old(log)|))
      ensures request.PostCommand? && Marked(old(site).comments, marker) >= 1 ==> OnlyReads(log, |old(log)|)
      ensures AnswerRead(log, |old(log)|, site, request, ReadOut(result))
      ensures ReadOut(result).Success? ==> Truly(site, request, ReadOut(result).value)
      ensures old(turns) == [] && Verified(old(site).pull, request.target)
                && !(request.Merge? && old(site).pull.merged) ==>
                turns == [] && result.Success? && IntoApplied(result.value).Success? && Fit(site.pull, request)
      ensures result.Failure? ==> FailsProperly(log, |old(log)|, request, result.error)
    {
      var sending := Mutate(request, marker);
      match sending {
        case Success(AlreadyApplied(landed)) => return Success(Applied(landed));
        case Success(Sent(Answered(message))) => return Success(Replied(ReplyTo(request, message)));
        case _ =>
      }
      var refusal := match sending
        case Success(Sent(Refused(response))) => Some(Http(response, true))
        case Failure(error) => if error.Transport? then None else Some(error)
        case _ => None;
      if refusal.Some? {
        return Failure(refusal.value);
      }
      ghost var wrote, mutated := site, log;
      var lost := if sending.Failure? then Transport else Ambiguous(OperationOf(request));
      result := ReadBack(request, lost, marker);
      AfterReadBack(old(site), wrote, site, mutated, log, |old(log)|, request, lost, marker);
    }

    /** What is made of a write not known to have landed: done if the read-back shows it, else `lost`. */
    method ReadBack(request: Request, lost: GithubError, ghost marker: string)
      returns (result: Result<MutationOutcome, GithubError>)
      requires Valid() && Unmarked(turns, marker)
      requires request.PostCommand? ==> marker == Marker(request.batchId)
      modifies this`site, this`turns, this`log
      ensures Valid() && old(log) <= log
      ensures Unmarked(turns, marker) && |turns| <= |old(turns)|
      ensures Quiet(old(site), site, marker) && OnlyReads(log, |old(log)|)
      ensures result.Success? ==> result.value.Applied? && Truly(site, request, result.value.landed)
      ensures result.Failure? ==> result.error == lost && Unconfirmed(log, |old(log)|, request)
      ensures |old(log)| < |log|
      ensures result.Success? <==> Sees(site, request) && log[|log| - 1].reply.Answered?
    {
      var confirmed := Confirm(request, marker);
      result :=
        if confirmed.Success? && confirmed.value.Some? then Success(Applied(confirmed.value.value))
        else Failure(lost);
    }

    /** `merge`, `post_command` and `update_branch`. */
    method Call(request: Request, ghost marker: string) returns (result: Result<Landed, GithubError>)
      requires Valid() && Unmarked(turns, marker)
      requires request.PostCommand? ==> marker == Marker(request.batchId)
      modifies this
      ensures Valid() && old(log) <= log
      ensures Unmarked(turns, marker) && |turns| <= |old(turns)|
      ensures Once(old(site), site, marker) && (!request.PostCommand? ==> Quiet(old(site), site, marker))
      ensures request.PostCommand? && Marked(old(site).comments, marker) >= 1 ==> OnlyReads(log, |old(log)|)
      ensures OnlyWrites(log, |old(log)|, Write(request)) && (request.PostCommand? ==> WritesOnce(log, |old(log)|))
      ensures result.Failure? ==> FailsProperly(log, |old(log)|, request, result.error)
      ensures calls == old(calls) + [result]
      ensures AsksOnlyFor(log, |old(log)|, request)
      ensures AnswerRead(log, |old(log)|, site, request, result)
      ensures VerifiedFirst(log, |old(log)|, request.target)
      ensures result.Success? ==> Truly(site, request, result.value)
      ensures result.Success? && request.Merge? ==>
                (site.pull.head != request.target.expectedSha <==>
                   || MergedElsewhere(old(site).pull, request.target.expectedSha)
                   || OthersMerged(log, |old(log)|, |log|, request.target.expectedSha))
      ensures request.PostCommand? && !userCommands ==>
                result == Failure(NoUserToken) && site == old(site) && log == old(log)
      ensures old(turns) == [] && (request.PostCommand? ==> userCommands) ==>
                && (Fit(old(site).pull, request) ==> result.Success? && turns == [] && Fit(site.pull, request))
                && (!Verified(old(site).pull, request.target) && !(request.Merge? && old(site).pull.merged) ==>
                      result.Failure? && OnlyReads(log, |old(log)|))
                && (request.Merge? && old(site).pull.merged ==> result.Success? && OnlyReads(log, |old(log)|))
    {
      if request.PostCommand? && !userCommands {
        calls := calls + [Failure(NoUserToken)];
        return Failure(NoUserToken);
      }
      var outcome, seen := VerifiedMutation(request, marker);
      WriteAsksFor(log, |old(log)|, request);
      result := ReadOut(outcome);
      calls := calls + [result];
      if request.Merge? {
        MergedWhere(log, start, script, site, turns, |old(log)|, request.target.expectedSha);
      }
    }
  }

  // ----- The journaled step -----

  /** What becomes of one run of the step's closure, beside what GitHub does. */
  datatype Fate = Fate(
    now: u64,
    forgotten: bool,   // the process died before the result was journaled: the closure runs again
    exhausted: bool)   // the retry policy has no time left

  datatype StepError = GaveUp | Terminated | KeptRateLimiting(until: u64) | Fatal(response: ErrorResponse)

  /** Requests later: no write but the one asked for, and each after a read that verified its target. */
  ghost predicate Proper(before: seq<Exchange>, after: seq<Exchange>, request: Request) {
    && before <= after
    && OnlyWrites(after, |before|, Write(request)) && VerifiedFirst(after, |before|, request.target)
  }

  /** Every time slept until is one a call was told to wait until, in the order of the calls. */
  ghost predicate SleptFor(
    sleeps: seq<u64>, from: nat, calls: seq<Result<Landed, GithubError>>, since: nat, request: Request,
    knownResource: bool)
  {
    forall n :: from <= n < |sleeps| ==> ToldToWait(sleeps[n], calls, since, request, knownResource)
  }

  ghost predicate ToldToWait(
    until: u64, calls: seq<Result<Landed, GithubError>>, since: nat, request: Request, knownResource: bool)
  {
    exists j, response :: since <= j < |calls| && Leaves(calls[j], request, knownResource, Journaled(Wait(until, response)))
  }

  lemma {:induction false} StillSleptFor(
    sleeps: seq<u64>, from: nat, calls: seq<Result<Landed, GithubError>>, more: seq<Result<Landed, GithubError>>,
    since: nat, request: Request, knownResource: bool)
    requires SleptFor(sleeps, from, calls, since, request, knownResource) && calls <= more
    ensures SleptFor(sleeps, from, more, since, request, knownResource)
  {
    forall n | from <= n < |sleeps|
      ensures ToldToWait(sleeps[n], more, since, request, knownResource)
    {
      assert ToldToWait(sleeps[n], calls, since, request, knownResource);
      var j, response :| since <= j < |calls|
                      && Leaves(calls[j], request, knownResource, Journaled(Wait(sleeps[n], response)));
      assert more[j] == calls[j];
    }
  }

  /** At some time, `result` is journaled as `entry`. */
  ghost predicate Leaves(result: Result<Landed, GithubError>, request: Request, knownResource: bool, entry: Entry<Landed>) {
    exists now: u64 :: LeavesAt(result, request, knownResource, now, entry)
  }

  predicate LeavesAt(
    result: Result<Landed, GithubError>, request: Request, knownResource: bool, now: u64, entry: Entry<Landed>)
  {
    var operation := match request
      case Merge(_) => Operation.Merge
      case PostCommand(_, _, _, _) => Operation.Comment
      case UpdateBranch(_) => Operation.UpdateBranch;
    Journal(result, operation, knownResource, now) == entry
  }

  /** Requests later, all of it: what was asked, and what became of the marker. */
  ghost predicate Progress(
    before: Site, asked: seq<Exchange>, after: Site, log: seq<Exchange>, request: Request, marker: string)
  {
    && Once(before, after, marker) && Proper(asked, log, request)
    && (request.PostCommand? && Marked(before.comments, marker) >= 1 ==> OnlyReads(log, |asked|))
  }

  lemma {:induction false} ProgressOn(
    a: Site, aLog: seq<Exchange>, b: Site, bLog: seq<Exchange>, c: Site, cLog: seq<Exchange>,
    request: Request, marker: string)
    requires Progress(a, aLog, b, bLog, request, marker) && Progress(b, bLog, c, cLog, request, marker)
    ensures Progress(a, aLog, c, cLog, request, marker)
  {
    OnceAgain(a, b, c, marker);
    ProperOn(aLog, bLog, cLog, request);
  }

  lemma {:induction false} ProperOn(a: seq<Exchange>, b: seq<Exchange>, c: seq<Exchange>, request: Request)
    requires Proper(a, b, request) && Proper(b, c, request)
    ensures Proper(a, c, request)
    ensures OnlyReads(b, |a|) && OnlyReads(c, |b|) ==> OnlyReads(c, |a|)
  {
    WritesThen(b, c, |a|, Write(request), request.target);
  }

  /** What a settled write is reported as: done, stale, refused for its reason, or the handler fails. */
  ghost predicate OutcomeOf(settled: Settled<Landed>, outcome: Result<ActionOutcome, StepError>) {
    match settled
    case Ok(landed) => outcome == Success(BatchProgress.ActionOutcome.Succeeded(landed.detail, landed.sha))
    case Stale(expected, actual) =>
      outcome == Success(BatchProgress.ActionOutcome.Rejected(BatchProgress.RejectReason.StaleSha(expected, actual)))
    case Refused(reason, _) => outcome == Success(BatchProgress.ActionOutcome.Rejected(reason))
    case Broken(response) => outcome == Failure(StepError.Fatal(response))
  }

  /** One journaled step around a write, and the deadlines it has slept until. */
  class GithubStep {
    const client: Client
    const request: Request
    const knownResource: bool
    var fates: seq<Fate>
    var sleeps: seq<u64>

    constructor (client: Client, request: Request, knownResource: bool, fates: seq<Fate>)
      ensures this.client == client && this.request == request && this.knownResource == knownResource
      ensures this.fates == fates && sleeps == []
    {
      this.client, this.request, this.knownResource := client, request, knownResource;
      this.fates, this.sleeps := fates, [];
    }

    ghost predicate Ready(marker: string)
      reads this, client
    {
      && client.Valid() && Unmarked(client.turns, marker)
      && (request.PostCommand? ==> marker == Marker(request.batchId))
    }

    /** GitHub goes on as it is, and the pull request is fit for what is asked. */
    ghost predicate Quietly()
      reads this, client
    {
      client.turns == [] && Fit(client.site.pull, request) && (request.PostCommand? ==> client.userCommands)
    }

    /** The last call's result is what the journal made this of. */
    ghost predicate CameTo(entry: Entry<Landed>)
      reads this, client
    {
      client.calls != [] && Leaves(client.calls[|client.calls| - 1], request, knownResource, entry)
    }

    /** The closure, once. */
    method RunClosure(ghost marker: string) returns (called: Result<Landed, GithubError>)
      requires Ready(marker)
      modifies client
      ensures Ready(marker) && client.calls == old(client.calls) + [called]
      ensures Progress(old(client.site), old(client.log), client.site, client.log, request, marker)
      ensures called.Success? ==> Truly(client.site, request, called.value)
      ensures old(Quietly()) ==> Quietly() && called.Success?
    {
      called := client.Call(request, marker);
    }

    /** What is journaled of a call's result. */
    method Record(called: Result<Landed, GithubError>, now: u64) returns (entry: Entry<Landed>)
      ensures Leaves(called, request, knownResource, entry)
      ensures called.Success? ==> entry == Journaled(Done(Ok(called.value)))
      ensures entry.Journaled? && entry.attempt.Done? && entry.attempt.settled.Ok? ==>
                called == Success(entry.attempt.settled.value)
    {
      entry := Journal(called, OperationOf(request), knownResource, now);
      assert LeavesAt(called, request, knownResource, now, entry);
    }

    /** `ctx.run`: the closure runs until a result is journaled, its time is up, or it fails for good. */
    method Attempt(ghost marker: string) returns (result: Result<Attempt<Landed>, StepError>)
      requires Ready(marker)
      modifies client, this`fates
      ensures Ready(marker)
      ensures Progress(old(client.site), old(client.log), client.site, client.log, request, marker)
      ensures result.Success? && result.value.Done? && result.value.settled.Ok? ==>
                Truly(client.site, request, result.value.settled.value)
      ensures old(client.calls) < client.calls
      ensures CameTo(match result
                     case Success(attempt) => Journaled(attempt)
                     case Failure(GaveUp) => Retry
                     case Failure(_) => Terminal)
      ensures result.Failure? ==> result.error.GaveUp? || result.error.Terminated?
      ensures old(Quietly()) ==> Quietly() && result.Success? && result.value.Done? && result.value.settled.Ok?
    {
      while true
        invariant Ready(marker)
        invariant Progress(old(client.site), old(client.log), client.site, client.log, request, marker)
        invariant old(client.calls) <= client.calls && (old(Quietly()) ==> Quietly())
        decreases |fates|
      {
        var fate := if fates == [] then Fate(0, false, true) else fates[0];
        var more := fates != [];
        fates := if more then fates[1..] else [];
        ghost var before, asked := client.site, client.log;
        var called := RunClosure(marker);
        ProgressOn(old(client.site), old(client.log), before, asked, client.site, client.log, request, marker);
        if !fate.forgotten || !more {
          var entry := Record(called, fate.now);
          match entry {
            case Journaled(attempt) => return Success(attempt);
            case Terminal => return Failure(Terminated);
            case Retry =>
              if fate.exhausted || !more {
                return Failure(GaveUp);
              }
          }
        }
      }
    }

    /**
     `run_github_step`: a rate limit is slept out and the step run again, three times at most.
     However often that makes the closure run, and whatever is lost, a command is posted at
     most once, and it is reported as done only if it is.
     */
    method RunGithubStep(ghost marker: string) returns (result: Result<Settled<Landed>, StepError>)
      requires Ready(marker)
      modifies client, this
      ensures Ready(marker)
      ensures Progress(old(client.site), old(client.log), client.site, client.log, request, marker)
      ensures request.PostCommand? && Marked(old(client.site).comments, marker) <= 1 ==>
                Marked(client.site.comments, marker) <= 1
      ensures result.Success? && result.value.Ok? ==> Truly(client.site, request, result.value.value)
      ensures old(client.calls) < client.calls
      ensures match result
        case Success(settled) => CameTo(Journaled(Done(settled)))
        case Failure(GaveUp) => CameTo(Retry)
        case Failure(KeptRateLimiting(until)) => exists response :: CameTo(Journaled(Wait(until, response)))
        case Failure(error) => error.Terminated? && CameTo(Terminal)
      ensures old(Quietly()) ==> Quietly() && result.Success? && result.value.Ok? && sleeps == old(sleeps)
      ensures old(sleeps) <= sleeps && |sleeps| <= |old(sleeps)| + 3
      ensures SleptFor(sleeps, |old(sleeps)|, client.calls, |old(client.calls)|, request, knownResource)
      ensures result.Failure? && result.error.KeptRateLimiting? ==> |sleeps| == |old(sleeps)| + 3
    {
      var waits := 0;
      while true
        invariant 0 <= waits <= MAX_RATE_LIMIT_WAITS
        invariant old(sleeps) <= sleeps && |sleeps| == |old(sleeps)| + waits
        invariant Ready(marker)
        invariant Progress(old(client.site), old(client.log), client.site, client.log, request, marker)
        invariant old(client.calls) <= client.calls && (old(Quietly()) ==> waits == 0 && Quietly())
        invariant SleptFor(sleeps, |old(sleeps)|, client.calls, |old(client.calls)|, request, knownResource)
        decreases MAX_RATE_LIMIT_WAITS - waits
      {
        ghost var before, asked, called := client.site, client.log, client.calls;
        var attempt := Attempt(marker);
        StillSleptFor(sleeps, |old(sleeps)|, called, client.calls, |old(client.calls)|, request, knownResource);
        ProgressOn(old(client.site), old(client.log), before, asked, client.site, client.log, request, marker);
        if attempt.Failure? {
          return Failure(attempt.error);
        }
        if attempt.value.Done? {
          return Success(attempt.value.settled);
        }
        if waits == MAX_RATE_LIMIT_WAITS {
          return Failure(KeptRateLimiting(attempt.value.until));
        }
        waits := waits + 1;
        assert Leaves(client.calls[|client.calls| - 1], request, knownResource,
                      Journaled(Wait(attempt.value.until, attempt.value.response)));
        assert ToldToWait(attempt.value.until, client.calls, |old(client.calls)|, request, knownResource);
        sleeps := sleeps + [attempt.value.until];
      }
    }

    /** What the pull request's handler reports: done, if it says so, is what GitHub shows. */
    method Act(ghost marker: string) returns (outcome: Result<ActionOutcome, StepError>)
      requires Ready(marker)
      modifies client, this
      ensures Ready(marker)
      ensures Progress(old(client.site), old(client.log), client.site, client.log, request, marker)
      ensures outcome.Success? && outcome.value.Succeeded? ==>
                Truly(client.site, request, Landed(outcome.value.detail, outcome.value.mergeSha))
      ensures outcome.Success? && outcome.value.Succeeded? && request.PostCommand?
                && Marked(old(client.site).comments, marker) <= 1 ==>
                Marked(client.site.comments, marker) == 1
      ensures old(client.calls) < client.calls
      ensures outcome.Success? || outcome.error.Fatal? ==>
                exists settled :: CameTo(Journaled(Done(settled))) && OutcomeOf(settled, outcome)
      ensures outcome.Failure? ==>
        match outcome.error
        case GaveUp => CameTo(Retry)
        case Terminated => CameTo(Terminal)
        case KeptRateLimiting(until) => exists response :: CameTo(Journaled(Wait(until, response)))
        case Fatal(_) => true
      ensures old(Quietly()) ==> Quietly() && outcome.Success? && outcome.value.Succeeded?
      ensures AsksOnlyFor(client.log, |old(client.log)|, request)
      ensures outcome.Success? && outcome.value.Succeeded? && request.Merge? ==>
                (client.site.pull.head != request.target.expectedSha <==>
                   || MergedElsewhere(old(client.site).pull, request.target.expectedSha)
                   || OthersMerged(client.log, |old(client.log)|, |client.log|, request.target.expectedSha))
    {
      var settled := RunGithubStep(marker);
      WriteAsksFor(client.log, |old(client.log)|, request);
      if settled.Failure? {
        return Failure(settled.error);
      }
      var reported := SettledOutcome(settled.value);
      outcome := if reported.Success? then Success(reported.value) else Failure(StepError.Fatal(reported.error));
      assert CameTo(Journaled(Done(settled.value))) && OutcomeOf(settled.value, outcome);
      if request.Merge? {
        MergedWhere(client.log, client.start, client.script, client.site, client.turns, |old(client.log)|,
                    request.target.expectedSha);
      }
    }
  }

  /**
   A merge reported as done is of the pull request, not of the head it was asked for: one
   merged by someone else at another head is reported the same.
   */
  method MergedAtAnotherHead(target: PrTarget, head: string, commit: Option<string>)
    returns (client: Client, result: Result<Landed, GithubError>)
    requires head != target.expectedSha
    ensures result.Success? && client.site.pull.merged && client.site.pull.head == head
    ensures OnlyReads(client.log, 0)
  {
    var pull := GithubPull(false, true, head, true, commit);
    client := new Client(false, Site([], pull, {}), []);
    assert Unmarked(client.turns, "");
    result := client.Call(Request.Merge(target), "");
  }
}

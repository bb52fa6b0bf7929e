/**
 The listing of an installation's repositories, read page by page while repositories may
 join and leave, and the fold that accepts it as the whole set or refuses it.
 */
module RepositoryListing {
  import opened Wrappers
  import opened PrKeys
  import opened GithubSteps

  datatype MergeMethod = MergeCommit | Squash | Rebase

  datatype MergeSettings = MergeSettings(allowSquash: bool, allowMerge: bool, allowRebase: bool)
  {
    predicate Allows(m: MergeMethod) {
      match m
      case Squash => allowSquash
      case MergeCommit => allowMerge
      case Rebase => allowRebase
    }

    /** Squash before merge before rebase, if the preferred method will not do and one will. */
    function MethodInsteadOf(preferred: MergeMethod): (r: Option<MergeMethod>)
      ensures r.Some? ==> Allows(r.value) && !Allows(preferred)
      ensures r.None? <==> Allows(preferred) || forall m :: !Allows(m)
      ensures r == Some(Squash) <==> !Allows(preferred) && allowSquash
      ensures r == Some(MergeCommit) <==> !Allows(preferred) && !allowSquash && allowMerge
      ensures r == Some(Rebase) <==> !Allows(preferred) && !allowSquash && !allowMerge && allowRebase
    {
      if Allows(preferred) then None
      else if Allows(Squash) then Some(Squash)
      else if Allows(MergeCommit) then Some(MergeCommit)
      else if Allows(Rebase) then Some(Rebase)
      else None
    }
  }

  datatype GithubRepository = GithubRepository(id: u64, owner: string, name: string, settings: MergeSettings)

  /** One page, beside how many repositories the installation has in all. */
  datatype ListingPage = ListingPage(totalCount: nat, repositories: seq<GithubRepository>)

  datatype RepoRecord = RepoRecord(
    repositoryId: u64, installationId: u64, owner: string, repo: string,
    mergeMethod: Option<MergeMethod>, syncedAt: u64)

  function Record(r: GithubRepository, installationId: u64, preferred: MergeMethod, syncedAt: u64): RepoRecord {
    RepoRecord(r.id, installationId, r.owner, r.name, r.settings.MethodInsteadOf(preferred), syncedAt)
  }

  function Records(rs: seq<GithubRepository>, installationId: u64, preferred: MergeMethod, syncedAt: u64)
    : seq<RepoRecord>
  {
    seq(|rs|, i requires 0 <= i < |rs| => Record(rs[i], installationId, preferred, syncedAt))
  }

  function IdsOf(rs: seq<GithubRepository>): set<u64> {
    set r | r in rs :: r.id
  }

  /** No id is listed twice. */
  ghost predicate Distinct(rs: seq<GithubRepository>) {
    forall i, j :: 0 <= i < j < |rs| ==> rs[i].id != rs[j].id
  }

  /** Everything the pages list, repeats and all. */
  function Listed(pages: seq<ListingPage>): seq<GithubRepository> {
    if pages == [] then [] else Listed(pages[..|pages| - 1]) + pages[|pages| - 1].repositories
  }

  // ----- The fold -----

  /** Each repository where it is first listed. */
  function Firsts(rs: seq<GithubRepository>): seq<GithubRepository> {
    if rs == [] then []
    else
      var before, last := rs[..|rs| - 1], rs[|rs| - 1];
      if last.id in IdsOf(before) then Firsts(before) else Firsts(before) + [last]
  }

  lemma {:induction false} IdsAppend(rs: seq<GithubRepository>, r: GithubRepository)
    ensures IdsOf(rs + [r]) == IdsOf(rs) + {r.id}
  {
    assert forall x :: x in rs + [r] <==> x in rs || x == r;
  }

  /** Firsts keeps every id, and once. */
  lemma {:induction false} FirstsExactly(rs: seq<GithubRepository>)
    ensures IdsOf(Firsts(rs)) == IdsOf(rs) && |Firsts(rs)| == |IdsOf(rs)| && Distinct(Firsts(rs))
  {
    if rs != [] {
      var before, last := rs[..|rs| - 1], rs[|rs| - 1];
      FirstsExactly(before);
      assert rs == before + [last];
      IdsAppend(before, last);
      if last.id !in IdsOf(before) {
        IdsAppend(Firsts(before), last);
        NewStaysDistinct(Firsts(before), last);
      }
    }
  }

  lemma {:induction false} NewStaysDistinct(rs: seq<GithubRepository>, r: GithubRepository)
    requires Distinct(rs) && r.id !in IdsOf(rs)
    ensures Distinct(rs + [r])
  {
    assert forall i :: 0 <= i < |rs| ==> rs[i].id in IdsOf(rs);
  }

  /** The repository `r` is where its id is listed first. */
  ghost predicate ListedFirst(rs: seq<GithubRepository>, r: GithubRepository) {
    exists i :: 0 <= i < |rs| && rs[i] == r && r.id !in IdsOf(rs[..i])
  }

  /** Of the repositories with one id, Firsts keeps the one listed first. */
  lemma {:induction false} FirstsAreFirst(rs: seq<GithubRepository>, r: GithubRepository)
    requires r in Firsts(rs)
    ensures ListedFirst(rs, r)
  {
    var before := rs[..|rs| - 1];
    if r in Firsts(before) {
      FirstsAreFirst(before, r);
      var i :| 0 <= i < |before| && before[i] == r && r.id !in IdsOf(before[..i]);
      assert before[..i] == rs[..i] && rs[i] == r;
    } else {
      assert rs[..|before|] == before && rs[|before|] == r;
    }
  }

  /** And in the order they are first listed: what the start of a listing keeps comes first. */
  lemma {:induction false} FirstsInOrder(rs: seq<GithubRepository>, n: nat)
    requires n <= |rs|
    ensures Firsts(rs[..n]) <= Firsts(rs)
    decreases |rs| - n
  {
    if n == |rs| {
      assert rs[..n] == rs;
    } else {
      FirstsInOrder(rs, n + 1);
      assert rs[..n + 1][..n] == rs[..n];
    }
  }

  lemma {:induction false} DistinctAreFirst(rs: seq<GithubRepository>)
    requires Distinct(rs)
    ensures Firsts(rs) == rs
  {
    if rs != [] {
      var before, last := rs[..|rs| - 1], rs[|rs| - 1];
      DistinctAreFirst(before);
      assert rs == before + [last] && last.id !in IdsOf(before);
    }
  }

  /** There are as many ids as repositories listed exactly when none is listed twice. */
  lemma {:induction false} CountsIffDistinct(rs: seq<GithubRepository>)
    ensures |IdsOf(rs)| <= |rs|
    ensures |IdsOf(rs)| == |rs| <==> Distinct(rs)
  {
    FirstsExactly(rs);
    ShorterUnlessDistinct(rs);
    if Distinct(rs) {
      DistinctAreFirst(rs);
    }
  }

  lemma {:induction false} ShorterUnlessDistinct(rs: seq<GithubRepository>)
    ensures |Firsts(rs)| <= |rs|
    ensures |Firsts(rs)| == |rs| ==> Firsts(rs) == rs
  {
    if rs != [] {
      ShorterUnlessDistinct(rs[..|rs| - 1]);
    }
  }

  function Total(pages: seq<ListingPage>): nat {
    if pages == [] then 0 else pages[0].totalCount
  }

  /** Every page reports the first total, and that many repositories were listed. */
  ghost predicate Accepted(pages: seq<ListingPage>) {
    && (forall i :: 0 <= i < |pages| ==> pages[i].totalCount == Total(pages))
    && |IdsOf(Listed(pages))| == Total(pages)
  }

  /** What a record says of a repository, and of the listing it came with. */
  ghost predicate RecordSays(
    record: RepoRecord, r: GithubRepository, installationId: u64, preferred: MergeMethod, syncedAt: u64)
  {
    && record.repositoryId == r.id && record.owner == r.owner && record.repo == r.name
    && record.installationId == installationId && record.syncedAt == syncedAt
    && (record.mergeMethod.None? <==>
          || (preferred == Squash && r.settings.allowSquash)
          || (preferred == MergeCommit && r.settings.allowMerge)
          || (preferred == Rebase && r.settings.allowRebase)
          || !(r.settings.allowSquash || r.settings.allowMerge || r.settings.allowRebase))
    && (record.mergeMethod.Some? ==>
          record.mergeMethod.value ==
          if r.settings.allowSquash then Squash else if r.settings.allowMerge then MergeCommit else Rebase)
  }

  /** The records are those of the repositories where they are first listed, in that order. */
  ghost predicate RecordsFirsts(
    records: seq<RepoRecord>, listed: seq<GithubRepository>, installationId: u64, preferred: MergeMethod, syncedAt: u64)
  {
    && |records| == |Firsts(listed)|
    && forall i :: 0 <= i < |records| ==> RecordSays(records[i], Firsts(listed)[i], installationId, preferred, syncedAt)
  }

  lemma {:induction false} RecordsAreFirsts(
    listed: seq<GithubRepository>, installationId: u64, preferred: MergeMethod, syncedAt: u64)
    ensures RecordsFirsts(Records(Firsts(listed), installationId, preferred, syncedAt), listed, installationId, preferred, syncedAt)
  {
  }

  /** `fold_repository_pages`. */
  method FoldRepositoryPages(pages: seq<ListingPage>, installationId: u64, preferred: MergeMethod, syncedAt: u64)
    returns (result: Result<seq<RepoRecord>, GithubError>)
    ensures result.Success? <==> Accepted(pages)
    ensures result.Success? ==> RecordsFirsts(result.value, Listed(pages), installationId, preferred, syncedAt)
    ensures result.Failure? ==> result.error.Shifted?
  {
    var total: Option<nat> := None;
    var repositories: seq<RepoRecord> := [];
    for i := 0 to |pages|
      invariant total == if i == 0 then None else Some(Total(pages))
      invariant forall k :: 0 <= k < i ==> pages[k].totalCount == Total(pages)
      invariant repositories == Records(Listed(pages[..i]), installationId, preferred, syncedAt)
    {
      var page := pages[i];
      if total.None? {
        total := Some(page.totalCount);
      }
      if page.totalCount != total.value {
        return Failure(Shifted("the total moved between pages"));
      }
      assert pages[..i + 1][..i] == pages[..i];
      repositories := repositories + Records(page.repositories, installationId, preferred, syncedAt);
    }
    assert pages[..|pages|] == pages;
    var kept := RetainFirst(repositories, Listed(pages), installationId, preferred, syncedAt);
    FirstsExactly(Listed(pages));
    RecordsAreFirsts(Listed(pages), installationId, preferred, syncedAt);
    if |kept| != (if total.None? then 0 else total.value) {
      return Failure(Shifted("the distinct repositories listed are not the total"));
    }
    result := Success(kept);
  }

  /** Drops every record whose repository came before. */
  method RetainFirst(
    repositories: seq<RepoRecord>, ghost listed: seq<GithubRepository>, ghost installationId: u64,
    ghost preferred: MergeMethod, ghost syncedAt: u64)
    returns (kept: seq<RepoRecord>)
    requires repositories == Records(listed, installationId, preferred, syncedAt)
    ensures kept == Records(Firsts(listed), installationId, preferred, syncedAt)
  {
    kept := [];
    var seen: set<u64> := {};
    for i := 0 to |repositories|
      invariant kept == Records(Firsts(listed[..i]), installationId, preferred, syncedAt)
      invariant seen == IdsOf(listed[..i])
    {
      assert listed[..i + 1] == listed[..i] + [listed[i]];
      if repositories[i].repositoryId !in seen {
        seen := seen + {repositories[i].repositoryId};
        kept := kept + [repositories[i]];
      }
    }
    assert listed[..|repositories|] == listed;
  }

  // ----- The page loop -----

  /** The page that ends a listing is short, or reaches the total the first page reported. */
  predicate Ends(pages: seq<ListingPage>)
    requires pages != []
  {
    |pages[|pages| - 1].repositories| < LISTING_PAGE_SIZE || |Listed(pages)| >= Total(pages)
  }

  /** The pages of one listing: as many as it takes and no more. */
  ghost predicate WholeListing(pages: seq<ListingPage>) {
    pages != [] && Ends(pages) && GoesOn(pages[..|pages| - 1])
  }

  ghost predicate GoesOn(pages: seq<ListingPage>) {
    forall k :: 1 <= k <= |pages| ==> !Ends(pages[..k])
  }

  lemma {:induction false} OnePageMore(pages: seq<ListingPage>, page: ListingPage)
    requires GoesOn(pages)
    ensures Listed(pages + [page]) == Listed(pages) + page.repositories
    ensures if Ends(pages + [page]) then WholeListing(pages + [page]) else GoesOn(pages + [page])
  {
    var more := pages + [page];
    assert more[..|pages|] == pages;
    if !Ends(more) {
      forall k | 1 <= k <= |more|
        ensures !Ends(more[..k])
      {
        if k <= |pages| {
          assert more[..k] == pages[..k];
        } else {
          assert more[..k] == more;
        }
      }
    }
  }

  /**
   `list_installation_repositories`, `read(i)` being what the read of page `i` comes to
   and `pages` the pages it read. It stops whatever GitHub reports, and what it accepts is all of what it was told there is.
   */
  method ListInstallationRepositories(
    read: nat -> Result<ListingPage, GithubError>, installationId: u64, preferred: MergeMethod, syncedAt: u64)
    returns (result: Result<seq<RepoRecord>, GithubError>, pages: seq<ListingPage>)
    ensures forall i :: 0 <= i < |pages| ==> read(i) == Success(pages[i])
    ensures result.Success? ==> WholeListing(pages) && Accepted(pages)
    ensures result.Success? ==> RecordsFirsts(result.value, Listed(pages), installationId, preferred, syncedAt)
    ensures result.Failure? ==>
              || (WholeListing(pages) && !Accepted(pages) && result.error.Shifted?)
              || read(|pages|) == Failure(result.error)
  {
    pages := [];
    var listed := 0;
    while true
      invariant forall i :: 0 <= i < |pages| ==> read(i) == Success(pages[i])
      invariant listed == |Listed(pages)|
      invariant GoesOn(pages) && (pages != [] ==> !Ends(pages))
      decreases pages == [], Total(pages) - listed
    {
      var answer := read(|pages|);
      if answer.Failure? {
        return Failure(answer.error), pages;
      }
      var page := answer.value;
      listed := listed + |page.repositories|;
      var total := if pages == [] then page.totalCount else pages[0].totalCount;
      var last := |page.repositories| < LISTING_PAGE_SIZE || listed >= total;
      OnePageMore(pages, page);
      pages := pages + [page];
      if last {
        break;
      }
    }
    result := FoldRepositoryPages(pages, installationId, preferred, syncedAt);
  }

  // ----- What pages of a changing installation come to -----

  /** Where page `i` starts in a listing of `n`. */
  function Cut(n: nat, i: nat): nat {
    if LISTING_PAGE_SIZE * i < n then LISTING_PAGE_SIZE * i else n
  }

  /** Page `i` of an installation that is `list` when the page is read. */
  function PageOf(list: seq<GithubRepository>, i: nat): ListingPage {
    ListingPage(|list|, list[Cut(|list|, i)..Cut(|list|, i + 1)])
  }

  /** Every page was read of an installation of `n`. */
  ghost predicate Sized(pages: seq<ListingPage>, n: nat) {
    forall i :: 0 <= i < |pages| ==>
      pages[i].totalCount == n && |pages[i].repositories| == Cut(n, i + 1) - Cut(n, i)
  }

  lemma {:induction false} EndsExactly(pages: seq<ListingPage>, n: nat)
    requires Sized(pages, n)
    ensures |Listed(pages)| == Cut(n, |pages|)
    ensures pages != [] ==> (Ends(pages) <==> n <= LISTING_PAGE_SIZE * |pages|)
  {
    if pages != [] {
      EndsExactly(pages[..|pages| - 1], n);
    }
  }

  /** As many pages are read as hold `n` repositories, and one if there is none. */
  lemma {:induction false} ReadsNoMore(pages: seq<ListingPage>, n: nat)
    requires WholeListing(pages) && Sized(pages, n)
    ensures n <= LISTING_PAGE_SIZE * |pages|
    ensures |pages| == 1 || LISTING_PAGE_SIZE * (|pages| - 1) < n
  {
    EndsExactly(pages, n);
    if |pages| > 1 {
      var earlier := pages[..|pages| - 1];
      assert earlier[..|earlier|] == earlier;
      EndsExactly(earlier, n);
    }
  }

  /** The installation is `before` for the first `j` page reads and `after` from then on. */
  ghost predicate ChangesAt(pages: seq<ListingPage>, before: seq<GithubRepository>, after: seq<GithubRepository>, j: nat) {
    forall i :: 0 <= i < |pages| ==> pages[i] == PageOf(if i < j then before else after, i)
  }

  /** What the first `k` pages list of such an installation. */
  function Across(before: seq<GithubRepository>, after: seq<GithubRepository>, j: nat, k: nat): seq<GithubRepository>
    requires |before| == |after|
  {
    var n := |before|;
    if k <= j then before[..Cut(n, k)] else before[..Cut(n, j)] + after[Cut(n, j)..Cut(n, k)]
  }

  lemma {:induction false} AcrossGrows(before: seq<GithubRepository>, after: seq<GithubRepository>, j: nat, k: nat)
    requires |before| == |after|
    ensures Across(before, after, j, k + 1)
         == Across(before, after, j, k) + PageOf(if k < j then before else after, k).repositories
  {
    var n := |before|;
    var here, next := Cut(n, k), Cut(n, k + 1);
    assert here <= next;
    if k < j {
      assert before[..next] == before[..here] + before[here..next];
    } else {
      var from := Cut(n, j);
      assert from <= here;
      assert after[from..next] == after[from..here] + after[here..next];
      assert k == j ==> Across(before, after, j, k) == before[..from] + after[from..here];
    }
  }

  lemma {:induction false} ListedAcross(
    pages: seq<ListingPage>, before: seq<GithubRepository>, after: seq<GithubRepository>, j: nat)
    requires |before| == |after| && ChangesAt(pages, before, after, j)
    ensures Listed(pages) == Across(before, after, j, |pages|)
  {
    if pages == [] {
      assert before[..Cut(|before|, 0)] == [];
    } else {
      var k := |pages| - 1;
      ListedAcross(pages[..k], before, after, j);
      AcrossGrows(before, after, j, k);
    }
  }

  lemma {:induction false} SizedThroughout(
    pages: seq<ListingPage>, before: seq<GithubRepository>, after: seq<GithubRepository>, j: nat)
    requires |before| == |after| && ChangesAt(pages, before, after, j)
    ensures Sized(pages, |before|)
  {
  }

  /** An installation that does not change is listed exactly, in as few page reads as hold it. */
  lemma {:induction false} UnchangedIsExact(pages: seq<ListingPage>, list: seq<GithubRepository>)
    requires WholeListing(pages) && Distinct(list) && ChangesAt(pages, list, list, 0)
    ensures Accepted(pages) && Firsts(Listed(pages)) == list
    ensures |list| <= LISTING_PAGE_SIZE * |pages|
    ensures |pages| == 1 || LISTING_PAGE_SIZE * (|pages| - 1) < |list|
  {
    ListedAcross(pages, list, list, 0);
    SizedThroughout(pages, list, list, 0);
    ReadsNoMore(pages, |list|);
    assert Listed(pages) == list;
    DistinctAreFirst(list);
    CountsIffDistinct(list);
  }

  function Left(list: seq<GithubRepository>, p: nat): seq<GithubRepository>
    requires p < |list|
  {
    list[..p] + list[p + 1..]
  }

  function Joined(list: seq<GithubRepository>, q: nat, r: GithubRepository): seq<GithubRepository>
    requires q <= |list|
  {
    list[..q] + [r] + list[q..]
  }

  /** One repository more, or one fewer, from some page read on is always noticed. */
  lemma {:induction false} JoiningOrLeavingIsRefused(
    pages: seq<ListingPage>, list: seq<GithubRepository>, after: seq<GithubRepository>, j: nat, p: nat, r: GithubRepository)
    requires 1 <= j < |pages| && ChangesAt(pages, list, after, j)
    requires (p < |list| && after == Left(list, p)) || (p <= |list| && after == Joined(list, p, r))
    ensures !Accepted(pages)
  {
    assert pages[0].totalCount == |list| && pages[j].totalCount == |after|;
  }

  /** One repository left and another joined, wherever the listing has them. */
  ghost predicate Swaps(
    before: seq<GithubRepository>, after: seq<GithubRepository>, p: nat, q: nat, r: GithubRepository)
  {
    && p < |before| && q < |before| && Distinct(before) && r.id !in IdsOf(before)
    && after == Joined(Left(before, p), q, r)
  }

  lemma {:induction false} SwappedAt(
    before: seq<GithubRepository>, after: seq<GithubRepository>, p: nat, q: nat, r: GithubRepository, k: nat)
    requires Swaps(before, after, p, q, r) && k < |before|
    ensures |after| == |before|
    ensures after[k] ==
      if k == q then r
      else if k < q then before[if k < p then k else k + 1]
      else before[if k <= p then k - 1 else k]
  {
  }

  /** The rows of the pages read before the swap and of those read after. */
  function Spliced(before: seq<GithubRepository>, after: seq<GithubRepository>, b: nat): seq<GithubRepository>
    requires b <= |before| == |after|
  {
    before[..b] + after[b..]
  }

  lemma {:induction false} SplicedDistinct(
    before: seq<GithubRepository>, after: seq<GithubRepository>, p: nat, q: nat, r: GithubRepository, b: nat)
    requires Swaps(before, after, p, q, r) && |after| == |before| && 1 <= b < |before|
    ensures Distinct(Spliced(before, after, b)) <==> !(q < b <= p)
  {
    var all := Spliced(before, after, b);
    forall k: nat | k < |before| ensures k < b ==> all[k] == before[k]
      ensures k >= b ==> all[k] == if k == q then r else before[Source(p, q, k)]
    {
      SwappedAt(before, after, p, q, r, k);
    }
    if q < b <= p {
      assert all[b] == before[b - 1] == all[b - 1];
    } else {
      assert forall k :: 0 <= k < |before| ==> before[k].id in IdsOf(before);
    }
  }

  /** Where in the old listing the new one's item `k` stood. */
  function Source(p: nat, q: nat, k: nat): nat
    requires k != q
  {
    if k < q then (if k < p then k else k + 1) else (if k <= p then k - 1 else k)
  }

  /**
   A repository leaving and another joining between two page reads leaves the total as it was.
   The listing is refused exactly when the one that joined is placed before the cut between
   the pages and the one that left stood after it. When it is the other way round, the listing
   is accepted without the repository at the cut, which was there throughout; otherwise it is
   accepted with every repository that was.
   */
  lemma {:induction false} SwapRefusedExactly(
    pages: seq<ListingPage>, before: seq<GithubRepository>, after: seq<GithubRepository>,
    p: nat, q: nat, r: GithubRepository, j: nat)
    requires Swaps(before, after, p, q, r) && 1 <= j < |pages|
    requires |after| == |before| && WholeListing(pages) && ChangesAt(pages, before, after, j)
    ensures var b := LISTING_PAGE_SIZE * j;
      && b < |before|
      && (Accepted(pages) <==> !(q < b <= p))
      && (p < b <= q ==> before[b] in after && before[b].id !in IdsOf(Listed(pages)))
      && (Accepted(pages) && !(p < b <= q) ==>
            forall x :: x in before && x in after ==> x in Listed(pages))
  {
    var b, n := LISTING_PAGE_SIZE * j, |before|;
    ListedAcross(pages, before, after, j);
    SizedThroughout(pages, before, after, j);
    ReadsNoMore(pages, n);
    assert Listed(pages) == Spliced(before, after, b);
    SplicedDistinct(before, after, p, q, r, b);
    CountsIffDistinct(Listed(pages));
    assert pages[0].totalCount == n;
    if p < b <= q {
      SkippedAtCut(before, after, p, q, r, b);
    } else if Accepted(pages) {
      NothingSkipped(before, after, p, q, r, b);
    }
  }

  lemma {:induction false} SkippedAtCut(
    before: seq<GithubRepository>, after: seq<GithubRepository>, p: nat, q: nat, r: GithubRepository, b: nat)
    requires Swaps(before, after, p, q, r) && |after| == |before| && p < b <= q && b < |before|
    ensures before[b] in after && before[b].id !in IdsOf(Spliced(before, after, b))
  {
    var all := Spliced(before, after, b);
    SwappedAt(before, after, p, q, r, b - 1);
    assert after[b - 1] == before[b];
    forall k | 0 <= k < |all|
      ensures all[k].id != before[b].id
    {
      SwappedAt(before, after, p, q, r, k);
      assert before[b].id in IdsOf(before);
    }
  }

  lemma {:induction false} NothingSkipped(
    before: seq<GithubRepository>, after: seq<GithubRepository>, p: nat, q: nat, r: GithubRepository, b: nat)
    requires Swaps(before, after, p, q, r) && |after| == |before| && b <= |before|
    requires (p < b && q < b) || (b <= p && b <= q)
    ensures forall x :: x in before && x in after ==> x in Spliced(before, after, b)
  {
    forall k: nat | k < |before|
      ensures p < b ==> k >= b ==> after[k] == before[k]
      ensures b <= p ==> k < b ==> after[k] == before[k]
    {
      SwappedAt(before, after, p, q, r, k);
    }
    assert Spliced(before, after, b) == if p < b then before else after;
  }

  lemma {:induction false} TwoPages(pages: seq<ListingPage>, n: nat)
    requires |pages| == 2 && Sized(pages, n) && LISTING_PAGE_SIZE < n <= 2 * LISTING_PAGE_SIZE
    ensures WholeListing(pages)
  {
    EndsExactly(pages, n);
    assert pages[..1][..1] == pages[..1];
    EndsExactly(pages[..1], n);
  }

  /** Such an installation: two pages, the first repository leaves and one joins at the end. */
  lemma {:induction false} AcceptedListingCanMiss() returns (before: seq<GithubRepository>, after: seq<GithubRepository>, pages: seq<ListingPage>)
    ensures Distinct(before) && Distinct(after) && ChangesAt(pages, before, after, 1) && WholeListing(pages)
    ensures Accepted(pages)
    ensures exists x :: x in before && x in after && x.id !in IdsOf(Listed(pages))
  {
    var settings := MergeSettings(true, true, true);
    before := seq(101, i requires 0 <= i < 101 => GithubRepository(i, "acme", "repo", settings));
    var r := GithubRepository(101, "acme", "repo", settings);
    after := Joined(Left(before, 0), 100, r);
    assert forall x :: x in before ==> x.id < 101;
    pages := [PageOf(before, 0), PageOf(after, 1)];
    SizedThroughout(pages, before, after, 1);
    TwoPages(pages, 101);
    SwapRefusedExactly(pages, before, after, 0, 100, r, 1);
  }
}

/**
 * The GitHub synchroniser (`POST /api/sync/github`): for each repository it
 * pages through the user's commits, groups the in-window ones by day, and
 * finally replaces the user's rows of `github_commits` from the window's
 * first day on.
 */
module GithubSync {
  import opened Wrappers
  import opened Schema
  import opened Text

  const PerPage: nat := 100

  /** The fields of a listed commit the handler reads; `authorDate` is None when it does not parse as a date. */
  datatype Commit = Commit(authorDate: Option<int>, message: string, authorLogin: Option<string>)

  /** One response of the commits endpoint: a page, a non-OK status, or a thrown exception. */
  datatype Page = Page(commits: seq<Commit>) | NotOk | Throws

  /** A repository of the user with the responses its successive pages get. */
  datatype RepoFeed = RepoFeed(name: string, fullName: string, pages: seq<Page>)

  predicate IsSquash(c: Commit)
  {
    Contains(Lower(c.message), "squash") || Contains(Lower(c.message), "fixup")
  }

  predicate IsMerge(c: Commit)
  {
    StartsWith(c.message, "Merge")
  }

  predicate IsBot(c: Commit)
  {
    c.authorLogin.Some? && EndsWith(c.authorLogin.value, "[bot]")
  }

  /** The classification heuristics, stated by occurrence rather than by scan. */
  lemma ClassificationMeaning(c: Commit)
    ensures IsSquash(c) <==> (exists i :: OccursAt(Lower(c.message), "squash", i))
                             || (exists i :: OccursAt(Lower(c.message), "fixup", i))
    ensures IsMerge(c) <==> |c.message| >= 5 && c.message[..5] == "Merge"
    ensures IsBot(c) <==> c.authorLogin.Some? && |c.authorLogin.value| >= 5
                          && c.authorLogin.value[|c.authorLogin.value| - 5..] == "[bot]"
  {
    ContainsIff(Lower(c.message), "squash");
    ContainsIff(Lower(c.message), "fixup");
  }

  // ---------------------------------------------------------------- paging

  function Prepend(xs: seq<Commit>, rest: Option<seq<Commit>>): Option<seq<Commit>>
  {
    if rest.None? then None else Some(xs + rest.value)
  }

  /**
   * The commits the paging loop gathers, None when a fetch throws.  A page
   * past the end of `pages` counts as a non-OK response.
   */
  function Collected(pages: seq<Page>): Option<seq<Commit>>
    decreases |pages|
  {
    if pages == [] then Some([])
    else match pages[0]
      case NotOk => Some([])
      case Throws => None
      case Page(cs) =>
        if |cs| == 0 then Some([])
        else if |cs| < PerPage then Some(cs)
        else Prepend(cs, Collected(pages[1..]))
  }

  /** The `while (hasMore)` loop over pages 1, 2, ... of one repository. */
  method FetchCommits(pages: seq<Page>) returns (r: Option<seq<Commit>>)
    ensures r == Collected(pages)
  {
    var all: seq<Commit> := [];
    var page := 1;
    var hasMore := true;
    assert pages[page - 1..] == pages;
    if Collected(pages).Some? {
      assert [] + Collected(pages).value == Collected(pages).value;
    }
    while hasMore
      invariant 1 <= page <= |pages| + 1
      invariant hasMore ==> Collected(pages) == Prepend(all, Collected(pages[page - 1..]))
      invariant !hasMore ==> Collected(pages) == Some(all)
      decreases |pages| + 1 - page + (if hasMore then 1 else 0)
    {
      var response := if page - 1 < |pages| then pages[page - 1] else NotOk;
      ghost var rest := pages[page - 1..];
      assert all + [] == all;
      assert rest == [] || rest[0] == response;
      if response.Throws? {
        return None;
      }
      if response.NotOk? {
        break;
      }
      var commits := response.commits;
      if |commits| == 0 {
        hasMore := false;
      } else {
        assert rest[1..] == pages[page..];
        assert Collected(rest) == (if |commits| < PerPage then Some(commits) else Prepend(commits, Collected(pages[page..])));
        PrependAssoc(all, commits, Collected(pages[page..]));
        all := all + commits;
        if |commits| < PerPage {
          hasMore := false;
        } else {
          page := page + 1;
        }
      }
    }
    return Some(all);
  }

  lemma PrependAssoc(xs: seq<Commit>, ys: seq<Commit>, rest: Option<seq<Commit>>)
    ensures Prepend(xs, Prepend(ys, rest)) == Prepend(xs + ys, rest)
  {
    if rest.Some? {
      assert xs + (ys + rest.value) == (xs + ys) + rest.value;
    }
  }

  /**
   * A non-OK response or an empty or short page ends the paging; what earlier
   * pages gave is kept, and whatever later pages would return is never read.
   */
  lemma {:induction false} PagingStops(full: seq<seq<Commit>>, last: Page, more: seq<Page>)
    requires forall k :: 0 <= k < |full| ==> |full[k]| == PerPage
    requires last.NotOk? || (last.Page? && |last.commits| < PerPage)
    ensures Collected(PagesOf(full) + [last]) == Some(Concat(full) + (if last.Page? then last.commits else []))
    ensures Collected(PagesOf(full) + [last] + more) == Collected(PagesOf(full) + [last])
    decreases |full|
  {
    StopIgnoresRest(full, last, more);
    if full == [] {
      assert PagesOf(full) + [last] == [last];
      LastPageStops(last);
      var tail := if last.Page? then last.commits else [];
      assert Concat(full) + tail == tail;
    } else {
      var pages := PagesOf(full) + [last];
      assert pages[0] == Page(full[0]);
      assert pages[1..] == PagesOf(full[1..]) + [last];
      assert Collected(pages) == Prepend(full[0], Collected(pages[1..]));
      PagingStops(full[1..], last, more);
      var tail := if last.Page? then last.commits else [];
      assert full[0] + (Concat(full[1..]) + tail) == (full[0] + Concat(full[1..])) + tail;
      assert Concat(full) == full[0] + Concat(full[1..]);
    }
  }

  /** Pages after the stopping page do not change what is collected. */
  lemma {:induction false} StopIgnoresRest(full: seq<seq<Commit>>, last: Page, more: seq<Page>)
    requires forall k :: 0 <= k < |full| ==> |full[k]| == PerPage
    requires last.NotOk? || (last.Page? && |last.commits| < PerPage)
    ensures Collected(PagesOf(full) + [last] + more) == Collected(PagesOf(full) + [last])
    decreases |full|
  {
    var pages := PagesOf(full) + [last];
    var longer := pages + more;
    if full == [] {
      assert pages == [last];
      assert longer[0] == last;
    } else {
      assert pages[0] == Page(full[0]) && longer[0] == Page(full[0]);
      assert pages[1..] == PagesOf(full[1..]) + [last];
      assert longer[1..] == PagesOf(full[1..]) + [last] + more;
      StopIgnoresRest(full[1..], last, more);
    }
  }

  lemma LastPageStops(last: Page)
    requires last.NotOk? || (last.Page? && |last.commits| < PerPage)
    ensures Collected([last]) == Some(if last.Page? then last.commits else [])
  {
    if last.Page? && |last.commits| == 0 {
      assert last.commits == [];
    }
  }

  function PagesOf(full: seq<seq<Commit>>): seq<Page>
  {
    if full == [] then [] else [Page(full[0])] + PagesOf(full[1..])
  }

  function Concat(full: seq<seq<Commit>>): seq<Commit>
  {
    if full == [] then [] else full[0] + Concat(full[1..])
  }

  // -------------------------------------------------------------- grouping

  datatype Flag = Squash | Merge | Bot

  predicate Has(c: Commit, f: Flag)
  {
    match f
    case Squash => IsSquash(c)
    case Merge => IsMerge(c)
    case Bot => IsBot(c)
  }

  /** One entry of `commitsByDate`. */
  datatype Bucket = Bucket(date: int, count: nat, isSquash: bool, isMerge: bool, isBot: bool)

  function FlagOf(b: Bucket, f: Flag): bool
  {
    match f
    case Squash => b.isSquash
    case Merge => b.isMerge
    case Bot => b.isBot
  }

  /** The commit is dated inside `[start, now]` on day `d`. */
  predicate Lands(c: Commit, d: int, start: int, now: int)
  {
    c.authorDate.Some? && start <= c.authorDate.value <= now && DayOf(c.authorDate.value) == d
  }

  /** The number of commits of `cs` that land on day `d`. */
  function CountOn(cs: seq<Commit>, d: int, start: int, now: int): nat
    decreases |cs|
  {
    if cs == [] then 0
    else CountOn(cs[..|cs| - 1], d, start, now) + (if Lands(cs[|cs| - 1], d, start, now) then 1 else 0)
  }

  /** Some commit of `cs` that lands on day `d` has flag `f`. */
  function AnyOn(cs: seq<Commit>, d: int, start: int, now: int, f: Flag): bool
    decreases |cs|
  {
    if cs == [] then false
    else AnyOn(cs[..|cs| - 1], d, start, now, f) || (Lands(cs[|cs| - 1], d, start, now) && Has(cs[|cs| - 1], f))
  }

  /** The number of commits of `cs` dated inside `[start, now]`. */
  function InWindow(cs: seq<Commit>, start: int, now: int): nat
    decreases |cs|
  {
    if cs == [] then 0
    else InWindow(cs[..|cs| - 1], start, now)
         + (var c := cs[|cs| - 1]; if c.authorDate.Some? && start <= c.authorDate.value <= now then 1 else 0)
  }

  function Total(g: seq<Bucket>): nat
    decreases |g|
  {
    if g == [] then 0 else Total(g[..|g| - 1]) + g[|g| - 1].count
  }

  predicate HasDate(g: seq<Bucket>, d: int)
  {
    exists j :: 0 <= j < |g| && g[j].date == d
  }

  /** The position of day `d` in the buckets (`commitsByDate.get`). */
  function IndexOf(g: seq<Bucket>, d: int): (r: Option<nat>)
    ensures r.Some? ==> r.value < |g| && g[r.value].date == d
    ensures r.None? ==> forall j :: 0 <= j < |g| ==> g[j].date != d
    decreases |g|
  {
    if g == [] then None
    else if g[0].date == d then Some(0)
    else match IndexOf(g[1..], d)
      case Some(j) => Some(j + 1)
      case None => None
  }

  /** `commitsByDate.set(dateStr, ...)` for one in-window commit: count it and OR in its flags. */
  function Record(g: seq<Bucket>, c: Commit, d: int): seq<Bucket>
  {
    match IndexOf(g, d)
    case Some(j) =>
      g[j := Bucket(d, g[j].count + 1, g[j].isSquash || IsSquash(c), g[j].isMerge || IsMerge(c), g[j].isBot || IsBot(c))]
    case None =>
      g + [Bucket(d, 1, IsSquash(c), IsMerge(c), IsBot(c))]
  }

  /** One iteration of the grouping loop; None when the commit's date does not parse (`toISOString` throws). */
  function Step(g: seq<Bucket>, c: Commit, start: int, now: int): Option<seq<Bucket>>
  {
    if c.authorDate.None? then None
    else if c.authorDate.value < start || c.authorDate.value > now then Some(g)
    else Some(Record(g, c, DayOf(c.authorDate.value)))
  }

  /** What the grouping loop leaves in `commitsByDate` after the commits `cs`. */
  function Buckets(cs: seq<Commit>, start: int, now: int): Option<seq<Bucket>>
    decreases |cs|
  {
    if cs == [] then Some([])
    else match Buckets(cs[..|cs| - 1], start, now)
      case None => None
      case Some(g) => Step(g, cs[|cs| - 1], start, now)
  }

  predicate UniqueDates(g: seq<Bucket>)
  {
    forall j, k :: 0 <= j < k < |g| ==> g[j].date != g[k].date
  }

  ghost predicate CountsMatch(g: seq<Bucket>, cs: seq<Commit>, start: int, now: int)
  {
    forall j :: 0 <= j < |g| ==> 0 < g[j].count == CountOn(cs, g[j].date, start, now)
  }

  ghost predicate FlagsMatch(g: seq<Bucket>, cs: seq<Commit>, start: int, now: int)
  {
    forall j, f :: 0 <= j < |g| ==> FlagOf(g[j], f) == AnyOn(cs, g[j].date, start, now, f)
  }

  ghost predicate Covers(g: seq<Bucket>, cs: seq<Commit>, start: int, now: int)
  {
    forall d :: CountOn(cs, d, start, now) > 0 ==> HasDate(g, d)
  }

  /** The buckets summarize the commits: one per day with a commit in the window, with that day's count and flags. */
  ghost predicate Summarizes(g: seq<Bucket>, cs: seq<Commit>, start: int, now: int)
  {
    && UniqueDates(g)
    && CountsMatch(g, cs, start, now)
    && FlagsMatch(g, cs, start, now)
    && Covers(g, cs, start, now)
    && Total(g) == InWindow(cs, start, now)
  }

  /** The grouping loop over one repository's commits. */
  method GroupByDate(cs: seq<Commit>, start: int, now: int) returns (r: Option<seq<Bucket>>)
    ensures r == Buckets(cs, start, now)
  {
    var g: seq<Bucket> := [];
    var i := 0;
    while i < |cs|
      invariant 0 <= i <= |cs|
      invariant Buckets(cs[..i], start, now) == Some(g)
    {
      var commit := cs[i];
      assert cs[..i + 1][..i] == cs[..i];
      if commit.authorDate.None? {
        BucketsStayNone(cs, i + 1, start, now);
        return None;
      }
      var t := commit.authorDate.value;
      i := i + 1;
      if t < start || t > now {
        continue;
      }
      g := Record(g, commit, DayOf(t));
    }
    assert cs[..i] == cs;
    return Some(g);
  }

  lemma {:induction false} BucketsStayNone(cs: seq<Commit>, k: nat, start: int, now: int)
    requires k <= |cs| && Buckets(cs[..k], start, now) == None
    ensures Buckets(cs, start, now) == None
    decreases |cs| - k
  {
    if k < |cs| {
      assert cs[..k + 1][..k] == cs[..k];
      BucketsStayNone(cs, k + 1, start, now);
    } else {
      assert cs[..k] == cs;
    }
  }

  lemma {:induction false} AnyOnImpliesCount(cs: seq<Commit>, d: int, start: int, now: int, f: Flag)
    requires AnyOn(cs, d, start, now, f)
    ensures CountOn(cs, d, start, now) > 0
    decreases |cs|
  {
    if !(Lands(cs[|cs| - 1], d, start, now) && Has(cs[|cs| - 1], f)) {
      AnyOnImpliesCount(cs[..|cs| - 1], d, start, now, f);
    }
  }

  lemma {:induction false} TotalUpdate(g: seq<Bucket>, j: nat, b: Bucket)
    requires j < |g|
    ensures Total(g[j := b]) == Total(g) - g[j].count + b.count
    decreases |g|
  {
    if j < |g| - 1 {
      assert g[j := b][..|g| - 1] == g[..|g| - 1][j := b];
      TotalUpdate(g[..|g| - 1], j, b);
    } else {
      assert g[j := b][..|g| - 1] == g[..|g| - 1];
    }
  }

  lemma CountSnoc(cs: seq<Commit>, c: Commit, e: int, start: int, now: int)
    ensures CountOn(cs + [c], e, start, now) == CountOn(cs, e, start, now) + (if Lands(c, e, start, now) then 1 else 0)
  {
    assert (cs + [c])[..|cs|] == cs;
  }

  lemma AnySnoc(cs: seq<Commit>, c: Commit, e: int, f: Flag, start: int, now: int)
    ensures AnyOn(cs + [c], e, start, now, f) == (AnyOn(cs, e, start, now, f) || (Lands(c, e, start, now) && Has(c, f)))
  {
    assert (cs + [c])[..|cs|] == cs;
  }

  lemma WindowSnoc(cs: seq<Commit>, c: Commit, start: int, now: int)
    ensures InWindow(cs + [c], start, now)
            == InWindow(cs, start, now) + (if c.authorDate.Some? && start <= c.authorDate.value <= now then 1 else 0)
  {
    assert (cs + [c])[..|cs|] == cs;
  }

  /** Grouping one more commit keeps the summary. */
  lemma StepSummarizes(g: seq<Bucket>, cs: seq<Commit>, c: Commit, start: int, now: int)
    requires Summarizes(g, cs, start, now) && c.authorDate.Some?
    ensures Summarizes(Step(g, c, start, now).value, cs + [c], start, now)
  {
    var t := c.authorDate.value;
    WindowSnoc(cs, c, start, now);
    if start <= t <= now {
      var d := DayOf(t);
      match IndexOf(g, d)
      case Some(j) => RecordFound(g, cs, c, j, start, now);
      case None => RecordNew(g, cs, c, start, now);
    } else {
      var cs' := cs + [c];
      forall k | 0 <= k < |g| ensures 0 < g[k].count == CountOn(cs', g[k].date, start, now) {
        CountSnoc(cs, c, g[k].date, start, now);
      }
      forall k, f | 0 <= k < |g| ensures FlagOf(g[k], f) == AnyOn(cs', g[k].date, start, now, f) {
        AnySnoc(cs, c, g[k].date, f, start, now);
      }
      forall e | CountOn(cs', e, start, now) > 0 ensures HasDate(g, e) {
        CountSnoc(cs, c, e, start, now);
      }
    }
  }

  /** The bucket of a day that already has one, after one more commit on it. */
  function Bumped(b: Bucket, c: Commit): Bucket
  {
    Bucket(b.date, b.count + 1, b.isSquash || IsSquash(c), b.isMerge || IsMerge(c), b.isBot || IsBot(c))
  }

  /** The bucket a day's first in-window commit creates. */
  function Fresh(c: Commit, d: int): Bucket
  {
    Bucket(d, 1, IsSquash(c), IsMerge(c), IsBot(c))
  }

  lemma RecordFound(g: seq<Bucket>, cs: seq<Commit>, c: Commit, j: nat, start: int, now: int)
    requires Summarizes(g, cs, start, now) && c.authorDate.Some? && start <= c.authorDate.value <= now
    requires IndexOf(g, DayOf(c.authorDate.value)) == Some(j)
    ensures Summarizes(Record(g, c, DayOf(c.authorDate.value)), cs + [c], start, now)
  {
    var d := DayOf(c.authorDate.value);
    var g' := g[j := Bumped(g[j], c)];
    assert Record(g, c, d) == g';
    assert Lands(c, g[j].date, start, now);
    TotalUpdate(g, j, Bumped(g[j], c));
    WindowSnoc(cs, c, start, now);
    FoundUnique(g, c, j);
    FoundCounts(g, cs, c, j, start, now);
    FoundFlags(g, cs, c, j, start, now);
    FoundCovers(g, cs, c, j, start, now);
  }

  lemma FoundUnique(g: seq<Bucket>, c: Commit, j: nat)
    requires UniqueDates(g) && j < |g|
    ensures UniqueDates(g[j := Bumped(g[j], c)])
  {
  }

  lemma FoundCounts(g: seq<Bucket>, cs: seq<Commit>, c: Commit, j: nat, start: int, now: int)
    requires UniqueDates(g) && CountsMatch(g, cs, start, now) && j < |g| && Lands(c, g[j].date, start, now)
    ensures CountsMatch(g[j := Bumped(g[j], c)], cs + [c], start, now)
  {
    var g' := g[j := Bumped(g[j], c)];
    forall k | 0 <= k < |g'| ensures 0 < g'[k].count == CountOn(cs + [c], g'[k].date, start, now) {
      CountSnoc(cs, c, g'[k].date, start, now);
    }
  }

  lemma FoundFlags(g: seq<Bucket>, cs: seq<Commit>, c: Commit, j: nat, start: int, now: int)
    requires UniqueDates(g) && FlagsMatch(g, cs, start, now) && j < |g| && Lands(c, g[j].date, start, now)
    ensures FlagsMatch(g[j := Bumped(g[j], c)], cs + [c], start, now)
  {
    var g' := g[j := Bumped(g[j], c)];
    forall k, f | 0 <= k < |g'| ensures FlagOf(g'[k], f) == AnyOn(cs + [c], g'[k].date, start, now, f) {
      AnySnoc(cs, c, g'[k].date, f, start, now);
    }
  }

  lemma FoundCovers(g: seq<Bucket>, cs: seq<Commit>, c: Commit, j: nat, start: int, now: int)
    requires Covers(g, cs, start, now) && j < |g| && Lands(c, g[j].date, start, now)
    ensures Covers(g[j := Bumped(g[j], c)], cs + [c], start, now)
  {
    var g' := g[j := Bumped(g[j], c)];
    forall e | CountOn(cs + [c], e, start, now) > 0 ensures HasDate(g', e) {
      CountSnoc(cs, c, e, start, now);
      if e == g[j].date {
        assert g'[j].date == e;
      } else {
        assert HasDate(g, e);
        var k :| 0 <= k < |g| && g[k].date == e;
        assert g'[k].date == e;
      }
    }
  }

  lemma RecordNew(g: seq<Bucket>, cs: seq<Commit>, c: Commit, start: int, now: int)
    requires Summarizes(g, cs, start, now) && c.authorDate.Some? && start <= c.authorDate.value <= now
    requires IndexOf(g, DayOf(c.authorDate.value)).None?
    ensures Summarizes(Record(g, c, DayOf(c.authorDate.value)), cs + [c], start, now)
  {
    var d := DayOf(c.authorDate.value);
    var g' := g + [Fresh(c, d)];
    assert Record(g, c, d) == g';
    assert g'[..|g|] == g;
    WindowSnoc(cs, c, start, now);
    assert !HasDate(g, d);
    assert CountOn(cs, d, start, now) == 0;
    NewUnique(g, c, d);
    NewCounts(g, cs, c, d, start, now);
    NewFlags(g, cs, c, d, start, now);
    NewCovers(g, cs, c, d, start, now);
  }

  lemma NewUnique(g: seq<Bucket>, c: Commit, d: int)
    requires UniqueDates(g) && forall k :: 0 <= k < |g| ==> g[k].date != d
    ensures UniqueDates(g + [Fresh(c, d)])
  {
  }

  lemma NewCounts(g: seq<Bucket>, cs: seq<Commit>, c: Commit, d: int, start: int, now: int)
    requires CountsMatch(g, cs, start, now) && Lands(c, d, start, now) && CountOn(cs, d, start, now) == 0
    requires forall k :: 0 <= k < |g| ==> g[k].date != d
    ensures CountsMatch(g + [Fresh(c, d)], cs + [c], start, now)
  {
    var g' := g + [Fresh(c, d)];
    forall k | 0 <= k < |g'| ensures 0 < g'[k].count == CountOn(cs + [c], g'[k].date, start, now) {
      CountSnoc(cs, c, g'[k].date, start, now);
    }
  }

  lemma NewFlags(g: seq<Bucket>, cs: seq<Commit>, c: Commit, d: int, start: int, now: int)
    requires FlagsMatch(g, cs, start, now) && Lands(c, d, start, now) && CountOn(cs, d, start, now) == 0
    requires forall k :: 0 <= k < |g| ==> g[k].date != d
    ensures FlagsMatch(g + [Fresh(c, d)], cs + [c], start, now)
  {
    var g' := g + [Fresh(c, d)];
    forall k, f | 0 <= k < |g'| ensures FlagOf(g'[k], f) == AnyOn(cs + [c], g'[k].date, start, now, f) {
      AnySnoc(cs, c, g'[k].date, f, start, now);
      if k == |g| && AnyOn(cs, d, start, now, f) {
        AnyOnImpliesCount(cs, d, start, now, f);
      }
    }
  }

  lemma NewCovers(g: seq<Bucket>, cs: seq<Commit>, c: Commit, d: int, start: int, now: int)
    requires Covers(g, cs, start, now) && Lands(c, d, start, now)
    ensures Covers(g + [Fresh(c, d)], cs + [c], start, now)
  {
    var g' := g + [Fresh(c, d)];
    forall e | CountOn(cs + [c], e, start, now) > 0 ensures HasDate(g', e) {
      CountSnoc(cs, c, e, start, now);
      if e == d {
        assert g'[|g|].date == d;
      } else {
        assert HasDate(g, e);
        var k :| 0 <= k < |g| && g[k].date == e;
        assert g'[k].date == e;
      }
    }
  }

  /**
   * Grouping succeeds exactly when every commit's date parses, and then gives
   * at most one bucket per day, whose count is that day's number of
   * in-window commits and whose flags are the OR over them; the counts add up
   * to the number of in-window commits.
   */
  lemma {:induction false} BucketsSummarize(cs: seq<Commit>, start: int, now: int)
    ensures Buckets(cs, start, now).Some? <==> forall k :: 0 <= k < |cs| ==> cs[k].authorDate.Some?
    ensures Buckets(cs, start, now).Some? ==> Summarizes(Buckets(cs, start, now).value, cs, start, now)
    decreases |cs|
  {
    if cs != [] {
      var init := cs[..|cs| - 1];
      BucketsSummarize(init, start, now);
      assert init + [cs[|cs| - 1]] == cs;
      if Buckets(init, start, now).Some? && cs[|cs| - 1].authorDate.Some? {
        StepSummarizes(Buckets(init, start, now).value, init, cs[|cs| - 1], start, now);
      }
      assert forall k :: 0 <= k < |init| ==> init[k] == cs[k];
    }
  }

  // ------------------------------------------------------------ the route

  /** The rows `commitsToInsert` gets for one repository's buckets. */
  function RowsOf(u: UserId, repository: string, g: seq<Bucket>): (rows: seq<CommitRow>)
    ensures |rows| == |g|
    ensures forall k :: 0 <= k < |g| ==>
              rows[k] == CommitRow(u, g[k].date, g[k].count, repository, g[k].isSquash, g[k].isMerge, g[k].isBot)
  {
    seq(|g|, k requires 0 <= k < |g| => CommitRow(u, g[k].date, g[k].count, repository, g[k].isSquash, g[k].isMerge, g[k].isBot))
  }

  /** One repository's contribution: nothing when a fetch or a date throws (the repository is skipped). */
  function RepoRows(u: UserId, feed: RepoFeed, start: int, now: int): seq<CommitRow>
  {
    match Collected(feed.pages)
    case None => []
    case Some(cs) =>
      match Buckets(cs, start, now)
      case None => []
      case Some(g) => RowsOf(u, feed.name, g)
  }

  /** `commitsToInsert` after the loop over the repositories. */
  function SyncRows(u: UserId, repos: seq<RepoFeed>, start: int, now: int): seq<CommitRow>
    decreases |repos|
  {
    if repos == [] then []
    else SyncRows(u, repos[..|repos| - 1], start, now) + RepoRows(u, repos[|repos| - 1], start, now)
  }

  /** The conflict key `(user_id, date, repository)`. */
  function KeyOf(r: CommitRow): (UserId, int, string)
  {
    (r.userId, r.date, r.repository)
  }

  predicate DistinctKeys(rows: seq<CommitRow>)
  {
    forall i, j :: 0 <= i < j < |rows| ==> KeyOf(rows[i]) != KeyOf(rows[j])
  }

  /** Insert one row, replacing the row with the same key if there is one. */
  function UpsertRow(table: seq<CommitRow>, row: CommitRow): seq<CommitRow>
    decreases |table|
  {
    if table == [] then [row]
    else if KeyOf(table[0]) == KeyOf(row) then [row] + table[1..]
    else [table[0]] + UpsertRow(table[1..], row)
  }

  function UpsertAll(table: seq<CommitRow>, batch: seq<CommitRow>): seq<CommitRow>
    decreases |batch|
  {
    if batch == [] then table else UpsertAll(UpsertRow(table, batch[0]), batch[1..])
  }

  /** `upsert(batch, {onConflict: 'user_id,date,repository'})`; PostgreSQL rejects a batch that hits one key twice. */
  function Upsert(table: seq<CommitRow>, batch: seq<CommitRow>): Option<seq<CommitRow>>
  {
    if DistinctKeys(batch) then Some(UpsertAll(table, batch)) else None
  }

  /** Selects the rows the route deletes before upserting. */
  function Stale(u: UserId, fromDay: int): CommitRow -> bool
  {
    (r: CommitRow) => r.userId == u && r.date >= fromDay
  }

  predicate Connected(profiles: map<UserId, Profile>, u: UserId)
  {
    u in profiles && Truthy(profiles[u].githubAccessToken)
  }

  /** The table after the delete and the upsert; None when the upsert fails (the delete has happened). */
  function Replaced(table: seq<CommitRow>, u: UserId, rows: seq<CommitRow>, fromDay: int, upsertFails: bool): Option<seq<CommitRow>>
  {
    var cleared := Without(table, Stale(u, fromDay));
    if rows == [] then Some(cleared)
    else if upsertFails then None
    else Upsert(cleared, rows)
  }

  /**
   * The handler. `user` is the signed-in user; `repos` the repository list, None
   * when that request is not OK; `start` and `now` bound the 50-day window;
   * `upsertFails` says whether the database rejects the upsert for a reason of its own.
   */
  method Post(db: Db, user: Option<UserId>, repos: Option<seq<RepoFeed>>, start: int, now: int, upsertFails: bool)
    returns (reply: Reply<nat>)
    modifies db`commits
    ensures user.None? ==> reply == Fail(401, "Unauthorized") && db.commits == old(db.commits)
    ensures user.Some? && !Connected(db.profiles, user.value) ==>
              reply == Fail(400, "GitHub not connected") && db.commits == old(db.commits)
    ensures user.Some? && Connected(db.profiles, user.value) && repos.None? ==>
              reply == Fail(500, "Failed to fetch repositories") && db.commits == old(db.commits)
    ensures user.Some? && Connected(db.profiles, user.value) && repos.Some? ==>
              var rows := SyncRows(user.value, repos.value, start, now);
              var after := Replaced(old(db.commits), user.value, rows, DayOf(start), upsertFails);
              && (after.Some? ==> reply == Ok(|rows|) && db.commits == after.value)
              && (after.None? ==> reply == Fail(500, "Failed to insert commits")
                                  && db.commits == Without(old(db.commits), Stale(user.value, DayOf(start))))
  {
    if user.None? {
      return Fail(401, "Unauthorized");
    }
    var u := user.value;
    if u !in db.profiles || !Truthy(db.profiles[u].githubAccessToken) {
      return Fail(400, "GitHub not connected");
    }
    if repos.None? {
      return Fail(500, "Failed to fetch repositories");
    }
    var feeds := repos.value;
    var commitsToInsert: seq<CommitRow> := [];
    var i := 0;
    while i < |feeds|
      invariant 0 <= i <= |feeds|
      invariant commitsToInsert == SyncRows(u, feeds[..i], start, now)
      invariant db.commits == old(db.commits)
    {
      assert feeds[..i + 1][..i] == feeds[..i];
      var feed := feeds[i];
      i := i + 1;
      var commits := FetchCommits(feed.pages);
      if commits.None? {
        continue;
      }
      var buckets := GroupByDate(commits.value, start, now);
      if buckets.None? {
        continue;
      }
      commitsToInsert := commitsToInsert + RowsOf(u, feed.name, buckets.value);
    }
    assert feeds[..i] == feeds;
    var cleared := Without(db.commits, Stale(u, DayOf(start)));
    assert Replaced(db.commits, u, commitsToInsert, DayOf(start), upsertFails)
           == (if commitsToInsert == [] then Some(cleared) else if upsertFails then None else Upsert(cleared, commitsToInsert));
    db.commits := cleared;
    if |commitsToInsert| > 0 {
      if upsertFails {
        return Fail(500, "Failed to insert commits");
      }
      var upserted := Upsert(db.commits, commitsToInsert);
      if upserted.None? {
        return Fail(500, "Failed to insert commits");
      }
      db.commits := upserted.value;
    }
    return Ok(|commitsToInsert|);
  }
}

module GithubSyncFacts {
  import opened Wrappers
  import opened Schema
  import opened Text
  import opened GithubSync

  /** A dated commit outside `[start, now]` changes no bucket. */
  lemma OutOfWindowIgnored(cs: seq<Commit>, c: Commit, start: int, now: int)
    requires c.authorDate.Some? && (c.authorDate.value < start || c.authorDate.value > now)
    ensures Buckets(cs + [c], start, now) == Buckets(cs, start, now)
  {
    assert (cs + [c])[..|cs|] == cs;
  }

  lemma {:induction false} SyncRowsAppend(u: UserId, a: seq<RepoFeed>, b: seq<RepoFeed>, start: int, now: int)
    ensures SyncRows(u, a + b, start, now) == SyncRows(u, a, start, now) + SyncRows(u, b, start, now)
    decreases |b|
  {
    if b == [] {
      assert a + b == a;
    } else {
      var b' := b[..|b| - 1];
      var last := RepoRows(u, b[|b| - 1], start, now);
      assert (a + b)[..|a + b| - 1] == a + b';
      assert (a + b)[|a + b| - 1] == b[|b| - 1];
      assert SyncRows(u, a + b, start, now) == SyncRows(u, a + b', start, now) + last;
      assert SyncRows(u, b, start, now) == SyncRows(u, b', start, now) + last;
      SyncRowsAppend(u, a, b', start, now);
      assert (SyncRows(u, a, start, now) + SyncRows(u, b', start, now)) + last
             == SyncRows(u, a, start, now) + (SyncRows(u, b', start, now) + last);
    }
  }

  /** A repository whose fetch throws is skipped; the repositories around it contribute as before. */
  lemma FailingRepoSkipped(u: UserId, before: seq<RepoFeed>, feed: RepoFeed, after: seq<RepoFeed>, start: int, now: int)
    requires Collected(feed.pages).None?
    ensures SyncRows(u, before + [feed] + after, start, now) == SyncRows(u, before + after, start, now)
  {
    SyncRowsAppend(u, before + [feed], after, start, now);
    SyncRowsAppend(u, before, after, start, now);
    assert (before + [feed])[..|before|] == before;
  }

  /** A day with a counted commit lies between the window's first and last day. */
  lemma {:induction false} CountedDayInWindow(cs: seq<Commit>, d: int, start: int, now: int)
    requires CountOn(cs, d, start, now) > 0
    ensures DayOf(start) <= d <= DayOf(now)
    decreases |cs|
  {
    var c := cs[|cs| - 1];
    if Lands(c, d, start, now) {
      DayOfMonotonic(start, c.authorDate.value);
      DayOfMonotonic(c.authorDate.value, now);
    } else {
      CountedDayInWindow(cs[..|cs| - 1], d, start, now);
    }
  }

  function NameSet(repos: seq<RepoFeed>): set<string>
  {
    set i | 0 <= i < |repos| :: repos[i].name
  }

  predicate DistinctNames(repos: seq<RepoFeed>)
  {
    forall i, j :: 0 <= i < j < |repos| ==> repos[i].name != repos[j].name
  }

  predicate RowsInWindow(rows: seq<CommitRow>, u: UserId, start: int, now: int)
  {
    forall r <- rows :: r.userId == u && DayOf(start) <= r.date <= DayOf(now)
  }

  lemma DistinctConcat(a: seq<CommitRow>, b: seq<CommitRow>)
    requires DistinctKeys(a) && DistinctKeys(b)
    requires forall x <- a, y <- b :: KeyOf(x) != KeyOf(y)
    ensures DistinctKeys(a + b)
  {
    forall i, j | 0 <= i < j < |a + b| ensures KeyOf((a + b)[i]) != KeyOf((a + b)[j]) {
      if j < |a| {
      } else if i >= |a| {
        assert (a + b)[i] == b[i - |a|] && (a + b)[j] == b[j - |a|];
      } else {
        assert (a + b)[i] in a && (a + b)[j] in b;
      }
    }
  }

  /** One repository's rows belong to the user and the repository, lie in the window, and hit each key once. */
  lemma RepoRowsShape(u: UserId, feed: RepoFeed, start: int, now: int)
    ensures RowsInWindow(RepoRows(u, feed, start, now), u, start, now)
    ensures forall r <- RepoRows(u, feed, start, now) :: r.repository == feed.name
    ensures DistinctKeys(RepoRows(u, feed, start, now))
  {
    var cs := Collected(feed.pages);
    if cs.Some? && Buckets(cs.value, start, now).Some? {
      var g := Buckets(cs.value, start, now).value;
      BucketsSummarize(cs.value, start, now);
      var rows := RowsOf(u, feed.name, g);
      forall r | r in rows ensures r.userId == u && DayOf(start) <= r.date <= DayOf(now) {
        var k :| 0 <= k < |rows| && rows[k] == r;
        CountedDayInWindow(cs.value, g[k].date, start, now);
      }
    }
  }

  /** All rows of a sync: the user's, in the window, from a listed repository; distinct names give distinct keys. */
  lemma {:induction false} SyncRowsShape(u: UserId, repos: seq<RepoFeed>, start: int, now: int)
    ensures RowsInWindow(SyncRows(u, repos, start, now), u, start, now)
    ensures forall r <- SyncRows(u, repos, start, now) :: r.repository in NameSet(repos)
    ensures DistinctNames(repos) ==> DistinctKeys(SyncRows(u, repos, start, now))
    decreases |repos|
  {
    if repos != [] {
      var init := repos[..|repos| - 1];
      var last := repos[|repos| - 1];
      SyncRowsShape(u, init, start, now);
      RepoRowsShape(u, last, start, now);
      var a := SyncRows(u, init, start, now);
      var b := RepoRows(u, last, start, now);
      assert NameSet(init) <= NameSet(repos) && last.name in NameSet(repos) by {
        assert forall i :: 0 <= i < |init| ==> init[i] == repos[i];
        assert last == repos[|repos| - 1];
      }
      if DistinctNames(repos) {
        assert last.name !in NameSet(init);
        DistinctConcat(a, b);
      }
    }
  }

  lemma {:induction false} UpsertRowFresh(table: seq<CommitRow>, row: CommitRow)
    requires forall x <- table :: KeyOf(x) != KeyOf(row)
    ensures UpsertRow(table, row) == table + [row]
    decreases |table|
  {
    if table != [] {
      assert table[0] in table;
      UpsertRowFresh(table[1..], row);
      assert [table[0]] + (table[1..] + [row]) == table + [row];
    }
  }

  lemma {:induction false} UpsertAllFresh(table: seq<CommitRow>, batch: seq<CommitRow>)
    requires DistinctKeys(batch)
    requires forall x <- table, y <- batch :: KeyOf(x) != KeyOf(y)
    ensures UpsertAll(table, batch) == table + batch
    decreases |batch|
  {
    if batch != [] {
      assert batch[0] in batch;
      UpsertRowFresh(table, batch[0]);
      var table' := table + [batch[0]];
      forall x <- table', y <- batch[1..] ensures KeyOf(x) != KeyOf(y) {
        if x !in table {
          assert x == batch[0];
          var j :| 0 <= j < |batch[1..]| && batch[1..][j] == y;
          assert batch[j + 1] == y;
        } else {
          assert y in batch;
        }
      }
      UpsertAllFresh(table', batch[1..]);
      assert table' + batch[1..] == table + batch;
    }
  }

  /**
   * With distinct repository names and no unrelated database error, the sync
   * succeeds and leaves the user's older rows, every other user's rows, and
   * exactly the freshly computed rows.
   */
  lemma DistinctNamesReplace(table: seq<CommitRow>, u: UserId, repos: seq<RepoFeed>, start: int, now: int)
    requires DistinctNames(repos)
    ensures var rows := SyncRows(u, repos, start, now);
            Replaced(table, u, rows, DayOf(start), false)
            == Some(Without(table, Stale(u, DayOf(start))) + rows)
  {
    var rows := SyncRows(u, repos, start, now);
    var cleared := Without(table, Stale(u, DayOf(start)));
    SyncRowsShape(u, repos, start, now);
    if rows == [] {
      assert cleared + rows == cleared;
    } else {
      forall x <- cleared, y <- rows ensures KeyOf(x) != KeyOf(y) {
        assert !Stale(u, DayOf(start))(x);
      }
      UpsertAllFresh(cleared, rows);
    }
  }

  /**
   * As written, rows are keyed by the short repository name: two repositories
   * with the same name (under different owners) with commits on the same day
   * put one key twice into the upsert, which then fails after the user's
   * rows in the window have been deleted.
   */
  lemma SameNameReposCollide(u: UserId, table: seq<CommitRow>)
    ensures var start := 0;
            var now := MsPerDay;
            var c := GithubSync.Commit(Some(1000), "fix", None);
            var repos := [RepoFeed("app", "alice/app", [Page([c])]), RepoFeed("app", "bob/app", [Page([c])])];
            Replaced(table, u, SyncRows(u, repos, start, now), DayOf(start), false).None?
  {
    var c := GithubSync.Commit(Some(1000), "fix", None);
    var feed1 := RepoFeed("app", "alice/app", [Page([c])]);
    var feed2 := RepoFeed("app", "bob/app", [Page([c])]);
    assert Collected(feed1.pages) == Some([c]);
    assert Collected(feed2.pages) == Some([c]);
    assert [c][..0] == [];
    assert |Lower(c.message)| == 3;
    assert !IsSquash(c) && !IsMerge(c) && !IsBot(c);
    assert DayOf(1000) == 0;
    assert IndexOf([], 0).None?;
    var b := Bucket(0, 1, false, false, false);
    assert [] + [b] == [b];
    assert Record([], c, 0) == [b];
    assert Step([], c, 0, MsPerDay) == Some([Bucket(0, 1, false, false, false)]);
    assert Buckets([c], 0, MsPerDay) == Some([Bucket(0, 1, false, false, false)]);
    var row := CommitRow(u, 0, 1, "app", false, false, false);
    assert RepoRows(u, feed1, 0, MsPerDay) == [row];
    assert RepoRows(u, feed2, 0, MsPerDay) == [row];
    var repos := [feed1, feed2];
    assert repos[..1] == [feed1] && [feed1][..0] == [];
    assert SyncRows(u, [feed1], 0, MsPerDay) == [row];
    assert SyncRows(u, repos, 0, MsPerDay) == [row, row];
    assert KeyOf([row, row][0]) == KeyOf([row, row][1]);
    assert !DistinctKeys([row, row]);
  }
}

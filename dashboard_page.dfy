/**
 * The dashboard's server page: it loads the signed-in user's profile and the
 * last fifty days of rows, and, for a paid tier, ranks the ten artists with
 * the most play time.
 */
module DashboardPage {
  import opened Wrappers
  import opened Schema

  /** `.slice(0, 10)`. */
  const TopCount: nat := 10

  /** One value of `artistMap`, with its key. */
  datatype Artist = Artist(name: string, playTimeMs: int, trackCount: nat)

  /** One element of `spotifyArtists`. */
  datatype RankedArtist = RankedArtist(name: string, playTimeMs: int, trackCount: nat, rank: nat)

  // ------------------------------------------------------------- the artist map

  /** The position of `name` among the map's keys, which a `Map` keeps in insertion order. */
  function IndexOfName(acc: seq<Artist>, name: string): (r: Option<nat>)
    ensures r.Some? ==> r.value < |acc| && acc[r.value].name == name
    ensures r.None? ==> forall j :: 0 <= j < |acc| ==> acc[j].name != name
    decreases |acc|
  {
    if acc == [] then None
    else if acc[0].name == name then Some(0)
    else match IndexOfName(acc[1..], name)
      case Some(j) => Some(j + 1)
      case None => None
  }

  /** One `forEach` step: `get(name) || {0, 0}`, then `set` with the play added. */
  function Count(acc: seq<Artist>, s: SpotifyRow): seq<Artist>
  {
    match IndexOfName(acc, s.artistName)
    case Some(j) => acc[j := Artist(s.artistName, acc[j].playTimeMs + s.durationMs, acc[j].trackCount + 1)]
    case None => acc + [Artist(s.artistName, s.durationMs, 1)]
  }

  /** The map's entries after the `forEach` over `sessions`. */
  function Tally(sessions: seq<SpotifyRow>): seq<Artist>
    decreases |sessions|
  {
    if sessions == [] then [] else Count(Tally(sessions[..|sessions| - 1]), sessions[|sessions| - 1])
  }

  /** The total duration of the plays of `name`. */
  function PlaySum(sessions: seq<SpotifyRow>, name: string): int
    decreases |sessions|
  {
    if sessions == [] then 0
    else
      var last := sessions[|sessions| - 1];
      PlaySum(sessions[..|sessions| - 1], name) + (if last.artistName == name then last.durationMs else 0)
  }

  /** The number of plays of `name`. */
  function Plays(sessions: seq<SpotifyRow>, name: string): nat
    decreases |sessions|
  {
    if sessions == [] then 0
    else
      var last := sessions[|sessions| - 1];
      Plays(sessions[..|sessions| - 1], name) + (if last.artistName == name then 1 else 0)
  }

  predicate Played(sessions: seq<SpotifyRow>, name: string)
  {
    exists j :: 0 <= j < |sessions| && sessions[j].artistName == name
  }

  predicate HasName(acc: seq<Artist>, name: string)
  {
    exists j :: 0 <= j < |acc| && acc[j].name == name
  }

  predicate DistinctNames(acc: seq<Artist>)
  {
    forall i, j :: 0 <= i < j < |acc| ==> acc[i].name != acc[j].name
  }

  /** Each artist that was played appears once, with the sum of its durations and its number of plays. */
  ghost predicate Tallied(acc: seq<Artist>, sessions: seq<SpotifyRow>)
  {
    && DistinctNames(acc)
    && (forall j :: 0 <= j < |acc| ==> acc[j].playTimeMs == PlaySum(sessions, acc[j].name))
    && (forall j :: 0 <= j < |acc| ==> acc[j].trackCount == Plays(sessions, acc[j].name))
    && (forall n :: HasName(acc, n) <==> Played(sessions, n))
  }

  lemma SumsSnoc(sessions: seq<SpotifyRow>, s: SpotifyRow, n: string)
    ensures PlaySum(sessions + [s], n) == PlaySum(sessions, n) + (if s.artistName == n then s.durationMs else 0)
    ensures Plays(sessions + [s], n) == Plays(sessions, n) + (if s.artistName == n then 1 else 0)
  {
    assert (sessions + [s])[..|sessions|] == sessions;
  }

  lemma {:induction false} SumsAbsent(sessions: seq<SpotifyRow>, n: string)
    requires !Played(sessions, n)
    ensures PlaySum(sessions, n) == 0 && Plays(sessions, n) == 0
    decreases |sessions|
  {
    if sessions != [] {
      var init := sessions[..|sessions| - 1];
      forall j | 0 <= j < |init| ensures init[j].artistName != n {
        assert init[j] == sessions[j];
      }
      SumsAbsent(init, n);
    }
  }

  lemma PlayedSnoc(sessions: seq<SpotifyRow>, s: SpotifyRow)
    ensures forall n :: Played(sessions + [s], n) <==> Played(sessions, n) || n == s.artistName
  {
    var sessions' := sessions + [s];
    forall n ensures Played(sessions', n) <==> Played(sessions, n) || n == s.artistName {
      if Played(sessions', n) {
        var j :| 0 <= j < |sessions'| && sessions'[j].artistName == n;
        if j < |sessions| {
          assert sessions[j].artistName == n;
        }
      }
      if Played(sessions, n) {
        var j :| 0 <= j < |sessions| && sessions[j].artistName == n;
        assert sessions'[j].artistName == n;
      }
      if n == s.artistName {
        assert sessions'[|sessions|].artistName == n;
      }
    }
  }

  lemma CountFound(acc: seq<Artist>, sessions: seq<SpotifyRow>, s: SpotifyRow, i: nat)
    requires Tallied(acc, sessions)
    requires IndexOfName(acc, s.artistName) == Some(i)
    ensures Tallied(Count(acc, s), sessions + [s])
  {
    var acc' := Count(acc, s);
    var sessions' := sessions + [s];
    PlayedSnoc(sessions, s);
    forall j | 0 <= j < |acc'|
      ensures acc'[j].playTimeMs == PlaySum(sessions', acc'[j].name)
      ensures acc'[j].trackCount == Plays(sessions', acc'[j].name)
    {
      SumsSnoc(sessions, s, acc'[j].name);
    }
    forall n ensures HasName(acc', n) <==> HasName(acc, n) {
      if HasName(acc', n) {
        var j :| 0 <= j < |acc'| && acc'[j].name == n;
        assert acc[j].name == n;
      }
      if HasName(acc, n) {
        var j :| 0 <= j < |acc| && acc[j].name == n;
        assert acc'[j].name == n;
      }
    }
    assert HasName(acc, s.artistName) by {
      assert acc[i].name == s.artistName;
    }
  }

  lemma CountNew(acc: seq<Artist>, sessions: seq<SpotifyRow>, s: SpotifyRow)
    requires Tallied(acc, sessions)
    requires IndexOfName(acc, s.artistName).None?
    ensures Tallied(Count(acc, s), sessions + [s])
  {
    var acc' := Count(acc, s);
    var sessions' := sessions + [s];
    assert acc' == acc + [Artist(s.artistName, s.durationMs, 1)];
    PlayedSnoc(sessions, s);
    assert !HasName(acc, s.artistName);
    SumsAbsent(sessions, s.artistName);
    forall j | 0 <= j < |acc'|
      ensures acc'[j].playTimeMs == PlaySum(sessions', acc'[j].name)
      ensures acc'[j].trackCount == Plays(sessions', acc'[j].name)
    {
      SumsSnoc(sessions, s, acc'[j].name);
    }
    forall n ensures HasName(acc', n) <==> HasName(acc, n) || n == s.artistName {
      if HasName(acc', n) {
        var j :| 0 <= j < |acc'| && acc'[j].name == n;
        if j < |acc| {
          assert acc[j].name == n;
        }
      }
      if HasName(acc, n) {
        var j :| 0 <= j < |acc| && acc[j].name == n;
        assert acc'[j].name == n;
      }
      if n == s.artistName {
        assert acc'[|acc|].name == n;
      }
    }
  }

  /** The map holds one entry per artist played, carrying its total play time and its play count. */
  lemma {:induction false} TallyMeaning(sessions: seq<SpotifyRow>)
    ensures Tallied(Tally(sessions), sessions)
    decreases |sessions|
  {
    if sessions != [] {
      var init := sessions[..|sessions| - 1];
      var s := sessions[|sessions| - 1];
      TallyMeaning(init);
      assert init + [s] == sessions;
      match IndexOfName(Tally(init), s.artistName)
      case Some(i) => CountFound(Tally(init), init, s, i);
      case None => CountNew(Tally(init), init, s);
    }
  }

  /** `sessions.forEach(...)` filling `artistMap`. */
  method AggregateArtists(sessions: seq<SpotifyRow>) returns (artists: seq<Artist>)
    ensures artists == Tally(sessions)
  {
    artists := [];
    for i := 0 to |sessions|
      invariant artists == Tally(sessions[..i])
    {
      assert sessions[..i + 1][..i] == sessions[..i];
      var session := sessions[i];
      var existing := IndexOfName(artists, session.artistName);
      if existing.Some? {
        var data := artists[existing.value];
        artists := artists[existing.value := Artist(session.artistName, data.playTimeMs + session.durationMs, data.trackCount + 1)];
      } else {
        artists := artists + [Artist(session.artistName, session.durationMs, 1)];
      }
    }
    assert sessions[..|sessions|] == sessions;
  }

  // ------------------------------------------------------------------ ranking

  /** Non-increasing play time. */
  predicate Descending(s: seq<Artist>)
  {
    forall i, j :: 0 <= i < j < |s| ==> s[i].playTimeMs >= s[j].playTimeMs
  }

  /** Places `x` before the first entry it strictly beats, so equal play times keep their order. */
  function Insert(x: Artist, s: seq<Artist>): seq<Artist>
    decreases |s|
  {
    if s == [] then [x]
    else if x.playTimeMs > s[0].playTimeMs then [x] + s
    else [s[0]] + Insert(x, s[1..])
  }

  /** `.sort((a, b) => b.playTimeMs - a.playTimeMs)`, which is stable. */
  function SortByPlayTime(s: seq<Artist>): seq<Artist>
    decreases |s|
  {
    if s == [] then [] else Insert(s[|s| - 1], SortByPlayTime(s[..|s| - 1]))
  }

  lemma {:induction false} InsertPermutes(x: Artist, s: seq<Artist>)
    ensures multiset(Insert(x, s)) == multiset(s) + multiset{x}
    decreases |s|
  {
    if s != [] && x.playTimeMs <= s[0].playTimeMs {
      InsertPermutes(x, s[1..]);
      assert s == [s[0]] + s[1..];
      assert Insert(x, s) == [s[0]] + Insert(x, s[1..]);
    }
  }

  lemma InsertMembers(x: Artist, s: seq<Artist>)
    ensures forall k :: 0 <= k < |Insert(x, s)| ==> Insert(x, s)[k] == x || Insert(x, s)[k] in s
  {
    var r := Insert(x, s);
    InsertPermutes(x, s);
    forall k | 0 <= k < |r| ensures r[k] == x || r[k] in s {
      assert r[k] in multiset(r);
    }
  }

  lemma {:induction false} InsertDescending(x: Artist, s: seq<Artist>)
    requires Descending(s)
    ensures Descending(Insert(x, s))
    decreases |s|
  {
    if s != [] && x.playTimeMs <= s[0].playTimeMs {
      var rest := Insert(x, s[1..]);
      InsertDescending(x, s[1..]);
      InsertMembers(x, s[1..]);
      assert Insert(x, s) == [s[0]] + rest;
      forall k | 0 <= k < |rest| ensures s[0].playTimeMs >= rest[k].playTimeMs {
        if rest[k] != x {
          var m :| 0 <= m < |s[1..]| && s[1..][m] == rest[k];
          assert s[m + 1] == rest[k];
        }
      }
    }
  }

  lemma {:induction false} InsertDistinct(x: Artist, s: seq<Artist>)
    requires DistinctNames(s) && !HasName(s, x.name)
    ensures DistinctNames(Insert(x, s))
    decreases |s|
  {
    if s != [] && x.playTimeMs <= s[0].playTimeMs {
      var rest := Insert(x, s[1..]);
      forall m | 0 <= m < |s[1..]| ensures s[1..][m].name != x.name {
        assert s[1..][m] == s[m + 1];
      }
      forall i, j | 0 <= i < j < |s[1..]| ensures s[1..][i].name != s[1..][j].name {
        assert s[1..][i] == s[i + 1] && s[1..][j] == s[j + 1];
      }
      InsertDistinct(x, s[1..]);
      InsertMembers(x, s[1..]);
      assert Insert(x, s) == [s[0]] + rest;
      forall k | 0 <= k < |rest| ensures s[0].name != rest[k].name {
        if rest[k] == x {
          assert s[0].name != x.name;
        } else {
          var m :| 0 <= m < |s[1..]| && s[1..][m] == rest[k];
          assert s[m + 1] == rest[k];
        }
      }
    }
  }

  /** The sort is a permutation and orders by play time descending. */
  lemma {:induction false} SortPermutes(s: seq<Artist>)
    ensures multiset(SortByPlayTime(s)) == multiset(s)
    ensures Descending(SortByPlayTime(s))
    decreases |s|
  {
    if s != [] {
      var init := s[..|s| - 1];
      SortPermutes(init);
      InsertPermutes(s[|s| - 1], SortByPlayTime(init));
      InsertDescending(s[|s| - 1], SortByPlayTime(init));
      assert s == init + [s[|s| - 1]];
    }
  }

  /** Sorting keeps distinct names distinct. */
  lemma {:induction false} SortDistinct(s: seq<Artist>)
    requires DistinctNames(s)
    ensures DistinctNames(SortByPlayTime(s))
    decreases |s|
  {
    if s != [] {
      var init := s[..|s| - 1];
      var x := s[|s| - 1];
      var sorted := SortByPlayTime(init);
      forall i, j | 0 <= i < j < |init| ensures init[i].name != init[j].name {
        assert init[i] == s[i] && init[j] == s[j];
      }
      SortDistinct(init);
      SortPermutes(init);
      forall k | 0 <= k < |sorted| ensures sorted[k].name != x.name {
        assert sorted[k] in multiset(init);
        var m :| 0 <= m < |init| && init[m] == sorted[k];
        assert s[m] == sorted[k];
      }
      InsertDistinct(x, sorted);
    }
  }

  /** `.slice(0, 10).map((artist, index) => ({...artist, rank: index + 1}))`. */
  function Ranked(sorted: seq<Artist>): (r: seq<RankedArtist>)
    ensures |r| == if |sorted| < TopCount then |sorted| else TopCount
    ensures forall k :: 0 <= k < |r| ==>
              r[k].name == sorted[k].name && r[k].playTimeMs == sorted[k].playTimeMs
              && r[k].trackCount == sorted[k].trackCount && r[k].rank == k + 1
  {
    var n := if |sorted| < TopCount then |sorted| else TopCount;
    seq(n, i requires 0 <= i < n => RankedArtist(sorted[i].name, sorted[i].playTimeMs, sorted[i].trackCount, i + 1))
  }

  /** `spotifyArtists` for a non-empty list of sessions. */
  function TopArtists(sessions: seq<SpotifyRow>): seq<RankedArtist>
  {
    Ranked(SortByPlayTime(Tally(sessions)))
  }

  predicate Listed(r: seq<RankedArtist>, name: string)
  {
    exists k :: 0 <= k < |r| && r[k].name == name
  }

  /** The sorted entries: each played artist once, with its totals, in non-increasing play time. */
  ghost predicate SortedTally(sorted: seq<Artist>, sessions: seq<SpotifyRow>)
  {
    && Descending(sorted)
    && DistinctNames(sorted)
    && (forall k :: 0 <= k < |sorted| ==> Played(sessions, sorted[k].name))
    && (forall k :: 0 <= k < |sorted| ==> sorted[k].playTimeMs == PlaySum(sessions, sorted[k].name))
    && (forall k :: 0 <= k < |sorted| ==> sorted[k].trackCount == Plays(sessions, sorted[k].name))
    && (forall n :: Played(sessions, n) ==> HasName(sorted, n))
  }

  lemma SortTally(sessions: seq<SpotifyRow>)
    ensures SortedTally(SortByPlayTime(Tally(sessions)), sessions)
  {
    var t := Tally(sessions);
    var sorted := SortByPlayTime(t);
    TallyMeaning(sessions);
    SortPermutes(t);
    SortDistinct(t);
    forall k | 0 <= k < |sorted|
      ensures Played(sessions, sorted[k].name)
      ensures sorted[k].playTimeMs == PlaySum(sessions, sorted[k].name)
      ensures sorted[k].trackCount == Plays(sessions, sorted[k].name)
    {
      assert sorted[k] in multiset(t);
      var m :| 0 <= m < |t| && t[m] == sorted[k];
      assert HasName(t, t[m].name);
    }
    forall n | Played(sessions, n) ensures HasName(sorted, n) {
      assert HasName(t, n);
      var m :| 0 <= m < |t| && t[m].name == n;
      assert t[m] in multiset(sorted);
      var i :| 0 <= i < |sorted| && sorted[i] == t[m];
    }
  }

  /**
   * The ranking: at most ten artists, each played, each once, with its total
   * play time and play count, in non-increasing play time, ranked 1..n in
   * list order.
   */
  lemma TopArtistsMeaning(sessions: seq<SpotifyRow>)
    ensures var r := TopArtists(sessions);
            && |r| <= TopCount
            && (forall k :: 0 <= k < |r| ==> r[k].rank == k + 1)
            && (forall i, j :: 0 <= i < j < |r| ==> r[i].playTimeMs >= r[j].playTimeMs && r[i].name != r[j].name)
            && (forall k :: 0 <= k < |r| ==> Played(sessions, r[k].name))
            && (forall k :: 0 <= k < |r| ==> r[k].playTimeMs == PlaySum(sessions, r[k].name) && r[k].trackCount == Plays(sessions, r[k].name))
  {
    SortTally(sessions);
  }

  /** Some session gives some ranked artist. */
  lemma TopArtistsNonEmpty(sessions: seq<SpotifyRow>)
    requires sessions != []
    ensures TopArtists(sessions) != []
  {
    var t := Tally(sessions);
    assert t == Count(Tally(sessions[..|sessions| - 1]), sessions[|sessions| - 1]);
    assert |t| >= 1;
    SortPermutes(t);
    assert |SortByPlayTime(t)| == |multiset(SortByPlayTime(t))| == |t|;
  }

  /**
   * The cut at ten: an artist played but not listed has no more play time
   * than any listed one, and fewer than ten are listed only when every
   * artist is.
   */
  lemma TopArtistsCut(sessions: seq<SpotifyRow>)
    ensures var r := TopArtists(sessions);
            && (forall n :: Played(sessions, n) && !Listed(r, n) ==> forall k :: 0 <= k < |r| ==> PlaySum(sessions, n) <= r[k].playTimeMs)
            && (|r| < TopCount ==> forall n :: Played(sessions, n) ==> Listed(r, n))
  {
    var sorted := SortByPlayTime(Tally(sessions));
    var r := Ranked(sorted);
    SortTally(sessions);
    forall n | Played(sessions, n)
      ensures Listed(r, n) || forall k :: 0 <= k < |r| ==> PlaySum(sessions, n) <= r[k].playTimeMs
      ensures |r| < TopCount ==> Listed(r, n)
    {
      var i :| 0 <= i < |sorted| && sorted[i].name == n;
      if i < |r| {
        assert r[i].name == n;
      } else {
        forall k | 0 <= k < |r| ensures PlaySum(sessions, n) <= r[k].playTimeMs {
          assert r[k].playTimeMs == sorted[k].playTimeMs;
        }
      }
    }
  }

  // -------------------------------------------------------------------- the page

  /** What the page renders. */
  datatype Page =
    | ToLogin
    | Render(profile: Option<Profile>, githubCommits: seq<CommitRow>, workSessions: seq<WorkRow>,
             spotifySessions: seq<SpotifyRow>, spotifyArtists: seq<RankedArtist>)

  /** `.eq('user_id', u).gte('date', start)` on `github_commits`, as the rows it does not select. */
  function OtherCommits(u: UserId, start: int): CommitRow -> bool
  {
    (r: CommitRow) => !(r.userId == u && r.date >= start)
  }

  /** The same filter on `work_sessions`. */
  function OtherWork(u: UserId, start: int): WorkRow -> bool
  {
    (r: WorkRow) => !(r.userId == u && r.date >= start)
  }

  /** The same filter on `spotify_sessions`. */
  function OtherPlays(u: UserId, start: int): SpotifyRow -> bool
  {
    (r: SpotifyRow) => !(r.userId == u && r.date >= start)
  }

  /**
   * `DashboardPage`. `start` is the day fifty days back; a query whose
   * `*Fails` flag is set returns `data: null`. The rows' ordering is not
   * modelled: each list keeps table order.
   */
  method Load(db: Db, user: Option<UserId>, start: int, commitsFail: bool, workFail: bool, spotifyFail: bool)
    returns (page: Page)
    ensures user.None? ==> page == ToLogin
    ensures user.Some? ==> page.Render?
    ensures user.Some? ==> page.profile == (if user.value in db.profiles then Some(db.profiles[user.value]) else None)
    ensures user.Some? ==>
              page.githubCommits ==
                (if page.profile.Some? && page.profile.value.githubConnected && !commitsFail
                 then Without(db.commits, OtherCommits(user.value, start)) else [])
    ensures user.Some? ==>
              page.workSessions ==
                (if !workFail then Without(db.work, OtherWork(user.value, start)) else [])
    ensures user.Some? ==>
              page.spotifySessions ==
                (if page.profile.Some? && IsPaid(page.profile.value.tier) && !spotifyFail
                 then Without(db.spotify, OtherPlays(user.value, start)) else [])
    ensures user.Some? ==>
              page.spotifyArtists == (if page.spotifySessions != [] then TopArtists(page.spotifySessions) else [])
  {
    if user.None? {
      return ToLogin;
    }
    var u := user.value;
    var profile := if u in db.profiles then Some(db.profiles[u]) else None;
    var githubCommits: Option<seq<CommitRow>> := None;
    if profile.Some? && profile.value.githubConnected {
      githubCommits := if commitsFail then None else Some(Without(db.commits, OtherCommits(u, start)));
    }
    var workSessions := if workFail then None else Some(Without(db.work, OtherWork(u, start)));
    var spotifySessions: Option<seq<SpotifyRow>> := None;
    var spotifyArtists: Option<seq<RankedArtist>> := None;
    if profile.Some? && IsPaid(profile.value.tier) {
      spotifySessions := if spotifyFail then None else Some(Without(db.spotify, OtherPlays(u, start)));
      if spotifySessions.Some? && |spotifySessions.value| > 0 {
        var artists := AggregateArtists(spotifySessions.value);
        spotifyArtists := Some(Ranked(SortByPlayTime(artists)));
      }
    }
    page := Render(profile, githubCommits.GetOr([]), workSessions.GetOr([]), spotifySessions.GetOr([]), spotifyArtists.GetOr([]));
  }

  /** The rows handed to the client are the user's own and fall in the window. */
  lemma LoadedRowsAreOwn(commits: seq<CommitRow>, work: seq<WorkRow>, plays: seq<SpotifyRow>, u: UserId, start: int)
    ensures forall r :: r in Without(commits, OtherCommits(u, start)) <==> r in commits && r.userId == u && r.date >= start
    ensures forall r :: r in Without(work, OtherWork(u, start)) <==> r in work && r.userId == u && r.date >= start
    ensures forall r :: r in Without(plays, OtherPlays(u, start)) <==> r in plays && r.userId == u && r.date >= start
  {
  }
}

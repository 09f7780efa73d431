/**
 * The Spotify synchroniser (`POST /api/sync/spotify`): obtain a working access
 * token, read the recently-played list, keep the tracks played inside the
 * window, and replace the user's `spotify_sessions` rows from the window's
 * first day on.
 */
module SpotifySync {
  import opened Wrappers
  import opened Schema

  /** The `limit=50` of the recently-played request. */
  const PageLimit: nat := 50

  /** One played item; `playedAt` is None when `played_at` does not parse (`toISOString` then throws). */
  datatype Track = Track(name: string, artists: seq<string>, durationMs: int, playedAt: Option<int>)

  /**
   * What one request of the loop gets: a list (`items`, missing read as empty),
   * a 401 with the outcome of the refresh (None when it throws) and of the
   * retried request (None when it is not OK or throws), or any other failure.
   */
  datatype Response = Listed(tracks: seq<Track>) | Expired(refreshed: Option<string>, retry: Option<seq<Track>>) | Failed

  /** `item.track.artists[0]?.name || 'Unknown Artist'`. */
  function ArtistOf(t: Track): (a: string)
    ensures a != ""
    ensures |t.artists| > 0 && t.artists[0] != "" ==> a == t.artists[0]
    ensures !(|t.artists| > 0 && t.artists[0] != "") ==> a == "Unknown Artist"
  {
    if |t.artists| > 0 && t.artists[0] != "" then t.artists[0] else "Unknown Artist"
  }

  function RowOf(u: UserId, t: Track): SpotifyRow
    requires t.playedAt.Some?
  {
    SpotifyRow(u, DayOf(t.playedAt.value), ArtistOf(t), t.name, t.durationMs, t.playedAt.value)
  }

  /** The effect of the `for (const item of tracks)` loop: rows pushed, whether an older track cleared `hasMore`, whether it threw. */
  datatype Scan = Scan(rows: seq<SpotifyRow>, olderSeen: bool, threw: bool)

  function ScanOne(s: Scan, u: UserId, t: Track, start: int, now: int): Scan
  {
    if t.playedAt.None? then s.(threw := true)
    else if t.playedAt.value < start then s.(olderSeen := true)
    else if t.playedAt.value > now then s
    else s.(rows := s.rows + [RowOf(u, t)])
  }

  function ScanTracks(u: UserId, ts: seq<Track>, start: int, now: int): Scan
    decreases |ts|
  {
    if ts == [] then Scan([], false, false)
    else
      var s := ScanTracks(u, ts[..|ts| - 1], start, now);
      if s.threw then s else ScanOne(s, u, ts[|ts| - 1], start, now)
  }

  /** One pass over a page of tracks; the exception a bad date raises ends the pass. */
  method ScanPage(u: UserId, ts: seq<Track>, start: int, now: int) returns (s: Scan)
    ensures s == ScanTracks(u, ts, start, now)
  {
    s := Scan([], false, false);
    var i := 0;
    while i < |ts|
      invariant 0 <= i <= |ts|
      invariant s == ScanTracks(u, ts[..i], start, now) && !s.threw
    {
      assert ts[..i + 1][..i] == ts[..i];
      var item := ts[i];
      i := i + 1;
      if item.playedAt.None? {
        s := s.(threw := true);
        ScanStaysThrown(u, ts, i, start, now);
        return;
      }
      var playedAt := item.playedAt.value;
      if playedAt < start || playedAt > now {
        if playedAt < start {
          s := s.(olderSeen := true);
        }
        continue;
      }
      s := s.(rows := s.rows + [RowOf(u, item)]);
    }
    assert ts[..i] == ts;
  }

  lemma {:induction false} ScanStaysThrown(u: UserId, ts: seq<Track>, k: nat, start: int, now: int)
    requires k <= |ts| && ScanTracks(u, ts[..k], start, now).threw
    ensures ScanTracks(u, ts, start, now) == ScanTracks(u, ts[..k], start, now)
    decreases |ts| - k
  {
    if k < |ts| {
      assert ts[..k + 1][..k] == ts[..k];
      ScanStaysThrown(u, ts, k + 1, start, now);
    } else {
      assert ts[..k] == ts;
    }
  }

  /** The rows gathered by the loop and the last token a refresh inside it obtained (and persisted). */
  datatype Outcome = Outcome(rows: seq<SpotifyRow>, refreshed: Option<string>)

  function After(rows: seq<SpotifyRow>, token: Option<string>, rest: Outcome): Outcome
  {
    Outcome(rows + rest.rows, if rest.refreshed.Some? then rest.refreshed else token)
  }

  lemma AfterAssoc(a: seq<SpotifyRow>, b: seq<SpotifyRow>, token: Option<string>, rest: Outcome)
    requires token.Some?
    ensures forall t0 :: After(a, t0, After(b, token, rest)) == After(a + b, token, rest)
  {
    assert a + (b + rest.rows) == (a + b) + rest.rows;
  }

  /** The `while (hasMore)` loop over the successive responses; a request past the end of `rs` fails. */
  function Run(u: UserId, rs: seq<Response>, start: int, now: int): Outcome
    decreases |rs|
  {
    if rs == [] then Outcome([], None)
    else match rs[0]
      case Failed => Outcome([], None)
      case Listed(ts) =>
        if ts == [] then Outcome([], None) else Outcome(ScanTracks(u, ts, start, now).rows, None)
      case Expired(refreshed, retry) =>
        if refreshed.None? then Outcome([], None)
        else if retry.None? then Outcome([], refreshed)
        else
          var s := ScanTracks(u, retry.value, start, now);
          if s.threw || s.olderSeen || |retry.value| < PageLimit then Outcome(s.rows, refreshed)
          else After(s.rows, refreshed, Run(u, rs[1..], start, now))
  }

  /** `getValidSpotifyToken`: the stored token when the probe succeeds, else the refresh's result (None: it threw). */
  function Acquire(stored: string, probeOk: bool, refreshed: Option<string>): (r: Option<string>)
    ensures probeOk ==> r == Some(stored)
    ensures !probeOk ==> r == refreshed
  {
    if probeOk then Some(stored) else refreshed
  }

  predicate Linked(profiles: map<UserId, Profile>, u: UserId)
  {
    u in profiles && Truthy(profiles[u].spotifyAccessToken) && Truthy(profiles[u].spotifyRefreshToken)
  }

  function WithToken(profiles: map<UserId, Profile>, u: UserId, token: string): map<UserId, Profile>
    requires u in profiles
  {
    profiles[u := profiles[u].(spotifyAccessToken := Some(token))]
  }

  function Stale(u: UserId, fromDay: int): SpotifyRow -> bool
  {
    (r: SpotifyRow) => r.userId == u && r.date >= fromDay
  }

  /** The token step: the obtained token is written to the profile only when it differs from the stored one. */
  method ObtainToken(db: Db, u: UserId, probeOk: bool, refreshed: Option<string>) returns (token: Option<string>)
    requires Linked(db.profiles, u)
    modifies db`profiles
    ensures token == Acquire(old(db.profiles[u].spotifyAccessToken.value), probeOk, refreshed)
    ensures token.Some? && token.value != old(db.profiles[u].spotifyAccessToken.value) ==>
              db.profiles == WithToken(old(db.profiles), u, token.value)
    ensures token.None? || token.value == old(db.profiles[u].spotifyAccessToken.value) ==>
              db.profiles == old(db.profiles)
  {
    var stored := db.profiles[u].spotifyAccessToken.value;
    token := Acquire(stored, probeOk, refreshed);
    if token.Some? && token.value != stored {
      db.profiles := WithToken(db.profiles, u, token.value);
    }
  }

  /**
   * The `while (hasMore)` loop: the rows it collects follow `Run`, and every
   * refresh inside it writes the new token to the profile.
   */
  method FetchSessions(db: Db, u: UserId, token: string, rs: seq<Response>, start: int, now: int)
    returns (sessionsToInsert: seq<SpotifyRow>)
    requires u in db.profiles && db.profiles[u].spotifyAccessToken == Some(token)
    modifies db`profiles
    ensures sessionsToInsert == Run(u, rs, start, now).rows
    ensures db.profiles == WithToken(old(db.profiles), u, Run(u, rs, start, now).refreshed.GetOr(token))
  {
    ghost var p0 := db.profiles;
    assert p0 == WithToken(p0, u, token) by {
      assert p0[u].(spotifyAccessToken := Some(token)) == p0[u];
    }
    var accessToken := token;
    sessionsToInsert := [];
    ghost var lastRefresh: Option<string> := None;
    var hasMore := true;
    var k := 0;
    assert [] + Run(u, rs, start, now).rows == Run(u, rs, start, now).rows;
    while hasMore
      invariant 0 <= k <= |rs|
      invariant hasMore ==> Run(u, rs, start, now) == After(sessionsToInsert, lastRefresh, Run(u, rs[k..], start, now))
      invariant !hasMore ==> Run(u, rs, start, now) == Outcome(sessionsToInsert, lastRefresh)
      invariant accessToken == lastRefresh.GetOr(token)
      invariant db.profiles == WithToken(p0, u, accessToken)
      decreases |rs| - k + (if hasMore then 1 else 0)
    {
      if k == |rs| {
        // the request fails: the error is caught and ends the loop
        assert sessionsToInsert + [] == sessionsToInsert;
        hasMore := false;
        continue;
      }
      var response := rs[k];
      assert rs[k..][1..] == rs[k + 1..];
      assert sessionsToInsert + [] == sessionsToInsert;
      k := k + 1;
      match response
      case Failed =>
        hasMore := false;
      case Expired(newToken, retry) =>
        if newToken.None? {
          hasMore := false;
        } else {
          accessToken := newToken.value;
          db.profiles := WithToken(db.profiles, u, accessToken);
          lastRefresh := newToken;
          if retry.None? {
            hasMore := false;
          } else {
            var tracks := retry.value;
            var scan := ScanPage(u, tracks, start, now);
            ghost var before := sessionsToInsert;
            sessionsToInsert := sessionsToInsert + scan.rows;
            if scan.threw || scan.olderSeen || |tracks| < PageLimit {
              hasMore := false;
            } else {
              AfterAssoc(before, scan.rows, newToken, Run(u, rs[k..], start, now));
            }
          }
        }
      case Listed(tracks) =>
        if |tracks| == 0 {
          hasMore := false;
        } else {
          var scan := ScanPage(u, tracks, start, now);
          sessionsToInsert := sessionsToInsert + scan.rows;
          hasMore := false;
        }
    }
  }

  /**
   * The handler. `probeOk` and `refreshed` drive the token step; `rs` are
   * the responses to the successive recently-played requests; `start` and
   * `now` bound the window; `insertFails` says whether the insert is rejected.
   */
  method Post(db: Db, user: Option<UserId>, probeOk: bool, refreshed: Option<string>, rs: seq<Response>,
              start: int, now: int, insertFails: bool) returns (reply: Reply<nat>)
    modifies db`profiles, db`spotify
    ensures user.None? ==>
              reply == Fail(401, "Unauthorized") && db.profiles == old(db.profiles) && db.spotify == old(db.spotify)
    ensures user.Some? && !Linked(old(db.profiles), user.value) ==>
              reply == Fail(400, "Spotify not connected") && db.profiles == old(db.profiles) && db.spotify == old(db.spotify)
    ensures user.Some? && Linked(old(db.profiles), user.value)
            && Acquire(old(db.profiles)[user.value].spotifyAccessToken.value, probeOk, refreshed).None? ==>
              reply == Fail(401, "Failed to refresh Spotify token")
              && db.profiles == old(db.profiles) && db.spotify == old(db.spotify)
    ensures user.Some? && Linked(old(db.profiles), user.value)
            && Acquire(old(db.profiles)[user.value].spotifyAccessToken.value, probeOk, refreshed).Some? ==>
              var u := user.value;
              var first := Acquire(old(db.profiles)[u].spotifyAccessToken.value, probeOk, refreshed).value;
              var out := Run(u, rs, start, now);
              var cleared := Without(old(db.spotify), Stale(u, DayOf(start)));
              && db.profiles == WithToken(old(db.profiles), u, out.refreshed.GetOr(first))
              && (out.rows != [] && insertFails ==> reply == Fail(500, "Failed to insert sessions") && db.spotify == cleared)
              && (!(out.rows != [] && insertFails) ==> reply == Ok(|out.rows|) && db.spotify == cleared + out.rows)
  {
    if user.None? {
      return Fail(401, "Unauthorized");
    }
    var u := user.value;
    if u !in db.profiles || !Truthy(db.profiles[u].spotifyAccessToken) || !Truthy(db.profiles[u].spotifyRefreshToken) {
      return Fail(400, "Spotify not connected");
    }
    ghost var p0 := db.profiles;
    var token := ObtainToken(db, u, probeOk, refreshed);
    if token.None? {
      return Fail(401, "Failed to refresh Spotify token");
    }
    var accessToken := token.value;
    assert db.profiles == WithToken(p0, u, accessToken) by {
      if accessToken == p0[u].spotifyAccessToken.value {
        assert p0[u].(spotifyAccessToken := Some(accessToken)) == p0[u];
        assert p0[u := p0[u]] == p0;
      }
    }
    var sessionsToInsert := FetchSessions(db, u, accessToken, rs, start, now);
    db.spotify := Without(db.spotify, Stale(u, DayOf(start)));
    if |sessionsToInsert| > 0 {
      if insertFails {
        return Fail(500, "Failed to insert sessions");
      }
      db.spotify := db.spotify + sessionsToInsert;
    }
    return Ok(|sessionsToInsert|);
  }
}

module SpotifySyncFacts {
  import opened Wrappers
  import opened Schema
  import opened SpotifySync

  predicate InWindow(t: Track, start: int, now: int)
  {
    t.playedAt.Some? && start <= t.playedAt.value <= now
  }

  /** Reference definition: the rows of the in-window tracks, in page order. */
  function Kept(u: UserId, ts: seq<Track>, start: int, now: int): seq<SpotifyRow>
    decreases |ts|
  {
    if ts == [] then []
    else (if InWindow(ts[0], start, now) then [RowOf(u, ts[0])] else []) + Kept(u, ts[1..], start, now)
  }

  predicate AllDated(ts: seq<Track>)
  {
    forall j :: 0 <= j < |ts| ==> ts[j].playedAt.Some?
  }

  predicate SomeOlder(ts: seq<Track>, start: int)
  {
    exists j :: 0 <= j < |ts| && ts[j].playedAt.Some? && ts[j].playedAt.value < start
  }

  lemma {:induction false} KeptSnoc(u: UserId, ts: seq<Track>, t: Track, start: int, now: int)
    ensures Kept(u, ts + [t], start, now) == Kept(u, ts, start, now) + (if InWindow(t, start, now) then [RowOf(u, t)] else [])
    decreases |ts|
  {
    if ts == [] {
      assert [] + [t] == [t];
    } else {
      assert (ts + [t])[1..] == ts[1..] + [t];
      KeptSnoc(u, ts[1..], t, start, now);
    }
  }

  /**
   * On a page whose dates all parse, the scan pushes exactly the rows of the
   * in-window tracks, and clears `hasMore` exactly when some track is older than the window.
   */
  lemma {:induction false} ScanIsFilter(u: UserId, ts: seq<Track>, start: int, now: int)
    requires AllDated(ts)
    ensures ScanTracks(u, ts, start, now) == Scan(Kept(u, ts, start, now), SomeOlder(ts, start), false)
    decreases |ts|
  {
    if ts != [] {
      var init := ts[..|ts| - 1];
      var t := ts[|ts| - 1];
      assert init + [t] == ts;
      ScanIsFilter(u, init, start, now);
      KeptSnoc(u, init, t, start, now);
      assert SomeOlder(ts, start) == (SomeOlder(init, start) || t.playedAt.value < start) by {
        if SomeOlder(ts, start) {
          var j :| 0 <= j < |ts| && ts[j].playedAt.Some? && ts[j].playedAt.value < start;
          if j < |init| {
            assert init[j] == ts[j];
          }
        }
        if SomeOlder(init, start) {
          var j :| 0 <= j < |init| && init[j].playedAt.Some? && init[j].playedAt.value < start;
          assert ts[j] == init[j];
        }
      }
    }
  }

  /** A track whose date does not parse ends the scan; the rows of the tracks before it are kept. */
  lemma BadDateKeepsEarlierRows(u: UserId, ts: seq<Track>, i: nat, start: int, now: int)
    requires i < |ts| && ts[i].playedAt.None? && AllDated(ts[..i])
    ensures ScanTracks(u, ts, start, now).threw
    ensures ScanTracks(u, ts, start, now).rows == Kept(u, ts[..i], start, now)
  {
    ScanIsFilter(u, ts[..i], start, now);
    assert ts[..i + 1][..i] == ts[..i];
    ScanStaysThrown(u, ts, i + 1, start, now);
  }

  /** A normal (non-401) response ends the loop: nothing after it is requested. */
  lemma NormalPathOnePage(u: UserId, r: Response, rest: seq<Response>, start: int, now: int)
    requires !r.Expired?
    ensures Run(u, [r] + rest, start, now) == Run(u, [r], start, now)
  {
  }

  /**
   * Only the retry after a 401 can go on to another request, and only when the
   * refresh and the retry succeed with a full page of 50 whose dates parse and none
   * of which is older than the window.
   */
  lemma OnlyRetryContinues(u: UserId, r: Response, rest: seq<Response>, start: int, now: int)
    requires Run(u, [r] + rest, start, now) != Run(u, [r], start, now)
    ensures r.Expired? && r.refreshed.Some? && r.retry.Some? && |r.retry.value| >= PageLimit
    ensures !ScanTracks(u, r.retry.value, start, now).threw && !ScanTracks(u, r.retry.value, start, now).olderSeen
  {
    assert ([r] + rest)[0] == r && ([r] + rest)[1..] == rest && [r][1..] == [];
    if r.Expired? && r.refreshed.Some? && r.retry.Some? {
      var s := ScanTracks(u, r.retry.value, start, now);
      assert s.rows + [] == s.rows;
    }
  }

  predicate ScanRowsOk(rows: seq<SpotifyRow>, u: UserId, start: int, now: int)
  {
    forall row <- rows :: row.userId == u && start <= row.playedAt <= now
                          && DayOf(start) <= row.date <= DayOf(now) && row.artistName != ""
  }

  lemma {:induction false} ScanRowsInWindow(u: UserId, ts: seq<Track>, start: int, now: int)
    ensures ScanRowsOk(ScanTracks(u, ts, start, now).rows, u, start, now)
    decreases |ts|
  {
    if ts != [] {
      ScanRowsInWindow(u, ts[..|ts| - 1], start, now);
      var t := ts[|ts| - 1];
      if InWindow(t, start, now) {
        DayOfMonotonic(start, t.playedAt.value);
        DayOfMonotonic(t.playedAt.value, now);
      }
    }
  }

  /** Every collected row is the user's, played inside the window, and names an artist. */
  lemma {:induction false} RunRowsInWindow(u: UserId, rs: seq<Response>, start: int, now: int)
    ensures ScanRowsOk(Run(u, rs, start, now).rows, u, start, now)
    decreases |rs|
  {
    if rs != [] {
      match rs[0]
      case Failed =>
      case Listed(ts) =>
        ScanRowsInWindow(u, ts, start, now);
      case Expired(refreshed, retry) =>
        if refreshed.Some? && retry.Some? {
          ScanRowsInWindow(u, retry.value, start, now);
          RunRowsInWindow(u, rs[1..], start, now);
        }
    }
  }
}

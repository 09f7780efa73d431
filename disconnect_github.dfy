/** `POST /api/disconnect/github`: clear the GitHub link, then drop all of the user's commit rows. */
module DisconnectGithub {
  import opened Wrappers
  import opened Schema

  /** The profile update: only the three GitHub link fields change. */
  function Unlinked(p: Profile): (q: Profile)
    ensures !q.githubConnected && q.githubAccessToken == None && q.githubUsername == None
    ensures q.id == p.id && q.email == p.email && q.tier == p.tier && q.githubLastSyncedAt == p.githubLastSyncedAt
    ensures q.spotifyConnected == p.spotifyConnected && q.spotifyAccessToken == p.spotifyAccessToken
    ensures q.spotifyRefreshToken == p.spotifyRefreshToken && q.stripeCustomerId == p.stripeCustomerId
  {
    p.(githubConnected := false, githubAccessToken := None, githubUsername := None)
  }

  function OfUser(u: UserId): CommitRow -> bool
  {
    (r: CommitRow) => r.userId == u
  }

  /**
   * The handler. `updateFails` says whether the profile update errors;
   * `deleteFails` whether the commit deletion errors, which the route ignores.
   * An update that matches no row is no error and changes nothing.
   */
  method Post(db: Db, user: Option<UserId>, updateFails: bool, deleteFails: bool) returns (reply: Reply<()>)
    modifies db`profiles, db`commits
    ensures user.None? ==>
              reply == Fail(401, "Unauthorized") && db.profiles == old(db.profiles) && db.commits == old(db.commits)
    ensures user.Some? && updateFails ==>
              reply == Fail(500, "Failed to disconnect GitHub") && db.profiles == old(db.profiles) && db.commits == old(db.commits)
    ensures user.Some? && !updateFails ==>
              var u := user.value;
              && reply == Ok(())
              && db.profiles == (if u in old(db.profiles) then old(db.profiles)[u := Unlinked(old(db.profiles)[u])] else old(db.profiles))
              && db.commits == (if deleteFails then old(db.commits) else Without(old(db.commits), OfUser(u)))
  {
    if user.None? {
      return Fail(401, "Unauthorized");
    }
    var u := user.value;
    if updateFails {
      return Fail(500, "Failed to disconnect GitHub");
    }
    if u in db.profiles {
      db.profiles := db.profiles[u := Unlinked(db.profiles[u])];
    }
    if !deleteFails {
      db.commits := Without(db.commits, OfUser(u));
    }
    return Ok(());
  }

  /** After a deletion that succeeds no commit row of the user remains, with no date filter, and other users' rows stay. */
  lemma DeletionRemovesAllOfUser(commits: seq<CommitRow>, u: UserId)
    ensures forall r <- Without(commits, OfUser(u)) :: r.userId != u
    ensures forall r <- commits :: r.userId != u ==> r in Without(commits, OfUser(u))
  {
  }
}

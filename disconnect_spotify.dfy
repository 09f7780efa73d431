/** `POST /api/disconnect/spotify`: clear the Spotify link; listening rows are kept. */
module DisconnectSpotify {
  import opened Wrappers
  import opened Schema

  /** The profile update: only the three Spotify link fields change. */
  function Unlinked(p: Profile): (q: Profile)
    ensures !q.spotifyConnected && q.spotifyAccessToken == None && q.spotifyRefreshToken == None
    ensures q.id == p.id && q.email == p.email && q.tier == p.tier && q.stripeCustomerId == p.stripeCustomerId
    ensures q.githubConnected == p.githubConnected && q.githubAccessToken == p.githubAccessToken
    ensures q.githubUsername == p.githubUsername && q.githubLastSyncedAt == p.githubLastSyncedAt
  {
    p.(spotifyConnected := false, spotifyAccessToken := None, spotifyRefreshToken := None)
  }

  /** The handler; `updateFails` says whether the profile update errors. */
  method Post(db: Db, user: Option<UserId>, updateFails: bool) returns (reply: Reply<()>)
    modifies db`profiles
    ensures user.None? ==> reply == Fail(401, "Unauthorized") && db.profiles == old(db.profiles)
    ensures user.Some? && updateFails ==> reply == Fail(500, "Failed to disconnect Spotify") && db.profiles == old(db.profiles)
    ensures user.Some? && !updateFails ==>
              var u := user.value;
              reply == Ok(())
              && db.profiles == (if u in old(db.profiles) then old(db.profiles)[u := Unlinked(old(db.profiles)[u])] else old(db.profiles))
  {
    if user.None? {
      return Fail(401, "Unauthorized");
    }
    var u := user.value;
    if updateFails {
      return Fail(500, "Failed to disconnect Spotify");
    }
    if u in db.profiles {
      db.profiles := db.profiles[u := Unlinked(db.profiles[u])];
    }
    return Ok(());
  }
}

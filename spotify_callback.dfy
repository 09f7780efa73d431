/** `GET /integrations/spotify/callback`: the gate chain before storing the Spotify tokens. */
module SpotifyCallback {
  import opened Wrappers
  import opened Schema

  /** Where the handler redirects. */
  datatype Redirect = NoCode | Login | Pricing | Connected | SpotifyFailed

  /**
   * The token endpoint's reply: an error (an `error` field, or a request that
   * throws), or the two tokens, None when a field is absent (an absent field is
   * left out of the update).
   */
  datatype TokenReply = TokenError | Tokens(access: Option<string>, refresh: Option<string>)

  function Linked(p: Profile, access: Option<string>, refresh: Option<string>): (q: Profile)
    ensures q.spotifyConnected
    ensures q.spotifyAccessToken == (if access.Some? then access else p.spotifyAccessToken)
    ensures q.spotifyRefreshToken == (if refresh.Some? then refresh else p.spotifyRefreshToken)
    ensures q.(spotifyConnected := p.spotifyConnected, spotifyAccessToken := p.spotifyAccessToken,
               spotifyRefreshToken := p.spotifyRefreshToken) == p
  {
    p.(spotifyConnected := true,
       spotifyAccessToken := if access.Some? then access else p.spotifyAccessToken,
       spotifyRefreshToken := if refresh.Some? then refresh else p.spotifyRefreshToken)
  }

  /** The gate chain in its order: code, user, tier, token exchange. */
  function Gate(code: Option<string>, user: Option<UserId>, profiles: map<UserId, Profile>, token: TokenReply): (r: Redirect)
    ensures !Truthy(code) ==> r == NoCode
    ensures Truthy(code) && user.None? ==> r == Login
    ensures r == Pricing <==> Truthy(code) && user.Some? && user.value in profiles && profiles[user.value].tier == Free
    ensures r == Connected <==> Truthy(code) && user.Some? && !(user.value in profiles && profiles[user.value].tier == Free)
                                && token.Tokens?
  {
    if !Truthy(code) then NoCode
    else if user.None? then Login
    else if user.value in profiles && profiles[user.value].tier == Free then Pricing
    else if token.TokenError? then SpotifyFailed
    else Connected
  }

  method Get(db: Db, code: Option<string>, user: Option<UserId>, token: TokenReply) returns (r: Redirect)
    modifies db`profiles
    ensures r == Gate(code, user, old(db.profiles), token)
    ensures r != Connected ==> db.profiles == old(db.profiles)
    ensures r == Connected ==>
              var u := user.value;
              db.profiles == if u in old(db.profiles)
                             then old(db.profiles)[u := Linked(old(db.profiles)[u], token.access, token.refresh)]
                             else old(db.profiles)
  {
    if !Truthy(code) {
      return NoCode;
    }
    if user.None? {
      return Login;
    }
    var u := user.value;
    if u in db.profiles && db.profiles[u].tier == Free {
      return Pricing;
    }
    if token.TokenError? {
      return SpotifyFailed;
    }
    if u in db.profiles {
      db.profiles := db.profiles[u := Linked(db.profiles[u], token.access, token.refresh)];
    }
    return Connected;
  }

  /** A signed-in user without a profile row passes the tier gate. */
  lemma MissingProfileNotRejected(code: string, u: UserId, profiles: map<UserId, Profile>, token: TokenReply)
    requires code != "" && u !in profiles
    ensures Gate(Some(code), Some(u), profiles, token) == (if token.Tokens? then Connected else SpotifyFailed)
  {
  }
}

/**
 * The Supabase tables the route handlers read and write, and the
 * conventions shared by every module: times are integer milliseconds since
 * the epoch, and a `YYYY-MM-DD` date is the number of the UTC day it names.
 */
module Schema {
  import opened Wrappers
  import Cipher

  type UserId = string

  const MsPerSecond: int := 1000
  const MsPerMinute: int := 60 * 1000
  const MsPerHour: int := 60 * 60 * 1000
  const MsPerDay: int := 24 * 60 * 60 * 1000

  /** The date part of `new Date(ms).toISOString()`, as a day number. */
  function DayOf(ms: int): int
  {
    ms / MsPerDay
  }

  lemma DayOfMonotonic(a: int, b: int)
    requires a <= b
    ensures DayOf(a) <= DayOf(b)
  {
  }

  /** `SubscriptionTier`. */
  datatype Tier = Free | Monthly | Lifetime

  /** `tier === 'monthly' || tier === 'lifetime'`. */
  predicate IsPaid(t: Tier)
  {
    t == Monthly || t == Lifetime
  }

  /** A string value is present and not empty (JavaScript truthiness). */
  predicate Truthy(o: Option<string>)
  {
    o.Some? && o.value != ""
  }

  /** One row of `user_profiles`. */
  datatype Profile = Profile(
    id: UserId,
    email: string,
    tier: Tier,
    githubConnected: bool,
    githubUsername: Option<string>,
    githubAccessToken: Option<string>,
    githubLastSyncedAt: Option<int>,
    spotifyConnected: bool,
    spotifyAccessToken: Option<string>,
    spotifyRefreshToken: Option<string>,
    stripeCustomerId: Option<string>)

  /** The row that `insert({id, email, subscription_tier: 'free'})` creates: every other column at its default. */
  function NewProfile(id: UserId, email: string): (p: Profile)
    ensures p.id == id && p.email == email && p.tier == Free
    ensures !p.githubConnected && !p.spotifyConnected && p.stripeCustomerId == None
  {
    Profile(id, email, Free, false, None, None, None, false, None, None, None)
  }

  /** An account of the authentication store. */
  datatype Account = Account(email: string, password: string, emailConfirmed: bool)

  /** One row of `verification_codes`; the row's id is its position in the table. */
  datatype CodeRow = CodeRow(email: string, passwordBlob: Cipher.Blob, code: string, expiresAt: int, used: bool, createdAt: int)

  /** One row of `github_commits`: one repository's commits on one day. */
  datatype CommitRow = CommitRow(userId: UserId, date: int, commitCount: nat, repository: string, isSquash: bool, isMerge: bool, isBot: bool)

  /** One row of `spotify_sessions`: one play. */
  datatype SpotifyRow = SpotifyRow(userId: UserId, date: int, artistName: string, trackName: string, durationMs: int, playedAt: int)

  /** One row of `work_sessions`. */
  datatype WorkRow = WorkRow(userId: UserId, date: int, durationMinutes: int, startedAt: int, endedAt: int)

  /** A JSON response: a success payload, or an HTTP error status with its `error` message. */
  datatype Reply<T> = Ok(value: T) | Fail(status: int, error: string)

  /** `delete().eq('user_id', u)...`: the rows the predicate does not select, in table order. */
  function Without<R(!new)>(rows: seq<R>, selected: R -> bool): (r: seq<R>)
    ensures |r| <= |rows|
    ensures forall x :: x in r <==> x in rows && !selected(x)
    decreases |rows|
  {
    if rows == [] then []
    else if selected(rows[0]) then Without(rows[1..], selected)
    else [rows[0]] + Without(rows[1..], selected)
  }

  /** The server-side state: the authentication store and the tables. */
  class Db {
    var profiles: map<UserId, Profile>
    var accounts: map<UserId, Account>
    var codes: seq<CodeRow>
    var commits: seq<CommitRow>
    var spotify: seq<SpotifyRow>
    var work: seq<WorkRow>

    constructor ()
      ensures profiles == map[] && accounts == map[]
      ensures codes == [] && commits == [] && spotify == [] && work == []
    {
      profiles := map[];
      accounts := map[];
      codes := [];
      commits := [];
      spotify := [];
      work := [];
    }
  }
}

/**
 * The top-artists card: the play-time text, and which card is drawn for a
 * free tier, an empty list and a ranked list.
 */
module SpotifyArtists {
  import opened Text
  import opened JsNumber
  import opened Schema
  import DashboardPage

  /** The hours and minutes `formatPlayTime` shows. */
  datatype PlayTime = PlayTime(hours: int, minutes: int)

  /** `Math.floor(ms / 3600000)` and `Math.floor((ms % 3600000) / 60000)`. */
  function SplitPlayTime(ms: int): (t: PlayTime)
    ensures ms >= 0 ==> t.hours >= 0 && 0 <= t.minutes < 60
    ensures ms >= 0 ==> t.hours * MsPerHour + t.minutes * MsPerMinute <= ms < t.hours * MsPerHour + (t.minutes + 1) * MsPerMinute
  {
    var t := PlayTime(ms / MsPerHour, Rem(ms, MsPerHour) / MsPerMinute);
    if ms >= 0 then
      var r := ms % MsPerHour;
      assert ms == MsPerHour * (ms / MsPerHour) + r;
      assert r == MsPerMinute * (r / MsPerMinute) + r % MsPerMinute;
      t
    else t
  }

  /** `formatPlayTime`: `${hours}h ${minutes}m`. */
  function FormatPlayTime(ms: int): string
  {
    var t := SplitPlayTime(ms);
    IntToString(t.hours) + "h " + IntToString(t.minutes) + "m"
  }

  /** For a non-negative time the text is two words, hours then minutes, each a number with its unit letter. */
  lemma FormatPlayTimeReadsBack(ms: int)
    requires ms >= 0
    ensures var t := SplitPlayTime(ms);
            var words := Split(FormatPlayTime(ms), ' ');
            && |words| == 2
            && words[0] == NatToString(t.hours) + "h" && words[1] == NatToString(t.minutes) + "m"
            && ParseDigits(NatToString(t.hours)) == t.hours && ParseDigits(NatToString(t.minutes)) == t.minutes
  {
    var t := SplitPlayTime(ms);
    var h, m := NatToString(t.hours) + "h", NatToString(t.minutes) + "m";
    DigitsExclude(NatToString(t.hours), ' ');
    DigitsExclude(NatToString(t.minutes), ' ');
    assert FormatPlayTime(ms) == h + [' '] + m;
    Split2(h, m, ' ');
    ParseNatToString(t.hours);
    ParseNatToString(t.minutes);
  }

  /** The rank badge: gold, silver and bronze for the first three. */
  datatype Badge = Gold | Silver | Bronze | Plain

  /** One drawn entry. */
  datatype Entry = Entry(name: string, rank: nat, badge: Badge, highlighted: bool, playTime: string, tracks: nat)

  /** The card drawn. */
  datatype Card = Upgrade | NoArtists | Ranking(entries: seq<Entry>)

  function BadgeOf(rank: nat): Badge
  {
    if rank == 1 then Gold else if rank == 2 then Silver else if rank == 3 then Bronze else Plain
  }

  function EntryOf(a: DashboardPage.RankedArtist): Entry
  {
    Entry(a.name, a.rank, BadgeOf(a.rank), a.rank <= 3, FormatPlayTime(a.playTimeMs), a.trackCount)
  }

  /** `SpotifyArtists`: the free-tier check comes first, then the empty-list check. */
  function Render(artists: seq<DashboardPage.RankedArtist>, isPaid: bool): (c: Card)
    ensures !isPaid ==> c == Upgrade
    ensures isPaid && artists == [] ==> c == NoArtists
    ensures isPaid && artists != [] ==> c.Ranking? && |c.entries| == |artists|
    ensures c.Ranking? ==> forall k :: 0 <= k < |c.entries| ==>
              c.entries[k].name == artists[k].name && (c.entries[k].highlighted <==> artists[k].rank <= 3)
  {
    if !isPaid then Upgrade
    else if |artists| == 0 then NoArtists
    else Ranking(seq(|artists|, k requires 0 <= k < |artists| => EntryOf(artists[k])))
  }

  /**
   * Over any ranking numbered 1, 2, ... in list order the highlighted
   * entries are exactly the first three, each with its own badge.
   */
  lemma RankingHighlights(artists: seq<DashboardPage.RankedArtist>)
    requires artists != []
    requires forall k :: 0 <= k < |artists| ==> artists[k].rank == k + 1
    ensures var c := Render(artists, true);
            && c.Ranking?
            && (forall k :: 0 <= k < |c.entries| ==> (c.entries[k].highlighted <==> k < 3))
            && (forall k :: 0 <= k < |c.entries| && k < 3 ==> c.entries[k].badge != Plain)
            && (forall i, j :: 0 <= i < j < |c.entries| && j < 3 ==> c.entries[i].badge != c.entries[j].badge)
  {
    var c := Render(artists, true);
    forall k | 0 <= k < |c.entries| ensures c.entries[k] == EntryOf(artists[k]) {
    }
  }

  /** The page's ranking of a non-empty list of plays is drawn with the first three highlighted. */
  lemma RankingHighlightsTopThree(sessions: seq<SpotifyRow>)
    requires sessions != []
    ensures var c := Render(DashboardPage.TopArtists(sessions), true);
            && c.Ranking?
            && (forall k :: 0 <= k < |c.entries| ==> (c.entries[k].highlighted <==> k < 3))
            && (forall i, j :: 0 <= i < j < |c.entries| && j < 3 ==> c.entries[i].badge != c.entries[j].badge)
  {
    DashboardPage.TopArtistsNonEmpty(sessions);
    DashboardPage.TopArtistsMeaning(sessions);
    RankingHighlights(DashboardPage.TopArtists(sessions));
  }
}

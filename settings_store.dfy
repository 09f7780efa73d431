/**
 * The persisted settings store: which commits the GitHub graph counts, the
 * three graph colours and which graphs are shown. Each setter merges one key
 * into the state.
 */
module SettingsStore {

  /** The keys `setGitHubSetting` is called with. */
  datatype GitHubKey = IncludeSquashCommits | IncludeMergeCommits | IncludeBotCommits

  /** The keys `setGrassColor` is called with. */
  datatype ColorKey = CommitColor | WorkHourColor | SpotifyColor

  /** The keys `setDisplaySetting` is called with. */
  datatype DisplayKey = ShowGitHub | ShowWorkHours | ShowSpotify

  class Settings {
    var includeSquashCommits: bool
    var includeMergeCommits: bool
    var includeBotCommits: bool
    var commitColor: string
    var workHourColor: string
    var spotifyColor: string
    var showGitHub: bool
    var showWorkHours: bool
    var showSpotify: bool

    function GitHub(key: GitHubKey): bool
      reads this
    {
      match key
      case IncludeSquashCommits => includeSquashCommits
      case IncludeMergeCommits => includeMergeCommits
      case IncludeBotCommits => includeBotCommits
    }

    function Color(key: ColorKey): string
      reads this
    {
      match key
      case CommitColor => commitColor
      case WorkHourColor => workHourColor
      case SpotifyColor => spotifyColor
    }

    function Display(key: DisplayKey): bool
      reads this
    {
      match key
      case ShowGitHub => showGitHub
      case ShowWorkHours => showWorkHours
      case ShowSpotify => showSpotify
    }

    /** The defaults: squash commits counted, merge and bot commits not, every graph shown, the three brand colours. */
    constructor ()
      ensures GitHub(IncludeSquashCommits) && !GitHub(IncludeMergeCommits) && !GitHub(IncludeBotCommits)
      ensures Color(CommitColor) == "#8b5cf6" && Color(WorkHourColor) == "#ec4899" && Color(SpotifyColor) == "#1db954"
      ensures forall k :: Display(k)
    {
      includeSquashCommits := true;
      includeMergeCommits := false;
      includeBotCommits := false;
      commitColor := "#8b5cf6";
      workHourColor := "#ec4899";
      spotifyColor := "#1db954";
      showGitHub := true;
      showWorkHours := true;
      showSpotify := true;
    }

    /** `setGitHubSetting(key, value)`: that key takes the value, every other setting keeps its own. */
    method SetGitHubSetting(key: GitHubKey, value: bool)
      modifies this
      ensures GitHub(key) == value
      ensures forall k :: k != key ==> GitHub(k) == old(GitHub(k))
      ensures forall k :: Color(k) == old(Color(k))
      ensures forall k :: Display(k) == old(Display(k))
      ensures old(GitHub(key)) == value ==> forall k :: GitHub(k) == old(GitHub(k))
    {
      match key
      case IncludeSquashCommits => includeSquashCommits := value;
      case IncludeMergeCommits => includeMergeCommits := value;
      case IncludeBotCommits => includeBotCommits := value;
    }

    /** `setGrassColor(key, value)`: that colour takes the value, every other setting keeps its own. */
    method SetGrassColor(key: ColorKey, value: string)
      modifies this
      ensures Color(key) == value
      ensures forall k :: k != key ==> Color(k) == old(Color(k))
      ensures forall k :: GitHub(k) == old(GitHub(k))
      ensures forall k :: Display(k) == old(Display(k))
      ensures old(Color(key)) == value ==> forall k :: Color(k) == old(Color(k))
    {
      match key
      case CommitColor => commitColor := value;
      case WorkHourColor => workHourColor := value;
      case SpotifyColor => spotifyColor := value;
    }

    /**
     * `setDisplaySetting(key, value)`: that key takes the value, every other
     * setting keeps its own; a repeated call finds the value in place and
     * changes nothing.
     */
    method SetDisplaySetting(key: DisplayKey, value: bool)
      modifies this
      ensures Display(key) == value
      ensures forall k :: k != key ==> Display(k) == old(Display(k))
      ensures forall k :: GitHub(k) == old(GitHub(k))
      ensures forall k :: Color(k) == old(Color(k))
      ensures old(Display(key)) == value ==> forall k :: Display(k) == old(Display(k))
    {
      match key
      case ShowGitHub => showGitHub := value;
      case ShowWorkHours => showWorkHours := value;
      case ShowSpotify => showSpotify := value;
    }
  }
}

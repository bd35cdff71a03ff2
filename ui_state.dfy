/**
 * The page's React state that the analyzer, the actions and the initial-tab
 * effect read and write: the tab list, the selection, the form, the
 * progress list, the error banner and the persisted summary.
 */
module UiState {
  import opened Wrappers
  import opened Rows

  datatype ProgressStatus = Pending | Fetching | Parsing | Done | Failed

  /** One line of the progress list; `message` is absent until a step sets it. */
  datatype ProgressItem = ProgressItem(url: string, status: ProgressStatus, message: Option<string>)

  class AppState {
    /** `multiResults`: one `[url, result]` entry per tab. */
    var multiResults: seq<(string, ResultState)>
    /** The selected tab's URL, or null. */
    var activeTab: Option<string>
    var formCollapsed: bool
    var errorText: Option<string>
    var playlistUrlInput: string
    var progressItems: seq<ProgressItem>
    var storageWarning: Option<string>
    /** The summary saved under the results key of `localStorage`. */
    var storedResults: Option<string>

    /** The state on first render: no tabs, no selection, an expanded form, nothing stored. */
    constructor()
      ensures multiResults == [] && activeTab == None && !formCollapsed
      ensures errorText == None && playlistUrlInput == "" && progressItems == []
      ensures storageWarning == None && storedResults == None
    {
      multiResults := [];
      activeTab := None;
      formCollapsed := false;
      errorText := None;
      playlistUrlInput := "";
      progressItems := [];
      storageWarning := None;
      storedResults := None;
    }
  }
}

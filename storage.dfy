/**
 * The extension's persistent key/value area (`chrome.storage.local`). Each key
 * is a field; None stands for a key that was never written, which every reader
 * defaults (`result.pagesVisited || 0`, `result.navigationData || []`).
 */
module Storage {
  import opened Wrappers
  import opened Records

  /** A snapshot of the whole storage area. */
  datatype StoreContents = StoreContents(
    pagesVisited: Option<int>,
    timeTracked: Option<int>,
    navigationData: Option<seq<NavigationEntry>>,
    chatgptPrompts: Option<seq<CapturedPrompt>>,
    sessionEvents: Option<seq<SessionEvent>>,
    walletState: Option<WalletState>,
    tokenBalance: Option<string>)
  {
    /** `result.pagesVisited || 0` */
    function Pages(): int { pagesVisited.GetOr(0) }

    /** `result.timeTracked || 0` */
    function Time(): int { timeTracked.GetOr(0) }

    /** `result.navigationData || []` */
    function Navigation(): seq<NavigationEntry> { navigationData.GetOr([]) }

    /** `result.chatgptPrompts || []` */
    function Prompts(): seq<CapturedPrompt> { chatgptPrompts.GetOr([]) }

    /** `result.sessionEvents || []` */
    function Events(): seq<SessionEvent> { sessionEvents.GetOr([]) }
  }

  /** A storage area in which no key has been written. */
  const EmptyContents := StoreContents(None, None, None, None, None, None, None)

  /** The storage area, shared by the content script, the background script and the popup. */
  class LocalStore {
    var pagesVisited: Option<int>
    var timeTracked: Option<int>
    var navigationData: Option<seq<NavigationEntry>>
    var chatgptPrompts: Option<seq<CapturedPrompt>>
    var sessionEvents: Option<seq<SessionEvent>>
    var walletState: Option<WalletState>
    var tokenBalance: Option<string>

    /** What `chrome.storage.local.get` of every key would return now. */
    function State(): StoreContents
      reads this
    {
      StoreContents(pagesVisited, timeTracked, navigationData, chatgptPrompts,
                    sessionEvents, walletState, tokenBalance)
    }

    /** An empty storage area. */
    constructor ()
      ensures State() == EmptyContents
    {
      pagesVisited, timeTracked, navigationData, chatgptPrompts := None, None, None, None;
      sessionEvents, walletState, tokenBalance := None, None, None;
    }

    /** `chrome.storage.local.set` of several keys at once: the storage now holds `s`. */
    method SetAll(s: StoreContents)
      modifies this
      ensures State() == s
    {
      pagesVisited, timeTracked, navigationData, chatgptPrompts := s.pagesVisited, s.timeTracked, s.navigationData, s.chatgptPrompts;
      sessionEvents, walletState, tokenBalance := s.sessionEvents, s.walletState, s.tokenBalance;
    }
  }
}

/**
 * The entities the extension keeps in local storage and sends to the relay,
 * and the properties of the navigation log that its recorders maintain.
 */
module Records {
  import opened Wrappers

  /**
   * One record of `navigationData`. Fields a recorder does not write are None:
   * tab-activation records carry no visitStart, interactions or referrer, and
   * only a flushed entry has a timeEnd. `fallback` is true only on records the
   * background script writes when the content script may have missed a page.
   */
  datatype NavigationEntry = NavigationEntry(
    url: string,
    title: Option<string>,
    domain: string,
    timestamp: nat,
    visitStart: Option<nat>,
    eventType: string,
    timeSpent: nat,
    interactions: Option<nat>,
    referrer: Option<string>,
    fallback: bool,
    timeEnd: Option<nat>)

  /** One record of `chatgptPrompts`; `promptType` is the record's `type` field. */
  datatype CapturedPrompt = CapturedPrompt(
    promptType: string,
    url: string,
    domain: string,
    prompt: string,
    timestamp: nat,
    conversationId: string,
    promptLength: nat)

  /** One record of `sessionEvents`. */
  datatype SessionEvent = SessionEvent(eventType: string, timestamp: nat)

  /** The persisted wallet connection indicator. */
  datatype WalletState = WalletState(connected: bool, account: Option<string>, lastConnected: Option<nat>)

  /** The wallet state written on install and reported when none is stored. */
  const DisconnectedWallet := WalletState(false, None, None)

  /**
   * The body of a data submission, as the popup assembles it and the relay
   * destructures it; a field the sender left out is None.
   */
  datatype Submission = Submission(
    walletAddress: Option<string>,
    pagesVisited: int,
    timeTracked: int,
    navigationData: Option<seq<NavigationEntry>>,
    chatgptPrompts: Option<seq<CapturedPrompt>>,
    timestamp: nat)

  function Abs(x: int): nat {
    if x < 0 then -x else x
  }

  /** Some entry of `log` has `url` and a timestamp less than `window` ms away from `t`, in either direction. */
  predicate HasEntryWithin(log: seq<NavigationEntry>, url: string, t: int, window: nat) {
    exists i | 0 <= i < |log| :: log[i].url == url && Abs(log[i].timestamp - t) < window
  }

  /** No two entries for the same url are less than `window` ms apart. */
  ghost predicate Spaced(log: seq<NavigationEntry>, window: nat) {
    forall i, j | 0 <= i < j < |log| && log[i].url == log[j].url ::
      Abs(log[i].timestamp - log[j].timestamp) >= window
  }

  /** Appending an entry that no same-url entry is within `window` of keeps the log spaced. */
  lemma AppendKeepsSpaced(log: seq<NavigationEntry>, e: NavigationEntry, window: nat)
    requires Spaced(log, window)
    requires !HasEntryWithin(log, e.url, e.timestamp, window)
    ensures Spaced(log + [e], window)
  {
    var r := log + [e];
    forall i, j | 0 <= i < j < |r| && r[i].url == r[j].url
      ensures Abs(r[i].timestamp - r[j].timestamp) >= window
    {
      if j == |log| {
        assert r[i] == log[i];
        assert Abs(log[i].timestamp - e.timestamp) >= window;
      } else {
        assert r[i] == log[i] && r[j] == log[j];
      }
    }
  }

  /** Entries that keep their urls and timestamps position by position keep the spacing. */
  lemma SameKeysKeepSpaced(log: seq<NavigationEntry>, log': seq<NavigationEntry>, window: nat)
    requires Spaced(log, window)
    requires |log'| == |log|
    requires forall k | 0 <= k < |log| :: log'[k].url == log[k].url && log'[k].timestamp == log[k].timestamp
    ensures Spaced(log', window)
  {
  }
}

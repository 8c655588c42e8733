/**
 * The popup's part of a claim: the connection state shown to the user, the
 * submission snapshot it sends, what it resets in storage when the claim
 * succeeds, and the reconnection to a saved account.
 */
module Popup {
  import opened Wrappers
  import opened Text
  import opened Records
  import opened Storage
  import opened Background
  import opened Server

  // ---------------------------------------------------------------------------
  // Connection state and its view

  /** The three states `updateUI` distinguishes: `true`, `'connecting'` and anything else. */
  datatype ConnectionState = Connected | Connecting | Disconnected

  /** The displayed short form of an address: `${a.slice(0, 6)}...${a.slice(-4)}`. */
  function ShortAddress(a: string): (r: string)
    ensures |a| >= 10 ==> |r| == 13 && r[..6] == a[..6] && r[6..9] == "..." && r[9..] == a[|a| - 4..]
    ensures |a| < 4 ==> r == a + "..." + a
  {
    SliceHead(a, 6) + "..." + SliceTail(a, 4)
  }

  /** What the popup shows about the wallet. */
  datatype View = View(
    connectVisible: bool,
    connectEnabled: bool,
    connectLabel: string,
    disconnectVisible: bool,
    walletShort: string,
    submitEnabled: bool,
    submitLabel: string,
    status: string)

  /**
   * The view after `updateUI(state)`: the connect button's label and
   * enabled flag stay as they were when connected (it is hidden then), and
   * the submit button's label is never touched.
   */
  function Render(state: ConnectionState, account: string, prev: View): (v: View)
    ensures v.submitEnabled <==> state == Connected
    ensures v.connectVisible <==> !v.disconnectVisible
    ensures v.disconnectVisible <==> state == Connected
    ensures state == Connected ==> v.walletShort == ShortAddress(account)
    ensures v.connectEnabled <==> (state == Disconnected || (state == Connected && prev.connectEnabled))
    ensures v.submitLabel == prev.submitLabel
  {
    match state
    case Connected =>
      prev.(connectVisible := false, disconnectVisible := true, walletShort := ShortAddress(account),
            submitEnabled := true, status := "Wallet connected")
    case Connecting =>
      prev.(connectVisible := true, disconnectVisible := false, connectLabel := "Connecting", connectEnabled := false,
            walletShort := "Connecting...", submitEnabled := false, status := "Connecting wallet...")
    case Disconnected =>
      prev.(connectVisible := true, disconnectVisible := false, connectLabel := "Connect Wallet", connectEnabled := true,
            walletShort := "Not connected", submitEnabled := false, status := "Wallet not connected")
  }

  /** Whatever was shown before, rendering a state twice shows what rendering it once does. */
  lemma RenderIsIdempotent(state: ConnectionState, account: string, prev: View)
    ensures Render(state, account, Render(state, account, prev)) == Render(state, account, prev)
  {
  }

  /** Only the connected state lets the user submit, whichever state came before. */
  lemma SubmitOnlyWhenConnected(s1: ConnectionState, s2: ConnectionState, account: string, prev: View)
    ensures Render(s2, account, Render(s1, account, prev)).submitEnabled <==> s2 == Connected
  {
  }

  // ---------------------------------------------------------------------------
  // Submission snapshot and reset

  /** The body the popup sends: the stored counters and logs, each defaulted when missing. */
  function Snapshot(account: string, s: StoreContents, now: nat): (sub: Submission)
    ensures sub.walletAddress == Some(account) && sub.timestamp == now
    ensures sub.pagesVisited == (if s.pagesVisited.Some? then s.pagesVisited.value else 0)
    ensures sub.timeTracked == (if s.timeTracked.Some? then s.timeTracked.value else 0)
    ensures sub.navigationData == Some(if s.navigationData.Some? then s.navigationData.value else [])
    ensures sub.chatgptPrompts == Some(if s.chatgptPrompts.Some? then s.chatgptPrompts.value else [])
  {
    Submission(Some(account), s.Pages(), s.Time(), Some(s.Navigation()), Some(s.Prompts()), now)
  }

  /** The snapshot reads only the four data keys. */
  lemma SnapshotReadsOnlyDataKeys(account: string, s1: StoreContents, s2: StoreContents, now: nat)
    requires s1.pagesVisited == s2.pagesVisited && s1.timeTracked == s2.timeTracked
    requires s1.navigationData == s2.navigationData && s1.chatgptPrompts == s2.chatgptPrompts
    ensures Snapshot(account, s1, now) == Snapshot(account, s2, now)
  {
  }

  /** The storage after a successful claim: the four data keys are emptied and nothing else changes. */
  function ClaimReset(s: StoreContents): (r: StoreContents)
    ensures r.pagesVisited == Some(0) && r.timeTracked == Some(0)
    ensures r.navigationData == Some([]) && r.chatgptPrompts == Some([])
    ensures r.sessionEvents == s.sessionEvents && r.walletState == s.walletState && r.tokenBalance == s.tokenBalance
  {
    s.(pagesVisited := Some(0), timeTracked := Some(0), navigationData := Some([]), chatgptPrompts := Some([]))
  }

  /** Resetting twice is resetting once. */
  lemma ClaimResetIsIdempotent(s: StoreContents)
    ensures ClaimReset(ClaimReset(s)) == ClaimReset(s)
  {
  }

  /** After a successful claim, claiming again sends no data and scores nothing at the relay. */
  lemma ClaimAfterResetScoresZero(account: string, s: StoreContents, now: nat)
    ensures var sub := Snapshot(account, ClaimReset(s), now);
            && sub == Submission(Some(account), 0, 0, Some([]), Some([]), now)
            && CalculateDataScore(sub.pagesVisited, sub.timeTracked, sub.navigationData) == 0
  {
  }

  // ---------------------------------------------------------------------------
  // Reconnecting to a saved account

  /** `a.toLowerCase() === b.toLowerCase()`. */
  predicate SameAccount(a: string, b: string) {
    ToLower(a) == ToLower(b)
  }

  /** The account matching ignores case: an address matches every case variant of itself. */
  lemma SameAccountIgnoresCase(a: string, b: string)
    ensures SameAccount(a, ToLower(a))
    ensures ToLower(a) == ToLower(b) ==> SameAccount(b, a)
  {
    ToLowerIdempotent(a);
  }

  /**
   * The account the popup reconnects to, if any: the wallet's first account
   * when the saved state is connected with an account that matches it up to
   * case. `saved` is the background's reply (None when there is none) and
   * `accounts` the wallet's `eth_accounts` answer (None without a wallet or
   * when the request failed).
   */
  function ReconnectAccount(saved: Option<WalletState>, accounts: Option<seq<string>>): (r: Option<string>)
    ensures r.Some? <==>
              && saved.Some? && saved.value.connected && saved.value.account.Some? && saved.value.account.value != ""
              && accounts.Some? && |accounts.value| > 0
              && SameAccount(accounts.value[0], saved.value.account.value)
    ensures r.Some? ==> r.value == accounts.value[0] && ToLower(r.value) == ToLower(saved.value.account.value)
  {
    if saved.Some? && saved.value.connected && saved.value.account.Some? && saved.value.account.value != ""
       && accounts.Some? && |accounts.value| > 0
       && SameAccount(accounts.value[0], saved.value.account.value)
    then Some(accounts.value[0])
    else None
  }

  /**
   * A saved account stored in lower case is restored from the wallet's
   * checksummed spelling, and the popup then uses the wallet's spelling.
   */
  lemma RestoresSavedAccount(account: string, t: Option<nat>, rest: seq<string>)
    requires account != ""
    ensures ReconnectAccount(Some(WalletState(true, Some(ToLower(account)), t)), Some([account] + rest)) == Some(account)
  {
    ToLowerIdempotent(account);
    assert ([account] + rest)[0] == account;
  }

  /** A disconnected saved state is never restored. */
  lemma DisconnectedStateIsNotRestored(w: WalletState, accounts: Option<seq<string>>)
    requires !w.connected
    ensures ReconnectAccount(Some(w), accounts).None?
  {
  }

  /**
   * The account the popup holds after `loadSavedWalletState`: the restored
   * saved account, or else the first account a second `eth_accounts` request
   * (`retry`) returns, or else the account it held before.
   */
  function AccountAfterLoad(saved: Option<WalletState>, accounts: Option<seq<string>>, retry: Option<seq<string>>,
                            current: Option<string>): (r: Option<string>)
    ensures ReconnectAccount(saved, accounts).Some? ==> r == ReconnectAccount(saved, accounts)
    ensures ReconnectAccount(saved, accounts).None? && retry.Some? && |retry.value| > 0 ==> r == Some(retry.value[0])
    ensures ReconnectAccount(saved, accounts).None? && !(retry.Some? && |retry.value| > 0) ==> r == current
  {
    if ReconnectAccount(saved, accounts).Some? then ReconnectAccount(saved, accounts)
    else if retry.Some? && |retry.value| > 0 then Some(retry.value[0])
    else current
  }

  /**
   * When the wallet answers both requests alike, the popup ends up on the
   * wallet's first account whatever was saved: matching the saved account
   * decides only which path connects.
   */
  lemma LoadConnectsFirstWalletAccount(saved: Option<WalletState>, accounts: seq<string>, current: Option<string>)
    requires |accounts| > 0
    ensures AccountAfterLoad(saved, Some(accounts), Some(accounts), current) == Some(accounts[0])
  {
    if ReconnectAccount(saved, Some(accounts)).Some? {
      assert ReconnectAccount(saved, Some(accounts)).value == accounts[0];
    }
  }

  /** A saved account the wallet no longer offers is replaced by the wallet's account, not kept. */
  lemma LoadReplacesUnmatchedSavedAccount(saved: string, wallet: string, current: Option<string>)
    requires saved != "" && ToLower(saved) != ToLower(wallet)
    ensures var state := Some(WalletState(true, Some(saved), None));
            AccountAfterLoad(state, Some([wallet]), Some([wallet]), current) == Some(wallet)
  {
    var state := Some(WalletState(true, Some(saved), None));
    assert [wallet][0] == wallet;
    assert !SameAccount([wallet][0], saved);
    assert ReconnectAccount(state, Some([wallet])).None?;
  }

  // ---------------------------------------------------------------------------
  // The popup

  const ClaimLabel := "Claim SIM"
  const ClaimingLabel := "Claiming..."

  /** The popup's module state: the connected account and what is shown. */
  class Popup {
    var userAccount: Option<string>
    var view: View

    /** `!!userAccount`. */
    predicate HasAccount()
      reads this
    {
      userAccount.Some? && userAccount.value != ""
    }

    /** A freshly opened popup, with no account and the page's initial view. */
    constructor (initial: View)
      ensures userAccount.None? && view == initial
    {
      userAccount := None;
      view := initial;
    }

    /** `updateUI(state)`; the connected state is only ever shown for a known account. */
    method UpdateUI(state: ConnectionState)
      requires state == Connected ==> userAccount.Some?
      modifies this
      ensures userAccount == old(userAccount)
      ensures view == Render(state, if state == Connected then userAccount.value else "", old(view))
    {
      var account := if state == Connected then userAccount.value else "";
      view := Render(state, account, view);
    }

    /**
     * `checkWalletConnection` given the wallet's `eth_accounts` answer (None
     * without a wallet or when the request failed): a non-empty answer
     * connects to its first account, unchecked; otherwise nothing changes.
     */
    method CheckWalletConnection(accounts: Option<seq<string>>) returns (connected: bool)
      modifies this
      ensures connected <==> accounts.Some? && |accounts.value| > 0
      ensures connected ==> userAccount == Some(accounts.value[0]) && view == Render(Connected, accounts.value[0], old(view))
      ensures !connected ==> userAccount == old(userAccount) && view == old(view)
    {
      if accounts.Some? && |accounts.value| > 0 {
        userAccount := Some(accounts.value[0]);
        UpdateUI(Connected);
        return true;
      }
      return false;
    }

    /**
     * `loadSavedWalletState`: shows the connecting state, then reconnects to
     * the saved account when the wallet still offers it (`accounts`);
     * otherwise the fresh connection attempt, answered by `retry`, takes over.
     */
    method LoadSavedWalletState(saved: Option<WalletState>, accounts: Option<seq<string>>, retry: Option<seq<string>>)
      returns (reconnected: bool)
      modifies this
      ensures reconnected <==> ReconnectAccount(saved, accounts).Some?
      ensures userAccount == AccountAfterLoad(saved, accounts, retry, old(userAccount))
      ensures reconnected || (retry.Some? && |retry.value| > 0) ==>
                view == Render(Connected, userAccount.value, Render(Connecting, "", old(view)))
      ensures !reconnected && !(retry.Some? && |retry.value| > 0) ==> view == Render(Connecting, "", old(view))
    {
      UpdateUI(Connecting);
      var account := ReconnectAccount(saved, accounts);
      if account.Some? {
        userAccount := account;
        UpdateUI(Connected);
        return true;
      }
      var _ := CheckWalletConnection(retry);
      return false;
    }

    /**
     * `submitData`: without an account nothing happens; otherwise the popup
     * takes the snapshot to send, and disables the submit button until the
     * response arrives.
     */
    method SubmitData(store: LocalStore, now: nat) returns (request: Option<Submission>)
      modifies this
      ensures userAccount == old(userAccount)
      ensures !HasAccount() ==> request.None? && view == old(view)
      ensures HasAccount() ==>
                && request == Some(Snapshot(userAccount.value, store.State(), now))
                && view == old(view).(submitEnabled := false, submitLabel := ClaimingLabel, status := "Processing claim...")
    {
      if !HasAccount() {
        return None;
      }
      var data := store.State();
      request := Some(Submission(userAccount, data.Pages(), data.Time(), Some(data.Navigation()), Some(data.Prompts()), now));
      view := view.(submitEnabled := false, submitLabel := ClaimingLabel, status := "Processing claim...");
    }

    /**
     * The response callback of `submitData`: a successful claim empties the
     * four data keys; a failed one writes nothing; either way the submit
     * button is enabled again.
     */
    method OnSubmitResponse(store: LocalStore, response: Option<SubmitReply>)
      modifies this, store
      ensures userAccount == old(userAccount)
      ensures var success := response.Some? && response.value.success;
              && (success ==> store.State() == ClaimReset(old(store.State())))
              && (!success ==> store.State() == old(store.State()))
              && view == old(view).(submitEnabled := true, submitLabel := ClaimLabel,
                                    status := if success then "Claim successful! Balance will update in ~30 seconds."
                                              else "Claim failed. Try again.")
    {
      if response.Some? && response.value.success {
        view := view.(status := "Claim successful! Balance will update in ~30 seconds.");
        store.pagesVisited := Some(0);
        store.timeTracked := Some(0);
        store.navigationData := Some([]);
        store.chatgptPrompts := Some([]);
      } else {
        view := view.(status := "Claim failed. Try again.");
      }
      view := view.(submitEnabled := true, submitLabel := ClaimLabel);
    }
  }
}

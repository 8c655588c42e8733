/**
 * The background script: fallback navigation records for pages the content
 * script may have missed, tab-activation and window-focus records, the
 * install-time reset, the wallet-state messages and the submission relay.
 */
module Background {
  import opened Wrappers
  import opened Text
  import opened Records
  import opened Storage

  /** Urls of browser-internal pages, which are never recorded. */
  const InvalidPrefixes: seq<string> := [
    "chrome://", "chrome-extension://", "moz-extension://", "about:",
    "edge://", "opera://", "brave://", "data:", "blob:"]

  /** A fallback record is skipped when the url was recorded less than this many ms ago. */
  const FallbackWindow: nat := 5000
  /** A tab activation is skipped when the url was recorded less than this many ms before or after. */
  const ActivationWindow: nat := 2000
  /** Session events older than this many ms are pruned. */
  const EventHorizon: nat := 3600000

  /** The message of every failed submission whose server response is not ok. */
  const SubmitFailedMessage := "Failed to submit data"

  /** The browser's view of a tab; None is a property that is absent. */
  datatype Tab = Tab(url: Option<string>, title: Option<string>)

  // ---------------------------------------------------------------------------
  // Url validity

  /** A url worth recording: present, non-empty and not a browser-internal page. */
  function IsValidUrl(url: Option<string>): (r: bool)
    ensures r <==> url.Some? && url.value != "" &&
                   forall k | 0 <= k < |InvalidPrefixes| :: !StartsWith(url.value, InvalidPrefixes[k])
  {
    url.Some? && url.value != "" && !StartsWithAny(url.value, InvalidPrefixes)
  }

  /** Every url starting with one of the internal prefixes is rejected. */
  lemma InternalPagesAreInvalid(url: string, k: nat)
    requires k < |InvalidPrefixes| && StartsWith(url, InvalidPrefixes[k])
    ensures !IsValidUrl(Some(url))
  {
  }

  /** Internal pages are rejected, e.g. the browser's settings page. */
  lemma SettingsPageIsInvalid()
    ensures !IsValidUrl(Some("chrome://settings"))
  {
    assert StartsWith("chrome://settings", InvalidPrefixes[0]);
  }

  // ---------------------------------------------------------------------------
  // Fallback navigation records

  /** Some entry for `url` is stamped less than the window before `now`, or at any time after it. */
  function HasRecentRecord(log: seq<NavigationEntry>, url: string, now: nat): (r: bool)
    ensures !r <==> forall i | 0 <= i < |log| && log[i].url == url :: log[i].timestamp + FallbackWindow <= now
  {
    exists i | 0 <= i < |log| :: log[i].url == url && now - log[i].timestamp < FallbackWindow
  }

  /** A same-url entry within the window on either side is a recent record. */
  lemma NearbyEntryIsRecent(log: seq<NavigationEntry>, url: string, now: nat)
    requires HasEntryWithin(log, url, now, FallbackWindow)
    ensures HasRecentRecord(log, url, now)
  {
  }

  /** The check is one-sided: an entry stamped far in the future also suppresses the fallback record. */
  lemma RecencyIsOneSided(e: NavigationEntry, now: nat)
    requires e.timestamp == now + FallbackWindow
    ensures HasRecentRecord([e], e.url, now) && !HasEntryWithin([e], e.url, now, FallbackWindow)
  {
    assert [e][0] == e;
  }

  /** The record a fallback writes for a tab whose url the content script may have missed. */
  function FallbackEntry(url: string, title: Option<string>, hostname: string, eventType: string, now: nat): (e: NavigationEntry)
    ensures e.url == url && e.domain == hostname && e.timestamp == now && e.visitStart == Some(now)
    ensures e.eventType == "background_" + eventType && e.fallback
    ensures e.title.Some? && e.title.value != ""
    ensures title.Some? && title.value != "" ==> e.title == title
    ensures e.timeSpent == 0 && e.interactions == Some(0) && e.referrer.None? && e.timeEnd.None?
  {
    NavigationEntry(
      url := url,
      title := Some(if title.None? || title.value == "" then "Unknown Title" else title.value),
      domain := hostname,
      timestamp := now,
      visitStart := Some(now),
      eventType := "background_" + eventType,
      timeSpent := 0,
      interactions := Some(0),
      referrer := None,
      fallback := true,
      timeEnd := None)
  }

  /** The storage after a fallback record of `e`: one entry more, one page more, nothing else changed. */
  function AfterFallback(s: StoreContents, e: NavigationEntry): (r: StoreContents)
    ensures r.Navigation() == s.Navigation() + [e]
    ensures r.Pages() == s.Pages() + 1
    ensures r.(navigationData := s.navigationData, pagesVisited := s.pagesVisited) == s
  {
    s.(navigationData := Some(s.Navigation() + [e]), pagesVisited := Some(s.Pages() + 1))
  }

  /**
   * When no stored entry is stamped after `now` (the clock only moves forward),
   * the one-sided check is enough to keep the navigation log spaced.
   */
  lemma FallbackKeepsSpaced(s: StoreContents, e: NavigationEntry)
    requires Spaced(s.Navigation(), FallbackWindow)
    requires forall k | 0 <= k < |s.Navigation()| :: s.Navigation()[k].timestamp <= e.timestamp
    requires !HasRecentRecord(s.Navigation(), e.url, e.timestamp)
    ensures Spaced(AfterFallback(s, e).Navigation(), FallbackWindow)
  {
    var log := s.Navigation();
    forall i | 0 <= i < |log| && log[i].url == e.url
      ensures Abs(log[i].timestamp - e.timestamp) >= FallbackWindow
    {
    }
    AppendKeepsSpaced(log, e, FallbackWindow);
  }

  /** A fallback record keeps the page counter equal to the number of logged entries. */
  lemma FallbackKeepsCounterInStep(s: StoreContents, e: NavigationEntry)
    requires s.Pages() == |s.Navigation()|
    ensures AfterFallback(s, e).Pages() == |AfterFallback(s, e).Navigation()|
  {
  }

  /** Writes the fallback record for `url`, counting the page. */
  method RecordFallbackNavigation(store: LocalStore, url: string, title: Option<string>, hostname: string, eventType: string, now: nat)
    modifies store
    ensures store.State() == AfterFallback(old(store.State()), FallbackEntry(url, title, hostname, eventType, now))
  {
    var pageData := FallbackEntry(url, title, hostname, eventType, now);
    var navigationData := store.navigationData.GetOr([]);
    var pagesVisited := store.pagesVisited.GetOr(0) + 1;
    navigationData := navigationData + [pageData];
    store.navigationData := Some(navigationData);
    store.pagesVisited := Some(pagesVisited);
  }

  /** Writes a fallback record for a valid tab url unless the url was recorded recently. */
  method VerifyAndFallbackRecord(store: LocalStore, tab: Tab, hostOf: string -> string, eventType: string, now: nat)
    modifies store
    ensures !IsValidUrl(tab.url) ==> store.State() == old(store.State())
    ensures IsValidUrl(tab.url) && HasRecentRecord(old(store.State()).Navigation(), tab.url.value, now) ==>
              store.State() == old(store.State())
    ensures IsValidUrl(tab.url) && !HasRecentRecord(old(store.State()).Navigation(), tab.url.value, now) ==>
              store.State() == AfterFallback(old(store.State()), FallbackEntry(tab.url.value, tab.title, hostOf(tab.url.value), eventType, now))
  {
    if !IsValidUrl(tab.url) {
      return;
    }
    var navigationData := store.navigationData.GetOr([]);
    var recentRecord := HasRecentRecord(navigationData, tab.url.value, now);
    if !recentRecord {
      RecordFallbackNavigation(store, tab.url.value, tab.title, hostOf(tab.url.value), eventType, now);
    }
  }

  // ---------------------------------------------------------------------------
  // Tab activation records

  /** The record a tab activation writes: no visit start, interactions or referrer, and not a page count. */
  function ActivationEntry(url: string, title: Option<string>, hostname: string, now: nat): (e: NavigationEntry)
    ensures e.url == url && e.title == title && e.domain == hostname && e.timestamp == now
    ensures e.eventType == "tab_activated" && !e.fallback
    ensures e.visitStart.None? && e.interactions.None? && e.referrer.None? && e.timeSpent == 0 && e.timeEnd.None?
  {
    NavigationEntry(
      url := url,
      title := title,
      domain := hostname,
      timestamp := now,
      visitStart := None,
      eventType := "tab_activated",
      timeSpent := 0,
      interactions := None,
      referrer := None,
      fallback := false,
      timeEnd := None)
  }

  /** The storage after a tab activation: `e` is appended unless the url was recorded within two seconds either way. */
  function AfterActivation(s: StoreContents, e: NavigationEntry): (r: StoreContents)
    ensures HasEntryWithin(s.Navigation(), e.url, e.timestamp, ActivationWindow) ==> r == s
    ensures !HasEntryWithin(s.Navigation(), e.url, e.timestamp, ActivationWindow) ==> r.Navigation() == s.Navigation() + [e]
    ensures r.(navigationData := s.navigationData) == s
  {
    var log := s.Navigation();
    if HasEntryWithin(log, e.url, e.timestamp, ActivationWindow) then s
    else s.(navigationData := Some(log + [e]))
  }

  /** An activation keeps the log spaced by two seconds. */
  lemma ActivationKeepsTwoSecondSpacing(s: StoreContents, e: NavigationEntry)
    requires Spaced(s.Navigation(), ActivationWindow)
    ensures Spaced(AfterActivation(s, e).Navigation(), ActivationWindow)
  {
    if !HasEntryWithin(s.Navigation(), e.url, e.timestamp, ActivationWindow) {
      AppendKeepsSpaced(s.Navigation(), e, ActivationWindow);
    }
  }

  /**
   * But an activation three seconds after a visit is recorded, so the log is no
   * longer spaced by the five seconds the visit recorders keep, and the page
   * counter falls behind the number of entries.
   */
  lemma ActivationCanBreakFiveSecondSpacing(visit: NavigationEntry, title: Option<string>, hostname: string)
    requires visit.timestamp == 0
    ensures var s := EmptyContents.(navigationData := Some([visit]), pagesVisited := Some(1));
            var r := AfterActivation(s, ActivationEntry(visit.url, title, hostname, 3000));
            && Spaced(s.Navigation(), FallbackWindow)
            && !Spaced(r.Navigation(), FallbackWindow)
            && r.Pages() == 1 && |r.Navigation()| == 2
  {
    var s := EmptyContents.(navigationData := Some([visit]), pagesVisited := Some(1));
    var e := ActivationEntry(visit.url, title, hostname, 3000);
    assert !HasEntryWithin(s.Navigation(), e.url, e.timestamp, ActivationWindow);
    var r := AfterActivation(s, e);
    assert r.Navigation()[0] == visit && r.Navigation()[1] == e;
  }

  /** Records the activation of a tab; the caller has checked the url. */
  method RecordTabActivation(store: LocalStore, url: string, title: Option<string>, hostname: string, now: nat)
    modifies store
    ensures store.State() == AfterActivation(old(store.State()), ActivationEntry(url, title, hostname, now))
  {
    var activationData := ActivationEntry(url, title, hostname, now);
    var navigationData := store.navigationData.GetOr([]);
    var isDuplicate := HasEntryWithin(navigationData, url, now, ActivationWindow);
    if !isDuplicate {
      navigationData := navigationData + [activationData];
      store.navigationData := Some(navigationData);
    }
  }

  /** The user switched to `tab`: a valid url is recorded as an activation. */
  method OnTabActivated(store: LocalStore, tab: Tab, hostOf: string -> string, now: nat)
    modifies store
    ensures !IsValidUrl(tab.url) ==> store.State() == old(store.State())
    ensures IsValidUrl(tab.url) ==>
              store.State() == AfterActivation(old(store.State()), ActivationEntry(tab.url.value, tab.title, hostOf(tab.url.value), now))
  {
    if IsValidUrl(tab.url) {
      RecordTabActivation(store, tab.url.value, tab.title, hostOf(tab.url.value), now);
    }
  }

  // ---------------------------------------------------------------------------
  // Window focus events

  /** `a` is `b` with some elements left out, the rest in their order. */
  predicate IsSubsequence<T(==)>(a: seq<T>, b: seq<T>)
    decreases |b|
  {
    if a == [] then true
    else if b == [] then false
    else (a[0] == b[0] && IsSubsequence(a[1..], b[1..])) || IsSubsequence(a, b[1..])
  }

  /** The events less than an hour old at `now` (events stamped after `now` included), in their order. */
  function RecentEvents(events: seq<SessionEvent>, now: nat): (r: seq<SessionEvent>)
    ensures forall k | 0 <= k < |r| :: now - r[k].timestamp < EventHorizon && r[k] in events
    ensures forall k | 0 <= k < |events| && now - events[k].timestamp < EventHorizon :: events[k] in r
    ensures |r| <= |events|
  {
    if events == [] then []
    else if now - events[0].timestamp < EventHorizon then [events[0]] + RecentEvents(events[1..], now)
    else RecentEvents(events[1..], now)
  }

  /** Pruning keeps every copy of a recent event and no copy of a stale one. */
  lemma {:induction false} RecentEventsCounts(events: seq<SessionEvent>, now: nat, e: SessionEvent)
    ensures multiset(RecentEvents(events, now))[e] == if now - e.timestamp < EventHorizon then multiset(events)[e] else 0
  {
    if events != [] {
      var x, tail := events[0], events[1..];
      var rest := RecentEvents(tail, now);
      RecentEventsCounts(tail, now, e);
      assert events == [x] + tail;
      assert multiset(events)[e] == multiset([x])[e] + multiset(tail)[e];
      if now - x.timestamp < EventHorizon {
        assert RecentEvents(events, now) == [x] + rest;
        assert multiset([x] + rest)[e] == multiset([x])[e] + multiset(rest)[e];
      } else {
        assert RecentEvents(events, now) == rest;
        assert x != e ==> multiset([x])[e] == 0;
      }
    }
  }

  /** Pruning keeps the order of the events it retains. */
  lemma {:induction false} RecentEventsIsSubsequence(events: seq<SessionEvent>, now: nat)
    ensures IsSubsequence(RecentEvents(events, now), events)
  {
    if events != [] {
      var r := RecentEvents(events, now);
      RecentEventsIsSubsequence(events[1..], now);
      if now - events[0].timestamp < EventHorizon {
        assert r[0] == events[0] && r[1..] == RecentEvents(events[1..], now);
      } else if r != [] {
        assert IsSubsequence(r, events[1..]);
      }
    }
  }

  /** Pruning an appended event that is itself recent appends it to the pruned list. */
  lemma {:induction false} RecentEventsAppend(events: seq<SessionEvent>, e: SessionEvent, now: nat)
    requires now - e.timestamp < EventHorizon
    ensures RecentEvents(events + [e], now) == RecentEvents(events, now) + [e]
  {
    if events == [] {
      assert RecentEvents([e], now) == [e] + RecentEvents([], now);
    } else {
      assert (events + [e])[1..] == events[1..] + [e];
      RecentEventsAppend(events[1..], e, now);
    }
  }

  /** Pruning twice at the same time prunes nothing more. */
  lemma {:induction false} RecentEventsIdempotent(events: seq<SessionEvent>, now: nat)
    ensures RecentEvents(RecentEvents(events, now), now) == RecentEvents(events, now)
  {
    if events != [] {
      RecentEventsIdempotent(events[1..], now);
      var rest := RecentEvents(events[1..], now);
      if now - events[0].timestamp < EventHorizon {
        assert ([events[0]] + rest)[1..] == rest;
      }
    }
  }

  /** The storage after the window gains focus at `now`: a focus event appended, then the last hour kept. */
  function AfterWindowFocus(s: StoreContents, now: nat): (r: StoreContents)
    ensures r.Events() == RecentEvents(s.Events(), now) + [SessionEvent("window_focus", now)]
    ensures r.(sessionEvents := s.sessionEvents) == s
  {
    var e := SessionEvent("window_focus", now);
    RecentEventsAppend(s.Events(), e, now);
    s.(sessionEvents := Some(RecentEvents(s.Events() + [e], now)))
  }

  /** Records a window-focus event and prunes the session events to the last hour. */
  method RecordWindowFocus(store: LocalStore, now: nat)
    modifies store
    ensures store.State() == AfterWindowFocus(old(store.State()), now)
  {
    var sessionEvents := store.sessionEvents.GetOr([]);
    sessionEvents := sessionEvents + [SessionEvent("window_focus", now)];
    var recentEvents := RecentEvents(sessionEvents, now);
    store.sessionEvents := Some(recentEvents);
  }

  // ---------------------------------------------------------------------------
  // Install, wallet state

  /** The storage after installation: zero counters, an empty log, a disconnected wallet; other keys kept. */
  function Installed(s: StoreContents): (r: StoreContents)
    ensures r.Pages() == 0 && r.Time() == 0 && r.Navigation() == []
    ensures r.walletState == Some(DisconnectedWallet)
    ensures r.chatgptPrompts == s.chatgptPrompts && r.sessionEvents == s.sessionEvents && r.tokenBalance == s.tokenBalance
  {
    s.(pagesVisited := Some(0), timeTracked := Some(0), navigationData := Some([]), walletState := Some(DisconnectedWallet))
  }

  /** Installing twice is installing once. */
  lemma InstallIsIdempotent(s: StoreContents)
    ensures Installed(Installed(s)) == Installed(s)
  {
  }

  /** Resets the storage on installation. */
  method OnInstalled(store: LocalStore)
    modifies store
    ensures store.State() == Installed(old(store.State()))
  {
    store.pagesVisited := Some(0);
    store.timeTracked := Some(0);
    store.navigationData := Some([]);
    store.walletState := Some(DisconnectedWallet);
  }

  /** The wallet state a `GET_WALLET_STATE` request is answered with. */
  function WalletStateReply(s: StoreContents): (w: WalletState)
    ensures s.walletState.None? ==> w == DisconnectedWallet
    ensures s.walletState.Some? ==> w == s.walletState.value
  {
    s.walletState.GetOr(DisconnectedWallet)
  }

  /** Stores the wallet state the popup sends with `SAVE_WALLET_STATE`. */
  method SaveWalletState(store: LocalStore, walletState: WalletState) returns (success: bool)
    modifies store
    ensures success
    ensures store.State() == old(store.State()).(walletState := Some(walletState))
  {
    store.walletState := Some(walletState);
    success := true;
  }

  /** What is saved is what is reported, and a fresh install reports a disconnected wallet. */
  lemma WalletStateRoundTrip(s: StoreContents, w: WalletState)
    ensures WalletStateReply(s.(walletState := Some(w))) == w
    ensures WalletStateReply(Installed(s)) == DisconnectedWallet
    ensures WalletStateReply(EmptyContents) == DisconnectedWallet
  {
  }

  // ---------------------------------------------------------------------------
  // Submission relay

  /** The parts of a relay response body the extension reads: its `error` field. */
  datatype ResponseBody = ResponseBody(error: Option<string>, payload: string)

  /** The outcome of the POST to the relay: a network failure, or a response whose body parsed or failed to parse. */
  datatype FetchOutcome =
    | NetworkError(message: string)
    | HttpResponse(ok: bool, body: Result<ResponseBody, string>)

  /** The error text a non-ok response should surface: the server's `error`, when non-empty, or the generic message. */
  function ServerErrorMessage(body: Result<ResponseBody, string>): (m: string)
    ensures m != ""
    ensures body.Success? && body.value.error.Some? && body.value.error.value != "" ==> m == body.value.error.value
  {
    match body
    case Success(b) => if b.error.Some? && b.error.value != "" then b.error.value else SubmitFailedMessage
    case Failure(_) => SubmitFailedMessage
  }

  /**
   * `submitDataToBackend` as written: the error thrown for a non-ok response
   * is caught by the handler around it, so every non-ok response fails with
   * the generic message.
   */
  function SubmitDataToBackendAsWritten(outcome: FetchOutcome): (r: Result<ResponseBody, string>)
    ensures outcome.HttpResponse? && !outcome.ok ==> r == Failure(SubmitFailedMessage)
    ensures outcome.HttpResponse? && outcome.ok ==> r == outcome.body
    ensures outcome.NetworkError? ==> r == Failure(outcome.message)
  {
    match outcome
    case NetworkError(m) => Failure(m)
    case HttpResponse(ok, body) =>
      // the inner catch replaces whatever the inner block threw
      if !ok then Failure(SubmitFailedMessage) else body
  }

  /** `submitDataToBackend` as evidently intended: a non-ok response fails with the server's error message. */
  function SubmitDataToBackend(outcome: FetchOutcome): (r: Result<ResponseBody, string>)
    ensures outcome.HttpResponse? && !outcome.ok ==> r == Failure(ServerErrorMessage(outcome.body))
    ensures outcome.HttpResponse? && outcome.ok ==> r == outcome.body
    ensures outcome.NetworkError? ==> r == Failure(outcome.message)
  {
    match outcome
    case NetworkError(m) => Failure(m)
    case HttpResponse(ok, body) => if !ok then Failure(ServerErrorMessage(body)) else body
  }

  /** As written, the server's reason for refusing a submission never reaches the popup. */
  lemma AsWrittenDropsServerError()
    ensures var outcome := HttpResponse(false, Success(ResponseBody(Some("Daily submission limit exceeded"), "")));
            && SubmitDataToBackendAsWritten(outcome) == Failure(SubmitFailedMessage)
            && SubmitDataToBackend(outcome) == Failure("Daily submission limit exceeded")
  {
  }

  /** The two versions succeed on exactly the same outcomes, with the same response. */
  lemma SubmitSuccessAgrees(outcome: FetchOutcome)
    ensures SubmitDataToBackend(outcome).Success? <==> SubmitDataToBackendAsWritten(outcome).Success?
    ensures SubmitDataToBackend(outcome).Success? ==> SubmitDataToBackend(outcome) == SubmitDataToBackendAsWritten(outcome)
  {
  }

  /** The reply to a `SUBMIT_DATA` message. */
  datatype SubmitReply = SubmitReply(success: bool, response: Option<ResponseBody>, error: Option<string>)

  /**
   * The `SUBMIT_DATA` handler over `submitDataToBackend` as written: success
   * exactly when the relay answered ok with a readable body; every non-ok
   * response is reported with the generic message.
   */
  function SubmitDataReply(outcome: FetchOutcome): (reply: SubmitReply)
    ensures reply.success <==> outcome.HttpResponse? && outcome.ok && outcome.body.Success?
    ensures reply.success ==> reply.response == Some(outcome.body.value) && reply.error.None?
    ensures !reply.success ==> reply.response.None? && reply.error.Some?
    ensures outcome.HttpResponse? && !outcome.ok ==> reply.error == Some(SubmitFailedMessage)
    ensures outcome.NetworkError? ==> reply.error == Some(outcome.message)
  {
    match SubmitDataToBackendAsWritten(outcome)
    case Success(b) => SubmitReply(true, Some(b), None)
    case Failure(m) => SubmitReply(false, None, Some(m))
  }

  /** The `SUBMIT_DATA` handler over the intended `submitDataToBackend`: a non-ok response carries the server's text. */
  function SubmitDataReplyIntended(outcome: FetchOutcome): (reply: SubmitReply)
    ensures reply.success <==> outcome.HttpResponse? && outcome.ok && outcome.body.Success?
    ensures reply.success ==> reply.response == Some(outcome.body.value) && reply.error.None?
    ensures !reply.success ==> reply.response.None? && reply.error.Some?
    ensures outcome.HttpResponse? && !outcome.ok ==> reply.error == Some(ServerErrorMessage(outcome.body))
    ensures outcome.NetworkError? ==> reply.error == Some(outcome.message)
  {
    match SubmitDataToBackend(outcome)
    case Success(b) => SubmitReply(true, Some(b), None)
    case Failure(m) => SubmitReply(false, None, Some(m))
  }

  /** The popup sees the same success flag and response from either handler; only the error text differs. */
  lemma ReplySuccessAgrees(outcome: FetchOutcome)
    ensures SubmitDataReply(outcome).success == SubmitDataReplyIntended(outcome).success
    ensures SubmitDataReply(outcome).response == SubmitDataReplyIntended(outcome).response
  {
  }
}

/**
 * The content script's tracker: a two-state (active / inactive) machine per
 * page that records visits into the navigation log, flushes time spent on the
 * current page when the page is hidden, left or unloaded, and captures the
 * user's ChatGPT prompts into a bounded prompt log.
 */
module Content {
  import opened Wrappers
  import opened Text
  import opened Records
  import opened Storage

  /** Two visits to the same url less than this many ms apart are one visit. */
  const VisitWindow: nat := 5000
  /** A prompt less than this many ms after a stored one is a duplicate. */
  const PromptWindow: nat := 2000
  /** The prompt log keeps at most this many prompts. */
  const MaxPrompts: nat := 100
  /** Shorter trimmed prompts are not captured. */
  const MinPromptLength: nat := 5
  const MsPerMinute: nat := 60000

  /** What the page reports when a visit is recorded: `document.title`, `location.hostname`, `document.referrer`. */
  datatype PageInfo = PageInfo(title: string, hostname: string, referrer: string)

  /** The tracker's per-page counters. */
  datatype SessionData = SessionData(timeSpent: nat, interactions: nat)

  // ---------------------------------------------------------------------------
  // Time

  /** `Math.round(ms / 1000 / 60)`: the nearest whole minute, halves rounding up. */
  function RoundToMinutes(ms: int): (m: int)
    ensures m * MsPerMinute - 30000 <= ms < m * MsPerMinute + 30000
  {
    (ms + 30000) / MsPerMinute
  }

  /** The minutes a flush charges: the rounded elapsed time, but never less than one. */
  function ElapsedMinutes(ms: int): (m: nat)
    ensures m >= 1
    ensures ms < 90000 ==> m == 1
    ensures ms >= 30000 ==> m * MsPerMinute - 30000 <= ms < m * MsPerMinute + 30000
  {
    var r := RoundToMinutes(ms);
    if r < 1 then 1 else r
  }

  // ---------------------------------------------------------------------------
  // Recording a visit

  /** The entry a visit to `url` records at `now` for a page session that began at `visitStart`. */
  function VisitEntry(url: string, page: PageInfo, now: nat, visitStart: nat, eventType: string): (e: NavigationEntry)
    ensures e.url == url && e.domain == page.hostname && e.timestamp == now && e.visitStart == Some(visitStart)
    ensures e.eventType == eventType && !e.fallback
    ensures e.title.Some? && e.title.value != "" && (page.title != "" ==> e.title == Some(page.title))
    ensures e.referrer.None? <==> page.referrer == ""
    ensures e.referrer.Some? ==> e.referrer.value == page.referrer
    ensures e.timeSpent == 0 && e.interactions == Some(0) && e.timeEnd.None?
  {
    NavigationEntry(
      url := url,
      title := Some(if page.title == "" then "Unknown Title" else page.title),
      domain := page.hostname,
      timestamp := now,
      visitStart := Some(visitStart),
      eventType := eventType,
      timeSpent := 0,
      interactions := Some(0),
      referrer := if page.referrer == "" then None else Some(page.referrer),
      fallback := false,
      timeEnd := None)
  }

  /**
   * The storage after a visit records `e`: the entry is appended and the page
   * counter bumped, unless an entry for the same url lies within the window.
   */
  function AfterVisit(s: StoreContents, e: NavigationEntry): (r: StoreContents)
    ensures |r.Navigation()| >= |s.Navigation()| && r.Navigation()[..|s.Navigation()|] == s.Navigation()
    ensures HasEntryWithin(s.Navigation(), e.url, e.timestamp, VisitWindow) ==> r == s
    ensures !HasEntryWithin(s.Navigation(), e.url, e.timestamp, VisitWindow) ==>
              && r.Navigation() == s.Navigation() + [e]
              && r.Pages() == s.Pages() + 1
              && r.(navigationData := s.navigationData, pagesVisited := s.pagesVisited) == s
  {
    var log := s.Navigation();
    if HasEntryWithin(log, e.url, e.timestamp, VisitWindow) then s
    else s.(navigationData := Some(log + [e]), pagesVisited := Some(s.Pages() + 1))
  }

  /** Recording a visit keeps the navigation log free of same-url entries closer than the window. */
  lemma VisitKeepsSpaced(s: StoreContents, e: NavigationEntry)
    requires Spaced(s.Navigation(), VisitWindow)
    ensures Spaced(AfterVisit(s, e).Navigation(), VisitWindow)
  {
    if !HasEntryWithin(s.Navigation(), e.url, e.timestamp, VisitWindow) {
      AppendKeepsSpaced(s.Navigation(), e, VisitWindow);
    }
  }

  /** Recording a visit keeps the page counter equal to the number of logged entries. */
  lemma VisitKeepsCounterInStep(s: StoreContents, e: NavigationEntry)
    requires s.Pages() == |s.Navigation()|
    ensures AfterVisit(s, e).Pages() == |AfterVisit(s, e).Navigation()|
  {
  }

  // ---------------------------------------------------------------------------
  // Flushing time spent

  /** The entry fields a flush writes. */
  function Patched(e: NavigationEntry, minutes: nat, interactions: nat, now: nat): NavigationEntry {
    e.(timeSpent := minutes, interactions := Some(interactions), timeEnd := Some(now))
  }

  /** `Array.prototype.reverse`. */
  function Reverse<T>(s: seq<T>): (r: seq<T>)
    ensures |r| == |s|
    ensures forall k | 0 <= k < |s| :: r[k] == s[|s| - 1 - k]
  {
    if s == [] then [] else Reverse(s[1..]) + [s[0]]
  }

  lemma ReverseReverse<T>(s: seq<T>)
    ensures Reverse(Reverse(s)) == s
  {
  }

  /** `Array.prototype.find` by url: the first entry with `url`. */
  function FindIndex(log: seq<NavigationEntry>, url: string): (r: Option<nat>)
    ensures r.Some? ==> r.value < |log| && log[r.value].url == url && forall k | 0 <= k < r.value :: log[k].url != url
    ensures r.None? ==> forall k | 0 <= k < |log| :: log[k].url != url
  {
    if |log| == 0 then None
    else if log[0].url == url then Some(0)
    else
      match FindIndex(log[1..], url)
      case None => None
      case Some(i) => Some(i + 1)
  }

  /** The newest entry for `url`. */
  function LastIndexOfUrl(log: seq<NavigationEntry>, url: string): (r: Option<nat>)
    ensures r.Some? ==> r.value < |log| && log[r.value].url == url && forall k | r.value < k < |log| :: log[k].url != url
    ensures r.None? ==> forall k | 0 <= k < |log| :: log[k].url != url
  {
    if |log| == 0 then None
    else if log[|log| - 1].url == url then Some(|log| - 1)
    else LastIndexOfUrl(log[..|log| - 1], url)
  }

  /** The intended effect of a flush on the log: the newest entry for `url` is patched, nothing else changes. */
  function PatchNewest(log: seq<NavigationEntry>, url: string, minutes: nat, interactions: nat, now: nat): (r: seq<NavigationEntry>)
    ensures |r| == |log|
    ensures forall k | 0 <= k < |log| :: r[k].url == log[k].url && r[k].timestamp == log[k].timestamp
    ensures forall k | 0 <= k < |log| && log[k].url != url :: r[k] == log[k]
    ensures LastIndexOfUrl(log, url).Some? ==>
              var j := LastIndexOfUrl(log, url).value;
              && r[j] == Patched(log[j], minutes, interactions, now)
              && forall k | 0 <= k < |log| && k != j :: r[k] == log[k]
    ensures LastIndexOfUrl(log, url).None? ==> r == log
  {
    match LastIndexOfUrl(log, url)
    case None => log
    case Some(j) => log[j := Patched(log[j], minutes, interactions, now)]
  }

  /**
   * The flush as the tracker performs it: reverse the log, patch the first
   * match, reverse it back. The double reversal cancels out, so this patches
   * exactly the newest entry for the url.
   */
  function FlushLog(log: seq<NavigationEntry>, url: string, minutes: nat, interactions: nat, now: nat): (r: seq<NavigationEntry>)
    ensures r == PatchNewest(log, url, minutes, interactions, now)
  {
    var rev := Reverse(log);
    ReverseReverse(log);
    FindInReverseIsLast(log, url);
    match FindIndex(rev, url)
    case None => Reverse(rev)
    case Some(i) =>
      var x := Patched(rev[i], minutes, interactions, now);
      ReverseUpdate(rev, i, x);
      assert rev[i] == log[|log| - 1 - i];
      Reverse(rev[i := x])
  }

  /** Updating position `i` and then reversing updates the mirrored position of the reversal. */
  lemma ReverseUpdate<T>(s: seq<T>, i: nat, x: T)
    requires i < |s|
    ensures Reverse(s[i := x]) == Reverse(s)[|s| - 1 - i := x]
  {
    var lhs, rhs := Reverse(s[i := x]), Reverse(s)[|s| - 1 - i := x];
    forall k | 0 <= k < |s| ensures lhs[k] == rhs[k] {
      assert lhs[k] == s[i := x][|s| - 1 - k];
    }
  }

  /** The first entry for `url` in the reversed log is the newest entry for `url` in the log. */
  lemma FindInReverseIsLast(log: seq<NavigationEntry>, url: string)
    ensures FindIndex(Reverse(log), url).None? ==> LastIndexOfUrl(log, url).None?
    ensures FindIndex(Reverse(log), url).Some? ==>
              LastIndexOfUrl(log, url) == Some(|log| - 1 - FindIndex(Reverse(log), url).value)
  {
    var n := |log|;
    var rev := Reverse(log);
    var last := LastIndexOfUrl(log, url);
    match FindIndex(rev, url)
    case None =>
      forall k | 0 <= k < n ensures log[k].url != url {
        assert log[k] == rev[n - 1 - k];
      }
    case Some(i) =>
      var j := n - 1 - i;
      assert log[j] == rev[i];
      forall k | j < k < n ensures log[k].url != url {
        assert log[k] == rev[n - 1 - k];
      }
  }

  /** The storage after a flush of `minutes` for `url`: time tracked grows, the newest entry for `url` is patched. */
  function AfterFlush(s: StoreContents, url: string, minutes: nat, interactions: nat, now: nat): (r: StoreContents)
    ensures r.Time() == s.Time() + minutes
    ensures r.Navigation() == PatchNewest(s.Navigation(), url, minutes, interactions, now)
    ensures r.(timeTracked := s.timeTracked, navigationData := s.navigationData) == s
  {
    s.(timeTracked := Some(s.Time() + minutes),
       navigationData := Some(PatchNewest(s.Navigation(), url, minutes, interactions, now)))
  }

  /** A flush keeps urls and timestamps, so it keeps the navigation log spaced. */
  lemma FlushKeepsSpaced(s: StoreContents, url: string, minutes: nat, interactions: nat, now: nat)
    requires Spaced(s.Navigation(), VisitWindow)
    ensures Spaced(AfterFlush(s, url, minutes, interactions, now).Navigation(), VisitWindow)
  {
    SameKeysKeepSpaced(s.Navigation(), AfterFlush(s, url, minutes, interactions, now).Navigation(), VisitWindow);
  }

  /** Flushing twice charges the elapsed minutes twice: a flush is not idempotent. */
  lemma RepeatedFlushChargesTwice(s: StoreContents, url: string, minutes: nat, interactions: nat, now: nat)
    requires minutes >= 1
    ensures var once := AfterFlush(s, url, minutes, interactions, now);
            var twice := AfterFlush(once, url, minutes, interactions, now);
            twice.Time() == s.Time() + 2 * minutes && twice != once
  {
    var once := AfterFlush(s, url, minutes, interactions, now);
    var twice := AfterFlush(once, url, minutes, interactions, now);
    assert twice.Time() != once.Time();
  }

  // ---------------------------------------------------------------------------
  // Navigating to another url

  /**
   * The storage after a navigation to `visit.url` as the tracker performs it.
   * The flush's storage callback runs only after the new session has replaced
   * the old one, so it charges the old session's `minutes` to the newest entry
   * of the NEW url, with the new session's zero interactions; then the visit
   * is recorded.
   */
  function AfterNavigationAsWritten(s: StoreContents, wasActive: bool, minutes: nat, visit: NavigationEntry, now: nat): (r: StoreContents)
    ensures r.Time() == s.Time() + (if wasActive then minutes else 0)
  {
    AfterVisit(if wasActive then AfterFlush(s, visit.url, minutes, 0, now) else s, visit)
  }

  /**
   * The storage after a navigation as evidently intended: the old page's newest
   * entry receives the old session's minutes and interactions, then the visit
   * is recorded.
   */
  function AfterNavigation(s: StoreContents, wasActive: bool, oldUrl: string, minutes: nat, interactions: nat,
                           visit: NavigationEntry, now: nat): (r: StoreContents)
    ensures r.Time() == s.Time() + (if wasActive then minutes else 0)
  {
    AfterVisit(if wasActive then AfterFlush(s, oldUrl, minutes, interactions, now) else s, visit)
  }

  /**
   * As written, navigating away never finalizes the page left: every entry of
   * the old url is stored as it was, and the newest earlier entry of the new
   * url (if any) is the one stamped, with zero interactions.
   */
  lemma NavigationAsWrittenMissesOldPage(s: StoreContents, oldUrl: string, minutes: nat, visit: NavigationEntry, now: nat)
    requires oldUrl != visit.url
    ensures var log, r := s.Navigation(), AfterNavigationAsWritten(s, true, minutes, visit, now).Navigation();
            && |r| >= |log|
            && (forall k | 0 <= k < |log| && log[k].url == oldUrl :: r[k] == log[k])
            && (LastIndexOfUrl(log, visit.url).Some? ==>
                  r[LastIndexOfUrl(log, visit.url).value] == Patched(log[LastIndexOfUrl(log, visit.url).value], minutes, 0, now))
  {
    var log := s.Navigation();
    var flushed := AfterFlush(s, visit.url, minutes, 0, now);
    var r := AfterVisit(flushed, visit).Navigation();
    assert r[..|log|] == flushed.Navigation();
    forall k | 0 <= k < |log| && log[k].url == oldUrl ensures r[k] == log[k] {
      assert r[k] == r[..|log|][k];
    }
    if LastIndexOfUrl(log, visit.url).Some? {
      var j := LastIndexOfUrl(log, visit.url).value;
      assert r[j] == r[..|log|][j];
    }
  }

  /** As intended, navigating away stamps the old page's newest entry with its minutes and interactions. */
  lemma NavigationFinalizesOldPage(s: StoreContents, oldUrl: string, minutes: nat, interactions: nat,
                                   visit: NavigationEntry, now: nat)
    requires LastIndexOfUrl(s.Navigation(), oldUrl).Some?
    ensures var log, j := s.Navigation(), LastIndexOfUrl(s.Navigation(), oldUrl).value;
            var r := AfterNavigation(s, true, oldUrl, minutes, interactions, visit, now).Navigation();
            |r| >= |log| && r[j] == Patched(log[j], minutes, interactions, now)
  {
    var log, j := s.Navigation(), LastIndexOfUrl(s.Navigation(), oldUrl).value;
    var flushed := AfterFlush(s, oldUrl, minutes, interactions, now);
    var r := AfterVisit(flushed, visit).Navigation();
    assert r[..|log|] == flushed.Navigation();
    assert r[j] == r[..|log|][j];
  }

  /** The two differ whenever the old page's newest entry is still open (has no end stamp). */
  lemma NavigationAsWrittenDiffers(s: StoreContents, oldUrl: string, minutes: nat, interactions: nat,
                                   visit: NavigationEntry, now: nat)
    requires oldUrl != visit.url
    requires LastIndexOfUrl(s.Navigation(), oldUrl).Some?
    requires s.Navigation()[LastIndexOfUrl(s.Navigation(), oldUrl).value].timeEnd.None?
    ensures AfterNavigationAsWritten(s, true, minutes, visit, now)
         != AfterNavigation(s, true, oldUrl, minutes, interactions, visit, now)
  {
    var j := LastIndexOfUrl(s.Navigation(), oldUrl).value;
    NavigationAsWrittenMissesOldPage(s, oldUrl, minutes, visit, now);
    NavigationFinalizesOldPage(s, oldUrl, minutes, interactions, visit, now);
    var w := AfterNavigationAsWritten(s, true, minutes, visit, now).Navigation();
    var i := AfterNavigation(s, true, oldUrl, minutes, interactions, visit, now).Navigation();
    assert w[j].timeEnd != i[j].timeEnd;
  }

  // ---------------------------------------------------------------------------
  // Prompt capture

  /** Text fragments of AI replies, page scripts and editor markup that are never captured as prompts. */
  const AiPatterns: seq<string> := [
    "window.__oai_log", "I'm doing great", "Glad to hear", "What's been the highlight",
    "Thanks for asking", "requestAnimationFrame", "__oai_SSR_", "ProseMirror-trailingBreak"]

  /** The text contains one of the AI / script patterns. */
  function IsSystemOrAIMessage(text: string): (r: bool)
    ensures r <==> exists k | 0 <= k < |AiPatterns| :: Contains(text, AiPatterns[k])
  {
    ContainsAny(text, AiPatterns)
  }

  /** Editor markup is always recognised as non-user text. */
  lemma MarkupIsSystemText(text: string)
    requires Contains(text, "ProseMirror-trailingBreak")
    ensures IsSystemOrAIMessage(text)
  {
    assert AiPatterns[7] == "ProseMirror-trailingBreak";
  }

  /** A character the conversation id pattern accepts: anything but `/` and `?`. */
  predicate IdChar(c: char) {
    c != '/' && c != '?'
  }

  /** The pattern `/c/` followed by at least one id character matches at `i`. */
  predicate ConversationPathAt(url: string, i: nat) {
    i + 3 < |url| && url[i..i + 3] == "/c/" && IdChar(url[i + 3])
  }

  /** The leftmost index from `i` on where the conversation path pattern matches. */
  function FirstConversationPathFrom(url: string, i: nat): (r: Option<nat>)
    ensures r.Some? ==> i <= r.value < |url| && ConversationPathAt(url, r.value) && forall k | i <= k < r.value :: !ConversationPathAt(url, k)
    ensures r.None? ==> forall k | i <= k < |url| :: !ConversationPathAt(url, k)
    decreases |url| - i
  {
    if i >= |url| then None
    else if ConversationPathAt(url, i) then Some(i)
    else FirstConversationPathFrom(url, i + 1)
  }

  /** The capture group of the leftmost match of `/\/c\/([^\/?]+)/` in `url`, if any. */
  function ConversationPath(url: string): (r: Option<string>)
    ensures r.None? <==> forall i | 0 <= i < |url| :: !ConversationPathAt(url, i)
    ensures r.Some? ==>
              exists i | 0 <= i < |url| ::
                && ConversationPathAt(url, i)
                && (forall k | 0 <= k < i :: !ConversationPathAt(url, k))
                && OccursAt(url, r.value, i + 3)
                && |r.value| >= 1
                && (forall k | 0 <= k < |r.value| :: IdChar(r.value[k]))
                && (i + 3 + |r.value| == |url| || !IdChar(url[i + 3 + |r.value|]))
  {
    match FirstConversationPathFrom(url, 0)
    case None => None
    case Some(i) =>
      var rest := url[i + 3..];
      var n := LongestPrefix(rest, IdChar);
      assert n >= 1;
      assert url[i + 3..i + 3 + n] == rest[..n];
      assert OccursAt(url, rest[..n], i + 3);
      assert i + 3 + n < |url| ==> url[i + 3 + n] == rest[n];
      Some(rest[..n])
  }

  /** The conversation a prompt belongs to: the id in the url, or a session id made from the time. */
  function ConversationId(url: string, now: nat): (r: string)
    ensures |r| >= 1 && '/' !in r && '?' !in r
    ensures ConversationPath(url).Some? ==> r == ConversationPath(url).value
    ensures ConversationPath(url).None? ==> r == "session-" + Decimal(now)
  {
    match ConversationPath(url)
    case Some(id) =>
      assert forall c | c in id :: IdChar(c);
      id
    case None =>
      var d := Decimal(now);
      DigitsHaveNoSlash(d);
      assert '?' !in d;
      "session-" + d
  }

  /** The record a capture of `clean` stores. */
  function PromptRecord(url: string, domain: string, clean: string, now: nat): (p: CapturedPrompt)
    ensures p.promptType == "chatgpt_prompt" && p.url == url && p.domain == domain && p.timestamp == now
    ensures p.prompt == clean && p.promptLength == |clean|
    ensures p.conversationId == ConversationId(url, now) && p.conversationId != ""
  {
    CapturedPrompt("chatgpt_prompt", url, domain, clean, now, ConversationId(url, now), |clean|)
  }

  /** A stored prompt makes the new one a duplicate: same text, each containing the other, or too close in time. */
  function IsDuplicatePrompt(p: CapturedPrompt, clean: string, now: nat): (r: bool)
    ensures r <==> p.prompt == clean || Abs(p.timestamp - now) < PromptWindow
  {
    var same := p.prompt == clean;
    var similar := Contains(p.prompt, clean) && Contains(clean, p.prompt);
    var close := Abs(p.timestamp - now) < PromptWindow;
    if similar then
      // mutual containment adds nothing to equality
      MutualContainmentIsEquality(p.prompt, clean);
      same || similar || close
    else same || similar || close
  }

  /** Two texts containing each other are equal. */
  lemma MutualContainmentIsEquality(a: string, b: string)
    requires Contains(a, b) && Contains(b, a)
    ensures a == b
  {
    var i :| 0 <= i <= |a| - |b| && OccursAt(a, b, i);
    var j :| 0 <= j <= |b| - |a| && OccursAt(b, a, j);
    assert |a| == |b| && i == 0;
    assert a[0..|b|] == a;
  }

  /** `push` followed by `splice(0, length - cap)` when the list grew past `cap`: the newest `cap` entries. */
  function AppendCapped<T>(xs: seq<T>, x: T, cap: nat): (r: seq<T>)
    requires cap >= 1
    ensures |r| == if |xs| + 1 <= cap then |xs| + 1 else cap
    ensures r[|r| - 1] == x
    ensures r == (xs + [x])[|xs| + 1 - |r|..]
  {
    var ys := xs + [x];
    if |ys| > cap then ys[|ys| - cap..] else ys
  }

  /**
   * The prompt list after a capture of `text`, or None when the capture is
   * dropped: a missing or non-string text, a trimmed text shorter than five
   * characters, a duplicate, or AI / script text.
   */
  function CapturePrompt(prompts: seq<CapturedPrompt>, text: Option<string>, url: string, domain: string, now: nat): (r: Option<seq<CapturedPrompt>>)
    ensures text.None? ==> r.None?
    ensures text.Some? && |Trim(text.value)| < MinPromptLength ==> r.None?
    ensures text.Some? && (exists k | 0 <= k < |prompts| :: IsDuplicatePrompt(prompts[k], Trim(text.value), now)) ==> r.None?
    ensures text.Some? && IsSystemOrAIMessage(Trim(text.value)) ==> r.None?
    ensures (&& text.Some? && |Trim(text.value)| >= MinPromptLength
             && !(exists k | 0 <= k < |prompts| :: IsDuplicatePrompt(prompts[k], Trim(text.value), now))
             && !IsSystemOrAIMessage(Trim(text.value))) ==> r.Some?
    ensures r.Some? ==>
              && text.Some?
              && var rec := PromptRecord(url, domain, Trim(text.value), now);
              && |r.value| == (if |prompts| < MaxPrompts then |prompts| + 1 else MaxPrompts)
              && r.value[|r.value| - 1] == rec
              && rec.promptLength == |rec.prompt| >= MinPromptLength
              && r.value == (prompts + [rec])[|prompts| + 1 - |r.value|..]
  {
    match text
    case None => None
    case Some(raw) =>
      var clean := Trim(raw);
      if |clean| < MinPromptLength then None
      else if exists k | 0 <= k < |prompts| :: IsDuplicatePrompt(prompts[k], clean, now) then None
      else if IsSystemOrAIMessage(clean) then None
      else Some(AppendCapped(prompts, PromptRecord(url, domain, clean, now), MaxPrompts))
  }

  /** A prompt the capture can have stored. */
  predicate WellFormedPrompt(p: CapturedPrompt) {
    && p.promptType == "chatgpt_prompt"
    && |p.prompt| >= MinPromptLength
    && p.promptLength == |p.prompt|
    && Trim(p.prompt) == p.prompt
    && !IsSystemOrAIMessage(p.prompt)
  }

  /** Every stored prompt is well formed. */
  predicate AllWellFormed(ps: seq<CapturedPrompt>) {
    forall i | 0 <= i < |ps| :: WellFormedPrompt(ps[i])
  }

  /** No two stored prompts share their text or lie less than the window apart in time. */
  predicate Separated(ps: seq<CapturedPrompt>) {
    forall i, j | 0 <= i < j < |ps| ::
      ps[i].prompt != ps[j].prompt && Abs(ps[i].timestamp - ps[j].timestamp) >= PromptWindow
  }

  /** The prompt log's invariant: bounded, well-formed entries, no repeated text, none too close in time. */
  predicate PromptLogValid(ps: seq<CapturedPrompt>) {
    |ps| <= MaxPrompts && AllWellFormed(ps) && Separated(ps)
  }

  /** Appending a prompt no stored prompt makes a duplicate keeps the log separated. */
  lemma AppendKeepsSeparated(ps: seq<CapturedPrompt>, rec: CapturedPrompt)
    requires Separated(ps)
    requires forall k | 0 <= k < |ps| :: !IsDuplicatePrompt(ps[k], rec.prompt, rec.timestamp)
    ensures Separated(ps + [rec])
  {
    var ys := ps + [rec];
    forall i, j | 0 <= i < j < |ys|
      ensures ys[i].prompt != ys[j].prompt && Abs(ys[i].timestamp - ys[j].timestamp) >= PromptWindow
    {
      assert ys[i] == ps[i];
      if j == |ps| {
        assert !IsDuplicatePrompt(ps[i], rec.prompt, rec.timestamp);
      } else {
        assert ys[j] == ps[j];
      }
    }
  }

  /** Dropping the oldest prompts keeps the log well formed and separated. */
  lemma SuffixKeepsInvariant(ys: seq<CapturedPrompt>, d: nat)
    requires d <= |ys| && AllWellFormed(ys) && Separated(ys)
    ensures AllWellFormed(ys[d..]) && Separated(ys[d..])
  {
    var r := ys[d..];
    forall i, j | 0 <= i < j < |r|
      ensures r[i].prompt != r[j].prompt && Abs(r[i].timestamp - r[j].timestamp) >= PromptWindow
    {
      assert r[i] == ys[i + d] && r[j] == ys[j + d];
    }
    forall i | 0 <= i < |r| ensures WellFormedPrompt(r[i]) {
      assert r[i] == ys[i + d];
    }
  }

  /** The record of an accepted text is well formed. */
  lemma RecordIsWellFormed(raw: string, url: string, domain: string, now: nat)
    requires |Trim(raw)| >= MinPromptLength && !IsSystemOrAIMessage(Trim(raw))
    ensures WellFormedPrompt(PromptRecord(url, domain, Trim(raw), now))
  {
    TrimIdempotent(raw);
  }

  /** Appending a well-formed prompt that duplicates no stored one, then capping, keeps the log valid. */
  lemma AppendCappedKeepsPromptLogValid(ps: seq<CapturedPrompt>, rec: CapturedPrompt)
    requires PromptLogValid(ps) && WellFormedPrompt(rec)
    requires forall k | 0 <= k < |ps| :: !IsDuplicatePrompt(ps[k], rec.prompt, rec.timestamp)
    ensures PromptLogValid(AppendCapped(ps, rec, MaxPrompts))
  {
    var ys := ps + [rec];
    AppendKeepsSeparated(ps, rec);
    assert AllWellFormed(ys) by {
      assert forall i | 0 <= i < |ps| :: ys[i] == ps[i];
    }
    var r := AppendCapped(ps, rec, MaxPrompts);
    SuffixKeepsInvariant(ys, |ys| - |r|);
  }

  /** Every capture keeps the prompt log valid. */
  lemma CaptureKeepsPromptLogValid(ps: seq<CapturedPrompt>, text: Option<string>, url: string, domain: string, now: nat)
    requires PromptLogValid(ps)
    ensures CapturePrompt(ps, text, url, domain, now).Some? ==> PromptLogValid(CapturePrompt(ps, text, url, domain, now).value)
  {
    var out := CapturePrompt(ps, text, url, domain, now);
    if out.Some? {
      var clean := Trim(text.value);
      var rec := PromptRecord(url, domain, clean, now);
      assert out.value == AppendCapped(ps, rec, MaxPrompts);
      RecordIsWellFormed(text.value, url, domain, now);
      AppendCappedKeepsPromptLogValid(ps, rec);
    }
  }

  /** The text sources of an input element; None is a property that is absent. */
  datatype InputElement = InputElement(textContent: Option<string>, innerText: Option<string>, value: Option<string>)

  /** `a || b || c || ''` over the element's text sources: the first non-empty one. */
  function ElementText(el: InputElement): string {
    if el.textContent.Some? && el.textContent.value != "" then el.textContent.value
    else if el.innerText.Some? && el.innerText.value != "" then el.innerText.value
    else if el.value.Some? && el.value.value != "" then el.value.value
    else ""
  }

  /** The prompt in an input element: the trimmed text, or nothing for the placeholder or editor markup. */
  function ExtractContent(el: InputElement): (r: string)
    ensures r == "" || r == Trim(ElementText(el))
    ensures ElementText(el) == "Ask anything" || Contains(ElementText(el), "ProseMirror-trailingBreak") ==> r == ""
    ensures ElementText(el) != "Ask anything" && !Contains(ElementText(el), "ProseMirror-trailingBreak") ==>
              r == Trim(ElementText(el))
    ensures Trim(r) == r
    ensures !Contains(r, "ProseMirror-trailingBreak")
  {
    var content := ElementText(el);
    if content == "Ask anything" || Contains(content, "ProseMirror-trailingBreak") then ""
    else
      TrimIdempotent(content);
      TrimKeepsAbsence(content, "ProseMirror-trailingBreak");
      Trim(content)
  }

  // ---------------------------------------------------------------------------
  // The tracker

  class NavigationTracker {
    var currentUrl: string
    var pageStartTime: nat
    var isPageActive: bool
    var sessionData: SessionData

    /** The minutes a flush at `now` would charge for the current page session. */
    function MinutesAt(now: nat): nat
      reads this
    {
      ElapsedMinutes(now - pageStartTime)
    }

    /** What a flush at `now` leaves in storage `s`: a change only while the page is active. */
    function Flushed(s: StoreContents, now: nat): StoreContents
      reads this
    {
      if isPageActive then AfterFlush(s, currentUrl, MinutesAt(now), sessionData.interactions, now) else s
    }

    /** A tracker for the page at `url`, loaded at `now`; it records the initial load. */
    constructor (store: LocalStore, url: string, page: PageInfo, now: nat)
      modifies store
      ensures currentUrl == url && pageStartTime == now && isPageActive && sessionData == SessionData(0, 0)
      ensures store.State() == AfterVisit(old(store.State()), VisitEntry(url, page, now, now, "initial_load"))
    {
      pageStartTime := now;
      isPageActive := true;
      currentUrl := url;
      sessionData := SessionData(0, 0);
      new;
      RecordPageVisit(store, "initial_load", page, now);
    }

    /** Records a visit to the current page unless a same-url entry lies within the window. */
    method RecordPageVisit(store: LocalStore, eventType: string, page: PageInfo, now: nat)
      modifies store
      ensures store.State() == AfterVisit(old(store.State()), VisitEntry(currentUrl, page, now, pageStartTime, eventType))
    {
      var pageData := VisitEntry(currentUrl, page, now, pageStartTime, eventType);
      var navigationData := store.navigationData.GetOr([]);
      var isDuplicate := HasEntryWithin(navigationData, pageData.url, pageData.timestamp, VisitWindow);
      if !isDuplicate {
        navigationData := navigationData + [pageData];
        store.navigationData := Some(navigationData);
        UpdatePageCounter(store);
      }
    }

    /** Bumps the stored page counter by one. */
    method UpdatePageCounter(store: LocalStore)
      modifies store
      ensures store.State() == old(store.State()).(pagesVisited := Some(old(store.State()).Pages() + 1))
    {
      var pagesVisited := store.pagesVisited.GetOr(0) + 1;
      store.pagesVisited := Some(pagesVisited);
    }

    /** Charges the elapsed minutes of an active page session to storage; nothing happens while inactive. */
    method UpdateTimeSpent(store: LocalStore, now: nat)
      modifies this, store
      ensures currentUrl == old(currentUrl) && pageStartTime == old(pageStartTime) && isPageActive == old(isPageActive)
      ensures sessionData == if old(isPageActive) then old(sessionData).(timeSpent := old(MinutesAt(now))) else old(sessionData)
      ensures store.State() == old(Flushed(store.State(), now))
    {
      if !isPageActive {
        return;
      }
      var timeSpentMs := now - pageStartTime;
      var timeSpentMinutes := ElapsedMinutes(timeSpentMs);
      sessionData := sessionData.(timeSpent := timeSpentMinutes);
      FlushCallback(store, timeSpentMinutes, now);
    }

    /**
     * The storage callback of a flush. It reads the url and the interaction
     * count the tracker holds when it RUNS, not when the flush was requested.
     */
    method FlushCallback(store: LocalStore, minutes: nat, now: nat)
      modifies store
      ensures store.State() == old(AfterFlush(store.State(), currentUrl, minutes, sessionData.interactions, now))
    {
      var url, interactions := currentUrl, sessionData.interactions;
      ghost var before := store.State();
      var log := store.navigationData.GetOr([]);
      var totalTime := store.timeTracked.GetOr(0) + minutes;
      ghost var flushed := FlushLog(log, url, minutes, interactions, now);
      var reversed := Reverse(log);
      var currentEntry := FindIndex(reversed, url);
      if currentEntry.Some? {
        var i := currentEntry.value;
        reversed := reversed[i := Patched(reversed[i], minutes, interactions, now)];
        assert Reverse(reversed) == flushed;
      } else {
        assert Reverse(reversed) == flushed;
      }
      assert log == before.Navigation() && totalTime == before.Time() + minutes;
      store.timeTracked := Some(totalTime);
      store.navigationData := Some(Reverse(reversed));
      assert store.State() == AfterFlush(before, url, minutes, interactions, now);
    }

    /** Flushes the page session on unload or navigation; the page stays active. */
    method FinalizePageSession(store: LocalStore, now: nat)
      modifies this, store
      ensures currentUrl == old(currentUrl) && pageStartTime == old(pageStartTime) && isPageActive == old(isPageActive)
      ensures sessionData == if old(isPageActive) then old(sessionData).(timeSpent := old(MinutesAt(now))) else old(sessionData)
      ensures store.State() == old(Flushed(store.State(), now))
    {
      if isPageActive {
        UpdateTimeSpent(store, now);
      }
    }

    /** The page was hidden or lost focus: an active session is flushed and becomes inactive. */
    method HandlePageHidden(store: LocalStore, now: nat)
      modifies this, store
      ensures !isPageActive
      ensures currentUrl == old(currentUrl) && pageStartTime == old(pageStartTime)
      ensures sessionData == if old(isPageActive) then old(sessionData).(timeSpent := old(MinutesAt(now))) else old(sessionData)
      ensures store.State() == old(Flushed(store.State(), now))
    {
      if isPageActive {
        UpdateTimeSpent(store, now);
        isPageActive := false;
      }
    }

    /** The page became visible or gained focus: an inactive session restarts its clock at `now`. */
    method HandlePageVisible(now: nat)
      modifies this
      ensures isPageActive
      ensures pageStartTime == if old(isPageActive) then old(pageStartTime) else now
      ensures currentUrl == old(currentUrl) && sessionData == old(sessionData)
    {
      if !isPageActive {
        pageStartTime := now;
        isPageActive := true;
      }
    }

    /** A click, scroll or key press: one more interaction, and the page counts as active. */
    method OnInteraction()
      modifies this
      ensures sessionData == old(sessionData).(interactions := old(sessionData.interactions) + 1)
      ensures isPageActive
      ensures currentUrl == old(currentUrl) && pageStartTime == old(pageStartTime)
    {
      sessionData := sessionData.(interactions := sessionData.interactions + 1);
      isPageActive := true;
    }

    /**
     * The location may have changed (history, hash or SPA navigation): when it
     * did, the old session's minutes are computed, a new session starts at
     * `now`, and only then do the storage callbacks run: first the flush's,
     * which sees the new url and the new session's zero interactions, then the
     * visit's.
     */
    method HandleNavigation(store: LocalStore, eventType: string, newUrl: string, page: PageInfo, now: nat)
      modifies this, store
      ensures newUrl == old(currentUrl) ==> unchanged(this) && unchanged(store)
      ensures newUrl != old(currentUrl) ==>
                && currentUrl == newUrl && pageStartTime == now && isPageActive
                && sessionData == SessionData(0, 0)
                && store.State() == AfterNavigationAsWritten(old(store.State()), old(isPageActive), old(MinutesAt(now)),
                                                             VisitEntry(newUrl, page, now, now, eventType), now)
    {
      if newUrl != currentUrl {
        var flushPending := isPageActive;
        var minutes := 0;
        if isPageActive {
          minutes := ElapsedMinutes(now - pageStartTime);
          sessionData := sessionData.(timeSpent := minutes);
        }
        currentUrl := newUrl;
        pageStartTime := now;
        isPageActive := true;
        sessionData := SessionData(0, 0);
        if flushPending {
          FlushCallback(store, minutes, now);
        }
        RecordPageVisit(store, eventType, page, now);
      }
    }

    /**
     * The navigation as evidently intended: the old session is flushed with
     * its own url and interactions before the new one starts.
     */
    method HandleNavigationIntended(store: LocalStore, eventType: string, newUrl: string, page: PageInfo, now: nat)
      modifies this, store
      ensures newUrl == old(currentUrl) ==> unchanged(this) && unchanged(store)
      ensures newUrl != old(currentUrl) ==>
                && currentUrl == newUrl && pageStartTime == now && isPageActive
                && sessionData == SessionData(0, 0)
                && store.State() == AfterNavigation(old(store.State()), old(isPageActive), old(currentUrl), old(MinutesAt(now)),
                                                    old(sessionData.interactions), VisitEntry(newUrl, page, now, now, eventType), now)
    {
      if newUrl != currentUrl {
        FinalizePageSession(store, now);
        currentUrl := newUrl;
        pageStartTime := now;
        isPageActive := true;
        sessionData := SessionData(0, 0);
        RecordPageVisit(store, eventType, page, now);
      }
    }

    /** Captures a submitted prompt typed on the current page into the prompt log. */
    method CaptureChatGPTPrompt(store: LocalStore, promptText: Option<string>, hostname: string, now: nat)
      modifies store
      ensures CapturePrompt(old(store.State()).Prompts(), promptText, currentUrl, hostname, now).None? ==>
                store.State() == old(store.State())
      ensures CapturePrompt(old(store.State()).Prompts(), promptText, currentUrl, hostname, now).Some? ==>
                store.State() == old(store.State()).(chatgptPrompts := CapturePrompt(old(store.State()).Prompts(), promptText, currentUrl, hostname, now))
    {
      ghost var initial := store.State();
      ghost var outcome := CapturePrompt(initial.Prompts(), promptText, currentUrl, hostname, now);
      if promptText.None? {
        return;
      }
      var cleanPrompt := Trim(promptText.value);
      if |cleanPrompt| < MinPromptLength {
        assert outcome == None;
        return;
      }
      var promptData := PromptRecord(currentUrl, hostname, cleanPrompt, now);
      var prompts := store.chatgptPrompts.GetOr([]);
      assert prompts == initial.Prompts();
      var isDuplicate := exists k | 0 <= k < |prompts| :: IsDuplicatePrompt(prompts[k], cleanPrompt, now);
      if isDuplicate {
        assert outcome == None;
        return;
      }
      if IsSystemOrAIMessage(cleanPrompt) {
        assert outcome == None;
        return;
      }
      assert outcome == Some(AppendCapped(prompts, promptData, MaxPrompts));
      prompts := prompts + [promptData];
      if |prompts| > MaxPrompts {
        prompts := prompts[|prompts| - MaxPrompts..];
      }
      assert outcome == Some(prompts);
      store.chatgptPrompts := Some(prompts);
    }
  }
}

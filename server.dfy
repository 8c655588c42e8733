/**
 * The relay's decision logic for `POST /api/submit-data`: the data score, the
 * validation guards, the archive call whose failure never fails the request,
 * and the translation of a failed reward transaction into a message and an
 * HTTP status.
 */
module Server {
  import opened Wrappers
  import opened Text
  import opened Records
  import opened S3Service

  // ---------------------------------------------------------------------------
  // Data score

  function Min(a: int, b: int): (m: int)
    ensures m <= a && m <= b && (m == a || m == b)
  {
    if a <= b then a else b
  }

  /** The distinct domains of the visit log: the size of `new Set(navigationData.map(item => item.domain))`. */
  function DomainsOf(nav: seq<NavigationEntry>): set<string> {
    set i | 0 <= i < |nav| :: nav[i].domain
  }

  /** `calculateDataScore`: two points a page up to 20, a point a minute up to 30, three points a distinct domain. */
  function CalculateDataScore(pagesVisited: int, timeTracked: int, navigationData: Option<seq<NavigationEntry>>): (score: int)
    ensures score <= 20 + 30 + 3 * |navigationData.GetOr([])|
  {
    var domainPoints :=
      if navigationData.Some? && |navigationData.value| > 0 then
        DomainCountBound(navigationData.value);
        3 * |DomainsOf(navigationData.value)|
      else 0;
    Min(pagesVisited * 2, 20) + Min(timeTracked, 30) + domainPoints
  }

  /** A log has no more distinct domains than entries. */
  lemma {:induction false} DomainCountBound(nav: seq<NavigationEntry>)
    ensures |DomainsOf(nav)| <= |nav|
  {
    if |nav| > 0 {
      var init := nav[..|nav| - 1];
      assert DomainsOf(nav) == DomainsOf(init) + {nav[|nav| - 1].domain} by {
        forall d | d in DomainsOf(nav) ensures d in DomainsOf(init) + {nav[|nav| - 1].domain} {
          var i :| 0 <= i < |nav| && nav[i].domain == d;
          if i < |nav| - 1 {
            assert init[i] == nav[i];
          }
        }
        forall d | d in DomainsOf(init) ensures d in DomainsOf(nav) {
          var i :| 0 <= i < |init| && init[i].domain == d;
          assert nav[i] == init[i];
        }
      }
      DomainCountBound(init);
    }
  }

  /** The score splits as the pages, time and domain terms, the first two capped. */
  lemma DataScoreTerms(pagesVisited: int, timeTracked: int, nav: seq<NavigationEntry>)
    ensures var score := CalculateDataScore(pagesVisited, timeTracked, Some(nav));
            && score == Min(2 * pagesVisited, 20) + Min(timeTracked, 30) + 3 * |DomainsOf(nav)|
            && (pagesVisited >= 10 && timeTracked >= 30 ==> score == 50 + 3 * |DomainsOf(nav)|)
            && (0 <= pagesVisited <= 10 && 0 <= timeTracked <= 30 ==> score == 2 * pagesVisited + timeTracked + 3 * |DomainsOf(nav)|)
  {
    if |nav| == 0 {
      assert DomainsOf(nav) == {};
    }
  }

  /** A missing or empty visit log contributes nothing. */
  lemma EmptyLogScoresNoDomains(pagesVisited: int, timeTracked: int)
    ensures CalculateDataScore(pagesVisited, timeTracked, None) == Min(2 * pagesVisited, 20) + Min(timeTracked, 30)
    ensures CalculateDataScore(pagesVisited, timeTracked, Some([])) == Min(2 * pagesVisited, 20) + Min(timeTracked, 30)
  {
  }

  /**
   * The score depends only on which entries occur, not on their order or
   * repetition: reordering or duplicating visits changes nothing.
   */
  lemma DomainScoreIgnoresOrderAndRepeats(pagesVisited: int, timeTracked: int, a: seq<NavigationEntry>, b: seq<NavigationEntry>)
    requires forall e :: e in a <==> e in b
    ensures CalculateDataScore(pagesVisited, timeTracked, Some(a)) == CalculateDataScore(pagesVisited, timeTracked, Some(b))
  {
    assert DomainsOf(a) == DomainsOf(b) by {
      forall d | d in DomainsOf(a) ensures d in DomainsOf(b) {
        var i :| 0 <= i < |a| && a[i].domain == d;
        assert a[i] in b;
        var j :| 0 <= j < |b| && b[j] == a[i];
      }
      forall d | d in DomainsOf(b) ensures d in DomainsOf(a) {
        var j :| 0 <= j < |b| && b[j].domain == d;
        assert b[j] in a;
        var i :| 0 <= i < |a| && a[i] == b[j];
      }
    }
  }

  /** Logging another visit to an already logged domain adds no domain points. */
  lemma RevisitedDomainAddsNothing(pagesVisited: int, timeTracked: int, log: seq<NavigationEntry>, e: NavigationEntry, i: nat)
    requires i < |log| && log[i].domain == e.domain
    ensures CalculateDataScore(pagesVisited, timeTracked, Some(log + [e])) == CalculateDataScore(pagesVisited, timeTracked, Some(log))
  {
    var ext := log + [e];
    assert DomainsOf(ext) == DomainsOf(log) by {
      forall d | d in DomainsOf(ext) ensures d in DomainsOf(log) {
        var j :| 0 <= j < |ext| && ext[j].domain == d;
        if j == |log| {
          assert log[i].domain == d;
        } else {
          assert log[j] == ext[j];
        }
      }
      forall d | d in DomainsOf(log) ensures d in DomainsOf(ext) {
        var j :| 0 <= j < |log| && log[j].domain == d;
        assert ext[j] == log[j];
      }
    }
  }

  /** A concrete instance: a log of two visits to one domain earns the points of one domain. */
  lemma RepeatedDomainCountsOnce(e: NavigationEntry, f: NavigationEntry)
    requires e.domain == f.domain
    ensures CalculateDataScore(0, 0, Some([e, f])) == 3
  {
    assert DomainsOf([e, f]) == {e.domain} by {
      assert [e, f][0] == e && [e, f][1] == f;
    }
  }

  // ---------------------------------------------------------------------------
  // Reward failures

  /**
   * What a failed reward transaction reports: ethers' `reason`, the first
   * argument of the decoded revert (None where the object or its arguments
   * are missing), and the error message.
   */
  datatype MintError = MintError(reason: Option<string>, revertArg: Option<string>, message: string)

  const DefaultMintMessage := "Failed to mint tokens"
  const CooldownNotMetText := "Cooldown period not met"
  /** The notice the relay substitutes for an unmet cooldown, written by its phrases. */
  const CooldownNotice := CooldownText + " active." + " Please wait" + " before submitting again."
  const RevertMarker := "execution reverted:"
  const QuotedRevertPrefix := RevertMarker + " \""

  /** A character of the captured group `[^"]`. */
  predicate NotQuote(c: char) {
    c != '"'
  }

  /** The length of the run of non-quote characters after the quoted prefix at `i`. */
  function RevertGroupLength(s: string, i: nat): nat
    requires i + |QuotedRevertPrefix| <= |s|
  {
    LongestPrefix(s[i + |QuotedRevertPrefix|..], NotQuote)
  }

  /** The regular expression `execution reverted: "([^"]+)"` matches `s` starting at index `i`. */
  predicate RevertMatchAt(s: string, i: int) {
    && 0 <= i
    && OccursAt(s, QuotedRevertPrefix, i)
    && var n := RevertGroupLength(s, i);
    && n >= 1
    && i + |QuotedRevertPrefix| + n < |s|
  }

  /** The captured group of the match at `i`. */
  function RevertGroup(s: string, i: nat): (g: string)
    requires RevertMatchAt(s, i)
    ensures |g| >= 1 && forall k | 0 <= k < |g| :: g[k] != '"'
    ensures OccursAt(s, g, i + |QuotedRevertPrefix|)
    ensures s[i + |QuotedRevertPrefix| + |g|] == '"'
  {
    var j := i + |QuotedRevertPrefix|;
    var n := RevertGroupLength(s, i);
    assert s[j..][n] == s[j + n];
    assert s[j..][..n] == s[j..j + n];
    s[j..j + n]
  }

  /** The leftmost match of the regular expression at or after `i`. */
  function FirstRevertMatchFrom(s: string, i: nat): (r: Option<nat>)
    requires i <= |s|
    ensures r.Some? ==> i <= r.value && RevertMatchAt(s, r.value)
    ensures forall k | i <= k < (if r.Some? then r.value else |s|) :: !RevertMatchAt(s, k)
    decreases |s| - i
  {
    if i == |s| then None
    else if i + |QuotedRevertPrefix| <= |s| && RevertMatchAt(s, i) then Some(i)
    else FirstRevertMatchFrom(s, i + 1)
  }

  /** `message.match(/execution reverted: "([^"]+)"/)`, reduced to its group `match[1]`. */
  function QuotedRevertReason(message: string): (g: Option<string>)
    ensures g.None? <==> forall i | 0 <= i < |message| :: !RevertMatchAt(message, i)
    ensures g.Some? ==> exists i | 0 <= i < |message| ::
              && RevertMatchAt(message, i)
              && g.value == RevertGroup(message, i)
              && forall k | 0 <= k < i :: !RevertMatchAt(message, k)
  {
    match FirstRevertMatchFrom(message, 0)
    case None => None
    case Some(i) => Some(RevertGroup(message, i))
  }

  /** A JavaScript-truthy string: present and non-empty. */
  predicate Truthy(s: Option<string>) {
    s.Some? && s.value != ""
  }

  /** The message the relay reports for a failed reward transaction. */
  function ExtractMintErrorMessage(e: MintError): (m: string)
    ensures m != ""
    ensures Truthy(e.reason) ==> m == e.reason.value
    ensures !Truthy(e.reason) && Truthy(e.revertArg) ==> m == e.revertArg.value
    ensures !Truthy(e.reason) && !Truthy(e.revertArg) ==>
              if Contains(e.message, RevertMarker) then
                m == QuotedRevertReason(e.message).GetOr(DefaultMintMessage)
              else
                m == (if Contains(e.message, CooldownNotMetText) then CooldownNotice else DefaultMintMessage)
  {
    if Truthy(e.reason) then e.reason.value
    else if Truthy(e.revertArg) then e.revertArg.value
    else if Contains(e.message, RevertMarker) then
      match QuotedRevertReason(e.message)
      case Some(g) => g
      case None => DefaultMintMessage
    else if Contains(e.message, CooldownNotMetText) then CooldownNotice
    else DefaultMintMessage
  }

  /** The reported message always comes from the error itself or is one of the two fixed texts. */
  lemma MintMessageOrigin(e: MintError)
    ensures var m := ExtractMintErrorMessage(e);
            || m == e.reason.GetOr("")
            || m == e.revertArg.GetOr("")
            || (Contains(e.message, m) && '"' !in m)
            || m == CooldownNotice
            || m == DefaultMintMessage
  {
    var m := ExtractMintErrorMessage(e);
    if !Truthy(e.reason) && !Truthy(e.revertArg) && Contains(e.message, RevertMarker) {
      var g := QuotedRevertReason(e.message);
      if g.Some? {
        var i :| 0 <= i < |e.message| && RevertMatchAt(e.message, i) && g.value == RevertGroup(e.message, i);
        assert OccursAt(e.message, g.value, i + |QuotedRevertPrefix|);
      }
    }
  }

  /** The revert marker without a quoted reason leaves the default message. */
  lemma UnquotedRevertFallsBack(e: MintError)
    requires !Truthy(e.reason) && !Truthy(e.revertArg)
    requires Contains(e.message, RevertMarker) && '"' !in e.message
    ensures ExtractMintErrorMessage(e) == DefaultMintMessage
  {
    NotContainsQuote(e.message);
  }

  /**
   * The revert marker without a quoted reason hides any cooldown text: the
   * message falls back to the default, because the cooldown test is an
   * alternative to the marker test rather than a further fallback.
   */
  lemma UnquotedRevertHidesCooldown()
    ensures var message := RevertMarker + " " + CooldownNotMetText;
            && Contains(message, CooldownNotMetText)
            && ExtractMintErrorMessage(MintError(None, None, message)) == DefaultMintMessage
  {
    var message := RevertMarker + " " + CooldownNotMetText;
    assert '"' !in RevertMarker + " ";
    assert '"' !in CooldownNotMetText;
    assert '"' !in message;
    assert message[..|RevertMarker|] == RevertMarker;
    assert OccursAt(message, RevertMarker, 0);
    assert message[|RevertMarker| + 1..] == CooldownNotMetText;
    assert OccursAt(message, CooldownNotMetText, |RevertMarker| + 1);
    UnquotedRevertFallsBack(MintError(None, None, message));
  }

  /** A message without a double quote has no match of the regular expression. */
  lemma NotContainsQuote(s: string)
    requires '"' !in s
    ensures QuotedRevertReason(s).None?
  {
    forall i | 0 <= i < |s| ensures !RevertMatchAt(s, i) {
    }
  }

  const DailyLimitText := "Daily submission limit exceeded"
  const CooldownText := "Cooldown period"
  const WaitText := "wait"
  const InvalidDataText := "Must have visited at least 1 page"

  /** The failure classes the relay answers with. */
  datatype MintFailure = DailyLimit | Cooldown | InvalidData | Other

  /** The class of a failure message, tested in the relay's order. */
  function ClassifyMintError(m: string): (c: MintFailure)
    ensures c == DailyLimit <==> Contains(m, DailyLimitText)
    ensures c == Cooldown <==>
              !Contains(m, DailyLimitText) && (Contains(m, CooldownText) || Contains(m, WaitText))
    ensures c == InvalidData <==>
              && !Contains(m, DailyLimitText)
              && !Contains(m, CooldownText) && !Contains(m, WaitText)
              && Contains(m, InvalidDataText)
  {
    if Contains(m, DailyLimitText) then DailyLimit
    else if Contains(m, CooldownText) || Contains(m, WaitText) then Cooldown
    else if Contains(m, InvalidDataText) then InvalidData
    else Other
  }

  /** The status code of a failure class: never a success. */
  function FailureStatus(c: MintFailure): (status: nat)
    ensures status == 429 || status == 400 || status == 500
    ensures status == 429 <==> c == DailyLimit || c == Cooldown
    ensures status == 400 <==> c == InvalidData
  {
    match c
    case DailyLimit => 429
    case Cooldown => 429
    case InvalidData => 400
    case Other => 500
  }

  /** The `type` field of a failure class; the generic failure has none. */
  function FailureType(c: MintFailure): (t: Option<string>)
    ensures t.None? <==> c == Other
  {
    match c
    case DailyLimit => Some("daily_limit")
    case Cooldown => Some("cooldown")
    case InvalidData => Some("invalid_data")
    case Other => None
  }

  /** The default message is a generic failure. */
  lemma DefaultMessageIsServerError()
    ensures ClassifyMintError(DefaultMintMessage) == Other
    ensures FailureStatus(ClassifyMintError(DefaultMintMessage)) == 500
  {
    NotContainsWithoutFirstChar(DefaultMintMessage, DailyLimitText);
    NotContainsWithoutFirstChar(DefaultMintMessage, CooldownText);
    NotContainsWithoutFirstChar(DefaultMintMessage, WaitText);
    NotContainsWithoutFirstChar(DefaultMintMessage, InvalidDataText);
  }

  /** The relay's own cooldown notice is answered as a cooldown, with 429. */
  lemma CooldownNoticeIsCooldown()
    ensures ClassifyMintError(CooldownNotice) == Cooldown
    ensures FailureStatus(ClassifyMintError(CooldownNotice)) == 429
  {
    NotContainsWithoutFirstChar(CooldownNotice, DailyLimitText);
    assert OccursAt(CooldownNotice, CooldownText, 0);
  }

  // ---------------------------------------------------------------------------
  // The submit handler

  /** A JSON reply body: an error, with its optional type and details, or the reward summary. */
  datatype ReplyBody =
    | ErrorBody(error: string, errorType: Option<string>, details: Option<string>)
    | RewardBody(transactionHash: string, pagesVisited: int, ratePerPage: string, dataScore: int,
                 submissionId: Option<string>, dataStored: bool)

  datatype ApiReply = ApiReply(status: nat, body: ReplyBody)

  /** The calls the handler makes, in order: the archive call and the reward transaction. */
  datatype Effect = ArchiveCall(submission: Submission) | RewardCall(walletAddress: string, pagesVisited: int)

  datatype HandlerRun = HandlerRun(reply: ApiReply, effects: seq<Effect>)

  /** The reply for a failed reward transaction. */
  function MintFailureReply(e: MintError): (reply: ApiReply)
    ensures var m := ExtractMintErrorMessage(e);
            && reply.status == FailureStatus(ClassifyMintError(m))
            && reply.body.ErrorBody? && reply.body.error == m
            && reply.body.errorType == FailureType(ClassifyMintError(m))
            && (reply.body.details.Some? <==> reply.status == 500)
  {
    var m := ExtractMintErrorMessage(e);
    var c := ClassifyMintError(m);
    if c == Other then ApiReply(500, ErrorBody(m, None, Some(e.message)))
    else ApiReply(FailureStatus(c), ErrorBody(m, FailureType(c), None))
  }

  /** Whether the body's wallet address passes `!walletAddress || !ethers.isAddress(walletAddress)`. */
  predicate ValidWallet(body: Submission, isAddress: string -> bool) {
    Truthy(body.walletAddress) && isAddress(body.walletAddress.value)
  }

  /**
   * One run of `POST /api/submit-data`. `isAddress` stands for `ethers.isAddress`,
   * `contractReady` for an initialised token contract, `archive` for what the
   * archive call returned or threw, and `mint` for the reward transaction's
   * hash or its error.
   */
  function HandleSubmitData(body: Submission, isAddress: string -> bool, contractReady: bool,
                            archive: StoreOutcome, mint: Result<string, MintError>): (run: HandlerRun)
    ensures !ValidWallet(body, isAddress) ==>
              run.reply == ApiReply(400, ErrorBody("Invalid wallet address", None, None)) && run.effects == []
    ensures ValidWallet(body, isAddress) && !contractReady ==>
              run.reply == ApiReply(500, ErrorBody("Token contract not initialized", None, None)) && run.effects == []
    ensures ValidWallet(body, isAddress) && contractReady ==>
              run.effects == [ArchiveCall(body), RewardCall(body.walletAddress.value, body.pagesVisited)]
    ensures run.reply.status == 200 <==> ValidWallet(body, isAddress) && contractReady && mint.Success?
    ensures run.reply.status == 200 ==>
              && run.reply.body.RewardBody?
              && run.reply.body.transactionHash == mint.value
              && run.reply.body.pagesVisited == body.pagesVisited
              && run.reply.body.dataScore == CalculateDataScore(body.pagesVisited, body.timeTracked, body.navigationData)
              && (run.reply.body.dataStored <==> archive.Stored?)
              && run.reply.body.submissionId == (if archive.Stored? then Some(archive.info.submissionId) else None)
    ensures ValidWallet(body, isAddress) && contractReady && mint.Failure? ==> run.reply == MintFailureReply(mint.error)
  {
    if !ValidWallet(body, isAddress) then
      HandlerRun(ApiReply(400, ErrorBody("Invalid wallet address", None, None)), [])
    else if !contractReady then
      HandlerRun(ApiReply(500, ErrorBody("Token contract not initialized", None, None)), [])
    else
      var effects := [ArchiveCall(body), RewardCall(body.walletAddress.value, body.pagesVisited)];
      var stored := if archive.Stored? then Some(archive.info) else None;
      match mint
      case Success(txHash) =>
        var score := CalculateDataScore(body.pagesVisited, body.timeTracked, body.navigationData);
        var submissionId := if stored.Some? then Some(stored.value.submissionId) else None;
        HandlerRun(ApiReply(200, RewardBody(txHash, body.pagesVisited, "0.01", score, submissionId, stored.Some?)), effects)
      case Failure(e) =>
        HandlerRun(MintFailureReply(e), effects)
  }

  /**
   * The archive never decides the outcome: whatever it returned or threw, the
   * status and the calls made are the same, and only the stored flag and the
   * submission id of a reward reply can differ.
   */
  lemma ArchiveNeverFailsRequest(body: Submission, isAddress: string -> bool, contractReady: bool,
                                 a1: StoreOutcome, a2: StoreOutcome, mint: Result<string, MintError>)
    ensures var r1 := HandleSubmitData(body, isAddress, contractReady, a1, mint);
            var r2 := HandleSubmitData(body, isAddress, contractReady, a2, mint);
            && r1.reply.status == r2.reply.status
            && r1.effects == r2.effects
            && (r1.reply.body.RewardBody? ==>
                  r2.reply.body == r1.reply.body.(submissionId := r2.reply.body.submissionId, dataStored := r2.reply.body.dataStored))
            && (!r1.reply.body.RewardBody? ==> r1.reply == r2.reply)
  {
  }

  /** A rejected request touches neither the archive nor the contract, and a failing reward is never a success. */
  lemma RejectionsHaveNoEffects(body: Submission, isAddress: string -> bool, contractReady: bool,
                                archive: StoreOutcome, mint: Result<string, MintError>)
    ensures var run := HandleSubmitData(body, isAddress, contractReady, archive, mint);
            && (run.effects == [] <==> !(ValidWallet(body, isAddress) && contractReady))
            && (mint.Failure? ==> run.reply.status in {400, 429, 500})
  {
    if ValidWallet(body, isAddress) && contractReady && mint.Failure? {
      var c := ClassifyMintError(ExtractMintErrorMessage(mint.error));
      assert FailureStatus(c) in {400, 429, 500};
    }
  }
}

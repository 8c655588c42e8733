/**
 * The relay's archive of submissions: the anonymized projection of a
 * submission, the url and prompt categories it keeps instead of urls and
 * prompt texts, the object keys of the raw and anonymized copies, and the
 * order in which a submission is archived.
 */
module S3Service {
  import opened Wrappers
  import opened Text
  import opened Records

  // ---------------------------------------------------------------------------
  // Ordered category tables

  /** One row of a category table: the category of texts containing any of the patterns. */
  datatype Rule = Rule(patterns: seq<string>, category: string)

  /** The first row of `rules` whose patterns occur in `text`. */
  function FirstMatchingRule(text: string, rules: seq<Rule>): (r: Option<nat>)
    ensures r.Some? ==> r.value < |rules| && ContainsAny(text, rules[r.value].patterns)
    ensures r.Some? ==> forall j | 0 <= j < r.value :: !ContainsAny(text, rules[j].patterns)
    ensures r.None? ==> forall j | 0 <= j < |rules| :: !ContainsAny(text, rules[j].patterns)
  {
    if |rules| == 0 then None
    else if ContainsAny(text, rules[0].patterns) then Some(0)
    else
      match FirstMatchingRule(text, rules[1..])
      case None => None
      case Some(i) => Some(i + 1)
  }

  /** The category of `text` under an ordered table: the first matching row wins, `fallback` if none matches. */
  function Categorize(text: string, rules: seq<Rule>, fallback: string): (c: string)
    ensures FirstMatchingRule(text, rules).Some? ==> c == rules[FirstMatchingRule(text, rules).value].category
    ensures FirstMatchingRule(text, rules).None? ==> c == fallback
    ensures c == fallback || exists k | 0 <= k < |rules| :: c == rules[k].category
  {
    match FirstMatchingRule(text, rules)
    case Some(i) => rules[i].category
    case None => fallback
  }

  /** The hostname table, tested in this order. */
  const UrlRules: seq<Rule> := [
    Rule(["shop", "store", "buy"], "shopping"),
    Rule(["social", "facebook", "twitter"], "social"),
    Rule(["news", "blog"], "news"),
    Rule(["video", "youtube", "netflix"], "entertainment"),
    Rule(["work", "office", "docs"], "productivity")]

  const UrlCategories: set<string> := {"shopping", "social", "news", "entertainment", "productivity", "general"}

  /** The prompt table, tested in this order. */
  const PromptRules: seq<Rule> := [
    Rule(["code", "program", "debug"], "programming"),
    Rule(["write", "essay", "article"], "writing"),
    Rule(["explain", "what is", "how does"], "education"),
    Rule(["help", "solve", "fix"], "problem_solving"),
    Rule(["create", "design", "make"], "creative"),
    Rule(["analyze", "compare", "evaluate"], "analysis")]

  const PromptCategories: set<string> := {"programming", "writing", "education", "problem_solving", "creative", "analysis", "general"}

  /** The category of a visited page, from its hostname, ignoring case. */
  function CategorizeUrl(hostname: string): (c: string)
    ensures c in UrlCategories
    ensures c == Categorize(ToLower(hostname), UrlRules, "general")
  {
    Categorize(ToLower(hostname), UrlRules, "general")
  }

  /** The category of a prompt, ignoring case; an empty prompt is `unknown`. */
  function CategorizePrompt(prompt: string): (c: string)
    ensures prompt == "" <==> c == "unknown"
    ensures prompt != "" ==> c in PromptCategories && c == Categorize(ToLower(prompt), PromptRules, "general")
  {
    if prompt == "" then "unknown" else Categorize(ToLower(prompt), PromptRules, "general")
  }

  /** Categories ignore case: a lower-cased hostname or prompt has the same category. */
  lemma CategoriesIgnoreCase(hostname: string, prompt: string)
    ensures CategorizeUrl(ToLower(hostname)) == CategorizeUrl(hostname)
    ensures CategorizePrompt(ToLower(prompt)) == CategorizePrompt(prompt)
  {
    ToLowerIdempotent(hostname);
    ToLowerIdempotent(prompt);
  }

  /** A string without upper-case ASCII letters is its own lower-case form. */
  lemma LowerCaseIsFixed(s: string)
    requires forall k | 0 <= k < |s| :: !('A' <= s[k] <= 'Z')
    ensures ToLower(s) == s
  {
  }

  /** In any rule table, a text matching row `i` is never given a later row. */
  lemma EarlierRuleWins(text: string, rules: seq<Rule>, i: nat, j: nat)
    requires i < j < |rules| && ContainsAny(text, rules[i].patterns)
    ensures FirstMatchingRule(text, rules).Some? && FirstMatchingRule(text, rules).value <= i
    ensures FirstMatchingRule(text, rules) != Some(j)
  {
  }

  /** Earlier rows win: a hostname naming both a shop and videos is shopping. */
  lemma EarlierUrlRuleWins()
    ensures ContainsAny("video.shop", UrlRules[3].patterns)
    ensures CategorizeUrl("video.shop") == "shopping"
  {
    var h := "video.shop";
    LowerCaseIsFixed(h);
    assert OccursAt(h, "shop", 6);
    assert OccursAt(h, "video", 0);
  }

  /** Earlier rows win: a request to fix code is programming, not problem solving. */
  lemma EarlierPromptRuleWins()
    ensures ContainsAny("fix code", PromptRules[3].patterns)
    ensures CategorizePrompt("fix code") == "programming"
  {
    var p := "fix code";
    LowerCaseIsFixed(p);
    assert OccursAt(p, "code", 4);
    assert OccursAt(p, "fix", 0);
  }

  // ---------------------------------------------------------------------------
  // Anonymization

  predicate IsHexChar(c: char) {
    '0' <= c <= '9' || 'a' <= c <= 'f'
  }

  /** A SHA-256 digest in lower-case hex. */
  type HexDigest = s: string | |s| == 64 && forall k | 0 <= k < |s| :: IsHexChar(s[k])
    witness seq(64, (k: int) => '0')

  /** The wallet fingerprint kept instead of the address: the first 16 hex digits of its SHA-256 digest. */
  function WalletHash(address: string, sha256Hex: string -> HexDigest): (h: string)
    ensures |h| == 16 && h == sha256Hex(address)[..16]
  {
    SliceHead(sha256Hex(address), 16)
  }

  /** A navigation entry as archived: its domain, time spent, time and url category; no url, title or referrer. */
  datatype AnonymizedVisit = AnonymizedVisit(domain: string, timeSpent: nat, timestamp: nat, category: string)

  /** A prompt record as archived: everything but the prompt text, which is replaced by its category. */
  datatype AnonymizedPrompt = AnonymizedPrompt(promptType: string, domain: string, timestamp: nat, promptLength: nat, category: string)

  /**
   * The anonymized copy of a submission. `walletAddress` survives only when it
   * was present but empty; `storedAt` and `submissionId` are added when archived.
   */
  datatype AnonymizedSubmission = AnonymizedSubmission(
    walletAddress: Option<string>,
    walletAddressHash: Option<string>,
    pagesVisited: int,
    timeTracked: int,
    navigationData: Option<seq<AnonymizedVisit>>,
    chatgptPrompts: Option<seq<AnonymizedPrompt>>,
    timestamp: nat,
    storedAt: Option<string>,
    submissionId: Option<string>)

  function AnonymizeVisit(e: NavigationEntry, hostOf: string -> string): AnonymizedVisit {
    AnonymizedVisit(e.domain, e.timeSpent, e.timestamp, CategorizeUrl(hostOf(e.url)))
  }

  function AnonymizePrompt(p: CapturedPrompt): AnonymizedPrompt {
    AnonymizedPrompt(p.promptType, p.domain, p.timestamp, p.promptLength, CategorizePrompt(p.prompt))
  }

  function AnonymizeVisits(nav: seq<NavigationEntry>, hostOf: string -> string): (r: seq<AnonymizedVisit>)
    ensures |r| == |nav|
    ensures forall k | 0 <= k < |nav| :: r[k] == AnonymizeVisit(nav[k], hostOf)
  {
    seq(|nav|, (k: int) requires 0 <= k < |nav| => AnonymizeVisit(nav[k], hostOf))
  }

  function AnonymizePrompts(prompts: seq<CapturedPrompt>): (r: seq<AnonymizedPrompt>)
    ensures |r| == |prompts|
    ensures forall k | 0 <= k < |prompts| :: r[k] == AnonymizePrompt(prompts[k])
  {
    seq(|prompts|, (k: int) requires 0 <= k < |prompts| => AnonymizePrompt(prompts[k]))
  }

  /** The anonymized copy of `sub`: the address replaced by its fingerprint, visits and prompts projected one by one. */
  function AnonymizeData(sub: Submission, hostOf: string -> string, sha256Hex: string -> HexDigest): (r: AnonymizedSubmission)
    ensures r.walletAddress.Some? ==> r.walletAddress == Some("")
    ensures sub.walletAddress.Some? && sub.walletAddress.value != "" ==>
              r.walletAddressHash == Some(WalletHash(sub.walletAddress.value, sha256Hex)) && r.walletAddress.None?
    ensures r.walletAddressHash.Some? ==> |r.walletAddressHash.value| == 16
    ensures r.navigationData.Some? <==> sub.navigationData.Some?
    ensures r.navigationData.Some? ==>
              |r.navigationData.value| == |sub.navigationData.value| &&
              forall k | 0 <= k < |sub.navigationData.value| ::
                var v, e := r.navigationData.value[k], sub.navigationData.value[k];
                v.domain == e.domain && v.timeSpent == e.timeSpent && v.timestamp == e.timestamp &&
                v.category == CategorizeUrl(hostOf(e.url))
    ensures r.chatgptPrompts.Some? <==> sub.chatgptPrompts.Some?
    ensures r.chatgptPrompts.Some? ==>
              |r.chatgptPrompts.value| == |sub.chatgptPrompts.value| &&
              forall k | 0 <= k < |sub.chatgptPrompts.value| ::
                var a, p := r.chatgptPrompts.value[k], sub.chatgptPrompts.value[k];
                a.promptType == p.promptType && a.domain == p.domain && a.timestamp == p.timestamp &&
                a.promptLength == p.promptLength && a.category == CategorizePrompt(p.prompt)
    ensures r.pagesVisited == sub.pagesVisited && r.timeTracked == sub.timeTracked && r.timestamp == sub.timestamp
    ensures r.storedAt.None? && r.submissionId.None?
  {
    var hasAddress := sub.walletAddress.Some? && sub.walletAddress.value != "";
    AnonymizedSubmission(
      walletAddress := if hasAddress then None else sub.walletAddress,
      walletAddressHash := if hasAddress then Some(WalletHash(sub.walletAddress.value, sha256Hex)) else None,
      pagesVisited := sub.pagesVisited,
      timeTracked := sub.timeTracked,
      navigationData := if sub.navigationData.Some? then Some(AnonymizeVisits(sub.navigationData.value, hostOf)) else None,
      chatgptPrompts := if sub.chatgptPrompts.Some? then Some(AnonymizePrompts(sub.chatgptPrompts.value)) else None,
      timestamp := sub.timestamp,
      storedAt := None,
      submissionId := None)
  }

  /**
   * Nothing identifying leaks: two submissions that differ only in their
   * addresses, urls, titles, referrers and prompt texts, but agree on the
   * address fingerprint and on every category, have the same anonymized copy.
   */
  lemma AnonymizedCopyForgetsIdentity(s1: Submission, s2: Submission, hostOf: string -> string, sha256Hex: string -> HexDigest)
    requires s1.walletAddress.Some? && s1.walletAddress.value != "" && s2.walletAddress.Some? && s2.walletAddress.value != ""
    requires WalletHash(s1.walletAddress.value, sha256Hex) == WalletHash(s2.walletAddress.value, sha256Hex)
    requires s1.pagesVisited == s2.pagesVisited && s1.timeTracked == s2.timeTracked && s1.timestamp == s2.timestamp
    requires s1.navigationData.Some? && s2.navigationData.Some?
    requires |s1.navigationData.value| == |s2.navigationData.value|
    requires forall k | 0 <= k < |s1.navigationData.value| ::
               var a, b := s1.navigationData.value[k], s2.navigationData.value[k];
               a.domain == b.domain && a.timeSpent == b.timeSpent && a.timestamp == b.timestamp &&
               CategorizeUrl(hostOf(a.url)) == CategorizeUrl(hostOf(b.url))
    requires s1.chatgptPrompts.Some? && s2.chatgptPrompts.Some?
    requires |s1.chatgptPrompts.value| == |s2.chatgptPrompts.value|
    requires forall k | 0 <= k < |s1.chatgptPrompts.value| ::
               var a, b := s1.chatgptPrompts.value[k], s2.chatgptPrompts.value[k];
               a.promptType == b.promptType && a.domain == b.domain && a.timestamp == b.timestamp &&
               a.promptLength == b.promptLength && CategorizePrompt(a.prompt) == CategorizePrompt(b.prompt)
    ensures AnonymizeData(s1, hostOf, sha256Hex) == AnonymizeData(s2, hostOf, sha256Hex)
  {
    var r1, r2 := AnonymizeData(s1, hostOf, sha256Hex), AnonymizeData(s2, hostOf, sha256Hex);
    assert r1.navigationData.value == r2.navigationData.value;
    assert r1.chatgptPrompts.value == r2.chatgptPrompts.value;
  }

  // ---------------------------------------------------------------------------
  // Object keys

  /** The clock and random readings a key is built from: the local date, `Date.now()` and a fresh uuid. */
  datatype KeyStamp = KeyStamp(year: nat, month: nat, day: nat, millis: nat, uuid: string)

  /** The file name of an archived object: `<millis>-<uuid>.json`. */
  function FileName(stamp: KeyStamp): string {
    Decimal(stamp.millis) + "-" + stamp.uuid + ".json"
  }

  /** The key of an archived object: `type/YYYY/MM/DD/<wallet>/<millis>-<uuid>.json`, month and day two digits. */
  function ObjectKey(prefix: string, wallet: string, stamp: KeyStamp): (k: string)
    ensures |k| > |prefix| && k[..|prefix| + 1] == prefix + "/"
  {
    prefix + "/" + Decimal(stamp.year) + "/" + PadStart2(stamp.month) + "/" + PadStart2(stamp.day)
      + "/" + wallet + "/" + FileName(stamp)
  }

  /** The template is the `/`-join of the six segments. */
  lemma ObjectKeyIsJoin(prefix: string, wallet: string, stamp: KeyStamp)
    ensures ObjectKey(prefix, wallet, stamp) ==
              Join([prefix, Decimal(stamp.year), PadStart2(stamp.month), PadStart2(stamp.day), wallet, FileName(stamp)], '/')
  {
    var y, m, d, f := Decimal(stamp.year), PadStart2(stamp.month), PadStart2(stamp.day), FileName(stamp);
    var j5 := Join([f], '/');
    var j4 := Join([wallet, f], '/');
    var j3 := Join([d, wallet, f], '/');
    var j2 := Join([m, d, wallet, f], '/');
    var j1 := Join([y, m, d, wallet, f], '/');
    var j0 := Join([prefix, y, m, d, wallet, f], '/');
    assert j5 == f;
    assert [wallet, f][1..] == [f];
    assert j4 == wallet + "/" + f;
    assert [d, wallet, f][1..] == [wallet, f];
    assert j3 == d + "/" + j4;
    assert [m, d, wallet, f][1..] == [d, wallet, f];
    assert j2 == m + "/" + j3;
    assert [y, m, d, wallet, f][1..] == [m, d, wallet, f];
    assert j1 == y + "/" + j2;
    assert [prefix, y, m, d, wallet, f][1..] == [y, m, d, wallet, f];
    assert j0 == prefix + "/" + j1;
  }

  /** The key of the raw copy: its wallet segment is the address itself. */
  function RawS3Key(walletAddress: string, stamp: KeyStamp): (k: string)
    ensures k == "raw-data" + "/" + Decimal(stamp.year) + "/" + PadStart2(stamp.month) + "/" + PadStart2(stamp.day)
                 + "/" + walletAddress + "/" + Decimal(stamp.millis) + "-" + stamp.uuid + ".json"
  {
    ObjectKey("raw-data", walletAddress, stamp)
  }

  /** The key of the anonymized copy: its wallet segment is `wallet-` and the address fingerprint. */
  function AnonymizedS3Key(walletAddress: string, stamp: KeyStamp, sha256Hex: string -> HexDigest): (k: string)
    ensures k == "anonymized-data" + "/" + Decimal(stamp.year) + "/" + PadStart2(stamp.month) + "/" + PadStart2(stamp.day)
                 + "/" + "wallet-" + sha256Hex(walletAddress)[..16] + "/" + Decimal(stamp.millis) + "-" + stamp.uuid + ".json"
  {
    ObjectKey("anonymized-data", "wallet-" + WalletHash(walletAddress, sha256Hex), stamp)
  }

  /** Hex digits contain no slash. */
  lemma HexHasNoSlash(h: string, sha: HexDigest)
    requires h == sha[..16]
    ensures '/' !in h
  {
    forall k | 0 <= k < |h| ensures h[k] != '/' {
      assert IsHexChar(sha[k]);
    }
  }

  /** A file name has no slash when its uuid has none. */
  lemma FileNameHasNoSlash(stamp: KeyStamp)
    requires '/' !in stamp.uuid
    ensures '/' !in FileName(stamp)
  {
    var digits := Decimal(stamp.millis);
    var file := FileName(stamp);
    DigitsHaveNoSlash(digits);
    forall k | 0 <= k < |file| ensures file[k] != '/' {
      if k < |digits| {
        assert file[k] == digits[k];
      } else if k > |digits| {
        assert file[k] == (stamp.uuid + ".json")[k - |digits| - 1];
      }
    }
  }

  /** A key splits on `/` into the type, year, month, day, wallet and file name, if these contain no slash. */
  lemma ObjectKeySegments(prefix: string, wallet: string, stamp: KeyStamp)
    requires '/' !in prefix && '/' !in wallet && '/' !in stamp.uuid
    ensures Split(ObjectKey(prefix, wallet, stamp), '/') ==
              [prefix, Decimal(stamp.year), PadStart2(stamp.month), PadStart2(stamp.day), wallet, FileName(stamp)]
  {
    var parts := [prefix, Decimal(stamp.year), PadStart2(stamp.month), PadStart2(stamp.day), wallet, FileName(stamp)];
    DigitsHaveNoSlash(parts[1]);
    DigitsHaveNoSlash(parts[2]);
    DigitsHaveNoSlash(parts[3]);
    FileNameHasNoSlash(stamp);
    SplitJoin(parts, '/');
    ObjectKeyIsJoin(prefix, wallet, stamp);
  }

  /**
   * With the same readings, the two keys differ only in their type and wallet
   * segments, and the anonymized wallet segment carries the same fingerprint
   * as the anonymized copy.
   */
  lemma KeysShareLayout(sub: Submission, stamp: KeyStamp, hostOf: string -> string, sha256Hex: string -> HexDigest)
    requires sub.walletAddress.Some? && sub.walletAddress.value != ""
    requires '/' !in sub.walletAddress.value && '/' !in stamp.uuid
    ensures var address := sub.walletAddress.value;
            var year, month, day := Decimal(stamp.year), PadStart2(stamp.month), PadStart2(stamp.day);
            && Split(RawS3Key(address, stamp), '/') == ["raw-data", year, month, day, address, FileName(stamp)]
            && Split(AnonymizedS3Key(address, stamp, sha256Hex), '/') ==
                 ["anonymized-data", year, month, day,
                  "wallet-" + AnonymizeData(sub, hostOf, sha256Hex).walletAddressHash.value, FileName(stamp)]
  {
    var address := sub.walletAddress.value;
    var h := WalletHash(address, sha256Hex);
    HexHasNoSlash(h, sha256Hex(address));
    assert '/' !in "wallet-" + h;
    assert AnonymizeData(sub, hostOf, sha256Hex).walletAddressHash == Some(h);
    ObjectKeySegments("raw-data", address, stamp);
    ObjectKeySegments("anonymized-data", "wallet-" + h, stamp);
  }

  /** The date segments of a key read back as the date of its stamp. */
  lemma KeyDateReadsBack(prefix: string, wallet: string, stamp: KeyStamp)
    requires '/' !in prefix && '/' !in wallet && '/' !in stamp.uuid
    ensures var segments := Split(ObjectKey(prefix, wallet, stamp), '/');
            && |segments| == 6
            && AllDigits(segments[1]) && AllDigits(segments[2]) && AllDigits(segments[3])
            && ParseDecimal(segments[1]) == stamp.year
            && ParseDecimal(segments[2]) == stamp.month
            && ParseDecimal(segments[3]) == stamp.day
            && (stamp.month < 100 ==> |segments[2]| == 2)
            && (stamp.day < 100 ==> |segments[3]| == 2)
  {
    var y, m, d := Decimal(stamp.year), PadStart2(stamp.month), PadStart2(stamp.day);
    ObjectKeySegments(prefix, wallet, stamp);
    var segments := Split(ObjectKey(prefix, wallet, stamp), '/');
    assert segments == [prefix, y, m, d, wallet, FileName(stamp)];
    assert segments[1] == y && segments[2] == m && segments[3] == d;
    DecimalRoundTrip(stamp.year);
    PadStart2RoundTrip(stamp.month);
    PadStart2RoundTrip(stamp.day);
  }

  // ---------------------------------------------------------------------------
  // Archiving a submission

  /** The raw copy: the submission as received, with the archive time and a submission id. */
  datatype RawRecord = RawRecord(submission: Submission, storedAt: string, submissionId: string)

  /** What the relay learns from a successful archive. */
  datatype StoredInfo = StoredInfo(submissionId: string, rawKey: string, anonymizedKey: string, storedAt: string)

  /**
   * The outcome of archiving: skipped when archiving is off; stored, with both
   * uploaded objects; or failed (a thrown error), saying whether the raw copy
   * had already been uploaded.
   */
  datatype StoreOutcome =
    | Skipped
    | Stored(info: StoredInfo, raw: RawRecord, anonymized: AnonymizedSubmission)
    | StoreFailed(rawUploaded: bool)

  /** The archive client: enabled by configuration, and usable once its storage client was created. */
  class S3DataService {
    var enabled: bool
    var clientReady: bool

    /** The service as configured by the storage flag; `clientCreated` says whether creating the client succeeded. */
    constructor (storageFlag: string, clientCreated: bool)
      ensures enabled <==> storageFlag == "true" && clientCreated
      ensures clientReady <==> storageFlag == "true" && clientCreated
    {
      enabled := storageFlag == "true";
      clientReady := false;
      new;
      if enabled {
        InitializeS3(clientCreated);
      }
    }

    /** Creates the storage client; a failure disables archiving. */
    method InitializeS3(clientCreated: bool)
      modifies this
      ensures clientReady == (old(clientReady) || clientCreated)
      ensures enabled == (old(enabled) && clientCreated)
    {
      if clientCreated {
        clientReady := true;
      } else {
        enabled := false;
      }
    }

    /**
     * Archives `sub`: the raw copy first, then the anonymized copy, both
     * carrying the same archive time and submission id. Missing addresses give
     * an `undefined` wallet segment in the raw key, and the anonymized key then
     * cannot be computed.
     */
    method StoreSubmission(sub: Submission, rawStamp: KeyStamp, anonStamp: KeyStamp, storedAt: string, submissionId: string,
                           hostOf: string -> string, sha256Hex: string -> HexDigest,
                           rawUploadOk: bool, anonUploadOk: bool)
      returns (outcome: StoreOutcome)
      ensures !enabled || !clientReady <==> outcome.Skipped?
      ensures outcome.Stored? <==> enabled && clientReady && rawUploadOk && sub.walletAddress.Some? && anonUploadOk
      ensures outcome.Stored? ==>
                && outcome.raw.submissionId == outcome.info.submissionId == submissionId
                && outcome.anonymized.submissionId == Some(submissionId)
                && outcome.raw.storedAt == outcome.info.storedAt == storedAt
                && outcome.anonymized.storedAt == Some(storedAt)
                && outcome.raw.submission == sub
                && outcome.anonymized == AnonymizeData(sub, hostOf, sha256Hex).(storedAt := Some(storedAt), submissionId := Some(submissionId))
                && outcome.info.rawKey == RawS3Key(sub.walletAddress.value, rawStamp)
                && outcome.info.anonymizedKey == AnonymizedS3Key(sub.walletAddress.value, anonStamp, sha256Hex)
      ensures outcome.StoreFailed? ==> (outcome.rawUploaded <==> rawUploadOk)
    {
      if !enabled || !clientReady {
        return Skipped;
      }
      var rawKey := RawS3Key(if sub.walletAddress.Some? then sub.walletAddress.value else "undefined", rawStamp);
      var rawData := RawRecord(sub, storedAt, submissionId);
      if !rawUploadOk {
        return StoreFailed(false);
      }
      if sub.walletAddress.None? {
        return StoreFailed(true);
      }
      var anonymizedKey := AnonymizedS3Key(sub.walletAddress.value, anonStamp, sha256Hex);
      var anonymizedData := AnonymizeData(sub, hostOf, sha256Hex);
      anonymizedData := anonymizedData.(storedAt := Some(rawData.storedAt), submissionId := Some(rawData.submissionId));
      if !anonUploadOk {
        return StoreFailed(true);
      }
      outcome := Stored(StoredInfo(rawData.submissionId, rawKey, anonymizedKey, rawData.storedAt), rawData, anonymizedData);
    }
  }
}

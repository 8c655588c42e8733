# similarcoin: a verified model of the browsing-data collector and its relay

similarcoin is a browser extension that records the pages a user visits and the
ChatGPT prompts they type. The popup lets the user claim SIM tokens for that data
by submitting it to a backend relay. The relay does four things with a
submission: it scores it, archives a raw copy and an anonymized copy, asks the
token contract to reward the wallet, and translates contract failures into HTTP
answers.

This project models the core of that pipeline in Dafny and proves properties of the model:

- `content.dfy`: the page-side `NavigationTracker` (content.js). This is a class
  whose fields are the tracker's state. It covers visit recording with its 5 s
  duplicate window, the page counter, time flushing (reverse, find, patch,
  reverse), visibility handling, SPA navigation, conversation ids, input
  extraction, and the prompt capture with its duplicate, AI-text and 100-entry
  rules.
- `background.dfy`: the background script's recorders (background.js). These
  include the URL filter, fallback records, tab activations, the one-hour
  window-focus log, the install defaults, the wallet-state messages and the
  submit relay.
- `s3service.dfy`: the archive service (backend/s3Service.js). It covers the URL
  and prompt categorisers, the anonymizer, the two object-key layouts, and the
  `S3DataService` class with its enabled/client flags and `storeSubmission`.
- `server.dfy`: the relay's pure decision logic for `POST /api/submit-data`
  (backend/server.js). This is the data score, the guards, the mint-error
  message extraction (including the leftmost match of
  `execution reverted: "([^"]+)"`), the status classification and the whole
  handler.
- `popup.dfy`: the popup's claim contract (popup.js). It covers `updateUI`, the
  short address, the submission snapshot, the reset after a successful claim,
  and reconnection to a saved account compared case-insensitively.
- `storage.dfy`: `chrome.storage.local` as a class with one field per key. A
  key never written is `None`, and all readers apply the same defaults.
- `records.dfy`: the stored records, plus the spacing invariant of the visit log.
- `text.dfy`: the JavaScript string operations used: `includes`, `startsWith`,
  `toLowerCase`, `trim`, `String(n)`, `padStart`, `slice`, `split` and `join`.
- `wrappers.dfy`: `Option` and `Result`.

Every operation that changes state in the source is a method that changes the
`LocalStore`, the `NavigationTracker`, the `S3DataService` or the `Popup`. Its
`ensures` ties the new state to a function of the old state. The invariants and
lemmas are proved about those functions.

Things the source obtains from the environment are parameters of the model:

- the clock (`now`, in milliseconds);
- `window.location.hostname` and `new URL(u).hostname` (`hostOf`);
- `document.title` and `document.referrer` (`PageInfo`);
- SHA-256 as a hex digest (`sha256Hex`);
- `ethers.isAddress` (`isAddress`);
- uuids and the date (`KeyStamp`, `storedAt`, `submissionId`);
- the success of each upload;
- the outcome of `fetch`;
- the outcome of the reward transaction;
- the wallet's `eth_accounts` answers (one per request).

Where the code and its design notes disagree, the model follows the code:

- `finalizePageSession` does not clear `isPageActive`, so finalizing twice
  charges the elapsed time twice (`Content.RepeatedFlushChargesTwice`). It is not idempotent.
- Tab activations use a 2 s duplicate window, not the 5 s window of the other
  recorders. An activation can therefore sit 3 s after a visit to the same URL
  (`Background.ActivationCanBreakFiveSecondSpacing`).
- A failed reconnect does not leave the popup disconnected: `checkWalletConnection`
  then connects to whatever account the wallet lists first, matching or not
  (`Popup.LoadReplacesUnmatchedSavedAccount`).

## Model

| member | source | states |
|---|---|---|
| Content.ElapsedMinutes | content.js:191-193 | The charged minutes are at least 1, are 1 for anything under 90 s, and otherwise lie within half a minute of the elapsed time (`Math.max(Math.round(ms/60000), 1)`). |
| Content.RoundToMinutes | content.js:193 | The rounded minute count lies within half a minute of the elapsed milliseconds. |
| Content.VisitEntry | content.js:147-157 | A visit entry carries the URL, the hostname, the time and the session start, a non-empty title (`Unknown Title` for an empty one), the referrer or none for an empty one, zero time and interactions, no end stamp, and is not a fallback. |
| Content.AfterVisit | content.js:167-184 | A visit keeps the old log as a prefix. A visit to the same URL less than 5 s from a logged one leaves storage unchanged. Otherwise the entry is appended, the page counter goes up by one and no other key changes. |
| Content.VisitKeepsSpaced | content.js:170-176 | No two same-URL entries closer than 5 s ever coexist in the log when visits are the only writers. |
| Content.VisitKeepsCounterInStep | content.js:176-183 | If the page counter equals the log length before a visit, it still does after it. |
| Content.Reverse | content.js:203-215 | The reversed log has the same length, and position k holds the entry at the mirrored position. |
| Content.ReverseReverse | content.js:203-215 | Reversing twice restores the log. |
| Content.FindIndex | content.js:205 | `find` returns the first entry with the URL, or none when no entry has it. |
| Content.LastIndexOfUrl | content.js:203-205 | The newest entry with the URL, or none. |
| Content.PatchNewest | content.js:207-211 | Patching keeps the length and every entry's url and timestamp. The newest entry for the url gets the minutes, interactions and end stamp. Every other entry is unchanged, and the log is unchanged when the url is absent. |
| Content.FindInReverseIsLast | content.js:203-205 | Finding in the reversed log finds the newest entry with the URL. |
| Content.FlushLog | content.js:202-216 | Reverse, find, patch and reverse again equal patching exactly the newest entry for the URL, with nothing else changed. |
| Content.AfterFlush | content.js:197-217 | A flush adds the minutes to `timeTracked` and patches the newest current-URL entry. No other key changes. |
| Content.FlushKeepsSpaced | content.js:207-216 | A flush preserves the 5 s spacing invariant of the visit log. |
| Content.RepeatedFlushChargesTwice | content.js:188-226 | Finalizing twice at the same instant adds the minutes twice, because finalizing leaves the page active. |
| Content.IsSystemOrAIMessage | content.js:455-469 | A text is system or AI output exactly when it contains one of the eight patterns. |
| Content.MarkupIsSystemText | content.js:465 | Any text containing the editor's trailing-break markup is rejected. |
| Content.FirstConversationPathFrom | content.js:447 | Finds the leftmost `/c/` followed by at least one character other than `/` and `?`, at or after the start index. |
| Content.ConversationPath | content.js:447-448 | Absent exactly when no position matches. Otherwise it is the maximal id run after the leftmost match. |
| Content.ConversationId | content.js:446-452 | The id is non-empty and free of `/` and `?`. It is the URL's conversation id when present, else `session-` + the decimal time. |
| Content.PromptRecord | content.js:404-412 | The stored prompt has type `chatgpt_prompt`, the URL, the hostname, the trimmed text, its length, the time and a non-empty conversation id. |
| Content.IsDuplicatePrompt | content.js:419-423 | The three-way duplicate test means: the same text, or a timestamp less than 2 s away. |
| Content.MutualContainmentIsEquality | content.js:421 | Two strings that contain each other are equal. |
| Content.AppendCapped | content.js:434-439 | Push then cap: the length is min(n+1, cap), the new item is last, and the result is a suffix of old + [item]. |
| Content.CapturePrompt | content.js:394-443 | Rejected: a missing text, a trimmed text under 5 characters, a duplicate, or AI text. Every other prompt is accepted: it is appended last with its trimmed length. At most 100 newest prompts are kept. |
| Content.AppendCappedKeepsPromptLogValid | content.js:434-439 | Appending a well-formed non-duplicate and capping keeps the prompt log valid. |
| Content.CaptureKeepsPromptLogValid | content.js:394-443 | Every capture keeps the prompt log valid: at most 100 entries, each trimmed, of length ≥ 5 and not AI text, with no two sharing text or lying less than 2 s apart. |
| Content.ExtractContent | content.js:327-338 | The placeholder or any text with the editor markup gives the empty string. Any other element text is returned trimmed. The result is already trimmed and never contains the markup. |
| Content.NavigationTracker.constructor | content.js:3-17 | A new tracker starts active on the URL with zeroed session data and records an `initial_load` visit. |
| Content.NavigationTracker.RecordPageVisit | content.js:146-185 | Storage becomes the visit step applied to the current page's entry. |
| Content.NavigationTracker.UpdatePageCounter | content.js:229-233 | The counter becomes the defaulted counter plus one, and nothing else changes. |
| Content.NavigationTracker.UpdateTimeSpent | content.js:188-218 | Inactive: nothing changes. Active: the session's minutes are set and storage becomes the flushed state. |
| Content.NavigationTracker.FlushCallback | content.js:197-217 | The storage callback patches the newest entry of the url the tracker holds when it runs, with the interaction count it holds then, and adds the minutes to the total. |
| Content.NavigationTracker.FinalizePageSession | content.js:221-226 | The same as a flush, and the page stays active. |
| Content.NavigationTracker.HandlePageHidden | content.js:137-143 | An active page is flushed and becomes inactive. |
| Content.NavigationTracker.HandlePageVisible | content.js:128-134 | An inactive page is restarted at `now`. An active one keeps its start time. |
| Content.NavigationTracker.OnInteraction | content.js:98-103 | The interaction count goes up by one and the page becomes active. |
| Content.NavigationTracker.HandleNavigation | content.js:107-125 | Same URL: nothing changes. New URL: a fresh session starts. Storage becomes the as-written navigation step: the deferred flush stamps the new URL's newest entry with zero interactions, then the visit is recorded. |
| Content.NavigationTracker.HandleNavigationIntended | content.js:113-123 | As intended: the old page is flushed with its own URL and interactions, then a fresh session starts and the visit is recorded. |
| Content.AfterNavigationAsWritten | content.js:113-123 | Time tracked grows by the old session's minutes exactly when the old page was active. |
| Content.AfterNavigation | content.js:113-123 | Time tracked grows by the old session's minutes exactly when the old page was active. |
| Content.NavigationAsWrittenMissesOldPage | content.js:205-210 | As written, every entry of the page left is stored unchanged. The newest earlier entry of the new URL is stamped with the minutes and zero interactions. |
| Content.NavigationFinalizesOldPage | content.js:113-123 | As intended, the newest entry of the page left is stamped with its minutes and interactions. |
| Content.NavigationAsWrittenDiffers | content.js:205-210 | When the page left has an open newest entry, the as-written and intended storage differ. |
| Content.NavigationTracker.CaptureChatGPTPrompt | content.js:394-443 | Storage changes exactly as the capture function says: unchanged when the prompt is rejected, otherwise it holds the new prompt list. |
| Background.IsValidUrl | background.js:140-156 | Valid exactly when the URL is present, non-empty and starts with none of the nine internal prefixes. |
| Background.InternalPagesAreInvalid | background.js:141-155 | Every URL starting with one of the internal prefixes is rejected. |
| Background.SettingsPageIsInvalid | background.js:144 | `chrome://settings` is filtered out. |
| Background.HasRecentRecord | background.js:54-57 | There is no recent record exactly when every same-URL entry is stamped at least 5 s before now. |
| Background.NearbyEntryIsRecent | background.js:54-57 | A same-URL entry less than 5 s old counts as a recent record. |
| Background.RecencyIsOneSided | background.js:56 | The fallback test is one-sided: an entry stamped in the future counts as recent, which the symmetric visit test would not accept. |
| Background.FallbackEntry | background.js:67-78 | A fallback entry carries the URL, hostname and time, starts its visit now, is typed `background_` + the event, has a non-empty title (the tab's when it has one), zero time and interactions, no referrer, and is marked as a fallback. |
| Background.AfterFallback | background.js:66-92 | A fallback appends its entry and increments the counter, and nothing else changes. |
| Background.FallbackKeepsSpaced | background.js:47-63 | With timestamps not after `now`, a fallback preserves the 5 s spacing. |
| Background.FallbackKeepsCounterInStep | background.js:80-89 | The counter stays equal to the log length. |
| Background.RecordFallbackNavigation | background.js:66-92 | Storage becomes the fallback step applied to the fallback entry. |
| Background.VerifyAndFallbackRecord | background.js:47-63 | An invalid URL or a recent record leaves storage unchanged. Otherwise a fallback record is added. |
| Background.ActivationEntry | background.js:96-103 | An activation entry carries the URL, the tab's title as is, the hostname and the time, is typed `tab_activated`, has zero time, no visit start, interactions or referrer, and is not a fallback. |
| Background.AfterActivation | background.js:95-119 | An activation within 2 s of a same-URL entry changes nothing. Otherwise it appends, and only the log changes. |
| Background.ActivationKeepsTwoSecondSpacing | background.js:108-117 | Activations preserve 2 s spacing. |
| Background.ActivationCanBreakFiveSecondSpacing | background.js:111 | An activation 3 s after a visit is recorded, so the 5 s spacing of visits does not survive activations. |
| Background.RecordTabActivation | background.js:95-119 | Storage becomes the activation step. |
| Background.OnTabActivated | background.js:29-37 | Only valid tab URLs are recorded. |
| Background.RecentEvents | background.js:131-133 | Keeps exactly the events less than an hour old, drawn from the input. |
| Background.RecentEventsCounts | background.js:131-133 | Every copy of a recent event is kept and every copy of a stale one dropped. |
| Background.RecentEventsIsSubsequence | background.js:131-133 | The filter keeps events in their original order. |
| Background.RecentEventsAppend | background.js:124-133 | Filtering after pushing the new event equals filtering, then appending it. |
| Background.RecentEventsIdempotent | background.js:131-133 | Filtering twice is filtering once. |
| Background.AfterWindowFocus | background.js:122-137 | The events become the recent old events plus the new focus event, and nothing else changes. |
| Background.RecordWindowFocus | background.js:122-137 | Storage becomes the focus step. |
| Background.Installed | background.js:2-14 | Install zeroes the counters, empties the log and stores a disconnected wallet. Prompts, events and balance are untouched. |
| Background.InstallIsIdempotent | background.js:2-14 | Installing twice is installing once. |
| Background.OnInstalled | background.js:2-14 | Storage becomes the installed state. |
| Background.WalletStateReply | background.js:172-181 | Replies with the stored wallet state, or the disconnected default when none is stored. |
| Background.SaveWalletState | background.js:164-169 | Stores exactly the given wallet state and replies with success. |
| Background.WalletStateRoundTrip | background.js:164-181 | A saved wallet state is read back unchanged. After install or on empty storage the default is read. |
| Background.ServerErrorMessage | background.js:199-200 | The server's error text when it has one, else `Failed to submit data`. Never empty. |
| Background.SubmitDataToBackendAsWritten | background.js:186-210 | As written, every non-ok response fails with `Failed to submit data`. An ok response yields its body, and a network error keeps its message. |
| Background.SubmitDataToBackend | background.js:196-206 | As evidently intended, a non-ok response fails with the server's error text. |
| Background.AsWrittenDropsServerError | background.js:198-203 | A 429 carrying "Daily submission limit exceeded" reaches the popup as "Failed to submit data" as written, and with its text as intended. |
| Background.SubmitSuccessAgrees | background.js:196-206 | Both versions agree on every success. |
| Background.SubmitDataReply | background.js:159-163 | `success` holds exactly for an ok response with a readable body, which is then the response. Otherwise an error is set. For a non-ok response it is `Failed to submit data`, and for a network error it is that error's message. |
| Background.SubmitDataReplyIntended | background.js:159-163 | The same reply over the intended relay: for a non-ok response the error is the server's text. |
| Background.ReplySuccessAgrees | background.js:159-163 | Both replies carry the same success flag and the same response. |
| S3Service.FirstMatchingRule | backend/s3Service.js:76-82 | Returns the first rule one of whose patterns occurs, or none when no rule matches. |
| S3Service.EarlierRuleWins | backend/s3Service.js:76-82 | In any rule table, a text matching some row gets that row or an earlier one, never a later one. |
| S3Service.Categorize | backend/s3Service.js:73-99 | Returns the category of the first matching rule, else the fallback. The result is always a listed category or the fallback. |
| S3Service.CategorizeUrl | backend/s3Service.js:73-83 | The category is one of the six URL categories, computed on the lower-cased hostname. |
| S3Service.CategorizePrompt | backend/s3Service.js:86-99 | `unknown` exactly for the empty prompt. Otherwise one of the six prompt categories or `general`, computed on the lower-cased text. |
| S3Service.CategoriesIgnoreCase | backend/s3Service.js:73-89 | Categories do not depend on letter case. |
| S3Service.EarlierUrlRuleWins | backend/s3Service.js:76-79 | Rule order decides: `video.shop` matches both the shopping and the entertainment rows, and is shopping. |
| S3Service.EarlierPromptRuleWins | backend/s3Service.js:91-94 | Rule order decides: "fix code" matches both the programming and the problem-solving rows, and is programming. |
| S3Service.WalletHash | backend/s3Service.js:39-42 | The fingerprint is the first 16 hex digits of the SHA-256 digest. |
| S3Service.AnonymizeVisits | backend/s3Service.js:47-55 | One anonymized visit per visit, in order. |
| S3Service.AnonymizePrompts | backend/s3Service.js:58-67 | One anonymized prompt per prompt, in order, without the prompt text. |
| S3Service.AnonymizeData | backend/s3Service.js:34-70 | A truthy address is replaced by its 16-digit fingerprint and never kept. Visits keep only domain, time, timestamp and category. Prompts keep only type, domain, timestamp, length and category. Counters and timestamp are copied. |
| S3Service.AnonymizedCopyForgetsIdentity | backend/s3Service.js:34-70 | Two submissions that differ only in URLs, titles, referrers and prompt texts produce the same anonymized copy, provided the categories and address fingerprints agree. |
| S3Service.ObjectKey | backend/s3Service.js:111 | A key begins with its type and a `/`. |
| S3Service.ObjectKeyIsJoin | backend/s3Service.js:111 | The key template is the `/`-join of type, year, month, day, wallet and file name. |
| S3Service.RawS3Key | backend/s3Service.js:102-112 | The raw key is `raw-data/<year>/<MM>/<DD>/<address>/<millis>-<uuid>.json`. |
| S3Service.AnonymizedS3Key | backend/s3Service.js:115-129 | The anonymized key is `anonymized-data/<year>/<MM>/<DD>/wallet-<first 16 hex digits of SHA-256(address)>/<millis>-<uuid>.json`. |
| S3Service.ObjectKeySegments | backend/s3Service.js:102-111 | An object key splits at `/` into exactly its six segments: type, year, month, day, wallet, file. |
| S3Service.KeysShareLayout | backend/s3Service.js:102-129 | With the same stamp, the raw key and the anonymized key differ only in type and wallet segment. The anonymized wallet segment is `wallet-` + the copy's fingerprint. |
| S3Service.KeyDateReadsBack | backend/s3Service.js:103-106 | The year, month and day segments are decimal digits that read back as the stamp's date. Month and day are two digits when below 100. |
| S3Service.S3DataService.constructor | backend/s3Service.js:6-15 | The service is enabled and has a client exactly when the flag is `true` and creating the client succeeded. |
| S3Service.S3DataService.InitializeS3 | backend/s3Service.js:17-31 | A failed client creation disables the service. |
| S3Service.S3DataService.StoreSubmission | backend/s3Service.js:132-170 | Skipped exactly when disabled or without a client. Stored exactly when both uploads succeed and the address exists. A stored run returns the raw submission, the anonymized copy sharing stored-at time and id, and both keys. A failure says whether the raw copy went up. |
| Server.CalculateDataScore | backend/server.js:267-279 | The score never exceeds 20 + 30 + 3 per logged visit. |
| Server.DomainCountBound | backend/server.js:274 | A log has no more distinct domains than entries. |
| Server.DataScoreTerms | backend/server.js:270-276 | The score is the capped pages term plus the capped time term plus 3 per distinct domain. It is 50 + 3·domains at the caps, and 2·pages + time + 3·domains below them. |
| Server.EmptyLogScoresNoDomains | backend/server.js:273 | A missing or empty log contributes nothing. |
| Server.DomainScoreIgnoresOrderAndRepeats | backend/server.js:273-276 | Logs with the same entries score the same, whatever their order and repetitions. |
| Server.RevisitedDomainAddsNothing | backend/server.js:273-275 | Logging another visit to an already logged domain leaves the score unchanged. |
| Server.RepeatedDomainCountsOnce | backend/server.js:274-275 | Two visits to one domain earn the points of one domain. |
| Server.FirstRevertMatchFrom | backend/server.js:196 | Finds the leftmost start at or after the index where the revert regular expression matches. |
| Server.RevertGroup | backend/server.js:196-198 | The captured group is non-empty, quote-free, occurs right after the quoted prefix and is closed by a quote. |
| Server.QuotedRevertReason | backend/server.js:196-199 | Absent exactly when the regular expression matches nowhere. Otherwise it is the group of the leftmost match. |
| Server.ExtractMintErrorMessage | backend/server.js:187-203 | Never empty. Precedence is a truthy `reason`, then a truthy revert argument, then the quoted reason behind the revert marker (else the default), then the cooldown notice, then the default. |
| Server.MintMessageOrigin | backend/server.js:187-203 | The message is the reason, the revert argument, quote-free text taken from the error message, the cooldown notice or the default. |
| Server.UnquotedRevertFallsBack | backend/server.js:194-199 | A revert marker without a quoted reason leaves the default message. |
| Server.UnquotedRevertHidesCooldown | backend/server.js:194-202 | An unquoted revert whose text mentions an unmet cooldown still reports the default message. |
| Server.ClassifyMintError | backend/server.js:206-220 | The class is daily limit exactly when that text occurs. Otherwise cooldown exactly when "Cooldown period" or "wait" occurs. Otherwise invalid data for the page-count text, and else the generic class. |
| Server.FailureStatus | backend/server.js:207-226 | Daily limit and cooldown answer 429, invalid data answers 400, and the rest 500. A failure never answers a success status. |
| Server.FailureType | backend/server.js:206-226 | Only the generic failure has no `type`. |
| Server.DefaultMessageIsServerError | backend/server.js:187-226 | The default message is answered with 500. |
| Server.CooldownNoticeIsCooldown | backend/server.js:201-215 | The relay's own cooldown notice is answered as a cooldown, with 429. |
| Server.MintFailureReply | backend/server.js:205-226 | The reply carries the extracted message, the status and type of its class, and `details` exactly for 500. |
| Server.HandleSubmitData | backend/server.js:123-235 | Bad or missing address: 400 with no archive or contract call. No contract: 500 with no calls. Otherwise the archive call, then the reward call. 200 exactly when the reward succeeds, with the score, the stored flag and the submission id. Otherwise the mint failure reply. |
| Server.ArchiveNeverFailsRequest | backend/server.js:138-151 | Whatever the archive does, the status and the calls are the same. Only the stored flag and the submission id can differ. |
| Server.RejectionsHaveNoEffects | backend/server.js:128-226 | No call is made exactly when a guard rejects. A failed reward answers 400, 429 or 500. |
| Popup.ShortAddress | popup.js:640 | For addresses of 10 or more characters: 13 characters, the first 6, `...` and the last 4. |
| Popup.Render | popup.js:630-684 | Submit is enabled exactly in the connected state. The connect and disconnect buttons alternate. A connected view shows the short address. The submit label is left alone. |
| Popup.RenderIsIdempotent | popup.js:630-684 | Rendering a state twice equals rendering it once. |
| Popup.SubmitOnlyWhenConnected | popup.js:651-681 | Whatever state was shown before, the submit button is enabled only by the connected state. |
| Popup.Snapshot | popup.js:568-578 | The body carries the account, the time and the stored counters and logs unchanged. Missing counters default to 0 and missing logs to []. |
| Popup.SnapshotReadsOnlyDataKeys | popup.js:568 | Only the four data keys are read. |
| Popup.ClaimReset | popup.js:588-597 | Exactly the four data keys are reset to 0, 0, [] and []. The wallet state, the balance and the session events are untouched. |
| Popup.ClaimResetIsIdempotent | popup.js:588-597 | Resetting twice is resetting once. |
| Popup.ClaimAfterResetScoresZero | popup.js:568-597 | The claim after a successful one sends zero counters and empty logs, and the relay scores it 0. |
| Popup.SameAccountIgnoresCase | popup.js:321-322 | An address matches its lower-cased spelling, and the match is symmetric. |
| Popup.ReconnectAccount | popup.js:313-327 | The popup reconnects exactly when the saved state is connected with a truthy account and the wallet's first account matches it up to case. It reconnects to the wallet's spelling. |
| Popup.RestoresSavedAccount | popup.js:313-327 | A saved lower-case account is restored from the wallet's checksummed spelling. |
| Popup.DisconnectedStateIsNotRestored | popup.js:313 | A disconnected saved state is never restored. |
| Popup.Popup.UpdateUI | popup.js:630-684 | The view becomes the rendering of the state, and the account is unchanged. |
| Popup.AccountAfterLoad | popup.js:307-345 | The restored saved account. Failing that, the first account of the fresh request. Failing that, the account held before. |
| Popup.LoadConnectsFirstWalletAccount | popup.js:106-112 | When both requests get the same non-empty answer, the popup ends on the wallet's first account whatever was saved. |
| Popup.LoadReplacesUnmatchedSavedAccount | popup.js:340-341 | A saved account that differs from the wallet's, case aside, is replaced by the wallet's account. |
| Popup.Popup.CheckWalletConnection | popup.js:95-122 | Connects exactly when the answer is non-empty, to its first account unchecked, and shows connected. Otherwise nothing changes. |
| Popup.Popup.LoadSavedWalletState | popup.js:307-345 | Shows connecting, then reconnects to the matched account. Failing that, the fresh check connects to the wallet's first account. The account is the load's account function, and the view is connected exactly when either path connected. |
| Popup.Popup.SubmitData | popup.js:562-582 | Without an account nothing changes and nothing is sent. Otherwise the snapshot is sent and the button is disabled with `Claiming...`. |
| Popup.Popup.OnSubmitResponse | popup.js:587-612 | Success resets exactly the four data keys. Failure writes nothing. Either way the button is re-enabled with `Claim SIM`. |
| Text.Trim | content.js:399 | `trim()`: no longer than the input, with no white space at either end, and a slice of the input with only white space outside it. |
| Text.TrimIdempotent | content.js:337 | Trimming twice is trimming once. |
| Text.TrimKeepsAbsence | content.js:332-337 | Trimming cannot make a pattern appear. |
| Text.DecimalRoundTrip | backend/s3Service.js:104-111 | The decimal digits of a number read back as the number. |
| Text.PadStart2RoundTrip | backend/s3Service.js:105-106 | A two-digit padded number reads back as the number. |
| Text.SplitJoin | backend/s3Service.js:111 | Splitting slash-free segments joined by `/` gives the segments back. |

## Left out

- Wallet detection, the EIP-6963 announce/request proxy and MetaMask calls (popup.js:125-305, content.js:475-541). These are calls into foreign providers.
- All ethers.js and network calls: `updateTokenBalance`, `rewardUserForPages`, `balanceOf`, `initializeBlockchain`, `connectWallet`, `disconnectWallet` and the balance endpoint. These are foreign calls. `ethers.isAddress` is a parameter.
- The actual S3 uploads and `generateAnalytics`/`listSubmissions`. The model takes each upload's success as a parameter.
- The float amounts `pagesVisited * 0.01`, `toFixed` and `parseFloat`. The model has no floating point. Float rounding of `ms / 1000 / 60` is modelled as exact rational rounding.
- DOM scraping and heuristics (`findAndCaptureLastUserMessage`, MutationObserver, send-button monitoring), `isChatGPTPage`/`setupChatGPTMonitoring`, timers, `setTimeout` delays, the confetti and status-message timeouts. These are UI and event wiring; the model has no DOM.
- Listener registration itself: the `onUpdated` `status === 'complete'` filter, the one-second delay, `WINDOW_ID_NONE`, the History API interception.
- Interleaving of asynchronous storage callbacks with each other. Each callback's get/set is treated as one atomic step, and each handler reads the clock once. A callback reads the tracker's fields when it runs; in `handleNavigation` it runs after the new session is set up, as the source orders it. Not captured: in `handleNavigation` the visit's storage read is issued before the flush's write lands, so in a browser a non-duplicate visit writes back the log as it stood before the flush, which usually discards the flush's stamp on the new URL's entry (the page left stays unfinalized either way).
- `new URL(...)` throwing on a malformed URL. A hostname is a parameter.
- JavaScript string lengths count UTF-16 code units. The model counts Unicode scalar values.
- `Text.ToLower`: lower-cases ASCII letters only, because full Unicode case mapping is not available.
- A mint error without a `message` (the handler's outer 500 path). Also a missing request body, and numeric fields missing from the body (JavaScript `NaN` arithmetic). All of these are left out.
- `Server.ExtractMintErrorMessage`: `revert.args[0]` is modelled as a string when present. This is weaker than the source for non-string arguments.
- `Popup.Popup.UpdateUI`: requires a known account for the connected state. The source would throw there.
- The `catch` branch of `submitData` (a storage read that throws). Its only effect is a status text.
- The popup's storage listener and stats display (`updateStats`), and the disconnect/account-changed handlers.
- The bucket name and region configuration. The deploy scripts and contracts are not part of this model.

## Findings

| source | as written | input that shows it | evidently intended | confidence | as-written member | corrected member |
|---|---|---|---|---|---|---|
| content.js:113-123 | `finalizePageSession` issues the flush, but its storage callback runs after lines 117-120 have replaced `currentUrl` and `sessionData`. The callback therefore looks up the new URL and writes the new session's 0 interactions. | Log `[B@t0, A@t1]`; page A open 90 s with 3 interactions, then a navigation to B | A's entry receives 2 minutes and 3 interactions | not executed | Content.NavigationTracker.HandleNavigation, Content.NavigationAsWrittenMissesOldPage, Content.NavigationAsWrittenDiffers | Content.NavigationTracker.HandleNavigationIntended, Content.NavigationFinalizesOldPage |
| background.js:196-204 | The `Error(errorData.error ...)` thrown inside the inner `try` is caught by its own `catch`, which replaces it with `Failed to submit data`. | A 429 response whose body is `{"error": "Daily submission limit exceeded"}` | The server's error text reaches the popup | not executed | Background.SubmitDataToBackendAsWritten, Background.AsWrittenDropsServerError | Background.SubmitDataToBackend, Background.SubmitSuccessAgrees, Background.SubmitDataReplyIntended |

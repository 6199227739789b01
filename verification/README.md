# Duplicate suppression of the security-news feed scripts

This project models in Dafny the part of two security-news notifier scripts that decides which feed items are new and which are repeats. The scripts are `aitest.py` (the current, classifier-driven one) and `test.py` (an older, simpler one).

The newer script runs `process_articles_ai_driven` in five stages:

1. **History filter.** Drops items whose canonical link, uid or title key was seen in an earlier run, or whose title is similar to a remembered title.
2. **In-batch suppression.** Drops an item when a later-positioned, strictly newer item in the same batch reports the same story. "Same story" means a similar title, the same company plus security wording on both sides, or the same product plus update wording on both sides.
3. **Two classification passes.**
   - First pass, on the summary: every item that gets a verdict is remembered; only SCRAPE and WATCHLIST verdicts go on.
   - Second pass, on the full text: it falls back to the first verdict, and logs the failure, when it returns nothing or raises.
4. **Correlation against this run's ledger.** Before an item is sent, it is compared with every item already sent in this run: exact title, similar title, company, shared CVE id within seven days, or shared affected product within seven days.
5. **Write-back of the state.** The remembered original titles are capped at the newest 1000.

Beside the pipeline, the model covers:
- the title key, keyword extraction and title similarity, including the entity override;
- the canonical link key;
- the clean-up of the classifier's reply: fence stripping, the brace scan and the line-break escaping;
- the prompt-change check;
- the bounded error log;
- loading of the state.

The older script keeps a single seen-set. For it the model covers its uid rule, keyword filter, uid deduplication, newest-first sort and truncation, ordinal importance gate, brace scan, and the seen bookkeeping capped at 2000.

The classifier, the notifier, `urlparse`, the clock and the prompt hash are not modelled; they are passed in as values or functions. Feed timestamps are integers, 0 when unknown. Python's floating-point ratio tests are compared by integer cross-multiplication: `0.4` is `2/5` and `0.3` is `3/10`.

The saved `sent_links` set is written back but never read by the history filter. In the model, the memory the filter reads (`Pipeline.Memory`) has no sent links, and `Pipeline.Run.WriteBack` stores them separately.

Modules:

| module | file | contents |
|---|---|---|
| `Text` | `text.dfy` | character classes, case mapping, substring search, strip and split |
| `Titles` | `titles.dfy` | `normalize_title`, `extract_keywords`, `extract_product_names`, `is_similar_title` |
| `TitleExamples` | `title_examples.dfy` | the two update-advisory titles the entity override separates |
| `Urls` | `urls.dfy` | `normalize_url` |
| `Responses` | `responses.dfy` | the reply clean-up |
| `Feed` | `feed.dfy` | items, verdicts, `entry_uid`, `should_send_article_ai_driven` |
| `Batch` | `batch.dfy` | in-batch suppression |
| `Correlator` | `correlator.dfy` | the ledger check |
| `StateStore` | `state.dfy` | state loading, the prompt check, the error log |
| `Pipeline` | `pipeline.dfy` | the run of the newer script |
| `Legacy` | `legacy.dfy` | `test.py` |

## Model

| member | source | states |
|---|---|---|
| Titles.NormalizeTitle | aitest.py:219-225 | An empty title gives an empty key. Otherwise the key is no longer than the title and holds only lower-case word characters, with no whitespace. |
| Titles.NormalizeTitleConcat | aitest.py:219-225 | The key of a concatenation is the concatenation of the two keys, so the key is decided character by character. |
| Titles.NormalizeTitleChar | aitest.py:223-224 | A character is kept, lower-cased, exactly when its lower-case form is a word character or a Hangul syllable. Whitespace and punctuation are dropped. |
| Titles.NormalizeTitleIgnoresCase | aitest.py:223 | Titles that differ only in ASCII letter case have the same key. |
| Titles.NormalizeTitleIdempotent | aitest.py:219-225 | Normalising a title key again gives the same key. |
| Titles.RunsIff | aitest.py:282-287 | `re.findall` of a one-class pattern `[cls]{n,}` finds exactly the maximal runs of that class of length at least n. |
| Titles.KeywordsIff | aitest.py:277-290 | A word is a keyword exactly when it is one of these: a maximal Hangul run; a maximal ASCII-letter run of length at least 2, lower-cased; or a maximal digit run. |
| Titles.Squash | aitest.py:347 | The normalised product name has no space and no hyphen and is lower-case. |
| Titles.ProductNeedsChar | aitest.py:339-348 | A known product's pattern (space and hyphen optional, no word boundaries) can only be found in a title containing each of the product's other characters. |
| Titles.PlainProductMatches | aitest.py:345-346 | A known product with no space or hyphen matches a text that starts with it. |
| Titles.KnownProductAtStart | aitest.py:339-348 | A known product whose pattern matches is among the hits, in squashed form. |
| Titles.KnownHitsWithin | aitest.py:339-348 | If the title lacks a letter of every known product outside a given set, only products of that set are hits. |
| Titles.CapitalizedWordsStart | aitest.py:352 | Every capitalised chain found starts at a word boundary with a capitalised word, and is the text from there. |
| Titles.HangulWordsIff | aitest.py:359 | `\b([가-힣]{2,})\b` finds exactly the runs of two or more Hangul syllables with no word character on either side. |
| Titles.IsSimilarTitle | aitest.py:292-298 | Titles are never similar when either is empty, and always similar when they are equal and non-empty. |
| Titles.SimilarSymmetric | aitest.py:292-384 | Similarity does not depend on the order of the two titles. |
| Titles.EntityOverride | aitest.py:370-374 | Different titles that both have keywords and non-empty but disjoint entity sets are never similar, whatever the keyword overlap. |
| Titles.SimilarAtLowerThreshold | aitest.py:376-384 | Similarity at a threshold implies similarity at every lower threshold. |
| Titles.BatchSimilarImpliesSentSimilar | aitest.py:1459 | Titles similar at 0.4, the batch threshold, are similar at 0.3, the ledger threshold. |
| TitleExamples.TpLinkAdobeDisjoint | aitest.py:326-364 | The entity sets of "TP-Link 라우터 보안 업데이트 권고" and "Adobe Reader 보안 업데이트 권고" are both non-empty and have nothing in common. |
| TitleExamples.SharedKeywords | aitest.py:283 | Both advisory titles have 보안, 업데이트 and 권고 among their keywords. |
| TitleExamples.EntityOverrideExample | aitest.py:369-374 | Those two advisory titles share the keywords 보안, 업데이트 and 권고, yet are not similar at any threshold. |
| Urls.ParseQsSpec | aitest.py:252 | `parse_qs` gives each parameter name once, with exactly that name's values in query order. |
| Urls.Pop | aitest.py:256 | Popping a name keeps exactly the entries with other names. |
| Urls.DropKeys | aitest.py:254-256 | Dropping a list of names keeps exactly the entries whose names are not in the list. |
| Urls.PopAfterDropKeys | aitest.py:255-256 | One more pop after dropping some names is dropping them all, so the pop loop computes the drop. |
| Urls.PopTrackingKeys | aitest.py:254-256 | The pop loop over the seven tracking names leaves the dictionary without them. |
| Urls.SortByKeySpec | aitest.py:259 | `sorted(items)` on distinct names is strictly increasing by name and is a permutation. |
| Urls.SortedUnique | aitest.py:259 | Two name-sorted dictionaries with the same entries are equal, so the sorted query is determined by the entries alone. |
| Urls.QuotePlus | aitest.py:259 | The encoded value holds only unreserved characters, `+` and `%`, and never `&`, `=` or `#`. |
| Urls.DesktopHostSpec | aitest.py:236-246 | Only the first matching prefix among `m.`, `mobile.` and `www.m.` is rewritten, to nothing, nothing and `www.`. Other hosts are kept. |
| Urls.DesktopHostNotIdempotent | aitest.py:236-246 | The host rewrite is not idempotent: `m.m.x` becomes `m.x`, then `x`. |
| Urls.RewriteMobileHost | aitest.py:237-246 | The prefix loop computes the desktop host of the lower-cased host. |
| Urls.NormalizePath | aitest.py:249 | The path `/` is kept. Any other path loses exactly its trailing slashes. |
| Urls.CanonicalPath | aitest.py:249 | The normalised path is `/` only for `/`, and otherwise never ends in a slash. |
| Urls.NormalizeUrlCases | aitest.py:227-275 | Three outcomes: an empty URL gives `""`; a URL `urlparse` rejects gives the fallback key; any other URL gives the canonical key of its parts. |
| Urls.NormalizeUrl | aitest.py:227-275 | The method gives `""` for an empty URL and otherwise the key defined by the three cases. |
| Urls.Fallback | aitest.py:270-275 | The fallback branch gives the stripped, lower-cased URL without trailing slashes, unless it is one character long. |
| Urls.Canonicalize | aitest.py:235-269 | The parsed branch gives the canonical key of the parts. |
| Urls.NormalizeUrlLowerCase | aitest.py:227-275 | Every key is lower-case, whichever branch produced it. |
| Urls.CleanQuerySpec | aitest.py:252-259 | The cleaned query has no tracking parameter. It holds each other name once, with all its values in order. It is encoded in increasing name order, as a permutation of the cleaned entries. |
| Urls.ParameterOrderIrrelevant | aitest.py:252-259 | Swapping two adjacent query parameters with different names changes neither the query nor the key. |
| Urls.CanonicalKeyNoFragment | aitest.py:262-267 | The canonical key has no `#` when the parsed components before the fragment have none. |
| Urls.NoFragment | aitest.py:227-275 | A URL `urlparse` accepts gives a key without `#`. |
| Responses.RemoveMarker | aitest.py:699-700 | Deleting a fence marker and the whitespace after it never lengthens the text or adds a character. |
| Responses.RemoveMarkerAbsent | aitest.py:699-700 | A text without the marker's first character is unchanged. |
| Responses.StripFences | aitest.py:699-701 | The stripped reply is no longer than the reply and has no whitespace at either end. |
| Responses.StripFencesNoBacktick | aitest.py:699-701 | A reply without backticks is only stripped of surrounding whitespace. |
| Responses.JsonObject | aitest.py:703-716 | No object is found exactly when no position closes the scan. A found object starts with `{`, ends with `}` and is at least two characters long. |
| Responses.FindJsonObject | aitest.py:703-716 | The brace-counting loop returns the text from the first `{` to the first `}` at which the running count is zero. |
| Responses.BalancedObject | aitest.py:703-716 | A reference scan that counts from the first `{` finds nothing exactly when no position balances it. |
| Responses.BalancedObjectWellFormed | aitest.py:703-716 | What the reference scan cuts out is a well-formed object: it opens and closes with braces, its depth stays positive inside and is zero at its end. |
| Responses.AgreeWithoutStrayClose | aitest.py:703-716 | When no `}` comes before the first `{`, the scan as written agrees with the reference scan, so its result is well-formed. |
| Responses.StrayCloseHidesObject | aitest.py:703-716 | On the reply `}{}` the scan as written finds nothing, while the reference scan finds `{}`: a stray closing brace before the object hides the object. |
| Responses.StepChar | aitest.py:727-745 | One pass of the loop body: it emits two characters exactly when it escapes a raw line break inside a string, and otherwise emits the character itself. |
| Responses.FixNewlinesInJsonStrings | aitest.py:720-746 | The loop computes the escaping state machine over the whole text. |
| Responses.FixFromNoRawBreak | aitest.py:720-746 | The machine's output, read by the same machine, has no raw line break inside a string. |
| Responses.NoRawBreakUnchanged | aitest.py:720-746 | Text without a raw line break inside a string is returned unchanged. |
| Responses.FixNewlinesIdempotent | aitest.py:720-746 | Escaping twice is escaping once. |
| Responses.FixNewlinesNoBreaks | aitest.py:720-746 | A text without line breaks is returned unchanged. |
| Responses.CleanResponse | aitest.py:697-748 | Fences, then the brace scan, then the escaping. A result starts with `{` and has no raw line break inside a string. |
| Feed.EntryUidSpec | aitest.py:170-179 | The uid is the first non-empty field in the order link, id, guid, title. |
| Feed.SameLinkSameUid | aitest.py:170-179 | Two items with the same non-empty link have the same uid. |
| Feed.SplitItems | aitest.py:1490-1491 | A comma-separated field splits into non-empty items, none containing a comma. |
| Feed.TagItems | aitest.py:1534-1537 | Tags given as one string are visited one character at a time. |
| Feed.ShouldSendAiDriven | aitest.py:780-828 | A missing verdict, or one without a decision, is never sent. |
| Feed.ShouldSendMatchesCandidacy | aitest.py:1384-1385 | The dispatch test holds exactly when the decision is SCRAPE or WATCHLIST, the same test that makes a first-pass candidate. |
| Batch.DuplicateNeedsNewer | aitest.py:1277-1279 | Every in-batch rule needs the later item to be strictly newer. |
| Batch.SuppressedByRule | aitest.py:1266-1351 | An item is dropped exactly when the similar-title, company or product rule finds a later item. |
| Batch.SurvivorsSpec | aitest.py:1266-1354 | The kept positions are increasing. A position is kept exactly when no later item duplicates it. The survivors are never more than the batch. |
| Batch.NewestSurvives | aitest.py:1266-1354 | An item that no later item is newer than survives. |
| Batch.LastSurvives | aitest.py:1266-1354 | The last item always survives and is the last survivor. |
| Batch.EqualTimestampsKeepAll | aitest.py:1266-1354 | When all timestamps are equal, nothing is dropped. |
| Batch.UpperCaseCompaniesNeverMatch | aitest.py:1287-1291 | "LG", "SK" and "KT" are looked for in a lower-cased title and never match. |
| Batch.MsNamesWindows | aitest.py:1319-1327 | Any title containing "ms" counts as naming the Windows group. |
| Batch.NewerSimilar | aitest.py:1271-1281 | The first inner loop finds exactly a later, strictly newer item whose title is different but similar at 0.4. |
| Batch.NewerWithCompany | aitest.py:1293-1307 | The loop for one company finds exactly a later, strictly newer item with that company and security words in both titles. |
| Batch.NewerSameCompany | aitest.py:1284-1311 | The company loop finds exactly a later item matching under some company of the table. |
| Batch.NewerWithProduct | aitest.py:1329-1345 | The loop for one product group finds exactly a later, strictly newer item naming the group, with update words in both titles. |
| Batch.NewerSameProduct | aitest.py:1317-1351 | The product loop finds exactly a later item matching under a group named in this item's title. |
| Batch.SuppressInBatch | aitest.py:1265-1354 | The batch loop returns exactly the survivors, in their original order. |
| Batch.PositionDecides | aitest.py:1266-1354 | For two reports of one incident at one company, the older is dropped when it comes first, but both are kept when the newer one comes first. |
| Batch.OlderFirstDropped | aitest.py:1266-1354 | A duplicate placed before the item that duplicates it is dropped. |
| Batch.NewerFirstKept | aitest.py:1266-1354 | A newer item placed before an older one keeps both. |
| Correlator.CompanyAlreadySent | aitest.py:1465-1480 | The company loop finds exactly a company in both titles, security words in both, and the item not newer than the sent one. |
| Correlator.IsDuplicateSent | aitest.py:1444-1549 | The ledger loop reports a duplicate exactly when some sent item matches by exact title, similarity at 0.3, company, shared CVE or shared product. |
| Correlator.IssueRulesSymmetric | aitest.py:1483-1546 | The CVE and product rules look at both sides alike. |
| Correlator.WindowBoundsIssueRules | aitest.py:1500-1501 | Items seven days or more apart are never merged by the CVE or the product rule. |
| Correlator.ProductRuleIgnoresCves | aitest.py:1507-1508 | The product rule does not look at CVE ids, so a common CVE outside the window does not stop it. |
| Correlator.StringTagsNeverVulnerable | aitest.py:1534-1537 | Tags given as one string never count as vulnerability tags. |
| Correlator.BatchRulesCaughtAgain | aitest.py:1459 | A pair the batch stage merges by title or company also matches in the ledger check. |
| StateStore.KeepNewest | aitest.py:161 | `s[-n:]` keeps the last min(n, len) elements. |
| StateStore.AppendKeepNewest | aitest.py:158-161 | An append followed by a trim keeps the new element last, never exceeds n, and keeps the newest n−1 before it. |
| StateStore.KeepNewestWithin | aitest.py:1569 | Trimming keeps only elements of the list, and keeps all of a list that fits. |
| StateStore.KeepNewestIdempotent | aitest.py:161 | Trimming twice is trimming once. |
| StateStore.ToSet | aitest.py:1205-1208 | `set(state.get(key, []))` holds exactly the elements of the stored list, or none when the key is missing. |
| StateStore.State.Load | aitest.py:63-86 | Without a file every key has its empty default. With a file, missing keys get their defaults and the rest is taken as stored. |
| StateStore.State.CheckPromptChanged | aitest.py:110-130 | The check updates the stored hash and change time as the prompt check on values says, and changes nothing else. |
| StateStore.PromptCheckSpec | aitest.py:110-130 | A change is reported exactly when both hashes are known and differ. A known current hash is stored. The change time moves only on a reported change. |
| StateStore.PromptCheckSettles | aitest.py:110-130 | Checking again with the same hash reports no change: a changed prompt is announced once. |
| StateStore.LogAllKeepsNewest | aitest.py:158-161 | Logging records one by one keeps the newest 1000 of all records. |
| StateStore.ErrorLog.constructor | aitest.py:139-148 | The log starts with the records read from the file. |
| StateStore.ErrorLog.LogError | aitest.py:137-161 | The new record is appended and only the newest 1000 are kept, so the new record is last. |
| Pipeline.FreshEntriesSpec | aitest.py:1219-1257 | An item is a candidate exactly when it passes all checks: its link key, uid and title key are unknown, and no remembered title is similar at 0.4. The filter never adds items. |
| Pipeline.FreshEntriesAppend | aitest.py:1219-1257 | Filtering commutes with concatenation, so candidates keep their input order. |
| Pipeline.JudgedSeenExactly | aitest.py:1367-1409 | After the first pass a uid is seen exactly when it was before, or some item that got a verdict has it. |
| Pipeline.JudgedGrows | aitest.py:1393-1403 | The first pass only adds to the memory. |
| Pipeline.JudgedRemembers | aitest.py:1393-1395 | An item that got a verdict has its uid remembered. |
| Pipeline.JudgedOnlyRemembers | aitest.py:1379-1395 | A newly remembered uid belongs to an item that got a verdict. |
| Pipeline.UnjudgedLeavesMemory | aitest.py:1379-1381 | Without any verdict, the first pass leaves the memory unchanged. |
| Pipeline.FirstCandidatesSpec | aitest.py:1383-1387 | A pair goes on to the second pass exactly when it meets all of these: its item is in the batch, that verdict was returned for it, and the verdict says SCRAPE or WATCHLIST. |
| Pipeline.JudgedSkippedNextRun | aitest.py:1236-1238 | An item the first pass judged, with a uid, is filtered out by the next run that starts from the saved state. |
| Pipeline.StepShape | aitest.py:1442-1560 | A candidate either is sent — sendable, matching nothing in the ledger, and appended with its link key — or leaves the ledger and the sent links alone. |
| Pipeline.DispatchedClean | aitest.py:1415-1560 | The gate keeps the ledger free of repeats and of unsendable verdicts. It only appends, at most one entry per candidate. |
| Pipeline.DispatchedFromCandidates | aitest.py:1415-1560 | Every appended entry is a candidate with the verdict the gate used for it. |
| Pipeline.DispatchedLinks | aitest.py:1555-1559 | The sent links gain exactly the non-empty link keys of what was sent. |
| Pipeline.FallbackStillSends | aitest.py:1424-1437 | A candidate whose full-text pass fails keeps its first verdict, which sends it. |
| Pipeline.Run.constructor | aitest.py:1363-1365 | A run starts with an empty ledger and a zero count. |
| Pipeline.Run.SimilarToSeen | aitest.py:1246-1251 | The loop over remembered titles finds exactly a title similar at 0.4. |
| Pipeline.Run.IsFresh | aitest.py:1223-1257 | The checks for one item, in script order, accept exactly the fresh items. |
| Pipeline.Run.HistoryFilter | aitest.py:1219-1257 | Stage 1 returns exactly the fresh items, in order. |
| Pipeline.Run.LinkKeyOf | aitest.py:1226-1228 | The link key is computed only for a non-empty link. |
| Pipeline.Run.Remember | aitest.py:1393-1403 | The state update for one judged item adds its non-empty uid, title key, title and link key. |
| Pipeline.Run.FirstPass | aitest.py:1367-1409 | The memory becomes what the first pass remembers, and the candidates are exactly the SCRAPE/WATCHLIST pairs. The ledger is untouched. |
| Pipeline.Run.SecondJudgment | aitest.py:1421-1437 | The verdict used is the full-text one when present, else the first one. A failure logs one record, trimmed to 1000. |
| Pipeline.Run.Gate | aitest.py:1442-1562 | A sendable item matching nothing in the ledger is appended, with its link key added. Otherwise nothing changes. |
| Pipeline.Run.SecondPass | aitest.py:1411-1564 | The ledger, sent links and error log end as the gate over all candidates says. The memory is untouched. |
| Pipeline.Run.WriteBack | aitest.py:1566-1571 | The saved state holds the working collections, the original titles cut to the newest 1000, and the sent links. |
| Pipeline.Run.Begin | aitest.py:1198-1208 | The working collections start as the loaded state, with an empty ledger. |
| Pipeline.Run.ProcessArticlesAiDriven | aitest.py:1192-1572 | The state is saved exactly when there are items and some of them pass the history filter. Nothing is saved or logged when there are no items or no fresh ones. Otherwise the saved state is the first-pass memory over the batch survivors, with the sent links, and the outcome counts the ledger. |
| Legacy.LegacyEntryUidSpec | test.py:113-119 | The uid is the first non-empty field in the order id, guid, link, title. |
| Legacy.UidPriorityDiffers | test.py:113-119 | An item with an id and a different link has different uids in the two scripts. |
| Legacy.TitleKeywordPasses | test.py:127-137 | A keyword in the lower-cased title lets the item through. |
| Legacy.SummaryKeywordPasses | test.py:127-137 | A keyword in the lower-cased summary lets the item through. |
| Legacy.Matching | test.py:193-194 | The filtered items are exactly the fetched items passing the filter. |
| Legacy.DedupMembers | test.py:200-207 | The kept items come from the input and have non-empty uids. |
| Legacy.DedupDistinct | test.py:200-207 | No two kept items share a uid. |
| Legacy.DedupUids | test.py:200-207 | The kept uids are exactly the non-empty uids of the input. |
| Legacy.DedupKeepsFirst | test.py:200-207 | Each kept item is the first of the input with its uid. |
| Legacy.DedupByUid | test.py:200-207 | The dedup loop computes the uid deduplication. |
| Legacy.SortNewestFirstSpec | test.py:210 | The sort puts the newest first and is a permutation. |
| Legacy.SortDistinct | test.py:210 | Sorting keeps the uids distinct. |
| Legacy.Take | test.py:212 | `s[:n]` is the prefix of exactly min(n, len) items. |
| Legacy.FetchAllRecentEntries | test.py:178-212 | The fetch filters, deduplicates, sorts and truncates, in that order. |
| Legacy.FetchSpec | test.py:178-212 | The result has at most `max_entries` items, newest first, with distinct non-empty uids. Every item comes from the feeds and passes the filter. |
| Legacy.Rank | test.py:436-438 | The ranks are 1 to 3, with unknown labels counting as 1. |
| Legacy.ShouldSendArticle | test.py:424-447 | A missing or empty verdict is sent. |
| Legacy.ShouldSendArticleSpec | test.py:424-447 | A verdict is sent exactly when it is not marked irrelevant under the relevance requirement and both its ranks reach their minimums. |
| Legacy.StricterSendsLess | test.py:430-446 | Whatever a stricter configuration sends, a laxer one sends too. |
| Legacy.LowestMinimumsSendAll | test.py:424-447 | With the lowest minimums and no relevance requirement, every verdict is sent. |
| Legacy.LegacyJudgmentText | test.py:393-413 | The loop cuts out the same object as the scan definition, or hands on the raw reply. |
| Legacy.ScanReplyShape | test.py:397-413 | A cut-out text runs from `{` to `}`. The raw reply is handed on exactly when no position closes the scan. |
| Legacy.LegacyJudgmentAgrees | test.py:390-413 | Both scripts cut out the same object; the newer one only escapes line breaks inside strings afterwards. |
| Legacy.NewEntries | test.py:553-557 | The new items are exactly those with a non-empty uid that is not seen. |
| Legacy.ProcessedPosts | test.py:568-599 | An item is posted exactly when it has a uid, is not rejected and its post succeeds. |
| Legacy.ProcessedSeen | test.py:568-599 | A uid is seen afterwards exactly when it was before, or an item with it was rejected or posted. |
| Legacy.FailedPostStaysUnseen | test.py:592-599 | An item whose post raises stays unseen, so the next run tries it again. |
| Legacy.LegacyRun.constructor | test.py:542-543 | A run starts from the stored seen list, with an empty working set and a zero count. |
| Legacy.LegacyRun.Listing | test.py:605 | `list(seen)` lists every element of the set once. |
| Legacy.LegacyRun.SelectNew | test.py:553-557 | The selection loop returns exactly the new items, in order. |
| Legacy.LegacyRun.JudgeAndPost | test.py:568-599 | The seen set and the count end as the bookkeeping over the new items says. The stored list is untouched. |
| Legacy.LegacyRun.Save | test.py:605 | The saved list holds exactly min(number seen, 2000) distinct uids, all of them seen, and all of the seen set when it fits. |
| Legacy.LegacyRun.ProcessArticles | test.py:537-607 | Nothing is saved when there are no items or no new ones. Otherwise the count is the number posted, and the saved list holds exactly min(number seen, 2000) distinct seen uids, and all of them when they fit. |

## Left out

- Network and files are not modelled:
  - fetching feeds and article pages, the classifier's HTTP calls and Slack posting;
  - reading and writing `state.json` and `errors.json`; the file contents are values.
  - `fetch_github_logs.py` is not part of this model; it is download and prompt I/O only.
- Leaving aitest.py's fetch, and the order of sent items:
  - `fetch_all_recent_entries` of aitest.py (feed reading, then sort and cut) is not part of this model. The run takes the items it returns as input.
  - Items are sent inside the correlation loop, in the order of the ledger.
- Classifier and helper code:
  - The classifier, the prompt templates, `load_ai_prompt` and `fetch_full_article_content` are not modelled. Each pass is a function from an item to its verdict (`Pipeline.SecondVerdict` also covers a raise).
  - `json.loads` is not modelled: the reply clean-up stops at the text it would parse, and a parse failure in either script is not represented.
- Values passed in:
  - the MD5 prompt hash of `get_prompt_hash`;
  - the clock (`time.strftime`), read once per run: every error record of one run has the same timestamp, where `log_error` reads the clock on each call;
  - `entry_ts`, whose `time.mktime` is replaced by an integer timestamp.
- Counters and output: `ai_call_count`, console output and the debug file written after the run are not modelled.
- Pipeline.Run.ProcessArticlesAiDriven: posting is assumed to return. In the script a raising post ends the run before the state is saved.
- Legacy.LegacyRun.JudgeAndPost: a raising post is modelled, as an item left unseen, because test.py catches it.
- Text: character classes are approximations.
  - Case mapping is ASCII-only.
  - `\w` is approximated by letters, digits, underscore and the non-ASCII characters that are not symbols, punctuation or spaces.
  - `\d` is the ASCII digits.
- Urls: library parts are not modelled.
  - `urlparse` is an oracle.
  - `parse_qs` is given the query as already split and percent-decoded pairs, so its dropping of blank values is not modelled.
  - `urlunparse`'s `uses_netloc` special case for empty hosts is left out.
- Urls.NoFragment: assumes, as `urlparse` guarantees, that no parsed component before the fragment contains `#`.
- Titles: `product_patterns` (aitest.py:316-321) is dead code and is not modelled.
- Verdict fields are simplified:
  - CVE, product and tag fields are strings or lists of strings; non-string list elements and `str(tag)` of other types are not modelled;
  - a `decision` that is not a string is treated like a missing one, which both tests reject alike.
- Legacy.ShouldSendArticle: `is_relevant` is modelled as a boolean; a numeric 0, which Python also compares equal to False, is not represented.
- Legacy.LegacyRun.Listing: the order of `list(seen)` is left open, so which 2000 uids survive a cut is not fixed (how many survive is).
- Pipeline.Run.WriteBack: the order of the sets written back as lists is left open; only the set contents are stated.
- Unmodelled paths: the `log_error` call of the page scraper (aitest.py:523), the daemon loop and the configuration loading of test.py.

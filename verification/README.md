# CYBERHUB core: a verified model

CYBERHUB looks for copies of a person's images on the web, keeps watch over what it found and reports on it. This
project models the parts of its backend that compute something and proves what they promise, one module per
component:

| module | component |
|---|---|
| `CanonicalUrl`, `Grouping`, `Discovery` | URL canonicalisation and the merging of provider results |
| `ScanPersistence` | the upsert of merged results into the search-result table |
| `Monitoring` | repeated scans of a case and the delta state of every finding |
| `PdfReport`, `PdfSyntax` | the PDF writer, and an independent reader after ISO 32000-1 |
| `CircuitBreaker`, `RetryDispatch` | protection against failing search providers |
| `RateLimits`, `CrawlThrottle` | sliding-window limiters, the spend budget, the crawl throttle |
| `PerceptualHash` | hex hash encodings and their Hamming distances |
| `Vectors`, `VectorStore` | normalisation, cosine similarity and the in-memory top-k search |
| `Classifiers` | the two image classifiers |
| `RiskEngine` | risk scoring and the alert decision |
| `Text`, `Sequences`, `Wrappers`, `Numbers`, `Algebra`, `Rounding` | shared vocabulary |

`dafny verify dfyconfig.toml` verifies everything.

Objects that the program updates in place are classes here (`DiscoveryRecord`, `ResultTable`, `CaseMonitor`,
`Breaker`, `RequestLimiter`, `ScanLimiter`, `DomainRateLimiter`, `MemoryStore`), and loops are methods; each method is
proved against a specification function, and the properties of whole runs are lemmas about these functions. Clocks,
jitter, provider replies, fresh ids and square roots are arguments. Floating-point numbers are exact reals, with
Python's `round` modelled as rounding to the nearest decimal, ties to even.

## Where the code departs from what is expected of it

Each item is a proved equivalence or a proved example; the code is modelled as it is.

- Merging does not compute connected groups: a result whose page URL is known in one group and whose image is known
  in another joins the first and leaves the second apart (`Grouping.ComponentsIff`, `Grouping.BridgeExample`).
- A result without page URL is stored under its image URL, where a later page of that address overwrites it
  (`Grouping.CollidesIff`, `Grouping.CollisionExample`). The response parsers, which drop results without a link, keep
  this from happening (`Grouping.PageUrlsPreventCollision`).
- Canonicalisation is not idempotent for hosts `www.www.…` and for paths like `/a;b/` (`CanonicalUrl.IdempotentIff`).
- The table is described as keyed on provider and source URL, but the provider part is the whole merged list: a page
  is inserted again when another provider joins (`ScanPersistence.ProviderListSplitsRows`), and there is one row per
  page exactly under the condition of `ScanPersistence.HistoryOneRowPerPageIff`. Rows without page URL may
  share a key (`ScanPersistence.UrllessDuplicates`), and repeating such a scan may change a row
  (`ScanPersistence.RepeatChangesNothingIff`).
- A missing key that one monitoring scan lists twice ends as UNCHANGED instead of REAPPEARED, the only case in which
  the kept state is not the one the history gives (`Monitoring.StateIsRecomputedIff`). An unknown key listed twice is
  stored twice, and of two findings with one key the earlier never changes its state again
  (`Monitoring.StaysDistinctIff`, `Monitoring.ShadowedForever`).
- A breaker half-opened by a status query lets every request through, not one trial
  (`CircuitBreaker.HalfOpenLetsAllThrough`), and at an earlier clock reading too soon
  (`CircuitBreaker.StepBackBreaksSpacing`). One that trips at clock reading 0.0, which for the wall clock is the epoch
  itself, never recovers (`CircuitBreaker.RecoversIff`).
- The error after the retry loop needs a negative retry count (`RetryDispatch.DispatchFailedIff`).
- The limiters read the wall clock. Pruning is right exactly while no check looks back at a time that the check before
  it pruned (`RateLimits.PrunedIsWindowIff`); a jump ahead and back lets three requests into the window of a limit of
  two (`RateLimits.ClockStepBack`). A scan refused by the budget has already used up a place in the hourly limit
  (`RateLimits.ScanLimiter.CheckRateAndBudget`).
- The two Hamming distances differ on hashes of different lengths (`PerceptualHash.DistancesAgreeIff`), the
  classifiers compare digests with and without regard to letter case (`Classifiers.CapitalsDisagree`), and where they
  agree on the class they may report different scores (`Classifiers.ScoresAgreeIff`).
- A face model output of norm at most 1e-8 is stored unnormalised, and is then the only kind that the unit-norm guard
  rejects (`Vectors.GuardAcceptsIff`).
- An image vector's metadata may override its tenant tags (`VectorStore.VisibleElsewhereIff`).
- A risk score in [39.995, 40) is reported as 40.0 and raises an alert for which the engine's flag is not set
  (`RiskEngine.DefaultAlertDecision`).

## Model

| member | source | states |
|---|---|---|
| CanonicalUrl.SameCanonIff | backend/app/services/provider_orchestration_service.py:723-744 | two parsed URLs get one canonical form exactly when scheme and host (without a leading `www.`) agree, the paths agree up to trailing slashes, and every pair that has a value and is no tracking parameter occurs equally often; pair order, fragment, params and dropped pairs never matter |
| CanonicalUrl.CanonInvariant | backend/app/services/provider_orchestration_service.py:723-744 | permuting the pairs, inserting a dropped pair anywhere, changing letter case or adding `www.` in the host, adding slashes, and any fragment and params leave the canonical form equal |
| CanonicalUrl.CleanQueryCounts | backend/app/services/provider_orchestration_service.py:737-739 | cleaning keeps every occurrence of a kept pair and no occurrence of another one |
| CanonicalUrl.InsertedPairIff | backend/app/services/provider_orchestration_service.py:735-742 | inserting a pair anywhere in the query leaves the canonical form equal exactly when its value is empty or its name is, in any letter case, one of `utm_source`, `utm_medium`, `utm_campaign`, `utm_term`, `utm_content`, `fbclid`, `gclid` and `ref` |
| CanonicalUrl.CanonicalParts | backend/app/services/provider_orchestration_service.py:728-742 | the scheme is the given one in lower case or `http`, the host loses one leading `www.`, the path its trailing slashes and nothing else, and the query keeps, in order, every occurrence of the pairs with a value and a name other than the eight |
| CanonicalUrl.MalformedParts | backend/app/services/provider_orchestration_service.py:743-744 | text that does not parse is kept in lower case without its trailing slashes |
| Text.LowerIff | backend/app/services/provider_orchestration_service.py:730-739 | two texts have one lower-case form exactly when they differ in letter case only |
| CanonicalUrl.Sort | backend/app/services/provider_orchestration_service.py:740 | sorting yields a permutation of the pairs in the order of pairs of strings |
| CanonicalUrl.OrderedUnique | backend/app/services/provider_orchestration_service.py:740 | a sorted list of pairs is determined by its multiset |
| CanonicalUrl.Canonicalize | backend/app/services/provider_orchestration_service.py:723-744 | the canonical form is empty exactly for a missing or blank URL |
| CanonicalUrl.IdempotentIff | backend/app/services/provider_orchestration_service.py:723-744 | canonicalising a canonical form changes nothing exactly when the host does not start with `www.www.` and, for schemes with params, no semicolon stands in the last segment once the trailing slashes are gone |
| CanonicalUrl.RepeatedPrefixNotIdempotent | backend/app/services/provider_orchestration_service.py:732-733 | `www.www.x` canonicalises to `www.x`, and that to `x` |
| CanonicalUrl.SemicolonNotIdempotent | backend/app/services/provider_orchestration_service.py:729-734 | `h/a;b/` canonicalises to `h/a;b`, and that to `h/a` |
| Text.StripSlashesUnique | backend/app/services/provider_orchestration_service.py:734 | stripping trailing slashes has only one possible result: a prefix not ending in a slash, with nothing but slashes behind it |
| Grouping.LeaderIsHead | backend/app/services/provider_orchestration_service.py:761-790 | following matches backwards from any result ends at a result that opened a group, so every result lies in exactly one group |
| Grouping.SameUrlSameGroup | backend/app/services/provider_orchestration_service.py:761-790 | results with the same canonical page URL share a group |
| Discovery.SameCanonSameGroup | backend/app/services/provider_orchestration_service.py:761-790 | so do results whose different page URLs canonicalise alike |
| Discovery.TrackingSameGroup | backend/app/services/provider_orchestration_service.py:737-790 | in particular results whose page URLs differ by an inserted tracking parameter |
| Grouping.HeadsDistinctUrls | backend/app/services/provider_orchestration_service.py:761-790 | group heads have pairwise distinct canonical page URLs, and no head repeats an earlier head's image |
| Grouping.LeaderChain | backend/app/services/provider_orchestration_service.py:765-770 | every member is linked to its head by results that share a page or image URL one with the next |
| Grouping.ComponentsIff | backend/app/services/provider_orchestration_service.py:747-818 | the groups are the connected components of sharing a page or image URL if and only if no result has its page URL in one group and its image in another |
| Grouping.BridgeExample | backend/app/services/provider_orchestration_service.py:765-770 | three results for which it does not hold: two results with one image stay in different groups |
| Grouping.CollidesIff | backend/app/services/provider_orchestration_service.py:772-784 | storing a new record overwrites an older one exactly when the page URL of one head is the image URL under which the other, having no page URL, is stored |
| Grouping.PageUrlsPreventCollision | backend/app/services/provider_orchestration_service.py:772-784 | if every result has a page URL nothing is ever overwritten |
| Grouping.NothingLostIff | backend/app/services/provider_orchestration_service.py:772-818 | every head still has its record at the end if and only if no such collision happened |
| Grouping.CollisionExample | backend/app/services/provider_orchestration_service.py:774-784 | two results for which the first record is lost |
| Grouping.OwnerIsLatest | backend/app/services/provider_orchestration_service.py:784 | under each key lies the record of the latest head that was given the key |
| Grouping.KeysFollowHeads | backend/app/services/provider_orchestration_service.py:818 | without collisions the dictionary lists one record per group, in order of first occurrence |
| Grouping.ReceiversAreLeaders | backend/app/services/provider_orchestration_service.py:765-791 | the record that receives a result, looked up by the key of its group, is that of the head of the group unless a collision replaced it |
| Grouping.IndexLookup | backend/app/services/provider_orchestration_service.py:765-770 | the two alias lookups find the key of the group of the result, or nothing exactly for a head |
| Grouping.UrlIndexExtends | backend/app/services/provider_orchestration_service.py:785-815 | `url_to_key` is only ever extended: no page URL is redirected |
| Discovery.DiscoveryRecord.Open | backend/app/services/provider_orchestration_service.py:775-783 | a new record lists its own provider alone, with its provenance, whose raw metadata shares the list of providers |
| Discovery.DiscoveryRecord.MergeIn | backend/app/services/provider_orchestration_service.py:791-811 | a surviving record absorbs a member: provider added once, provenance of that provider replaced, title and image only filled in when empty |
| Discovery.Place | backend/app/services/provider_orchestration_service.py:761-815 | one turn of the loop keeps the three dictionaries consistent with the grouping and every record equal to what the results it received contributed |
| Discovery.Deduplicate | backend/app/services/provider_orchestration_service.py:747-818 | the pass over mutable records with three dictionaries returns exactly the stored records, each merged from the results it received, also after a collision; without collisions one record per group, in arrival order, each merged from its whole group |
| Discovery.ProvidersMeaning | backend/app/services/provider_orchestration_service.py:775-795 | `providers` is free of duplicates and is exactly the set of providers of the results the record received |
| Discovery.ProvidersInArrivalOrder | backend/app/services/provider_orchestration_service.py:792-795 | each provider stands where it first reported the group |
| Discovery.SourcesHaveProviderKeys | backend/app/services/provider_orchestration_service.py:776-804 | `provider_sources` has exactly the listed providers as keys |
| Discovery.SourcesMeaning | backend/app/services/provider_orchestration_service.py:797-804 | and holds what the latest member of each provider said; only the head's own entry shares the list of providers |
| Discovery.TitleMeaning | backend/app/services/provider_orchestration_service.py:806-809 | the title is that of the first member that has one |
| Discovery.PageTitleMeaning | backend/app/services/provider_orchestration_service.py:806-809 | the page title is the head's own unless the title comes from a later member, which then supplies both |
| Discovery.ImageMeaning | backend/app/services/provider_orchestration_service.py:810-811 | the image URL is that of the first member that has one |
| ScanPersistence.ResultTable.IndexRows | backend/app/services/exposure_scan_orchestrator.py:261-266 | the index maps each key of the case to the last row that has it |
| ScanPersistence.ResultTable.SaveScan | backend/app/services/exposure_scan_orchestrator.py:261-299 | the upsert loop turns the table into the old one with every finding saved against the rows the scan started with |
| ScanPersistence.KeysAfter | backend/app/services/exposure_scan_orchestrator.py:268-297 | a scan keeps the key of every row in place and appends exactly the keys that were not there |
| ScanPersistence.StaysUniqueIff | backend/app/services/exposure_scan_orchestrator.py:261-299 | rows stay unique per (case, provider list, source URL) exactly when no new key comes twice in one scan |
| ScanPersistence.AllSettled | backend/app/services/exposure_scan_orchestrator.py:273-279 | after a scan, for every finding that is the last one with its key, the row holds everything the finding would write |
| ScanPersistence.SavedContent | backend/app/services/exposure_scan_orchestrator.py:273-297 | the row of a finding that is the last one with its key shows its type, metadata, providers and sources, and its title and image if it has them |
| ScanPersistence.InsertedContent | backend/app/services/exposure_scan_orchestrator.py:281-296 | the row of a new key carries the case and job of the scan, the page address as source and page URL, the image or else the page address, and the domain, score and title of the finding |
| ScanPersistence.ProviderColumn | backend/app/services/exposure_scan_orchestrator.py:271 | the provider column is the list of providers separated by commas |
| ScanPersistence.UpdatedInPlace | backend/app/services/exposure_scan_orchestrator.py:273-279 | of the rows a scan starts with, the last one of each key takes all findings of that key in order, and the others stay as they are |
| ScanPersistence.RepeatInsertsNothing | backend/app/services/exposure_scan_orchestrator.py:261-299 | saving identical findings again inserts nothing, for any findings, whatever the table held and whichever job repeats the scan |
| ScanPersistence.RepeatChangesNothingIff | backend/app/services/exposure_scan_orchestrator.py:261-299 | it changes nothing at all exactly when the last finding of every key that was new lacks no title or image that an earlier finding with its key brings |
| ScanPersistence.RepeatChangesNothing | backend/app/services/exposure_scan_orchestrator.py:261-299 | if the findings have distinct keys, repeating the scan changes no row either |
| ScanPersistence.HistoryUnique | backend/app/services/exposure_scan_orchestrator.py:261-299 | rows are unique after any sequence of scans of any cases that each bring pairwise distinct keys |
| ScanPersistence.HistoryUniqueIff | backend/app/services/exposure_scan_orchestrator.py:261-299 | after any sequence of scans of any cases rows are unique exactly when no scan brought a key twice that the table did not have |
| ScanPersistence.OtherCasesUntouched | backend/app/services/exposure_scan_orchestrator.py:261-299 | a scan leaves the rows of other cases as they were and adds rows of its own case only |
| ScanPersistence.HeadsGiveDistinctKeys | backend/app/services/exposure_scan_orchestrator.py:269-271 | deduplicated results with page URLs bring pairwise distinct row keys |
| ScanPersistence.SaveDiscoveries | backend/app/services/exposure_scan_orchestrator.py:190-299 | deduplication followed by the upserts: one finding per stored record reaches the table, and unique rows stay unique if every result has a page URL |
| ScanPersistence.OneFindingPerGroup | backend/app/services/exposure_scan_orchestrator.py:268-297 | without an overwritten record the findings are one per group in arrival order, each merged from its whole group |
| ScanPersistence.UrllessDuplicates | backend/app/services/exposure_scan_orchestrator.py:269-297 | two findings without page URL make the rows not unique |
| ScanPersistence.ProviderListSplitsRows | backend/app/services/exposure_scan_orchestrator.py:269-271 | an example: a page that a second provider reports later on is inserted a second time, since the provider list is part of the key |
| ScanPersistence.OneRowPerPageIff | backend/app/services/exposure_scan_orchestrator.py:261-299 | a scan leaves one row per page of a case exactly when there was one before and every finding with a new key is about a page that neither the table nor another such finding has |
| ScanPersistence.HistoryOneRowPerPageIff | backend/app/services/exposure_scan_orchestrator.py:261-299 | the same after any sequence of scans of any cases |
| PdfReport.ThreeReplacesAreOneEscape | backend/app/services/exposure_report_service.py:175 | the three replacements in sequence equal one simultaneous escape |
| PdfReport.SplitReadsBack | backend/app/services/exposure_report_service.py:169 | the lines of the report text, joined again, are the text |
| PdfReport.CutShape | backend/app/services/exposure_report_service.py:177-178 | cutting an escaped line keeps the escapes of the characters that fit, plus half a pair if the cut falls inside one |
| PdfReport.LineReadsBack | backend/app/services/exposure_report_service.py:173-179 | in a reader of literal strings (ISO 32000-1 section 7.3.4.2) every emitted string closes exactly at its final parenthesis, cut or not, and reads as the shown text |
| PdfReport.ShownUnchangedIff | backend/app/services/exposure_report_service.py:173-182 | a line is shown unchanged exactly when its escaped form has at most 85 characters and it is Latin-1 without carriage return |
| PdfReport.ShownText | backend/app/services/exposure_report_service.py:173-182 | a line of at most 85 characters, parentheses and reverse solidi counted twice, is shown character by character, with `?` outside Latin-1; of a longer one as many characters as fit into 82, followed by three dots |
| PdfReport.OnPage | backend/app/services/exposure_report_service.py:172 | of the lines the first 55 are written, or all if there are fewer |
| PdfReport.ContentReadsBack | backend/app/services/exposure_report_service.py:171-182 | reading the content stream yields the shown form of every line in order |
| PdfReport.Pad10Decodes | backend/app/services/exposure_report_service.py:205-206 | ten padded digits decode to the offset they were printed from |
| PdfReport.StartXrefFound | backend/app/services/exposure_report_service.py:203-209 | the position announced after `startxref` reads back as the number written there (section 7.5.5) |
| PdfSyntax.ObjectReadsBack | backend/app/services/exposure_report_service.py:184-194 | the reader of names, numbers, references, arrays and dictionaries (section 7.3) reads every such object back from its usual notation, whatever follows |
| PdfReport.TrailerFound | backend/app/services/exposure_report_service.py:208 | behind the table the reader finds a trailer whose root is object 1 |
| PdfReport.FirstPageFound | backend/app/services/exposure_report_service.py:184-211 | from the trailer over `/Root`, `/Pages` and the first of `/Kids` the reader comes to the page object |
| PdfReport.XrefPointsAt | backend/app/services/exposure_report_service.py:196-209 | every cross-reference entry is found at its 20-byte place and decodes to the exact byte position of its object (section 7.5.4) |
| PdfReport.LocatesBody | backend/app/services/exposure_report_service.py:184-211 | following `startxref` and the table to an object finds its body there |
| PdfReport.StreamReadsBack | backend/app/services/exposure_report_service.py:192 | `/Length` is the byte count of the stream: a reader that trusts it gets exactly the data and the end marks behind it (section 7.3.8) |
| PdfReport.OffsetsFit | backend/app/services/exposure_report_service.py:173-178 | the 55-line and 85-character limits keep every offset below 10^10 |
| PdfReport.ReportReadsBack | backend/app/services/exposure_report_service.py:163-211 | a reader that knows nothing of the writer, and goes from the end of the file to the trailer, over the catalog and the page tree to the page, and from there to its contents and to the font that the text selects under the resources, shows the report lines for every report text, all of them on the sheet |
| PdfReport.WriteStream | backend/app/services/exposure_report_service.py:171-182 | the loop over the lines builds the specified content stream |
| PdfReport.WriteFile | backend/app/services/exposure_report_service.py:196-211 | the writing loop with recorded offsets builds the specified file |
| PdfReport.GeneratePdf | backend/app/services/exposure_report_service.py:163-211 | from any report text the writer makes a file from which that reader shows the first 55 lines, and whose table leads to all five objects |
| Monitoring.CaseMonitor.IndexFindings | backend/app/services/monitoring_service.py:202-207 | the dictionary maps each key to the last stored finding with that key |
| Monitoring.CaseMonitor.Observe | backend/app/services/monitoring_service.py:259-284 | a listed finding turns from not observed to reappeared, and otherwise to unchanged |
| Monitoring.CaseMonitor.CompareItems | backend/app/services/monitoring_service.py:252-307 | the comparison loop touches exactly the listed findings once per listing and adds one finding per unknown listing; the listed keys of findings marked as missing are counted as reappeared, once each, unknown listings as new and all other listings as unchanged |
| Monitoring.CaseMonitor.MarkUnlisted | backend/app/services/monitoring_service.py:323-328 | exactly the stored keys that the scan did not list are marked, and counted once each |
| Monitoring.CaseMonitor.Scan | backend/app/services/monitoring_service.py:253-374 | one scan: the new findings and states, every counter of the run report and the rule statistics |
| Monitoring.KeyOf | backend/app/services/monitoring_service.py:206 | the key of a stored finding is its canonical URL, else its page URL, else its source URL, else its id |
| Monitoring.ItemKey | backend/app/services/monitoring_service.py:254-256 | the key of an item is its page URL, else its URL, else its source URL, else its domain, else `unknown.test` |
| Monitoring.Discovered | backend/app/services/monitoring_service.py:287-305 | a first sighting is stored as NEW and pending review, under the key of its item |
| Monitoring.ScanKeepsFindings | backend/app/services/monitoring_service.py:252-328 | a scan removes nothing, changes nothing of a stored finding but its state, and appends exactly the unknown keys |
| Monitoring.AddedAreNew | backend/app/services/monitoring_service.py:286-307 | an added finding is NEW, listed by the scan and unknown before |
| Monitoring.StaysDistinctIff | backend/app/services/monitoring_service.py:256-306 | keys stay distinct exactly when the scan lists no unknown key twice |
| Monitoring.ReplayKeys | backend/app/services/monitoring_service.py:253-340 | after any sequence of scans exactly the keys stored at first or listed since are stored |
| Monitoring.ReplayDistinctIff | backend/app/services/monitoring_service.py:253-340 | each of them is stored once exactly when it was so at first and no scan listed a key twice that was unknown to it |
| Monitoring.StateIsRecomputedIff | backend/app/services/monitoring_service.py:202-340 | after any sequence of scans from any stored findings, the kept state of a finding that no other one with its key hid equals the one recomputed from the whole history, except exactly for a stored key that was missing and that the latest scan lists twice |
| Monitoring.ShadowedForever | backend/app/services/monitoring_service.py:204-207 | a finding hidden by a later one with its key stays hidden and keeps its state through every sequence of scans |
| Monitoring.StateRefinesHistory | backend/app/services/monitoring_service.py:202-340 | hence, from distinct keys and with scans that list no key twice, every kept state is the recomputed one |
| Monitoring.PresentIff | backend/app/services/monitoring_service.py:261-284 | between scans a finding that is not hidden is marked as missing exactly when its key was absent from the latest scan |
| Monitoring.NothingElseChanges | backend/app/services/monitoring_service.py:253-340 | over any sequence of scans an initial finding stays in its place with everything but its state, verification status included |
| Monitoring.ListedTwiceHidesReappearance | backend/app/services/monitoring_service.py:261-284 | a missing key that one scan lists twice ends as UNCHANGED instead of REAPPEARED |
| CircuitBreaker.Breaker.RecordSuccess | backend/app/services/provider_orchestration_service.py:133-136 | success resets the breaker |
| CircuitBreaker.Breaker.RecordFailure | backend/app/services/provider_orchestration_service.py:138-143 | failure counts, notes the time and opens at the threshold |
| CircuitBreaker.Breaker.AllowRequest | backend/app/services/provider_orchestration_service.py:145-154 | a request passes unless the breaker is open and not yet recovered; asking after the recovery time half-opens it |
| CircuitBreaker.StateFromHistory | backend/app/services/provider_orchestration_service.py:119-154 | under any interleaving of requests and outcomes the state is a function of the events since the latest success: closed below the threshold, else half open exactly when asked after the recovery time |
| CircuitBreaker.ClosedBelowThresholdIff | backend/app/services/provider_orchestration_service.py:119-154 | closed means fewer failures than the threshold in every reachable state if and only if the threshold is positive |
| CircuitBreaker.CallsSpaced | backend/app/services/provider_orchestration_service.py:138-154 | once tripped, each call comes more than the recovery time after the failure before it, in every run of non-overlapping calls and of status polls at any time, without success and with a clock that does not step back |
| CircuitBreaker.CallsBounded | backend/app/services/provider_orchestration_service.py:119-154 | in every such run the calls beyond the threshold number less than the time since the trip divided by the recovery time |
| CircuitBreaker.CallsByTime | backend/app/services/provider_orchestration_service.py:119-154 | hence the calls made by time T number at most the threshold plus floor((T - trip time) / recovery time) |
| CircuitBreaker.RunState | backend/app/services/provider_orchestration_service.py:119-154 | in every such run the breaker is closed exactly below the threshold, and half open while a call is under way after the trip |
| CircuitBreaker.AllowedIff | backend/app/services/provider_orchestration_service.py:145-154 | after any history a request is allowed exactly when fewer failures than the threshold have followed the latest success, or when it or an earlier request since the latest failure comes after the recovery time |
| CircuitBreaker.StepBackBreaksSpacing | backend/app/services/provider_orchestration_service.py:145-154 | if the clock steps back after a poll has half-opened the breaker, a call goes out one second after the failure |
| CircuitBreaker.HalfOpenLetsAllThrough | backend/app/services/provider_orchestration_service.py:145-154 | a half-open breaker allows every request until an outcome is recorded |
| CircuitBreaker.StuckAtZero | backend/app/services/provider_orchestration_service.py:149 | a trip recorded at clock reading 0.0 is never recovered from |
| CircuitBreaker.RecoversIff | backend/app/services/provider_orchestration_service.py:145-154 | an open breaker can let some later request through exactly when its latest failure was not recorded at clock reading 0.0 |
| RetryDispatch.Dispatch | backend/app/services/provider_orchestration_service.py:174-222 | the retry loop goes on after network failures, 429 and 5xx and after nothing else, at most `max_retries` times; what it reports is told by the status of the last reply, exhaustion included, and its pause is the sum of those of the retried replies |
| RetryDispatch.PauseLength | backend/app/services/provider_orchestration_service.py:183-218 | after a 429 the pause is the announced number of seconds, or 2, but at most 5; after a 5xx or a network failure it lies between 0.5 * 2^a and 0.2 more |
| RetryDispatch.PausesAdd | backend/app/services/provider_orchestration_service.py:183-218 | every retried reply adds its own pause to the total |
| RetryDispatch.DataIff | backend/app/services/provider_orchestration_service.py:174-207 | data is returned exactly when a parseable 200 arrives within the bound after nothing but transient replies |
| RetryDispatch.DispatchFailedIff | backend/app/services/provider_orchestration_service.py:220-222 | the code after the loop is reached exactly with a negative retry count |
| RetryDispatch.AuthStops | backend/app/services/provider_orchestration_service.py:179-181 | an authentication error ends the dispatch at once |
| RetryDispatch.SleepBounded | backend/app/services/provider_orchestration_service.py:183-218 | the total pause is at most the sum over the retries of max(5, 0.5 * 2^a + 0.2) |
| RateLimits.RequestLimiter.Check | backend/app/core/rate_limit.py:24-35 | a request is admitted exactly when the pruned list is shorter than the limit; the list is pruned either way and extended on admission |
| RateLimits.ScanLimiter.PruneHour | backend/app/services/exposure_scan_orchestrator.py:113 | pruning by age and pruning by window start keep the same times |
| RateLimits.ScanLimiter.CheckRate | backend/app/services/exposure_scan_orchestrator.py:108-119 | the hourly scan limit makes the same decision and transition as the request limiter |
| RateLimits.ScanLimiter.CheckBudget | backend/app/services/exposure_scan_orchestrator.py:121-130 | a charge is accepted exactly when it fits under the limit, and only then recorded |
| RateLimits.ScanLimiter.CheckRateAndBudget | backend/app/services/exposure_scan_orchestrator.py:132-135 | rate first, then budget: a scan refused for its cost still takes its place in the hour |
| RateLimits.KeysIndependent | backend/app/core/rate_limit.py:22-35 | in any run of interleaved requests, what is kept for a key is what its own requests alone would leave |
| RateLimits.PrunedIsWindow | backend/app/core/rate_limit.py:24-35 | in a run of interleaved requests of any keys, if no request of a key looks back at a time that the one before it pruned, the list kept for the key is its full admission log cut to the window |
| RateLimits.PrunedIsWindowIff | backend/app/core/rate_limit.py:24-35 | that condition on the key's clock readings is exact: under it, and only under it, the list is right for all limits after every request of the run |
| RateLimits.MonotoneNeverMissed | backend/app/core/rate_limit.py:24-28 | a clock that never steps back satisfies it |
| RateLimits.AdmissionsAreFullLog | backend/app/core/rate_limit.py:24-35 | under it the run admits of the key exactly what the full log admits |
| RateLimits.SameDecision | backend/app/core/rate_limit.py:24-35 | under it each decision in a run of interleaved requests is the one the unpruned log of the key would give |
| RateLimits.AdmittedIff | backend/app/core/rate_limit.py:24-35 | with a clock that does not step back, a request is admitted exactly when fewer than the limit of the requests of its key were admitted in the window before it |
| RateLimits.WindowSafety | backend/app/core/rate_limit.py:24-35 | of the requests of a key that a run of interleaved requests admits, no half-open interval of window length holds more than the limit, with a clock that never steps back and more generally with readings that never look back at a pruned time |
| RateLimits.ClockStepBack | backend/app/core/rate_limit.py:24-35 | with a clock that jumps ahead and back, a limit of two admits three requests within one window |
| RateLimits.SpendConserved | backend/app/services/exposure_scan_orchestrator.py:121-130 | after any run of charges to any organisations, the recorded spend is the sum of the organisation's accepted charges and never exceeds the highest limit it was charged under |
| CrawlThrottle.Interval | backend/app/services/crawl_courtesy_service.py:41-42 | the interval times max(0.1, rate) is 1, a rate of 0 selecting the default |
| CrawlThrottle.SameDomainIff | backend/app/services/crawl_courtesy_service.py:48 | domains without blanks around them share their slots exactly when they differ in letter case only |
| CrawlThrottle.BlanksAroundDomain | backend/app/services/crawl_courtesy_service.py:48 | blanks around a domain do not matter |
| CrawlThrottle.DomainRateLimiter.Throttle | backend/app/services/crawl_courtesy_service.py:46-66 | the caller is given max(now, previous grant + interval), recorded for its domain alone |
| CrawlThrottle.DomainsIndependent | backend/app/services/crawl_courtesy_service.py:46-66 | under any interleaving a domain's entry is what its own calls alone would have produced |
| CrawlThrottle.SlotsSpaced | backend/app/services/crawl_courtesy_service.py:51-61 | any k + 1 consecutive grants of a domain span at least k intervals, whatever the clock does |
| CrawlThrottle.WaitBounded | backend/app/services/crawl_courtesy_service.py:51-66 | under a monotone clock a caller waits at most one interval per grant still outstanding, the reading 0 counting as a grant |
| PerceptualHash.EncodeDHash | backend/app/services/image_analysis_service.py:70-79 | the accumulator loop yields one digit per complete group of four bits, least significant first, and drops an incomplete group |
| PerceptualHash.EncodePHash | backend/app/services/image_analysis_service.py:133-140 | the chunk loop yields one digit per started group of four bits, most significant first |
| PerceptualHash.HexAlphabet | backend/app/services/image_analysis_service.py:70-79 | the digits are `0` to `9` and `a` to `f` in order, and capitals are read alike |
| PerceptualHash.DHashDigit | backend/app/services/image_analysis_service.py:70-79 | bit k of digit i of a dHash is difference bit 4i + k |
| PerceptualHash.PHashDigit | backend/app/services/image_analysis_service.py:133-140 | bit 3 - k of digit i of a pHash is threshold bit 4i + k, or 0 past the last one |
| PerceptualHash.DHashDistance | backend/app/services/image_analysis_service.py:70-79 | XOR and bit count of two dHash strings count exactly the encoded bits that differ |
| PerceptualHash.PHashDistance | backend/app/services/image_analysis_service.py:133-140 | the same for pHash strings, whose last digit may be short |
| PerceptualHash.DistanceOfValues | backend/app/services/image_analysis_service.py:142-156 | zero padding does not matter: the distance of hex strings is that of the numbers they denote |
| PerceptualHash.DistanceIsMetric | backend/app/services/image_analysis_service.py:142-156 | on hex strings of any lengths the distance is symmetric, zero exactly for equal numbers, and satisfies the triangle inequality |
| PerceptualHash.HashSizeEight | backend/app/services/image_analysis_service.py:70-156 | at hash size 8 both distances of both hashes count the differing bits and are at most 64 |
| PerceptualHash.DistancesAgreeIff | backend/app/services/image_correlation_service.py:55-66 | the second distance agrees with the first on equal lengths, and for unequal lengths only in the coincidence that the first is 64 as well |
| PerceptualHash.NonHexDistance | backend/app/services/image_analysis_service.py:142-156 | a hash with a character that is no hex digit is at distance 64 from every hash, for both distances |
| Vectors.CauchySchwarz | backend/app/services/qdrant_service.py:112-114 | for vectors of any lengths the squared dot product is at most the product of the squared norms |
| Vectors.DotSnoc | backend/app/services/qdrant_service.py:112 | one more pair of components adds its product to the dot product |
| Vectors.CosineMeaning | backend/app/services/qdrant_service.py:109-117 | the cosine times both norms is the dot product; it is 0 with a zero vector and 1 of any other vector with itself |
| Vectors.CosineInRange | backend/app/services/qdrant_service.py:109-117 | the cosine lies in [-1, 1], zero vectors included |
| Vectors.CosineScaleInvariant | backend/app/services/qdrant_service.py:109-117 | positive scaling scales the norm and leaves every cosine as it is |
| Vectors.ClampIdentity | backend/app/services/dinov2_service.py:195-197 | on exactly normalised vectors the clamp is the identity |
| Vectors.ClampActsAfterRounding | backend/app/services/dinov2_service.py:195-197 | after rounding to six decimals the self-similarity can exceed 1, where the clamp acts |
| Vectors.NormalisedIsUnit | backend/app/services/face_embedding_service.py:155-158 | dividing by the norm gives squared norm exactly 1 |
| Vectors.RoundedStaysUnit | backend/app/services/face_embedding_service.py:155-162 | rounding a unit vector of at most 512 components to six decimals keeps its norm within 1/1000 of 1 |
| Vectors.GuardAcceptsIff | backend/scripts/run_full_real_dataset_ingestion.py:225-231 | the ingestion guard accepts the stored embedding of a 512-component output exactly when the output norm exceeds 1e-8; rounding never causes a rejection |
| Vectors.L2NormalizeIsUnit | backend/app/services/dinov2_service.py:149-157 | every image embedding of at most 512 components, that of the zero vector included, has norm within 1/1000 of 1 |
| Vectors.L2NormalizeDirection | backend/app/services/dinov2_service.py:149-157 | each component times the norm is that of the vector, up to 0.0000005 times the norm; the zero vector becomes the uniform one |
| Vectors.FaceEmbeddingDirection | backend/app/services/face_embedding_service.py:155-162 | the same for the face embedding of an output of norm above 1e-8, while any other output is only rounded |
| Rounding.TiesToEven | backend/app/services/dinov2_service.py:157 | halfway between two integers the even one is taken |
| VectorStore.MemoryStore.Put | backend/app/services/qdrant_service.py:164-169 | an upsert replaces the entry in place or appends it; ids stay distinct |
| VectorStore.MemoryStore.UpsertImage | backend/app/services/qdrant_service.py:136-169 | the entry carries the tenant tags, overridden by the metadata given with it |
| VectorStore.MemoryStore.UpsertFace | backend/app/services/qdrant_service.py:246-295 | the entry of a face carries its tags, overridden by the metadata given with it |
| VectorStore.ImageTags | backend/app/services/qdrant_service.py:136-142 | which value each key of an image vector carries |
| VectorStore.FaceTags | backend/app/services/qdrant_service.py:260-269 | which value each key of a face vector carries |
| VectorStore.FaceTagsAbsent | backend/app/services/qdrant_service.py:260-269 | a face vector carries no other keys, and none for an id that is not given |
| VectorStore.MemoryStore.SearchSimilar | backend/app/services/qdrant_service.py:232-241 | the image search returns a top-k list: every hit is tagged for the searching organisation under `org_id` or `organization_id` and reaches the threshold, and with room for all of them every such vector is returned |
| VectorStore.MemoryStore.SearchSimilarFaces | backend/app/services/qdrant_service.py:359-373 | so does the face search: every hit is tagged with the searching organisation and, if a data set is named, with that data set, and with room for all of them every such face is returned |
| VectorStore.SearchIsTopK | backend/app/services/qdrant_service.py:232-241 | for every store, similarity, filter, threshold and limit: hits are eligible, distinct, sorted by rounded score, at most `limit`; an eligible vector left out scores no higher than any hit and is left out only when the list is full |
| VectorStore.SortDescending | backend/app/services/qdrant_service.py:240 | the sort leaves scores descending |
| VectorStore.SortStable | backend/app/services/qdrant_service.py:240 | hits with equal scores keep the order of the store |
| VectorStore.OmittedWithinRounding | backend/app/services/qdrant_service.py:237-241 | an omitted vector is more similar than a returned one by at most the rounding step |
| VectorStore.VisibleElsewhereIff | backend/app/services/qdrant_service.py:136-142 | a vector is visible to another organisation exactly when its metadata names that organisation in a tenant tag |
| VectorStore.UpsertAndSearchFaces | backend/app/services/qdrant_service.py:256-373 | a face whose metadata names no organisation is never returned to another organisation after the upsert, and is returned to its own, given room, when it reaches the threshold |
| VectorStore.FaceVisibleElsewhereIff | backend/app/services/qdrant_service.py:260-373 | a face is visible to another organisation exactly when its metadata names that organisation |
| Classifiers.MatchRank | backend/app/services/image_matching_service.py:91-223 | apart from identical files, the class is the better of what the cosine and the nearer hash are worth alone |
| Classifiers.MatchTier | backend/app/services/image_matching_service.py:91-223 | which tier is reported, for every combination of signals |
| Classifiers.NearestMeaning | backend/app/services/image_matching_service.py:95-110 | the hash distance used is the least of those of the complete pairs of hashes |
| Classifiers.ExactIff | backend/app/services/image_matching_service.py:91-97 | two images are one file to the matching service exactly when the candidate has a digest and both differ in letter case only, and to the correlation service exactly when the digests are equal |
| Classifiers.MatchThresholds | backend/app/services/image_matching_service.py:111-223 | the classes by their thresholds: cosine 0.88, 0.72 and 0.55, distance 8 and 18 |
| Classifiers.MatchScores | backend/app/services/image_matching_service.py:91-223 | the score of every class, rounded to four decimals: 1, 1 - d/64, the cosine, or the better of both |
| Classifiers.Evaluate | backend/app/services/image_correlation_service.py:91-190 | the correlation branches compute the label by rank, a face match standing between copy and probable relation, with the specified score and reported distances |
| Classifiers.CorrelationThresholds | backend/app/services/image_correlation_service.py:105-178 | the labels by their thresholds, a face similarity of 0.60 included |
| Classifiers.CorrelationScores | backend/app/services/image_correlation_service.py:91-182 | the score of every label, a cosine of 0.0 counting as missing: that of a deciding face is its similarity |
| Classifiers.ClassesAgreeIff | backend/app/services/image_matching_service.py:91-223 | exactly when the two services agree, over all inputs: on the files and the face, and on what the two readings of the hashes are worth beside the cosine (equal for hashes of equal length, otherwise only by coincidence) |
| Classifiers.AgreeUnlessFaceDecides | backend/app/services/image_correlation_service.py:91-178 | with lower-case digests, and hashes of equal length where both images have one, they agree exactly unless a face match decides, whichever signals are missing |
| Classifiers.EqualLengthsRank | backend/app/services/image_correlation_service.py:105-114 | hashes of equal length, or missing on either side, have the same distances and worth for both services |
| Classifiers.CapitalsDisagree | backend/app/services/image_matching_service.py:91 | a digest in capitals is the same file to the matching service only |
| Classifiers.LengthsDisagree | backend/app/services/image_correlation_service.py:58-59 | a leading zero digit is no difference to one service and the full distance to the other |
| Classifiers.ScoresAgreeIff | backend/app/services/image_correlation_service.py:151-182 | where the two services agree on the class, with hashes of equal length where both images have one, exactly when they report different scores |
| Classifiers.MatchMonotone | backend/app/services/image_matching_service.py:111-223 | with the same signals available, a higher cosine or shorter distance never lowers the class |
| Classifiers.CorrelationMonotone | backend/app/services/image_correlation_service.py:105-178 | nor the correlation label, a higher face similarity included |
| RiskEngine.Assess | backend/app/risk/engine.py:17-93 | the accumulating loop computes the specified assessment, the empty case included |
| RiskEngine.NoSignals | backend/app/risk/engine.py:25-37 | without signals an item is benign, with score 0 and full confidence |
| RiskEngine.BaseIsConvex | backend/app/risk/engine.py:39-60 | the base score is a convex combination of the confidence-weighted raw scores, and the mean confidence one of the confidences |
| RiskEngine.DeviationsCancel | backend/app/risk/engine.py:39-60 | the weighted deviations of the signals from the base score cancel |
| RiskEngine.TwoSignals | backend/app/risk/engine.py:47-60 | the base score and confidence of a signal from a known and one from an unknown source, which weighs a tenth |
| RiskEngine.DefaultMean | backend/app/risk/policy.py:16-34 | under the default policy rules and model weigh 35 hundredths each, threat intelligence 20 and heuristics 10 |
| RiskEngine.BaseInRange | backend/app/risk/engine.py:39-67 | signals in their declared ranges give a base score in 0..100 and a confidence in 0..1; the clamp acts only in an environment that raises the score |
| RiskEngine.OrderIrrelevant | backend/app/risk/engine.py:47-60 | reordering the signals changes nothing but the order of the reasons |
| RiskEngine.BaseMonotone | backend/app/risk/engine.py:47-60 | raising raw scores never lowers the base score |
| RiskEngine.AssessmentMonotone | backend/app/risk/engine.py:39-93 | nor the reported score, the severity, the verdict (benign, suspicious, malicious) or the alert flag |
| RiskEngine.AssessmentBands | backend/app/risk/policy.py:35-53 | with ordered thresholds each severity has its band of final scores, and the verdict is malicious exactly for high and critical, suspicious exactly for low and medium, and benign exactly for info |
| RiskEngine.DefaultBands | backend/app/risk/policy.py:16-53 | the bands of the default policy begin at 80, 60, 35 and 15, and alerts at 40; score and confidence are reported to two decimals |
| RiskEngine.FinalIsProduct | backend/app/risk/engine.py:66-67 | the final score is the base score times the multiplier, cut to 0..100 |
| RiskEngine.FirstsMeaning | backend/app/risk/engine.py:90 | the reasons are those of all signals, each once, in order of first occurrence |
| RiskEngine.SeverityDecidesIff | backend/app/risk/policy.py:35-53 | over scores in 0..100 the verdict is a function of the severity alone exactly when all critical scores have one verdict, stated on the thresholds; a threshold for high not above the one for critical, as in the default policy, suffices |
| RiskEngine.GetMultiplier | backend/app/risk/context.py:30-48 | the stepwise multiplier is the product of the four factors |
| RiskEngine.Multiplier | backend/app/risk/context.py:30-48 | it lies between 0.765 and 1.6445 |
| RiskEngine.MultiplierRatios | backend/app/risk/context.py:30-48 | the factor of each feature of the environment, whatever the others are |
| RiskEngine.AlertDecision | backend/app/services/analysis_orchestrator.py:210-211 | for every policy, an alert is raised exactly from the lowest of 39.995 and the thresholds for high and critical, the flag is set from the policy's own threshold, and a flag threshold not below the former never flags in vain |
| RiskEngine.DefaultAlertDecision | backend/app/services/analysis_orchestrator.py:210-211 | under the default policy every flagged assessment raises an alert in spite of the rounding, and an alert is raised without the flag exactly for final scores in [39.995, 40) |
| RiskEngine.AlertNotAskedFor | backend/app/services/analysis_orchestrator.py:210-211 | one rule signal of 39.996 raises an alert the engine did not ask for |

## Left out

- CanonicalUrl.SameCanonIff: compares canonical forms as records of scheme, host, path and pairs. Parsing and printing
  by `urllib` is not modelled; encoding and decoding of pairs is taken to be inverse, and relative references such as
  `x` and `/x`, which print alike without a host, stay distinct here.
- CanonicalUrl.IdempotentIff: rereading a printed canonical form is modelled field by field, including the params of
  the last segment, for forms whose host and path print unambiguously.
- Letter case and white space outside ASCII: `lower` and `strip` are modelled on ASCII letters and white space.
- URLs wrapped in dictionaries or lists (`_extract_url_str` beyond plain strings): the parsed URL is the input.
- Absent texts: `None` and the empty string are one value, since the modelled code only tests truth.
- Discovery.Deduplicate: takes the result objects to be pairwise distinct, as the parsers create them.
- Discovery.DiscoveryRecord.MergeIn: metadata as delivered is taken to have no keys `providers` or `provider_sources`.
- Monitoring: items come from `candidate_source_override`; `query_all` is not part of this model. Timestamps, events
  and timeline entries are left out, as is the scan pipeline replacing the metadata of a monitored row.
- PdfReport.GeneratePdf: starts from the rendered report text; the text, CSV and JSON renderings are left out. The
  reader covers one cross-reference section, direct stream lengths, unfiltered streams and one text object per page,
  not PDF as a whole.
- RetryDispatch.Dispatch: `Retry-After` counts as digits only in ASCII; exceptions other than timeouts and network
  errors, which leave the loop at once, are left out.
- RateLimits.WindowSafety: the condition on the readings is sufficient only; whether a run that looks back at a pruned
  time breaks the bound also depends on the limit.
- RateLimits.KeysIndependent: one limit and window per key; endpoints that share a path with different windows would
  prune each other's list.
- CircuitBreaker.CallsSpaced: overlapping calls, which a half-open breaker all lets through, are not bounded; that the
  clock does not step back is sufficient only.
- RateLimits and CrawlThrottle: the atomicity of a check is assumed, since neither limiter awaits inside it and the
  throttle holds its lock.
- PerceptualHash.DistanceOfValues: signs, underscores, blanks and the prefix `0x`, which Python's `int` also accepts,
  count as malformed here.
- Image decoding, resizing, the cosine transform and the median: the bits are the input.
- Vectors: single precision and rounding error of sums; the square root is an argument with its defining property;
  NaN.
- VectorStore: the Qdrant client; the model name and version in a face payload; a tag that is `None` is an absent
  one; the similarity is any function of the stored vector.
- Classifiers: the cosine and face similarities are inputs, so that a dimension mismatch, which raises in one service
  and counts as missing in the other, is not modelled; explanations and model information are left out.
- RiskEngine.Assess: signal names, contributing factors, the summary and the recommendations.
- Robots rules, authentication, retention, dashboards, provider parsing and the database layer: plumbing or
  foreign calls.

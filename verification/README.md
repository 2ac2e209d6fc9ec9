# The deterministic planning engine, modelled and proved

This project models the parts of the travel application that decide things without a language model: the JSON
extractors, the text chunker, the two itinerary repair engines, the route scheduler and mock generator with the
validator they are checked by, the grounding rotation, the template adapter with its validator, and the payload
sanitizer of the AI planning service; and the asset cache of the web application's service worker.

Code that works step by step is modelled as classes and methods with loops, each proved equal to a specification
function; the promises are then proved about those functions, for every input. What a function computes is also stated
without its helpers, in terms of the input alone: by quantifiers over positions, words, legs, issues and items.

| file | what it models |
|---|---|
| `Wrappers.dfy`, `Text.dfy`, `Numbers.dfy`, `Sequences.dfy` | options and results, Python string operations, quotients, sums, stable sorting, greedy choice |
| `Clock.dfy` | `HH:MM` times as strings and as minutes |
| `JsonText.dfy`, `JsonScanner.dfy` | JSON texts with their printer (RFC 8259), the object scanner and the two first/last-brace extractors |
| `Chunker.dfy`, `ChunkerLaws.dfy`, `ChunkerLayout.dfy` | the knowledge chunker; what its chunks keep; how lines, blocks and chunks are laid out |
| `AssetCache.dfy`, `AssetCacheSteps.dfy` | the service worker's `cacheFirst`, alone and interleaved (Cache: section 5.4 of the W3C Service Workers specification) |
| `Itinerary.dfy`, `Repair.dfy` | `repair_itinerary` |
| `RepairPlan.dfy`, `RepairTargets.dfy`, `RepairEffects.dfy` | what a run of it changes: its plan, what the request makes of that plan, what becomes of every item |
| `RepairLaws.dfy`, `RepairLog.dfy`, `RepairCost.dfy`, `RepairSchedule.dfy` | what it promises: conservation, the log, the cost, the schedule |
| `GenerationRepair.dfy`, `GenerationHandling.dfy`, `GenerationRepairLaws.dfy` | `repair_generation_output`; what each kind of issue does; what a run keeps and logs |
| `Plan.dfy`, `Validator.dfy`, `ValidatorReports.dfy` | generated itineraries and `ItineraryValidator`: what it accepts, and which fault it reports |
| `RoutePlan.dfy`, `RoutePlanLaws.dfy`, `Grounding.dfy`, `Generator.dfy`, `GeneratedDays.dfy`, `GeneratorLaws.dfy`, `RouteNames.dfy` | the route scheduler, the grounded rotation, the templates, `generate`, every generated day item by item, and the validator's verdict on them |
| `TemplateAdaptation.dfy`, `TemplateReports.dfy`, `TemplateAdaptationLaws.dfy` | the template adapter, its validator, the merging of warnings |
| `Privacy.dfy`, `PrivacyLaws.dfy`, `PrivacyReports.dfy` | `sanitize_ai_payload`; what it removes and keeps; what it reports, in order |

Amounts are reals counted in cents, so that rounding (`quantize`, ties to even) is stated exactly; dates count
days from a fixed origin; exceptions and `None` are `Result` and `Option` values; a missing text is the empty
text. Clocks, the network, `json.loads` and the schemas are not modelled: inputs are values that already satisfy
the schemas.

Some promises hold only under a condition, which is then proved exactly:

- The first/last-brace extractors agree with the scanner if and only if no `}` follows the scanner's object
  (`JsonScanner.ExtractorAgreement`).
- A change of `repair_itinerary` is meant to be logged with the item as it was. The record is a shallow copy,
  and cutting a structured cost rewrites that cost in place, so the record holds the cut cost
  (`RepairLog.CutIsLoggedAsCut`). It agrees with the old item if and only if the change is no such cut, or the
  cut changes nothing (`RepairLog.RecordIsFaithful`).
- Replaying the log by day number, with the recorded costs set aside, gives the repaired itinerary when every change
  was made on a day that is numbered and the first under its number, and never when a late move or a rest was made
  on another day; with the costs checked, if and only if moreover the run cuts nothing but bare amounts and single
  cents that are written down already as a cut writes them (`RepairLog.RunReplays`). Day numbers that all differ are
  enough (`RepairLog.UniqueNumbersReplay`); two days under one number are not (`RepairLog.TwinDaysCannotBeReplayed`).
- Repeated schedule runs that replace nothing end without late items and restless days if and only if there are none,
  or fewer costs that outlast every cut than the change limit allows, and rests are asked for, not needed, or reached
  because no cost lasts (`RepairSchedule.RepeatedRunsFinish`). A single cent under a budget issue can keep them from it
  for ever (`RepairSchedule.CentTakesEveryRun`), and so can a disallowed issue
  (`RepairSchedule.ReplacingNeverFinishes`).
- A budget cut leaves an item counting for no more than before if and only if the item has no amount, counts in
  another currency, is cut to nothing, or is at least a cent and counted in the trip's currency already
  (`RepairCost.CutNeverRaises`). It fails for a blank currency, which counts for nothing until the cut writes the
  trip's currency (`RepairCost.BlankCurrencyCutRaises`), and for amounts strictly between 5/7 of a cent and one
  cent (`Itinerary.ReductionRaisesOnlySubCents`).
- `repair_generation_output` compares such shallow copies to decide what to log. A filled item goes unlogged if
  and only if only its currency entry was off (`GenerationRepairLaws.CurrencyFillIsUnlogged`), and of all handlers
  only schema repairs that do that, or pad a day, change something quietly (`GenerationRepairLaws.UnloggedChanges`).
  Its warning that no repair was available means that the itinerary comes back as it was if and only if no issue asks
  for such a repair of the input, its days are numbered in order and titled where they would be put so quietly, every
  day is in the order of the closing sort, and the output has a currency
  (`GenerationRepairLaws.WarningMeansUntouched`).
- After a day-count repair the days are numbered exactly as expected if and only if no issue in the list adds a
  day of its own: one that names a day outside the trip and asks for a required field, or for the transfer of a
  known leg (`GenerationRepairLaws.RunNumbersDays`).
- An item moved behind an arrival keeps its length if and only if it still ends within the day
  (`GenerationRepairLaws.MovedItemKeepsItsLength`).
- A second repair marks a name again if and only if the name was made of blanks only (`Itinerary.NameIsMarkedOnce`).
- Padding a day keeps its times in order if and only if the first pad starts after the last item and 23:00 is not
  reached before the last pad (`RoutePlanLaws.PaddingKeepsOrder`); on route days there is always room.
- A generated route itinerary is accepted if and only if the legs it travels are priced as transport, no day of it
  repeats a name, and its total fits the budget (`Generator.RouteVerdict`). No day does in a translated language
  (`GeneratorLaws.TranslatedRouteVerdict`), nor in English when no destination or arrival ends in "walk"
  (`RouteNames.EnglishRouteVerdict`).
- An adapted template is accepted if and only if every retained item has well-formed times and no negative cost
  (`TemplateAdaptationLaws.AdaptationVerdict`).
- The times both validators accept include one final newline, because `$` in their pattern matches before it;
  `Clock.MatchesTimePattern` follows the code.

Run `dafny verify dfyconfig.toml` with Dafny 4.11 to check everything.

## Model

| member | source | states |
|---|---|---|
| JsonScanner.ExtractFirstJsonObject | services/ai-planning-service/app/services/llm_response_parser.py:292-322 | the loop over depth, in-string and escaped returns what the fold over the scanner's state finds, and fails in the same two ways |
| JsonScanner.FirstObjectIsShortestBalanced | services/ai-planning-service/app/services/llm_response_parser.py:297-322 | a result is the shortest stretch from the first `{` whose braces outside string literals balance, and there is none exactly when none balances |
| JsonScanner.RoundTrip | services/ai-planning-service/app/services/llm_response_parser.py:292-322 | for every valid JSON object, any text without `{` before it and any text after it, the scanner returns exactly the printed object |
| JsonScanner.TruncationIsReported | services/ai-planning-service/app/services/llm_response_parser.py:293-295 | cut before its last character, the same object is reported as missing or incomplete |
| JsonScanner.FailureIsExplained | services/ai-planning-service/app/services/llm_response_parser.py:292-322 | no object is found exactly without an opening brace; with one that never closes the object is incomplete |
| JsonScanner.PrintedObjectsArePrefixFree | services/ai-planning-service/app/services/llm_response_parser.py:313-322 | no printed object is a proper prefix of another |
| JsonScanner.SlicesAgree | services/ai-planning-service/app/services/destination_suggestion.py:384-393 | stripping and code fences never matter: both services cut from the first `{` to the last `}` |
| JsonScanner.SliceIsBetweenBraces | services/ai-planning-service/app/services/copilot.py:299-306 | both services find nothing unless a `{` stands before a `}`, and else the stretch from the first `{` to the last `}` |
| JsonScanner.ExtractorAgreement | services/ai-planning-service/app/services/copilot.py:299-306 | whenever the scanner succeeds, the two brace slices equal its object if and only if no `}` comes after it |
| JsonScanner.ExtractorsAgreeOnPrintedObject | services/ai-planning-service/app/services/copilot.py:303-306 | on a printed object with no `{` before and no `}` after it all three extractors give the same text |
| Chunker.SplitBlocks | services/ai-planning-service/app/services/knowledge_chunker.py:47-65 | the loop over lines builds the blocks of the text |
| Chunker.SplitLongBlock | services/ai-planning-service/app/services/knowledge_chunker.py:75-90 | the window loop builds the windows of the block, and ends |
| Chunker.PackBlocks | services/ai-planning-service/app/services/knowledge_chunker.py:17-42 | the packing loop with its overlap carry builds the packed chunks; how they lie on the blocks and what is carried is `ChunkerLayout.ChunksAreLaidOut` |
| Chunker.StripChunks | services/ai-planning-service/app/services/knowledge_chunker.py:44 | blank chunks are dropped, the others stripped, in order |
| Chunker.ChunkText | services/ai-planning-service/app/services/knowledge_chunker.py:6-44 | the whole method computes the chunks of the text for any limits, clamped as the code clamps them; the chunks themselves are described by `ChunkerLayout.ChunksAreLaidOut` |
| ChunkerLayout.ChunksAreLaidOut | services/ai-planning-service/app/services/knowledge_chunker.py:6-44 | within the limit a text is its own only chunk; beyond it, an overlong block is cut into windows, the others are joined while they fit (by a newline before a list item, else a blank line), and a chunk that follows another opens with its tail unless that does not fit |
| ChunkerLayout.NextChunkCarriesOver | services/ai-planning-service/app/services/knowledge_chunker.py:31-42 | of two consecutive chunks the second starts with the tail of the first, its separator and a block, or with that block alone only when the tail is empty or the text would exceed the limit, or comes from an overlong block |
| ChunkerLayout.OverlapTailIs | services/ai-planning-service/app/services/knowledge_chunker.py:102-113 | the tail is the stripped last overlap characters of the chunk, cut at its first space or newline when that is not its first character |
| ChunkerLayout.WindowsCutUp | services/ai-planning-service/app/services/knowledge_chunker.py:75-90 | a window ends at the block's end when that is within the limit, else at the last gap the limit leaves, else at the limit; the next starts the overlap earlier, but never where the window itself starts |
| ChunkerLayout.BlocksAreGrouped | services/ai-planning-service/app/services/knowledge_chunker.py:47-72 | each list item is a block, and so is each longest stretch of plain lines, joined by single spaces, in order |
| ChunkerLayout.BulletIsMarked | services/ai-planning-service/app/services/knowledge_chunker.py:3 | a line is a list item exactly when it starts with `-`, `*`, `+`, or digits closed by `.` or `)`, and whitespace after that |
| ChunkerLayout.ReturnCountsAsNewline | services/ai-planning-service/app/services/knowledge_chunker.py:12 | a carriage return, with the newline after it if any, counts as one newline |
| ChunkerLaws.ChunksAreLossless | services/ai-planning-service/app/services/knowledge_chunker.py:6-90 | every chunk repeats at most the overlap from the end of the one before; what it adds is, chunk after chunk, exactly the text's visible characters in order |
| ChunkerLaws.WithoutOverlapNothingRepeats | services/ai-planning-service/app/services/knowledge_chunker.py:6-90 | with overlap 0 the concatenated chunks have exactly the text's visible characters in order |
| ChunkerLaws.ChunksAreBounded | services/ai-planning-service/app/services/knowledge_chunker.py:11-44 | every chunk is non-empty, trimmed and at most the limit long |
| ChunkerLaws.BlocksStayWhole | services/ai-planning-service/app/services/knowledge_chunker.py:20-39 | every block that fits stands whole inside one chunk |
| ChunkerLaws.OverlapTailIsSuffix | services/ai-planning-service/app/services/knowledge_chunker.py:102-113 | what is carried over is never more than a suffix of the closed chunk, at most the overlap long; what it is exactly says `ChunkerLayout.OverlapTailIs` |
| ChunkerLaws.WindowsOnlyAdvance | services/ai-planning-service/app/services/knowledge_chunker.py:78-89 | the next window starts strictly later and never ends earlier |
| ChunkerLaws.WindowsLossless | services/ai-planning-service/app/services/knowledge_chunker.py:75-90 | the windows cover every visible character of the block, repeating at most the overlap each |
| ChunkerLaws.WindowsAreStretches | services/ai-planning-service/app/services/knowledge_chunker.py:84-86 | every window is a trimmed, non-empty stretch of the block within the limit |
| ChunkerLaws.InkOfBlocksFrom | services/ai-planning-service/app/services/knowledge_chunker.py:47-72 | splitting into blocks keeps every visible character in order |
| AssetCache.Cache.PutEntry | apps/web/public/sw.js:105 | `put` drops an entry for the same URL and appends the new one |
| AssetCache.Cache.PruneRuntimeAssets | apps/web/public/sw.js:111-116 | the oldest runtime entries beyond 120 are deleted, one by one |
| AssetCache.Cache.CacheFirst | apps/web/public/sw.js:96-109 | a hit or a failed response changes nothing; a good miss is stored and the cache pruned |
| AssetCache.PruneKeepsTheLast | apps/web/public/sw.js:111-116 | pruning keeps exactly the last 120 runtime entries in order and every other entry |
| AssetCache.SurvivorsAreMostRecent | apps/web/public/sw.js:96-116 | one handler at a time, the surviving runtime entries are exactly the 120 most recently inserted, in order |
| AssetCache.RunKeepsInvariant | apps/web/public/sw.js:96-116 | however store, key-snapshot and delete steps of any number of handlers interleave, the bound on live entries holds from the first snapshot on |
| AssetCache.QuietCacheIsBounded | apps/web/public/sw.js:96-116 | once all handlers have finished at most 120 runtime entries remain |
| AssetCache.ShellIsOnlyInstalled | apps/web/public/sw.js:12-19 | no interleaving of handlers deletes, adds or reorders an app-shell entry: the shell is what the install events alone make it |
| AssetCache.AloneIsServe | apps/web/public/sw.js:96-116 | a handler that runs alone through its asynchronous steps, its deletions in any order, stores and prunes exactly when a good response comes, and leaves the cache alone otherwise; a request found here or in another cache is never fetched |
| AssetCacheSteps.StepsAreSteps | apps/web/public/sw.js:96-116 | every event takes its handler from one phase to the next with the effect that phase has: a hit ends it, a miss found nowhere is fetched, only a good response is stored |
| AssetCacheSteps.EnabledByPhase | apps/web/public/sw.js:96-116 | a handler is ready for exactly one kind of event in each phase, and for none once it is finished |
| AssetCacheSteps.CanFinish | apps/web/public/sw.js:96-116 | from every state every handler can be run to its end without the others |
| Clock.ParseOfFormat | services/ai-planning-service/app/services/itinerary_generator.py:1820-1838 | formatting then parsing is the identity on 0..1439 |
| Clock.FormatOfParse | services/ai-planning-service/app/services/itinerary_generator.py:1828-1838 | parsing then formatting is the identity on well-formed times |
| Clock.OrderAgrees | services/ai-planning-service/app/services/itinerary_validator.py:111 | on well-formed times string order is minute order |
| Clock.AddMinutesIsClamped | services/ai-planning-service/app/services/itinerary_generator.py:1820-1825 | a moved time is well-formed, counts an unreadable time as noon and stays within the day |
| Clock.LateOnClock | services/ai-planning-service/app/services/itinerary_generator.py:1310-1318 | a well-formed time is late exactly when its string is past 21:00 |
| Itinerary.ReductionRaisesOnlySubCents | services/ai-planning-service/app/services/itinerary_generator.py:341 | the rounded 30% cut raises a positive amount if and only if it lies strictly between 5/7 of a cent and a cent |
| Itinerary.SavingMonotone | services/ai-planning-service/app/services/itinerary_generator.py:341 | on whole cents a dearer item never saves less |
| Itinerary.ByCostMembers | services/ai-planning-service/app/services/itinerary_generator.py:1269-1277 | the ranking lists every item with an amount once, dearest first |
| Itinerary.NameIsMarkedOnce | services/ai-planning-service/app/services/itinerary_generator.py:1294-1298 | marking a name twice marks it once if and only if the name is not made of blanks only |
| Itinerary.NameKeepsText | services/ai-planning-service/app/services/itinerary_generator.py:1294-1298 | a marked name starts with the whole stripped name and has the mark; it is left alone exactly when the mark was there, case apart |
| Itinerary.NoteIsAppendedOnce | services/ai-planning-service/app/services/itinerary_generator.py:1301-1307 | however often a note is appended it is there once |
| Itinerary.NoteKeepsText | services/ai-planning-service/app/services/itinerary_generator.py:1301-1307 | a note starts with the whole stripped text; it is left alone exactly when the extra text was in it |
| Repair.ItineraryRepair.ChangeBudget | services/ai-planning-service/app/services/itinerary_generator.py:333-357 | the loop cuts the dearest positive amounts the change limit leaves room for, and logs each with the record the code is left with: a structured cost in `before` is the one just cut |
| Repair.ItineraryRepair.ChangeLateItems | services/ai-planning-service/app/services/itinerary_generator.py:359-384 | the loops move late items in reading order until the limit |
| Repair.ItineraryRepair.AddRestBlocks | services/ai-planning-service/app/services/itinerary_generator.py:386-416 | the loop appends a rest block to each day without one until the limit |
| Repair.ItineraryRepair.ReplaceDisallowed | services/ai-planning-service/app/services/itinerary_generator.py:418-442 | the loop rewrites the located targets until the limit; which these are says `RepairTargets.PlanFollowsRequest` |
| Repair.ItineraryRepair.Run | services/ai-planning-service/app/services/itinerary_generator.py:324-490 | the run in any mode leaves the specified itinerary and log and reports the matching summary; both are read off the request in `RepairTargets.PlanFollowsRequest` and `RepairEffects.RunEndsAsPlanned` |
| RepairTargets.PlanFollowsRequest | services/ai-planning-service/app/services/itinerary_generator.py:324-461 | read off the request alone: the operations its mode or issues ask for; the dearest items first, late items and restless days in reading order, replacements at the issues' own pairs, each as far as the limit leaves room; the fallbacks when all find nothing |
| RepairTargets.OperationsCalledFor | services/ai-planning-service/app/services/itinerary_generator.py:444-453 | an operation is called for by mode policy_compliance, by its own mode, or by a word in the selected issue types, or in the issues' types when none is selected |
| RepairTargets.PairsAreAffected | services/ai-planning-service/app/services/itinerary_generator.py:1326-1349 | the pairs to replace are the issues' own in the order given; without any, item 0 of the first numbered day that has items |
| RepairTargets.RunIsLogged | services/ai-planning-service/app/services/itinerary_generator.py:324-490 | the log lists the plan's changes in its order, each of its kind, under its day's number and its index, and the summary counts them |
| RepairEffects.RunEndsAsPlanned | services/ai-planning-service/app/services/itinerary_generator.py:324-490 | place by place: an item cut costs 70% rounded to cents, one moved is at 19:00, until 20:30 if it had an end, one replaced is marked and noted as often as it was taken, rest blocks stand last, the walking note is on the first item, and every other item is as it was |
| RepairEffects.OnlyIssuesAreReplaced | services/ai-planning-service/app/services/itinerary_generator.py:418-442 | when the issues name items, every replacement is at one of their pairs |
| RepairEffects.EveryIssueIsReplaced | services/ai-planning-service/app/services/itinerary_generator.py:418-442 | when replacements are asked for and the limit is not reached, every pair that names an item is replaced |
| RepairPlan.RunIsPlanned | services/ai-planning-service/app/services/itinerary_generator.py:333-461 | every run, in every mode, makes exactly the changes of its plan, in that order, within the limit, fallbacks included, and ends with the planned itinerary but for the walking note |
| RepairLog.RecordIsFaithful | services/ai-planning-service/app/services/itinerary_generator.py:337-342 | a record agrees with the item before the change but for its cost, and agrees in full if and only if the change is not a cut, or cuts a bare amount, no amount, nothing, or one cent written down already as a cut writes it |
| RepairLog.CutIsLoggedAsCut | services/ai-planning-service/app/services/itinerary_generator.py:337-354 | a cut of 100 EUR logs 70 EUR as the cost before: a reader who checks costs cannot replay it, one who does not can |
| RepairLog.CutsComeFirst | services/ai-planning-service/app/services/itinerary_generator.py:444-461 | no run makes a cut after a change of another kind |
| RepairLaws.RunIsAccounted | services/ai-planning-service/app/services/itinerary_generator.py:324-490 | every run logs at most maxChangedItems changes, keeps days and the places of items with leg and duration, and gains one item per logged addition |
| RepairLog.RunReplays | services/ai-planning-service/app/services/itinerary_generator.py:324-490 | replaying a run's log by day number gives the repaired itinerary when every planned change lies on a numbered day that is the first under its number (costs checked: if moreover, and only if, the cuts are recorded as they were), and never when a late move, a rest, or a cut or replacement that shows lies elsewhere |
| RepairLog.UniqueNumbersReplay | services/ai-planning-service/app/services/itinerary_generator.py:324-490 | with every day numbered and no number twice, replaying the log of any run, costs set aside, gives the repaired itinerary |
| RepairLog.TwinDaysCannotBeReplayed | services/ai-planning-service/app/services/itinerary_generator.py:386-416 | a rest added on the second of two days numbered 1 cannot be replayed |
| RepairLaws.ParserAcceptsRepair | services/ai-planning-service/app/services/llm_response_parser.py:153-161 | the parser's own date-preservation check accepts every repaired itinerary |
| RepairLaws.CountsAddUp | services/ai-planning-service/app/services/itinerary_generator.py:469-472 | changed, added, removed and moved counts sum to the number of changes |
| RepairSchedule.EachChangeRemovesOneDefect | services/ai-planning-service/app/services/itinerary_generator.py:359-416 | every late move and every added rest removes exactly one late item or restless day |
| RepairSchedule.ScheduleRunProgress | services/ai-planning-service/app/services/itinerary_generator.py:444-459 | a run that replaces nothing, in any mode, lowers late items plus days without rest by exactly its moves and rests; one that looks for late items and logs nothing leaves none |
| RepairSchedule.RepeatedRunsFinish | services/ai-planning-service/app/services/itinerary_generator.py:444-461 | repeated runs that look for late items and replace nothing (any mode but selected_issues and reduce_walking) end without late items and restless days if and only if there were none, or lasting costs leave room under the limit and rests are asked for, not needed or reached; then within the number of costs and defects |
| RepairSchedule.CentTakesEveryRun | services/ai-planning-service/app/services/itinerary_generator.py:333-357 | premise needed: with a budget issue and a limit of one, a late item of one cent stays late for ever |
| RepairSchedule.ReplacingNeverFinishes | services/ai-planning-service/app/services/itinerary_generator.py:444-461 | premise needed: with a disallowed issue and no wish for rest, a day without rest never gets one |
| RepairCost.GreedyCutIsBest | services/ai-planning-service/app/services/itinerary_generator.py:333-357 | on whole cents counted in one currency no other choice of as many items brings the total lower, and the total never rises |
| RepairCost.CutNeverRaises | services/ai-planning-service/app/services/itinerary_generator.py:1230-1266 | cutting an item leaves it counting for no more if and only if it has no amount, counts in another currency, is cut to nothing, or is at least a cent in the trip's currency already |
| RepairCost.BlankCurrencyCutRaises | services/ai-planning-service/app/services/itinerary_generator.py:1230-1266 | a cost of 100 under a blank currency counts for nothing before the cut and for 70 after it |
| RepairCost.ReportedIsTotal | services/ai-planning-service/app/services/itinerary_generator.py:1230-1243 | a reported total is what the items' amounts that are not negative and in the trip's currency add up to, rounded to cents, ties to even |
| RepairCost.RunCostIsAccounted | services/ai-planning-service/app/services/itinerary_generator.py:444-461 | in every run the total changes by exactly what the planned cuts take off their items; every other change is free |
| RepairCost.RunNeverRaisesCost | services/ai-planning-service/app/services/itinerary_generator.py:461-483 | a run whose cut items all meet that condition does not report a higher total after than before, in any mode and currency |
| GenerationRepair.OutputRepair.NormalizeDayCount | services/ai-planning-service/app/services/itinerary_generator.py:1418-1460 | the loop builds the normalised days and logs one change exactly when something differed |
| GenerationRepair.OutputRepair.RepairSchemaIssue | services/ai-planning-service/app/services/itinerary_generator.py:1486-1587 | missing day, title, items and fields are filled in; added days, titles and first items are logged, a filled item when its shallow records differ |
| GenerationRepair.OutputRepair.ReduceCostRisk | services/ai-planning-service/app/services/itinerary_generator.py:1723-1750 | the dearest positive amount is cut, one item per issue |
| GenerationRepair.OutputRepair.Run | services/ai-planning-service/app/services/itinerary_generator.py:492-531 | a missing currency is written, then normalise, handle every issue in order, sort; the warning exactly when nothing was logged; what an issue does, by its id and category, is stated in `GenerationHandling` |
| GenerationHandling.NormalizedIs | services/ai-planning-service/app/services/itinerary_generator.py:1418-1460 | with a day-count issue and a known length there is one day for each number, the first under it or a placeholder, and one change logged exactly when a number or the count was off |
| GenerationHandling.TransportIssueMovesItem | services/ai-planning-service/app/services/itinerary_generator.py:509-510 | an issue whose id tells of an activity during or before transport moves the item it points at to 30 minutes after the named leg's selected arrival, logs that, and changes nothing else |
| GenerationHandling.ClosedIssueMovesItem | services/ai-planning-service/app/services/itinerary_generator.py:516-517 | a closed-place issue moves the item it points at to 10:00, logs that, and changes nothing else |
| GenerationHandling.TransferIssueAddsTransfer | services/ai-planning-service/app/services/itinerary_generator.py:511-514 | a missing-transfer issue adds the transfer of the leg it names to the day, new if need be, unless one is there |
| GenerationHandling.TransferIssueNeedsLeg | services/ai-planning-service/app/services/itinerary_generator.py:1638-1660 | without a known leg, an id or a day it does nothing |
| GenerationHandling.BudgetIssueCutsDearest | services/ai-planning-service/app/services/itinerary_generator.py:518-519 | a budget issue cuts the dearest item, of equals the one read first, and does nothing when nothing costs |
| GenerationHandling.SchemaIssueFills | services/ai-planning-service/app/services/itinerary_generator.py:507-508 | a schema issue has the day it names there, titled, with an item, and the item it names complete, and logs each of these that was missing |
| GenerationHandling.SchemaIssueWithoutDay | services/ai-planning-service/app/services/itinerary_generator.py:1486-1500 | a schema issue that names no day gives an itinerary without days a first one, and does nothing else |
| GenerationHandling.OtherIssuesChangeNothing | services/ai-planning-service/app/services/itinerary_generator.py:505-519 | an issue of any other id and category changes nothing |
| GenerationHandling.RunSortsDays | services/ai-planning-service/app/services/itinerary_generator.py:521-531 | after the issues every day is sorted by time and name, stably, and nothing else is changed or logged |
| GenerationRepairLaws.MovedItemKeepsItsLength | services/ai-planning-service/app/services/itinerary_generator.py:1603-1612 | an item moved behind an arrival, noon when that is missing or unreadable, starts 30 minutes after it, changes only its times and note, and keeps its length if and only if it ends within the day |
| GenerationRepairLaws.CutTargetIsDearest | services/ai-planning-service/app/services/itinerary_generator.py:1728-1735 | the cost-risk handler cuts an item no other is dearer than, and acts unless nothing costs anything |
| GenerationRepairLaws.FilledItemIsComplete | services/ai-planning-service/app/services/itinerary_generator.py:1578-1587 | filling makes the required texts non-blank, keeps what was there and is done after once |
| GenerationHandling.OpeningHoursMove | services/ai-planning-service/app/services/itinerary_generator.py:1695-1720 | the item a closed-place issue points at ends up at 10:00, until 11:30 exactly when it had an end, no longer late, with its name, kind and cost |
| GenerationRepairLaws.CurrencyFillIsUnlogged | services/ai-planning-service/app/services/itinerary_generator.py:1523-1526 | a filled item is changed and not logged if and only if its currency entry alone was missing, blank or untidy |
| GenerationRepairLaws.UnloggedChanges | services/ai-planning-service/app/services/itinerary_generator.py:505-519 | of all handlers, on any itinerary, one changes something and logs nothing if and only if it is a schema repair that pads a titled day or fills a currency only |
| GenerationRepairLaws.WarningMeansUntouched | services/ai-planning-service/app/services/itinerary_generator.py:492-531 | a run that logs nothing returns the itinerary and currency it was given if and only if, of the input, no issue asks for a quiet repair, normalising would not reorder or title days quietly, every day is in sort order, and the currency is there |
| GenerationRepairLaws.SortingIsUnseen | services/ai-planning-service/app/services/itinerary_generator.py:521-525 | without any issue a day with items out of order comes back in order, and the log is empty |
| GenerationRepairLaws.CurrencyFilledUnseen | services/ai-planning-service/app/services/itinerary_generator.py:1523-1526 | a complete item whose cost has no currency gets one and nothing is logged |
| GenerationRepairLaws.TransferIsThere | services/ai-planning-service/app/services/itinerary_generator.py:1638-1683 | a transfer issue that names a known leg and a day leaves that day with the transfers of the leg it had, or exactly one when it had none |
| GenerationRepairLaws.FirstDayIsKept | services/ai-planning-service/app/services/itinerary_generator.py:1427-1447 | for each number the first input day that counts under it is kept with its items, a placeholder stands only where there is none |
| GenerationRepairLaws.NormalizingAgainReportsNothing | services/ai-planning-service/app/services/itinerary_generator.py:1449-1451 | on days numbered as expected normalising changes and reports nothing |
| GenerationRepairLaws.RunNumbersDays | services/ai-planning-service/app/services/itinerary_generator.py:492-531 | with a day-count issue and a known trip length, the final days are numbered exactly 1..expected, and normalising again reports nothing, if and only if no issue adds a day of its own |
| GenerationRepairLaws.OneDayTripGrows | services/ai-planning-service/app/services/itinerary_generator.py:492-531 | a one-day trip with a day-count issue and a field missing on day 3 does not end with the one expected day |
| GenerationRepairLaws.HandlersExtend | services/ai-planning-service/app/services/itinerary_generator.py:505-519 | no sequence of handlers removes a day or an item: days keep number and stop, places keep an item with the same leg and duration; new days come last, under new numbers |
| GenerationRepairLaws.AddressesAreStable | services/ai-planning-service/app/services/itinerary_generator.py:505-519 | with unique numbers and no day-count issue every issue but a budget issue rewrites the item at the day and index it names in the input, whatever came before it |
| GenerationRepairLaws.OtherItemsUntouched | services/ai-planning-service/app/services/itinerary_generator.py:505-519 | a handler leaves every existing item but its one target exactly as it was |
| GenerationRepairLaws.RunKeepsUntargeted | services/ai-planning-service/app/services/itinerary_generator.py:492-531 | every item of the normalised input that no issue targets keeps its place until the sort, and its day ends with all such items, as often as they occurred |
| GenerationRepairLaws.RunKeepsTransfers | services/ai-planning-service/app/services/itinerary_generator.py:1642-1643 | per day and leg, whatever the input: no run loses a transfer item, and only a day without one gains one |
| GenerationRepairLaws.NormalizingKeepsTransfers | services/ai-planning-service/app/services/itinerary_generator.py:1427-1447 | normalising gives a day the transfers of the first input day under its number, a placeholder none |
| GenerationRepairLaws.SortPermutesDays | services/ai-planning-service/app/services/itinerary_generator.py:1841-1848 | the closing sort is a stable permutation of each day into key order |
| GenerationRepairLaws.SortedTimesAgreeWithStrings | services/ai-planning-service/app/services/itinerary_validator.py:111 | after the minute-keyed sort well-formed times stand in the order the validator checks on strings |
| Validator.Validate | services/ai-planning-service/app/services/itinerary_validator.py:42-164 | the nested loops report the first fault in reading order, and the budget only when there is none; which fault that is says `ValidatorReports.FirstFaultIsReported` |
| Validator.ValidateItems | services/ai-planning-service/app/services/itinerary_validator.py:84-142 | the inner loop with its seen sets and previous time reports the day's first fault and totals its costs; each fault is described by `ValidatorReports.ItemFaultIsFirst` |
| Validator.OrderIsPairwise | services/ai-planning-service/app/services/itinerary_validator.py:104-116 | no repeated time and neighbours in order is the same as every later item being strictly later |
| Validator.AcceptsExactlyTheAcceptable | services/ai-planning-service/app/services/itinerary_validator.py:42-164 | nothing is raised exactly on itineraries that meet every requirement written out: days, texts, times, transfer details with a known mode, costs, and a total within the budget |
| ValidatorReports.FirstFaultIsReported | services/ai-planning-service/app/services/itinerary_validator.py:42-164 | the code raised is that of the first failing check in reading order, the budget last; each code with its own condition |
| ValidatorReports.ItemFaultIsFirst | services/ai-planning-service/app/services/itinerary_validator.py:84-142 | at an item the code is that of the first check that fails, in the code's order: texts, times, order, duplicates, transfer details, mode, cost |
| RoutePlan.StopDayCounts | services/ai-planning-service/app/services/itinerary_generator.py:883-900 | the allocation loop, its closing top-up included, computes the recursive allocation |
| RoutePlan.AllocationIsComplete | services/ai-planning-service/app/services/itinerary_generator.py:883-900 | every stop gets a day and the counts sum to the larger of days and stops, so the top-up never fires |
| RoutePlanLaws.NightsAreNotExceeded | services/ai-planning-service/app/services/itinerary_generator.py:892-893 | a stop that is not the last never gets more days than its positive nights |
| RoutePlanLaws.NightsAreHonoured | services/ai-planning-service/app/services/itinerary_generator.py:890-893 | when all nights fit, every stop but the last gets exactly its nights and the last the rest |
| RoutePlanLaws.DaysAreSharedEvenly | services/ai-planning-service/app/services/itinerary_generator.py:894-895 | without nights no stop gets over one day more than another |
| RoutePlanLaws.SharesAre | services/ai-planning-service/app/services/itinerary_generator.py:883-900 | each stop but the last takes its nights, or an even share of what is left, at least one day and no more than leaves one for each later stop; the last takes the rest |
| RoutePlan.PadRouteItems | services/ai-planning-service/app/services/itinerary_generator.py:1075-1115 | the padding loop appends rests and activities by turns, 90 minutes apart, held at 23:00, whatever text the last time is |
| RoutePlanLaws.PaddedIs | services/ai-planning-service/app/services/itinerary_generator.py:1075-1115 | padding keeps what is there and gives the time of every item it adds in closed form |
| RoutePlanLaws.PadsAre | services/ai-planning-service/app/services/itinerary_generator.py:1075-1115 | an item added at an even place is a rest, else an activity, free of charge, in steps of 90 minutes from the end of the last item, or its start when it has none, held at 23:00 |
| RoutePlanLaws.FirstPadIs | services/ai-planning-service/app/services/itinerary_generator.py:1106-1115 | the first item of an empty day is at 10:00, and at 11:30 behind an item whose time cannot be read |
| RoutePlanLaws.PaddingKeepsOrder | services/ai-planning-service/app/services/itinerary_generator.py:1106-1115 | times in order stay in order if and only if there is room before 23:00 |
| RoutePlan.GenerateRouteItinerary | services/ai-planning-service/app/services/itinerary_generator.py:97-170 | the nested loops, their breaks and the trailing filler loop build one day per slot; the filler adds none; every day is described by `GeneratedDays.RouteDaysAre` |
| RoutePlanLaws.RouteLayout | services/ai-planning-service/app/services/itinerary_generator.py:97-170 | exactly the requested days, numbered 1..n on consecutive dates, stops in route order in unbroken runs, min(days, stops) transfer days |
| GeneratedDays.RouteDaysAre | services/ai-planning-service/app/services/itinerary_generator.py:97-170 | every day item by item: the transfer and the stay's items at their times, padded or cut to the pace, in the language asked for |
| GeneratedDays.TransferOfDay | services/ai-planning-service/app/services/itinerary_generator.py:903-975 | a transfer day starts with the transfer by the first leg from the previous stop, or the origin, to this one: its mode, names, price and arrival; the defaults are used only when there is no such leg |
| Grounding.UniquePlaces | services/ai-planning-service/app/schemas/grounding.py:119-130 | the loop keeps the first place under each key |
| Grounding.FirstsAreKept | services/ai-planning-service/app/schemas/grounding.py:119-130 | the places kept, in their order, are exactly those whose id, or name when they have none, no earlier place goes by, case apart |
| Grounding.ContextIsClean | services/ai-planning-service/app/schemas/grounding.py:108-130 | no excluded place, no key twice, every usable key still there |
| Grounding.DayRepeatsNothing | services/ai-planning-service/app/services/itinerary_generator.py:594-600 | with at least as many candidates as items a day no day repeats a place |
| Grounding.NoPlaceTwiceADay | services/ai-planning-service/app/services/itinerary_generator.py:585-618 | wet or dry, no grounded day repeats a place when there is a candidate for every item |
| Grounding.CandidatesStayDistinct | services/ai-planning-service/app/services/itinerary_generator.py:602-618 | on rainy days too keys stay distinct, and only rain-safe places are used when there are any |
| Grounding.TripIsRotation | services/ai-planning-service/app/services/itinerary_generator.py:595-600 | day after day the trip goes through one unbroken rotation of the places |
| Grounding.RotationIsFair | services/ai-planning-service/app/services/itinerary_generator.py:595-600 | in the places handed out without rain none is used more than once more than another, over any number of days |
| Generator.Generate | services/ai-planning-service/app/services/itinerary_generator.py:68-92 | by route when it has several stops, else day by day from places or templates |
| GeneratedDays.PlainDaysOf | services/ai-planning-service/app/services/itinerary_generator.py:68-92 | without a route of several stops each day is made from the places, or from the templates when there are none |
| GeneratedDays.RouteDaysOf | services/ai-planning-service/app/services/itinerary_generator.py:68-70 | a route of several stops is generated by route, every day as `GeneratedDays.RouteDaysAre` describes it |
| GeneratedDays.GroundedDayIs | services/ai-planning-service/app/services/itinerary_generator.py:585-650 | every item of a grounded day: which place stands there, with its time, kind, note and cost |
| GeneratedDays.CandidatesAre | services/ai-planning-service/app/services/itinerary_generator.py:602-618 | when the forecast for a day gives a chance of rain of 60 or more its candidates are the rain-safe places, if there are any, and all places otherwise |
| GeneratedDays.TemplateDayIs | services/ai-planning-service/app/services/itinerary_generator.py:556-654 | every item of a template day, with its time, kind, texts and cost |
| Generator.RouteVerdict | services/ai-planning-service/app/services/itinerary_generator.py:97-170 | the validator accepts a generated route itinerary, any days, pace and stops, if and only if the first leg that leads to each stop it travels to is priced as transport or not at all, names are distinct and the budget holds |
| Generator.TemplateVerdict | services/ai-planning-service/app/services/itinerary_generator.py:556-654 | a template itinerary, weather included, can only fail for a repeated name or the budget |
| Generator.GroundedVerdict | services/ai-planning-service/app/services/itinerary_generator.py:585-600 | a grounded itinerary can only fail for a blank or a repeated place name |
| Generator.StopItemsVerdict | services/ai-planning-service/app/services/itinerary_generator.py:918-1009 | every item of a stop's day passes, but for a transfer whose leg is priced as something else |
| GeneratorLaws.TranslatedRouteVerdict | services/ai-planning-service/app/services/itinerary_generator.py:97-170 | with a table of at least five different names a translated route itinerary can only fail for a leg's price category or the budget |
| RouteNames.EnglishRouteVerdict | services/ai-planning-service/app/services/itinerary_generator.py:97-170 | an English route itinerary of trimmed names, of which no destination or arrival ends in "walk", and known transport modes can only fail for a leg's price category or the budget |
| GeneratorLaws.TranslatedTemplateVerdict | services/ai-planning-service/app/services/itinerary_generator.py:841-849 | with such a table a translated template itinerary can only fail for the budget |
| GeneratorLaws.GroundedTripIsRotation | services/ai-planning-service/app/services/itinerary_generator.py:68-92 | the items of a generated grounded trip without rain are, in order, those of one unbroken rotation of its places, each served at most once more than another |
| TemplateAdaptation.Adapt | services/ai-planning-service/app/services/template_adapter.py:59-88 | the two loops and the localisation build the specified plan |
| TemplateAdaptation.Localize | services/ai-planning-service/app/services/template_adapter.py:191-205 | titles, names and notes are overwritten in every day, nothing else |
| TemplateAdaptation.Validate | services/ai-planning-service/app/services/template_adaptation_validator.py:39-108 | the nested loops report the first fault, or the warnings for the total |
| TemplateAdaptation.Summary.MergeWarnings | services/ai-planning-service/app/services/template_adapter.py:361-366 | the summary's list grows by the warnings not mentioned yet |
| TemplateAdaptationLaws.SourceOrder | services/ai-planning-service/app/services/template_adapter.py:62 | source days are put in offset order, none lost, equal offsets in the order given |
| TemplateAdaptationLaws.AdaptationLayout | services/ai-planning-service/app/services/template_adapter.py:59-146 | exactly the target days on consecutive dates; named items keep place, times and cost, the start falling back on the time |
| TemplateAdaptationLaws.CostIsConserved | services/ai-planning-service/app/services/template_adapter.py:369-379 | the plan costs exactly what the named items of the retained days cost |
| TemplateAdaptationLaws.AdaptationVerdict | services/ai-planning-service/app/services/template_adaptation_validator.py:39-108 | the plan is accepted if and only if every retained named item has well-formed times and no negative cost, with warnings for exactly that cost |
| TemplateReports.AdaptationDays | services/ai-planning-service/app/services/template_adapter.py:59-146 | every day of the plan: its date, its title and items made from the source day, a known kind kept and any other an activity, worded for the language |
| TemplateReports.FirstFaultIsReported | services/ai-planning-service/app/services/template_adaptation_validator.py:39-108 | the code raised is that of the first failing check in reading order; without one the warnings come back |
| TemplateReports.WarningsAreExact | services/ai-planning-service/app/services/template_adaptation_validator.py:100-146 | which warnings these are, from the request and the total |
| TemplateAdaptationLaws.MergeAddsEachOnce | services/ai-planning-service/app/services/template_adapter.py:361-366 | merging keeps what was there, adds each new warning once and loses none |
| TemplateReports.MergeIsExact | services/ai-planning-service/app/services/template_adapter.py:361-366 | what is appended is exactly the new warnings that differ, case apart, from all before them |
| TemplateAdaptationLaws.MergingAgainAddsNothing | services/ai-planning-service/app/services/template_adapter.py:361-366 | merging the same warnings again adds nothing |
| Privacy.Sanitizer.Sanitize | services/ai-planning-service/app/privacy.py:127-146 | the recursive rewrite returns the cleaned payload and appends exactly its removed paths and warnings |
| Privacy.SanitizePayload | services/ai-planning-service/app/privacy.py:122-154 | the payload, the removed paths and each warning once |
| PrivacyLaws.SensitiveByWords | services/ai-planning-service/app/privacy.py:157-161 | a key is sensitive if and only if one of its words, or all of them joined, is a keyword |
| PrivacyLaws.NothingSensitiveSurvives | services/ai-planning-service/app/privacy.py:136-145 | no sensitive key is left at any depth |
| PrivacyLaws.CleaningMirrors | services/ai-planning-service/app/privacy.py:127-146 | list lengths, the order and keys of kept entries and all scalars stay; every text is the guarded one |
| PrivacyLaws.NothingRemovedOnlyFromClean | services/ai-planning-service/app/privacy.py:141-143 | a path is reported if and only if there is something sensitive |
| PrivacyLaws.SensitivePathsAreReported | services/ai-planning-service/app/privacy.py:139-143 | every way to an outermost sensitive key is reported under its path |
| PrivacyLaws.ReportedPathsAreSensitive | services/ai-planning-service/app/privacy.py:139-143 | every reported path is the path of such a way |
| PrivacyReports.ReportsInOrder | services/ai-planning-service/app/privacy.py:127-152 | the removed fields are the paths of all outermost sensitive keys, the warnings the codes of all kept texts, both in reading order |
| PrivacyReports.WarningsAreExact | services/ai-planning-service/app/privacy.py:130-152 | a warning `path:code` is returned if and only if a kept text at that path yields that code, and each only once |
| PrivacyLaws.SecondPassRemovesNothing | services/ai-planning-service/app/privacy.py:122-154 | a second pass removes nothing, and changes nothing if guarding a text twice is guarding it once |

## Left out

- HTTP routes, settings, metrics, the OpenAI, Ollama and Chroma clients and their one-shot retry and fallback: plumbing and foreign calls.
- React hooks, Playwright code, query invalidation: thin wrappers over libraries.
- `json.loads`, Pydantic coercion, list entries that are not dictionaries: inputs are taken as typed values that satisfy the schemas; Pydantic's own stripping is taken to be Python's.
- Case folding, upper-casing and digits outside ASCII: `Lower` and `IsDigit` cover ASCII.
- Regex text redaction and prompt-injection patterns: the text guard of the sanitizer is a parameter; payload keys are texts, as in JSON.
- Descriptions and before/after records in the changes of `repair_generation_output`: a change is its type, day and item.
- Item indexes below zero in `repair_generation_output` issues: the schema handler would count those from the end of the list, the others ignore them.
- The category, confidence and source labels of a cost one by one, and the notation of its amount: one flag says whether they already are what a cut writes.
- Place reviews, coordinates, and the wording of template days, which is a parameter.
- The choice of the preferred transport mode and the title-casing of transfer names: the mode is an input, the name keeps its spelling.
- Warnings of `ItineraryValidator` about avoided terms, diets, walking and weather: text matching that never changes the verdict.
- The trip's day count and currency lookups at the head of both repairs: the expected number of days and a stripped upper-case currency are inputs.
- Fetch failures, storage quota, the `Vary` header and other caches a service-worker match may consult; push and notification handling.
- Partial regeneration, budget proposals, checklists, rollout and promotion gates: easier than what is here.

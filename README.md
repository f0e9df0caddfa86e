# ParagonAtm client automation, modelled in Dafny

ParagonAtm drives a virtual ATM through remote services:
- a virtual-machine service reads the screen as OCR text, locates text, clicks and takes screenshots;
- an ATM service reports devices, inserts cards and takes media;
- an agent service reports the agent's status, opens sessions and starts applications;
- a connection service opens the API connection.

This project models the client side of that conversation:
- **Automation** (`AutomationService`): comparing a phrase with the screen words, matching registered screens, choosing where to click for a text, and the four pollers that wait for a screen or a text.
- **Recovery** (`ClientService.DispatchToIdleAsync` and `TakeAllMediaAsync` of the library): steering the terminal back to an idle screen.
- **Connection** (`ClientService.ConnectAsync` of the library): the agent gate, the session, the cold start and the dispatch after connecting.
- **LegacyClient**: the older console-application revision of `ConnectAsync` and `DispatchToIdle`.
- **Playlist** (`PlaylistService`): validating a playlist and running its transactions' screen flows.

## How the terminal is modelled

The terminal is a class `Terminal.Atm`:
- `replies(n)` is its answer to the n-th request. It is arbitrary, so every property holds for every possible terminal.
- `trace` is the ghost list of requests issued.
- `now` is a millisecond clock; each request advances it and a delay advances it by its length.

Each client method is proved against a specification function that gives its `Run`: its result, and the exact requests it issues from a given point. The properties are lemmas about those functions. They hold for all replies: what the client sends, in what order, when it stops, and what its answer means.

Supporting modules:
- `Text`: ASCII `ToLower`/`ToUpper`, `Trim` and `Split`.
- `Ratios`: decimal confidences as exact fractions.
- `EditDistance`: the Levenshtein table.
- `Matcher`: `CompareText` and `MatchScreen`.
- `ClickResolver`: the element, line and word walk of `FindAndClickAsync`.
- `Registry`: `First`/`FirstOrDefault` lookups by name.

Recursion that has no bound in the source (a dispatcher that keeps finding screens to act on, a connect retried after every successful recovery) is bounded by `fuel`. Running out gives `OutOfFuel`.

## Model

| member | source | states |
|---|---|---|
| Text.UpperEqualIffLowerEqual | ParagonAtmLibrary/Services/ClientService.cs:67-93 | two strings are equal after upper-casing exactly when they are equal after lower-casing, so the `ToUpper().Equals` tests ignore case |
| Text.Split | ParagonAtmLibrary/Services/AutomationService.cs:36 | splitting with no options always gives at least one piece |
| Text.SplitPieces | ParagonAtmLibrary/Services/AutomationService.cs:57 | a split gives one more piece than there are split characters (empty pieces included), and no piece holds one |
| Text.SplitJoin | ParagonAtmLibrary/Services/AutomationService.cs:36 | round trip: splitting pieces joined by a split character gives the pieces back |
| Text.SplitEntries | ParagonAtmLibrary/Services/AutomationService.cs:176 | with RemoveEmptyEntries and TrimEntries every entry is non-empty and trimmed |
| Text.TrimNonEmpty | ParagonAtmLibrary/Services/AutomationService.cs:338-340 | trimming pieces and dropping blank ones keeps only non-empty trimmed pieces, never more than there were |
| Text.TrimStartDropsBlankPrefix | ParagonAtmLibrary/Services/AutomationService.cs:40 | TrimStart removes exactly a blank prefix and stops at the first other character |
| Text.TrimEndDropsBlankSuffix | ParagonAtmLibrary/Services/AutomationService.cs:40 | TrimEnd removes exactly a blank suffix and stops at the last other character |
| Text.TrimTrims | ParagonAtmLibrary/Services/AutomationService.cs:40 | a trimmed string has no white space at either end, and is empty exactly when the input was blank |
| Text.TrimOfTrimmed | ParagonAtmLibrary/Services/AutomationService.cs:40 | trimming is idempotent on trimmed strings |
| Text.LowerOfTrimmed | ParagonAtmLibrary/Services/AutomationService.cs:339 | lower-casing a trimmed word keeps it trimmed and non-blank, and the result is lower case |
| Text.LowerKeepsWhiteSpace | ParagonAtmLibrary/Services/AutomationService.cs:339 | lower-casing never turns white space into a word character or back |
| Text.LowerIgnoresCase | ParagonAtmLibrary/Services/AutomationService.cs:40 | lower-casing is idempotent and erases upper-casing |
| Text.SplitOfSeparators | ParagonAtmLibrary/Services/AutomationService.cs:338-340 | text made only of white space and split characters splits into blank pieces |
| Text.TrimNonEmptyOfBlank | ParagonAtmLibrary/Services/AutomationService.cs:340 | blank pieces all vanish once trimmed and filtered |
| Text.SplitEntriesOfSeparators | ParagonAtmLibrary/Services/AutomationService.cs:176 | a find text made only of white space and separators has no entries |
| Registry.FirstIndexFrom | ParagonAtmLibrary/Services/ClientService.cs:187 | a position found lies within the list |
| Registry.FirstIndexFromIsFirst | ParagonAtmLibrary/Services/ClientService.cs:187 | `First`/`FirstOrDefault`: the position found has the key and no earlier one does; none found means no element has it |
| Registry.FindScreenIsFirst | ParagonAtmLibrary/Services/ClientService.cs:136 | the screen found is the first registered with that lower-cased name; none found means none has it |
| Registry.FirstOfTypeIsFirst | ParagonAtmLibrary/Services/ClientService.cs:271 | the device found is the first of that type, ignoring case; none found means none has it |
| Ratios.Mul | ParagonAtmLibrary/Services/AutomationService.cs:263 | the value of the word confidence is the product of the values of the two fractions, computed without rounding |
| Ratios.AtLeastTransitive | ParagonAtmLibrary/Services/AutomationService.cs:59 | comparing decimal confidences is transitive |
| Ratios.AtLeastTotal | ParagonAtmLibrary/Services/AutomationService.cs:283 | any two confidences compare, so a maximum exists |
| Ratios.MulInUnitRange | ParagonAtmLibrary/Services/AutomationService.cs:263 | a product of two confidences in (0, 1] is in (0, 1] |
| Ratios.CertainIsMaximal | ParagonAtmLibrary/Services/AutomationService.cs:208 | a confidence of 1 is the largest possible, and only a certain one reaches it |
| Ratios.MulAtMost | ParagonAtmLibrary/Services/AutomationService.cs:263 | scaling by a line confidence never raises a word's confidence |
| Ratios.SameValueCompares | ParagonAtmLibrary/Services/AutomationService.cs:283 | numerically equal fractions compare alike, as decimals do |
| EditDistance.Min3IsLeast | ParagonAtmLibrary/Services/AutomationService.cs:154 | ComputeMin is one of its inputs and no larger than any |
| EditDistance.ComputeEditDistance | ParagonAtmLibrary/Services/AutomationService.cs:91-129 | the table fill returns the Levenshtein distance of the two strings |
| EditDistance.FillRow | ParagonAtmLibrary/Services/AutomationService.cs:117-125 | one inner-loop pass fills row i with the recurrence and leaves every other row alone |
| EditDistance.EmptyDistance | ParagonAtmLibrary/Services/AutomationService.cs:93-101 | the early returns: against an empty string the distance is the other length |
| EditDistance.LevenshteinSymmetric | ParagonAtmLibrary/Services/AutomationService.cs:91-129 | the distance does not depend on argument order |
| EditDistance.LevenshteinBounds | ParagonAtmLibrary/Services/AutomationService.cs:91-129 | the distance is at least the length gap and at most the longer length |
| EditDistance.LevenshteinZeroIffEqual | ParagonAtmLibrary/Services/AutomationService.cs:91-129 | distance zero exactly for equal strings |
| EditDistance.LevenshteinAtMostMismatches | ParagonAtmLibrary/Services/AutomationService.cs:91-129 | between equal-length strings, the distance is at most the number of differing positions |
| Matcher.TokensExactly | ParagonAtmLibrary/Services/AutomationService.cs:338-340 | a screen word is exactly the trimmed, lower-cased form of a non-blank piece |
| Matcher.TokensAreWords | ParagonAtmLibrary/Services/AutomationService.cs:338-340 | every screen word is non-empty, trimmed and lower case |
| Matcher.ScreenWordsExactly | ParagonAtmLibrary/Services/AutomationService.cs:334-344 | the flattened word list holds exactly the words of every element |
| Matcher.WordsOf | ParagonAtmLibrary/Services/AutomationService.cs:325-331 | an unreadable screen gives null words and a readable one never does |
| Matcher.MatchesExactly | ParagonAtmLibrary/Services/AutomationService.cs:36-52 | a phrase piece is among the matches exactly when some screen word accepts it |
| Matcher.PhraseConfidence | ParagonAtmLibrary/Services/AutomationService.cs:57 | the confidence lies between 0 and 1; its denominator counts every piece of the split |
| Matcher.FindAccepting | ParagonAtmLibrary/Services/AutomationService.cs:38-51 | the inner loop reports whether some screen word accepts the phrase word, exactly or within the edit distance |
| Matcher.CompareText | ParagonAtmLibrary/Services/AutomationService.cs:27-69 | the loop's answer is the phrase-match predicate: some piece matched and the confidence reaches the requirement |
| Matcher.CompareTextOrRaise | ParagonAtmLibrary/Services/AutomationService.cs:29 | a null word list throws, and nothing else does |
| Matcher.AnyPhraseHolds | ParagonAtmLibrary/Services/AutomationService.cs:359-367 | the phrase loop answers true exactly when some phrase matches |
| Matcher.MatchScreen | ParagonAtmLibrary/Services/AutomationService.cs:357-368 | a screen matches exactly when one of its phrases does |
| Matcher.MatchScreens | ParagonAtmLibrary/Services/AutomationService.cs:379-393 | null exactly when no screen matches; otherwise a registered screen that matches |
| Matcher.MatchScreensIsFirst | ParagonAtmLibrary/Services/AutomationService.cs:381-390 | the screen answered comes before every other matching screen |
| Matcher.MatchScreenOrRaise | ParagonAtmLibrary/Services/AutomationService.cs:359-361 | with null words, a screen throws exactly when it has a phrase to compare; true only on a real match |
| Matcher.ExactAlwaysAccepted | ParagonAtmLibrary/Services/AutomationService.cs:40 | words equal up to case and surrounding space always match |
| Matcher.ExactOnlyWithoutDistance | ParagonAtmLibrary/Services/AutomationService.cs:45 | with no positive edit distance only exact matches count |
| Matcher.AcceptsSymmetric | ParagonAtmLibrary/Services/AutomationService.cs:40-46 | acceptance does not depend on which word is the screen's |
| Matcher.AcceptsIgnoresCase | ParagonAtmLibrary/Services/AutomationService.cs:40-46 | acceptance ignores the case of both words |
| Matcher.AllFoundAllMatch | ParagonAtmLibrary/Services/AutomationService.cs:36-52 | when every piece is found, the match list is the whole piece list |
| Matcher.NoneFoundNoMatch | ParagonAtmLibrary/Services/AutomationService.cs:36-52 | when no piece is found, nothing matches |
| Matcher.MatchCountMonotoneInDistance | ParagonAtmLibrary/Services/AutomationService.cs:45-46 | a larger edit distance never finds fewer pieces |
| Matcher.MonotoneInConfidence | ParagonAtmLibrary/Services/AutomationService.cs:59 | a phrase matching at some required confidence matches at every lower one |
| Matcher.MonotoneInDistance | ParagonAtmLibrary/Services/AutomationService.cs:45-59 | a phrase matching at some edit distance matches at every larger one |
| Matcher.NothingFoundNeverMatches | ParagonAtmLibrary/Services/AutomationService.cs:54-68 | with no piece on the screen no requirement, however low, is met |
| Matcher.FullPhraseMatches | ParagonAtmLibrary/Services/AutomationService.cs:54-63 | a phrase all of whose pieces are on the screen matches any requirement up to 1 |
| Matcher.WholeBagScreenMatches | ParagonAtmLibrary/Services/AutomationService.cs:357-368 | round trip: a screen whose phrase is the screen's own words joined by spaces matches those words |
| Matcher.CompareFormOfWord | ParagonAtmLibrary/Services/AutomationService.cs:40 | a screen word is already in the form CompareText compares |
| Matcher.MisreadWordAccepted | ParagonAtmLibrary/Services/AutomationService.cs:45-46 | with distance 1 the OCR misreading "balence" is accepted for "balance" |
| ClickResolver.MatchCount | ParagonAtmLibrary/Services/AutomationService.cs:185-199 | the word-match count is between 0 and the number of pieces |
| ClickResolver.LevelConfidenceRange | ParagonAtmLibrary/Services/AutomationService.cs:203 | a node's confidence is in (0, 1], and is 1 exactly when all its words matched and it has at least as many words as the text |
| ClickResolver.AnyWithin | ParagonAtmLibrary/Services/AutomationService.cs:195 | the `Any` loop reports whether some entry is within the edit distance |
| ClickResolver.CountMatches | ParagonAtmLibrary/Services/AutomationService.cs:188-199 | the counting loop computes the word-match count |
| ClickResolver.ResolveWords | ParagonAtmLibrary/Services/AutomationService.cs:243-267 | the word loop yields the word candidates, each scaled by the line confidence |
| ClickResolver.ResolveLine | ParagonAtmLibrary/Services/AutomationService.cs:212-269 | one line yields its candidate and, below certainty, its words' |
| ClickResolver.ResolveLines | ParagonAtmLibrary/Services/AutomationService.cs:210-271 | the line loop yields the line candidates in order |
| ClickResolver.ResolveElement | ParagonAtmLibrary/Services/AutomationService.cs:180-272 | one element yields its candidate and, below certainty, its lines' |
| ClickResolver.CollectCandidates | ParagonAtmLibrary/Services/AutomationService.cs:176-274 | the element walk yields exactly the candidate list of the screen |
| ClickResolver.SelectBest | ParagonAtmLibrary/Services/AutomationService.cs:282-284 | the choice is the first candidate of maximal confidence |
| ClickResolver.ChooseTarget | ParagonAtmLibrary/Services/AutomationService.cs:166-284 | no target on an unreadable screen or without candidates; otherwise the best candidate's box |
| ClickResolver.BestIndexIsBest | ParagonAtmLibrary/Services/AutomationService.cs:283 | an independent recursive choice (keep the earlier unless a later is larger) is the first of maximal confidence |
| ClickResolver.ClickTargetIsBest | ParagonAtmLibrary/Services/AutomationService.cs:276-284 | a target exists exactly when there are candidates, and is the box of a best one |
| ClickResolver.OnlyBestIndexIsBest | ParagonAtmLibrary/Services/AutomationService.cs:283 | there is only one best index |
| ClickResolver.BestIsUnique | ParagonAtmLibrary/Services/AutomationService.cs:283 | ties go to the earliest candidate, so no other index is best |
| ClickResolver.MatchCountZeroIff | ParagonAtmLibrary/Services/AutomationService.cs:201 | no candidate for a node exactly when none of its words counts |
| ClickResolver.MatchCountFullIff | ParagonAtmLibrary/Services/AutomationService.cs:185-199 | the count is the number of words exactly when every word counts |
| ClickResolver.NodeCertainIff | ParagonAtmLibrary/Services/AutomationService.cs:203-208 | a node stops the descent exactly when all its words count and it has at least as many words as the text |
| ClickResolver.CountsMonotone | ParagonAtmLibrary/Services/AutomationService.cs:194-195 | a larger edit distance never stops a word counting |
| ClickResolver.MatchCountMonotone | ParagonAtmLibrary/Services/AutomationService.cs:188-199 | a larger edit distance never lowers a node's count |
| ClickResolver.TrimAtWordLevelIsRedundant | ParagonAtmLibrary/Services/AutomationService.cs:255 | the extra `Trim()` at the word level changes nothing for trimmed entries |
| ClickResolver.MatchCountIgnoresTrim | ParagonAtmLibrary/Services/AutomationService.cs:246-258 | the word level counts the same with or without that trim |
| ClickResolver.NoEntryNoCount | ParagonAtmLibrary/Services/AutomationService.cs:188-199 | with no entries to find, no word counts |
| ClickResolver.NoEntryNoElementCandidates | ParagonAtmLibrary/Services/AutomationService.cs:178-274 | with no entries to find, no element gives a candidate |
| ClickResolver.BlankFindTextFindsNothing | ParagonAtmLibrary/Services/AutomationService.cs:176 | a blank find text gives no candidates on any screen |
| ClickResolver.WordsWithinLine | ParagonAtmLibrary/Services/AutomationService.cs:263 | a word candidate's confidence is in (0, 1] and at most its line's |
| ClickResolver.LineDominatesItsWords | ParagonAtmLibrary/Services/AutomationService.cs:239-266 | a line's candidate comes first and no word under it outranks it |
| ClickResolver.LinesInUnitRange | ParagonAtmLibrary/Services/AutomationService.cs:235 | every line candidate's confidence is in (0, 1] |
| ClickResolver.ElementCandidatesShape | ParagonAtmLibrary/Services/AutomationService.cs:208 | a certain element match is its own only candidate |
| ClickResolver.ElementsInUnitRange | ParagonAtmLibrary/Services/AutomationService.cs:203 | every element candidate's confidence is in (0, 1] |
| ClickResolver.CandidatesInUnitRange | ParagonAtmLibrary/Services/AutomationService.cs:203-266 | every candidate of a screen has a confidence in (0, 1] |
| Terminal.Elapsed | ParagonAtmLibrary/Services/AutomationService.cs:432-442 | a stretch of requests takes at least one tick per request |
| Terminal.ElapsedAppend | ParagonAtmLibrary/Services/AutomationService.cs:432-442 | time adds up over consecutive stretches of requests |
| Terminal.AfterAppend | ParagonAtmLibrary/Services/AutomationService.cs:432-442 | positions compose over consecutive stretches |
| Terminal.Atm.Send | ParagonAtmLibrary/Services/VirtualMachineService.cs:1-188 | one remote call: answered by the terminal's reply for that position, recorded, and the clock advanced |
| Automation.GetScreenWords | ParagonAtmLibrary/Services/AutomationService.cs:323-346 | one read, flattened into the bag of words, or null when unreadable |
| Automation.MatchScreenAsync | ParagonAtmLibrary/Services/AutomationService.cs:401-405 | one read matched against one screen; null words throw at the first phrase |
| Automation.MatchScreensOrRaise | ParagonAtmLibrary/Services/AutomationService.cs:379-393 | with words, the first matching screen; with null words, a throw exactly when some screen has a phrase |
| Automation.MatchScreensAsync | ParagonAtmLibrary/Services/AutomationService.cs:413-417 | one read matched against the list of screens |
| Automation.CompareTextAsync | ParagonAtmLibrary/Services/AutomationService.cs:79-83 | one read compared with one phrase; an unreadable screen throws |
| Automation.FindAndClick | ParagonAtmLibrary/Services/AutomationService.cs:164-292 | the method issues exactly the specified read and click and answers as specified |
| Automation.ReadAndClick | ParagonAtmLibrary/Services/AutomationService.cs:164-292 | one screen read, then a click on the midpoint of the chosen target exactly when a target was chosen; the answer is that click's acknowledgement, and false with no click when nothing matched |
| Automation.ClickChosen | ParagonAtmLibrary/Services/AutomationService.cs:276-291 | without a target: false and no request; with one: exactly one click on its midpoint, answering the acknowledgement |
| Automation.FindAndClickClicksBest | ParagonAtmLibrary/Services/AutomationService.cs:276-291 | one read, at most one click, on the midpoint of a best candidate; true only when that click succeeded |
| Automation.FindAndClickWithoutCandidates | ParagonAtmLibrary/Services/AutomationService.cs:169-173 | an unreadable screen or no candidate: one read, no click, false |
| Automation.BlankFindTextNeverClicks | ParagonAtmLibrary/Services/AutomationService.cs:176 | a blank find text is never clicked |
| Automation.TryItem | ParagonAtmLibrary/Services/AutomationService.cs:303-311 | locate the item; click only where it was found; true only when that click succeeded |
| Automation.FindAndClickAny | ParagonAtmLibrary/Services/AutomationService.cs:299-315 | the loop issues exactly the specified lookups and clicks and answers as specified |
| Automation.FindAnyLooksUpAll | ParagonAtmLibrary/Services/AutomationService.cs:301-314 | when nothing was clicked, every item was looked up, in order |
| Automation.FindAnyStopsAtClick | ParagonAtmLibrary/Services/AutomationService.cs:305-309 | after a successful click nothing more is issued; the items looked up are a prefix of the list |
| Automation.LookedUpOfTry | ParagonAtmLibrary/Services/AutomationService.cs:303-311 | trying one item looks up exactly that item, once |
| Automation.CheckProbe | ParagonAtmLibrary/Services/AutomationService.cs:437 | a poller's check is one read answered by MatchScreenAsync or CompareTextAsync |
| Automation.CheckAnswer | ParagonAtmLibrary/Services/AutomationService.cs:472-478 | the check at a given position of the list is one read, answered as that check answers |
| Automation.Round | ParagonAtmLibrary/Services/AutomationService.cs:472-478 | one pass over the checks, stopping at the first that matches |
| Automation.Poll | ParagonAtmLibrary/Services/AutomationService.cs:430-451 | the shared poll loop, a throw caught as no answer, issues exactly the specified reads and delays |
| Automation.ScreenProbes | ParagonAtmLibrary/Services/AutomationService.cs:472-474 | one screen check per screen, in order |
| Automation.TextProbes | ParagonAtmLibrary/Services/AutomationService.cs:549-551 | one text check per phrase, in order |
| Automation.WaitForScreen | ParagonAtmLibrary/Services/AutomationService.cs:426-452 | true exactly when the poll saw the screen before the deadline |
| Automation.WaitForScreens | ParagonAtmLibrary/Services/AutomationService.cs:461-490 | the screen answered is the one the poll saw; null exactly when none was seen; the terminal ends where the poll's requests and delays take its request count and clock |
| Automation.WaitForText | ParagonAtmLibrary/Services/AutomationService.cs:501-527 | true exactly when the poll saw the phrase before the deadline; the terminal ends where the poll's requests and delays take its request count and clock |
| Automation.WaitForAnyText | ParagonAtmLibrary/Services/AutomationService.cs:538-567 | true exactly when the poll saw one of the phrases before the deadline; the terminal ends where the poll's requests and delays take its request count and clock |
| Automation.RoundFacts | ParagonAtmLibrary/Services/AutomationService.cs:472-478 | a pass only reads; a hit is the check that matched on the last read, and a miss read every check once |
| Automation.PollOnlyReadsAndWaits | ParagonAtmLibrary/Services/AutomationService.cs:435-443 | a poller issues nothing but screen reads and refresh delays |
| Automation.PollHitIsMatch | ParagonAtmLibrary/Services/AutomationService.cs:437-440 | a poller answers a check only when it matched on the last read |
| Automation.PollGivesUpAtDeadlineOrThrow | ParagonAtmLibrary/Services/AutomationService.cs:435-451 | a poller gives up only after the deadline or when a check threw on the last read |
| Automation.NoTimeNoRead | ParagonAtmLibrary/Services/AutomationService.cs:432-435 | with no time left a poller reads nothing and answers nothing |
| Recovery.ClassifyIsFirstMatch | ParagonAtmLibrary/Services/ClientService.cs:187-258 | the else-if chain selects the first rule that fires; it throws only at an unregistered screen reached in turn |
| Recovery.ClassifyReaches | ParagonAtmLibrary/Services/ClientService.cs:187-252 | a rule that fires after rules that were all tried without a match decides |
| Recovery.ClassifyPassesAll | ParagonAtmLibrary/Services/ClientService.cs:253-258 | when no rule fires, the chain falls to the final else |
| Recovery.FirstFiringRuleDecides | ParagonAtmLibrary/Services/ClientService.cs:187-252 | only the first rule that fires acts |
| Recovery.NoRuleFiresUnrecognised | ParagonAtmLibrary/Services/ClientService.cs:253-258 | registered screens that all fail to match give the unrecognised branch |
| Recovery.UnregisteredLaterScreenIgnored | ParagonAtmLibrary/Services/ClientService.cs:187-246 | a later screen missing from the registry does not throw once an earlier rule fired |
| Recovery.TakeReceiptFrom | ParagonAtmLibrary/Services/ClientService.cs:273-283 | the receipt is taken only from a printer that holds media |
| Recovery.TakeMediaFrom | ParagonAtmLibrary/Services/ClientService.cs:287-295 | media are taken, all of them, only from a device that holds some |
| Recovery.TakeFromDevices | ParagonAtmLibrary/Services/ClientService.cs:271-307 | the printer, then the dispenser, then the item processor |
| Recovery.TakeAllMedia | ParagonAtmLibrary/Services/ClientService.cs:261-308 | the method issues exactly the specified requests |
| Recovery.TakeAllMediaTakes | ParagonAtmLibrary/Services/ClientService.cs:261-308 | card first, then the service list; no list stops there; a receipt exactly from the first printer with media; media exactly from the first dispenser and item processor with media, with their counts |
| Recovery.MoreTime | ParagonAtmLibrary/Services/ClientService.cs:202-221 | "no", "exit", "return card" looked up in order, each clicked only where found |
| Recovery.ReadBranch | ParagonAtmLibrary/Services/ClientService.cs:179-187 | one read, and the branch the chain selects on it |
| Recovery.ActOn | ParagonAtmLibrary/Services/ClientService.cs:199-251 | the corrective action of the branch taken |
| Recovery.ActAndWait | ParagonAtmLibrary/Services/ClientService.cs:193-257 | the branch's action followed by the standard delay, exactly as specified |
| Recovery.Pass | ParagonAtmLibrary/Services/ClientService.cs:176-259 | one pass: read, decide, act, wait, up to the tail call |
| Recovery.PassContinues | ParagonAtmLibrary/Services/ClientService.cs:193-258 | a pass that goes on reads, acts, waits the standard delay and leaves the answer to the next pass |
| Recovery.DispatchFrom | ParagonAtmLibrary/Services/ClientService.cs:176-259 | the passes issue exactly the specified requests and give the specified answer |
| Recovery.LoopUnfolds | ParagonAtmLibrary/Services/ClientService.cs:176-259 | a pass that reaches a verdict ends the loop with it after its own requests; otherwise the next pass follows from the request after this pass, with one less unit of fuel, and its answer is the loop's |
| Recovery.DispatchVia | ParagonAtmLibrary/Services/ClientService.cs:176-259 | the recursive passes issue exactly the loop's requests and return its answer, for every loop that agrees with the dispatch loop |
| Recovery.DispatchToIdle | ParagonAtmLibrary/Services/ClientService.cs:176-259 | DispatchToIdleAsync against the registered screens, as specified |
| Recovery.DispatchUnreadable | ParagonAtmLibrary/Services/ClientService.cs:182-186 | an unreadable screen: one read, no action, false |
| Recovery.IdleScreenIsIdle | ParagonAtmLibrary/Services/ClientService.cs:187-192 | at welcome or out of service the idle branch is taken |
| Recovery.DispatchAtIdle | ParagonAtmLibrary/Services/ClientService.cs:187-192 | at welcome or out of service: one read, no action, true |
| Recovery.LoopOnlyWaits | ParagonAtmLibrary/Services/ClientService.cs:193-198 | a branch without an action only reads and waits before the next pass |
| Recovery.DispatchOnlyWaits | ParagonAtmLibrary/Services/ClientService.cs:253-258 | on an unrecognised or please-wait screen a pass only waits |
| Recovery.ActionsLookUp | ParagonAtmLibrary/Services/ClientService.cs:202-233 | more time looks up "no", "exit", "return card" in order; another transaction looks up "no" |
| Recovery.MoreTimeLooksUp | ParagonAtmLibrary/Services/ClientService.cs:202-221 | the more-time branch looks up "no", "exit" and "return card", in that order, whatever the terminal answers |
| Recovery.TryIsRecovery | ParagonAtmLibrary/Services/ClientService.cs:202-221 | a lookup-and-click is made of recovery requests |
| Recovery.TakeAllMediaIsRecovery | ParagonAtmLibrary/Services/ClientService.cs:261-308 | taking all media is made of recovery requests |
| Recovery.ActionIsRecovery | ParagonAtmLibrary/Services/ClientService.cs:199-252 | every corrective action is made of recovery requests |
| Recovery.DispatchLoopOnlyRecovers | ParagonAtmLibrary/Services/ClientService.cs:176-259 | with recovery actions, the loop issues only recovery requests |
| Recovery.DispatchOnlyRecovers | ParagonAtmLibrary/Services/ClientService.cs:176-259 | dispatch never inserts a card, starts an application, opens a session or clicks where nothing was located |
| Recovery.DispatchAnswersOnRead | ParagonAtmLibrary/Services/ClientService.cs:182-192 | dispatch ends on a read: true exactly for an idle screen, false exactly for an unreadable one, a throw exactly for an unregistered one |
| Connection.IsStatusIgnoresCase | ParagonAtmLibrary/Services/ClientService.cs:67-93 | against an upper-case status name, the agent-status test holds exactly when the status and the name agree ignoring case |
| Connection.Caught | ParagonAtmLibrary/Services/ClientService.cs:156-160 | the catch-all turns a throw into false and passes every other outcome through |
| Connection.OpenSessionStage | ParagonAtmLibrary/Services/ClientService.cs:85-110 | the session stage issues exactly the specified requests and answers as specified |
| Connection.SessionFacts | ParagonAtmLibrary/Services/ClientService.cs:85-110 | true exactly when the session opened, the agent then reported APICONTROLLED and the connection opened; hardware profile exactly when not paused |
| Connection.StartRequests | ParagonAtmLibrary/Services/ClientService.cs:125-128 | one StartAtmAppAsync per configured application, in order |
| Connection.StartApps | ParagonAtmLibrary/Services/ClientService.cs:125-128 | the loop issues exactly those requests |
| Connection.ColdStart | ParagonAtmLibrary/Services/ClientService.cs:123-147 | the cold start issues exactly the specified requests |
| Connection.ColdStartFacts | ParagonAtmLibrary/Services/ClientService.cs:123-147 | apps once each in order, the startup delay, then only reads and 15 s waits; true exactly when welcome is registered and seen within 5 minutes |
| Connection.OnScreen | ParagonAtmLibrary/Services/ClientService.cs:149-154 | a matched screen other than welcome or out of service is dispatched; those two answer true |
| Connection.ScreenStage | ParagonAtmLibrary/Services/ClientService.cs:113-154 | the read after connecting: unreadable gives false, no match gives a cold start, a match gives the screen step |
| Connection.StageStep | ParagonAtmLibrary/Services/ClientService.cs:113-154 | the screen stage, seen through its specification, issues exactly what that says |
| Connection.Attempt | ParagonAtmLibrary/Services/ClientService.cs:59-110 | one attempt: the status gate, then a recovery, or the session and the screen stage |
| Connection.AttemptStep | ParagonAtmLibrary/Services/ClientService.cs:59-110 | one attempt, seen through its specification, issues exactly what that says |
| Connection.ConnectFrom | ParagonAtmLibrary/Services/ClientService.cs:72-76 | after a successful recovery the method calls itself, as specified |
| Connection.Connect | ParagonAtmLibrary/Services/ClientService.cs:55-161 | ConnectAsync issues exactly the specified requests and answers as specified |
| Connection.DispatchLoopAnswers | ParagonAtmLibrary/Services/ClientService.cs:176-259 | every path of DispatchToIdleAsync ends with an answer |
| Connection.OnScreenAnswers | ParagonAtmLibrary/Services/ClientService.cs:149-160 | acting on the matched screen never lets a throw out |
| Connection.ScreenStageAnswers | ParagonAtmLibrary/Services/ClientService.cs:113-160 | the screen stage never lets a throw out |
| Connection.AttemptAnswers | ParagonAtmLibrary/Services/ClientService.cs:59-110 | an attempt never throws when its screen stage does not |
| Connection.ConnectLoopNeverThrows | ParagonAtmLibrary/Services/ClientService.cs:72-76 | the retries never throw when no attempt does |
| Connection.ConnectNeverThrows | ParagonAtmLibrary/Services/ClientService.cs:55-161 | ConnectAsync returns true or false, never an exception |
| Connection.GatedAppend | ParagonAtmLibrary/Services/ClientService.cs:55-161 | gated stretches stay gated when put one after the other |
| Connection.ColdStartQuiet | ParagonAtmLibrary/Services/ClientService.cs:123-138 | the cold start makes no session or connection call |
| Connection.DispatchQuiet | ParagonAtmLibrary/Services/ClientService.cs:176-259 | dispatch makes no agent or connection call |
| Connection.OnScreenQuiet | ParagonAtmLibrary/Services/ClientService.cs:149-152 | after connecting, no further agent or connection call |
| Connection.ScreenStageQuiet | ParagonAtmLibrary/Services/ClientService.cs:113-154 | the screen stage makes no agent or connection call |
| Connection.SessionGated | ParagonAtmLibrary/Services/ClientService.cs:59-110 | the session opens right after IDLE or PAUSED, the profile only from IDLE once APICONTROLLED, and the connection only once APICONTROLLED |
| Connection.RecoverGated | ParagonAtmLibrary/Services/ClientService.cs:67-79 | recovery comes only right after a status that is neither IDLE nor PAUSED |
| Connection.AttemptGated | ParagonAtmLibrary/Services/ClientService.cs:59-110 | every gate of one attempt holds |
| Connection.ReadyAttemptGated | ParagonAtmLibrary/Services/ClientService.cs:80-110 | every gate holds on an attempt from IDLE or PAUSED |
| Connection.ConnectLoopGated | ParagonAtmLibrary/Services/ClientService.cs:72-76 | gated attempts give a gated ConnectAsync |
| Connection.ConnectGated | ParagonAtmLibrary/Services/ClientService.cs:55-161 | every gate holds over all ConnectAsync issues |
| Connection.SessionOpened | ParagonAtmLibrary/Services/ClientService.cs:104-110 | a successful session stage has opened the connection successfully |
| Connection.AttemptTrueIsConnected | ParagonAtmLibrary/Services/ClientService.cs:59-154 | an attempt answers true only after a successful OpenAsync |
| Connection.ConnectLoopTrueIsConnected | ParagonAtmLibrary/Services/ClientService.cs:72-76 | the retries answer true only after a successful OpenAsync |
| Connection.ConnectTrueIsConnected | ParagonAtmLibrary/Services/ClientService.cs:55-161 | ConnectAsync answers true only once a connection was opened successfully |
| LegacyClient.Unreturned | ConsoleUI/Services/ClientService.cs:202-207 | falling off the end drops a returned value; a throw or the bound passes through |
| LegacyClient.ReadBranch | ConsoleUI/Services/ClientService.cs:149-157 | one read and the branch the older chain selects |
| LegacyClient.ActAndWait | ConsoleUI/Services/ClientService.cs:169-205 | the older corrective action of the branch, then the standard delay |
| LegacyClient.DispatchFrom | ConsoleUI/Services/ClientService.cs:146-208 | the older passes issue exactly the specified requests and give the specified answer |
| LegacyClient.Pass | ConsoleUI/Services/ClientService.cs:149-205 | one older pass: the read decides the branch; the action and the delay follow exactly when the loop goes on |
| LegacyClient.LoopStops | ConsoleUI/Services/ClientService.cs:152-162 | a pass that does not go on ends the older loop with its verdict after the read alone |
| LegacyClient.LoopGoesOn | ConsoleUI/Services/ClientService.cs:163-207 | a pass that goes on is followed by the next pass; after an unrecognised screen the next pass's answer is dropped, otherwise it is returned |
| LegacyClient.DispatchVia | ConsoleUI/Services/ClientService.cs:146-208 | the recursive older passes issue exactly the loop's requests and return its answer, for every loop that agrees with the older dispatch loop |
| LegacyClient.DispatchToIdle | ConsoleUI/Services/ClientService.cs:146-208 | the older DispatchToIdle against the registered screens, as specified |
| LegacyClient.DispatchUnreadable | ConsoleUI/Services/ClientService.cs:152-156 | an unreadable screen: one read, no action, false |
| LegacyClient.DispatchAtIdle | ConsoleUI/Services/ClientService.cs:157-162 | at welcome or out of service: one read, no action, true |
| LegacyClient.IdleScreenIsIdle | ConsoleUI/Services/ClientService.cs:157-162 | at welcome or out of service the older chain takes the idle branch |
| LegacyClient.ThankYouUnrecognised | ConsoleUI/Services/ClientService.cs:195-207 | the older chain has no thank-you rule: that screen is unrecognised where the library takes its own branch |
| LegacyClient.ActionsLookUpNo | ConsoleUI/Services/ClientService.cs:169-194 | both the more-time and the another-transaction branch look up only "no" |
| LegacyClient.DispatchAsLibrary | ConsoleUI/Services/ClientService.cs:146-208 | the older loop issues the same requests as the library's and answers the same, except that it may end with no answer where the library returns |
| LegacyClient.UnrecognisedNeverAnswers | ConsoleUI/Services/ClientService.cs:202-207 | after an unrecognised screen the older dispatch never returns true or false |
| LegacyClient.RecognisedAnswersAsLibrary | ConsoleUI/Services/ClientService.cs:146-201 | with no unrecognised read, the older loop is the library's |
| LegacyClient.ActionIsRecovery | ConsoleUI/Services/ClientService.cs:169-201 | every older corrective action is made of recovery requests |
| LegacyClient.DispatchOnlyRecovers | ConsoleUI/Services/ClientService.cs:146-208 | the older dispatch issues only recovery requests |
| LegacyClient.OpenSessionStage | ConsoleUI/Services/ClientService.cs:78-98 | the older session stage issues exactly the specified requests and answers as specified |
| LegacyClient.SessionIgnoresOpenAnswer | ConsoleUI/Services/ClientService.cs:78-98 | same requests as the library's session stage; true exactly when the session opened and the agent reported APICONTROLLED, whatever OpenAsync answered |
| LegacyClient.SessionTrueWithoutConnection | ConsoleUI/Services/ClientService.cs:98 | the older stage succeeds although opening the connection failed, where the library's fails |
| LegacyClient.ColdStart | ConsoleUI/Services/ClientService.cs:111-130 | the older cold start issues exactly the specified requests |
| LegacyClient.ColdStartFacts | ConsoleUI/Services/ClientService.cs:111-130 | the one configured app, a 7-minute wait, then only reads and 15 s waits; true exactly when welcome is registered and seen within 5 minutes |
| LegacyClient.OnScreen | ConsoleUI/Services/ClientService.cs:132-137 | a matched screen other than welcome or out of service is dispatched; those two answer true |
| LegacyClient.ScreenStage | ConsoleUI/Services/ClientService.cs:101-137 | the read after connecting: unreadable gives false, no match gives the cold start, a match gives the screen step |
| LegacyClient.StageStep | ConsoleUI/Services/ClientService.cs:101-137 | the older screen stage, seen through its specification, issues exactly what that says |
| LegacyClient.Gate | ConsoleUI/Services/ClientService.cs:59-98 | the status gate, then the session, then the screen stage |
| LegacyClient.Connect | ConsoleUI/Services/ClientService.cs:55-144 | the older ConnectAsync issues exactly the specified requests and answers as specified |
| LegacyClient.NotReadyGivesUp | ConsoleUI/Services/ClientService.cs:62-72 | unless the agent answers IDLE or PAUSED the older client gives up at once, without recovery |
| LegacyClient.OnScreenNeverThrows | ConsoleUI/Services/ClientService.cs:132-143 | acting on the matched screen never lets a throw out |
| LegacyClient.ScreenStageNeverThrows | ConsoleUI/Services/ClientService.cs:101-143 | the older screen stage never lets a throw out |
| LegacyClient.ConnectNeverThrows | ConsoleUI/Services/ClientService.cs:55-144 | the older ConnectAsync never lets a throw out |
| LegacyClient.OnScreenQuiet | ConsoleUI/Services/ClientService.cs:132-135 | after connecting, no further agent or connection call |
| LegacyClient.ColdStartQuiet | ConsoleUI/Services/ClientService.cs:111-130 | the cold start makes no agent or connection call |
| LegacyClient.ScreenStageQuiet | ConsoleUI/Services/ClientService.cs:101-137 | the older screen stage makes no agent or connection call |
| LegacyClient.GateGated | ConsoleUI/Services/ClientService.cs:59-98 | every gate holds from the status read on |
| LegacyClient.HeadGated | ConsoleUI/Services/ClientService.cs:59-98 | after a ready status, the status read and the session stage keep every gate |
| LegacyClient.ReadyGateGated | ConsoleUI/Services/ClientService.cs:59-137 | from a ready status, every gate holds over everything the older ConnectAsync issues |
| LegacyClient.ConnectGated | ConsoleUI/Services/ClientService.cs:55-144 | every gate holds over all the older ConnectAsync issues |
| Playlist.InOrderPassStep | ConsoleUI/Services/PlaylistService.cs:48-57 | an item that succeeds is followed by the rest of the list |
| Playlist.InOrderTrueRanAll | ConsoleUI/Services/PlaylistService.cs:48-59 | a run-in-order loop that answers true ran every item, in its turn, successfully |
| Playlist.InOrderFalseStopsAtFailure | ConsoleUI/Services/PlaylistService.cs:53-56 | a loop that answers false ends with the requests of an item that failed; nothing follows them |
| Playlist.InOrderFailsAtFailingItem | ConsoleUI/Services/PlaylistService.cs:51-56 | an item that fails wherever it runs makes the loop fail |
| Playlist.InOrderPassesWhenAllPass | ConsoleUI/Services/PlaylistService.cs:48-59 | items that succeed wherever they run make the loop succeed |
| Playlist.PrefixedRanAll | ConsoleUI/Services/PlaylistService.cs:66-132 | after a fixed opening, a loop that answers true ran every item successfully in its place |
| Playlist.PrefixedStopsAtFailure | ConsoleUI/Services/PlaylistService.cs:66-132 | after a fixed opening, a loop that answers false ends with the requests of a failed item |
| Playlist.AnyNamedFrom | ConsoleUI/Services/PlaylistService.cs:148 | `Any`: true exactly when some available transaction has the name, ignoring case |
| Playlist.ValidatePlayList | ConsoleUI/Services/PlaylistService.cs:141-165 | every name is checked, and the playlist is valid exactly when every name is an available transaction |
| Playlist.FindTransactionIsFirst | ConsoleUI/Services/PlaylistService.cs:50 | `First` finds exactly the listed names, and finds the first transaction of that name |
| Playlist.Resolve | ConsoleUI/Services/PlaylistService.cs:50 | on a valid playlist every lookup succeeds; the transactions run are the ones found, in playlist order |
| Playlist.Act | ConsoleUI/Services/PlaylistService.cs:89-127 | the action issues exactly the specified requests and answers as specified |
| Playlist.Perform | ConsoleUI/Services/PlaylistService.cs:89-129 | the action and, after it succeeds, a screenshot |
| Playlist.RunStep | ConsoleUI/Services/PlaylistService.cs:72-129 | one step issues exactly the specified requests and answers as specified |
| Playlist.Proceed | ConsoleUI/Services/PlaylistService.cs:81-129 | waiting for the step's screen and then performing it issues exactly the wait's requests, then the action's and, when the action succeeded, the screenshot; false with no action when the screen is not seen |
| Playlist.ProceedVia | ConsoleUI/Services/PlaylistService.cs:81-129 | the same wait and step for every wait that agrees with WaitForScreen |
| Playlist.StepItem | ConsoleUI/Services/PlaylistService.cs:72-129 | step i of the flow issues exactly what its specification says |
| Playlist.RunSteps | ConsoleUI/Services/PlaylistService.cs:69-132 | the flow runs its steps in order and stops at the first failure |
| Playlist.RunTransaction | ConsoleUI/Services/PlaylistService.cs:62-139 | a screenshot, then the flow, as specified |
| Playlist.TransactionItem | ConsoleUI/Services/PlaylistService.cs:50-51 | transaction i of the playlist issues exactly what its specification says |
| Playlist.RunAll | ConsoleUI/Services/PlaylistService.cs:46-59 | each name looked up and run, the success accumulated, the loop left at the first failure |
| Playlist.RunPlaylist | ConsoleUI/Services/PlaylistService.cs:39-60 | RunPlaylist issues exactly the specified requests and answers as specified; nothing runs when validation fails |
| Playlist.CardGoesToFirstReader | ConsoleUI/Services/PlaylistService.cs:91-121 | a successful action was `insertcard`; the card went into the first `idc` device, which was open, and the standard delay followed |
| Playlist.NoReaderNoCard | ConsoleUI/Services/PlaylistService.cs:100-106 | without a card reader the action fails having only asked for the service list |
| Playlist.UnseenScreenFailsStep | ConsoleUI/Services/PlaylistService.cs:81-87 | a screen not seen within the step's timeout fails the step having only read and waited; no action is performed |
| Playlist.UnregisteredScreenFailsTransaction | ConsoleUI/Services/PlaylistService.cs:72-79 | a step whose screen is not registered fails its transaction |
| Playlist.UnknownActionFailsTransaction | ConsoleUI/Services/PlaylistService.cs:124-126 | a step whose action is not `insertcard` fails its transaction |
| Playlist.TransactionTrueRanAllSteps | ConsoleUI/Services/PlaylistService.cs:66-132 | a transaction that succeeds began with a screenshot and ran every step, each successfully |
| Playlist.TransactionStopsAtFailingStep | ConsoleUI/Services/PlaylistService.cs:69-130 | a transaction that fails ends with the step that failed |
| Playlist.PlaylistTrueRanAll | ConsoleUI/Services/PlaylistService.cs:39-60 | a playlist that succeeds was valid, and every named transaction (the first of that name) ran, successfully |
| Playlist.PlaylistStopsAtFailure | ConsoleUI/Services/PlaylistService.cs:48-57 | a valid playlist that fails ends with the transaction that failed; none after it runs |
| Playlist.UnregisteredScreenFailsPlaylist | ConsoleUI/Services/PlaylistService.cs:39-79 | a playlist naming a transaction with a step on an unregistered screen fails |

## Left out

- Case folding is ASCII only: `ToLower`/`ToUpper` map A–Z and a–z, and the model has no culture-specific or Unicode case mapping.
- `decimal` confidences are exact fractions; decimal rounding of a repeating fraction (for example 1/3) is not modelled.
- Click midpoints are taken from `float` boxes; the model keeps the box and does not compute floating-point midpoints.
- Null arguments are modelled only where the code branches on them: the OCR page, the screen words, the service list, a located text, the agent status. A null `AgentStatus` string inside a non-null status, a null phrase and a null step field are not modelled.
- Logging, screenshot and receipt files, the download path and the timestamps in folder names are left out. A screenshot is the one `GetScreenJpegAsync` request; its answer is ignored.
- HTTP calls are requests answered by the terminal's reply sequence. Their transport, JSON and timeouts are not modelled.
- The older client's `TakeAllMedia` is one opaque request, because its body is not part of this model.
- `DisconnectAsync` is not modelled: it only calls dispatch and then closes, and closing has no result.
- `Task.Delay(-1)` (`Timeout.Infinite`) waits forever, and other negative or oversized delays and `TimeSpan` values throw in .NET. Neither behaviour is modelled: a delay only advances the clock.
- `DateTime.Now` is the model's clock. Every request takes one tick, except a delay of more than 1 ms, which takes its own length.
- The answers of `StartAtmAppAsync` and `OpenHwProfileAsync` are ignored, as the source ignores them.
- `int.Parse` of the startup delay setting is assumed to succeed.
- Connection.Connect: unbounded recursion (retry after recovery, dispatch within dispatch) is bounded by `fuel`; running out gives `OutOfFuel`, which the source cannot produce.
- LegacyClient.DispatchToIdle: the console revision's final `else` awaits the recursive call without returning it, and so does not compile as written. The model gives that branch no result (`NoResult`) rather than invent one.
- Playlist.RunStep: the step's screen is read as `sfm.Screen`, but the flow model declares only `Name`; the model uses the step's name as its screen name.
- Playlist.RunTransaction: its `catch` is not modelled. Every call inside it either catches its own exceptions (the pollers, the screenshot) or answers by value in this model.
- `TransactionOptionsModel` is not part of this model; a transaction carries its standard delay directly.
- The older client's `SaveScreenShot` reads the screen image only; writing the file is left out.

# lead-scope-ai in Dafny

lead-scope-ai turns a company ticker into an assessment. The assessment holds CFO-level
"pain cards", and each card is tagged with the scope tiles its text triggers. The user then
picks the relevant cards in a five-step web wizard. The dashboard lights up the catalog
tiles that the picked cards activate.

This project models the deterministic core of both halves and proves properties of it.

Back end (Python):
- the keyword engine `process_scope_and_cards` and its two rule tables;
- the company classifier;
- the input validators: ticker, API key and text sanitiser;
- the CORS-origin setting validator.

Front end (TypeScript/React):
- the static scope catalog and the grid's "is this tile active" rule;
- the pain-card selection hook and the assessment hook;
- the home page's wizard controller.

The request to the back end is not modelled: its result comes in as a `FetchOutcome`.

How the source maps onto Dafny:
- Code that only computes a value becomes functions and lemmas.
- The engine's loops over cards and rules become methods with loop invariants, proved
  against those functions.
- The card dictionaries the engine updates in place become objects of class `CardRecord`.
- React hook state and page state become classes whose methods are the handlers:
  `PainCardSelection`, `AssessmentHook` and `WizardController`.

Modules, one per file:

| file | module | models |
|---|---|---|
| wrappers.dfy | Wrappers | `Option`, `Result`, `Outcome` |
| strings.dfy | Strings | ASCII case mapping; Python `strip` and JavaScript `trim`; `in`/`includes`; `split`/`join` |
| string_order.dfy | StringOrder | Python's `str` ordering and `sorted(set)` |
| scope_catalog.dfy | ScopeCatalog | `frontend/lib/scope-data.ts`, the grid's `isActive` |
| taxonomy.dfy | Taxonomy | `backend/taxonomy.py` |
| scope_matching.dfy | ScopeMatching | what the engine computes, stated on values |
| card_enrichment.dfy | CardEnrichment | the card dictionary and the engine's per-card loop body |
| scope_engine.dfy | ScopeEngine | `process_scope_and_cards` |
| classifier.dfy | Classifier | `backend/classifier.py` |
| validators.dfy | Validators | `backend/validators.py` |
| config.dfy | Config | `Settings.assemble_cors_origins` |
| app_types.dfy | AppTypes | record shapes of `frontend/types/index.ts` |
| card_selection.dfy | CardSelection | `frontend/hooks/usePainCardSelection.ts` |
| assessment.dfy | Assessment | `frontend/hooks/useAssessment.ts` |
| wizard.dfy | Wizard | `frontend/app/page.tsx` |

## Model

| member | source | states |
|---|---|---|
| Strings.Upper | backend/validators.py:12 | upper-casing keeps the length and maps each character on its own (ASCII letters only) |
| Strings.LowerSpec | backend/scope_engine.py:9-10 | lower-casing keeps the length, maps each character on its own and leaves no upper-case letter |
| Strings.UpperIdempotent | frontend/app/page.tsx:38 | upper-casing twice is upper-casing once |
| Strings.LowerAppend | backend/scope_engine.py:24 | lower-casing distributes over concatenation |
| Strings.Strip | backend/validators.py:38 | the stripped string is a substring, no longer than the input, and neither starts nor ends with whitespace |
| Strings.StripUnchanged | backend/validators.py:38 | a string without whitespace at its ends strips to itself |
| Strings.StripSurrounded | backend/validators.py:12 | stripping removes exactly the whitespace around a core |
| Strings.StripKeepsCharacters | backend/config.py:30 | stripping only removes characters |
| Strings.StripEmptyIff | backend/validators.py:21-22 | a string strips to "" exactly when it is all whitespace |
| Strings.ContainsIff | backend/scope_engine.py:17 | `needle in hay` holds exactly when the needle occurs at some position |
| Strings.ContainsInfix | backend/scope_engine.py:24 | an occurrence in a part of a string is an occurrence in the whole |
| Strings.MissingCharNotContained | backend/classifier.py:28 | a needle with a character the text lacks does not occur in it |
| Strings.SplitLength | backend/config.py:30 | `split` yields one more piece than there are separators |
| Strings.SplitPiecesFree | backend/config.py:30 | no piece holds the separator |
| Strings.SplitJoin | backend/config.py:30 | joining the pieces with the separator rebuilds the string |
| StringOrder.LessTransitive | backend/scope_engine.py:29-30 | Python's string order is transitive |
| StringOrder.LessTotal | backend/scope_engine.py:29-30 | any two distinct strings are ordered one way or the other |
| StringOrder.SortedListSpec | backend/scope_engine.py:29-30 | `sorted(list(s))` is strictly increasing and holds exactly the elements of `s` |
| StringOrder.SortedUnique | backend/scope_engine.py:29-30 | two strictly sorted lists with the same elements are equal, so the sorted list is determined by the set |
| ScopeCatalog.Ids | frontend/lib/scope-data.ts:4-10 | the ids of a category's tiles, in order |
| ScopeCatalog.AllTileIdsMembership | frontend/lib/scope-data.ts:1-39 | an id is in the flattened catalog exactly when some category holds a tile with it |
| ScopeCatalog.CategoryOrder | frontend/lib/scope-data.ts:1-39 | four categories, Finance, Supply Chain and Logistics, Operations, Customer Order Management, with distinct names |
| ScopeCatalog.CategorySizes | frontend/lib/scope-data.ts:4-37 | the categories hold 5, 4, 4 and 4 tiles, 17 in all |
| ScopeCatalog.TilePrefixesMatchCategories | frontend/lib/scope-data.ts:5-36 | every tile id starts with FIN-, SCM-, OPS- or COM- according to its category |
| ScopeCatalog.TileIdsUnique | frontend/lib/scope-data.ts:5-36 | no tile id occurs twice in the catalog |
| ScopeCatalog.CatalogIds | frontend/lib/scope-data.ts:5-36 | the catalog's ids in display order are the seventeen listed ids |
| ScopeCatalog.IsActive | frontend/components/ScopeGrid.tsx:19 | a tile is shown active exactly when its id is in the activated list |
| Taxonomy.Lookup | backend/taxonomy.py:4-12 | a key is found exactly when some rule has it, and then with that rule's modules |
| Taxonomy.LookupFindsRule | backend/taxonomy.py:16-54 | looking up a rule's key finds that rule's modules |
| Taxonomy.PainThemeRulesWellFormed | backend/taxonomy.py:4-12 | theme keys are distinct and lower-case; each maps to a non-empty, duplicate-free list of tiles |
| Taxonomy.KeywordRulesWellFormed | backend/taxonomy.py:16-54 | the 30 keyword keys are distinct and lower-case; each maps to a non-empty, duplicate-free list of tiles |
| Taxonomy.RulesCoverCatalog | backend/taxonomy.py:4-54 | the tiles used by the two tables together are exactly the 17 catalog ids |
| Taxonomy.SupplyChainRule | backend/taxonomy.py:31 | 'supply chain' maps to SCM-DPF, SCM-IM, SCM-WMS, SCM-TRA |
| Taxonomy.ForecastingRule | backend/taxonomy.py:11 | 'forecasting' maps to FIN-FPA and SCM-DPF |
| ScopeMatching.MatchedKeysMembership | backend/scope_engine.py:16-18 | a phrase is matched exactly when it is a rule key occurring in the text |
| ScopeMatching.MatchedModulesMembership | backend/scope_engine.py:16-20 | a tile is matched exactly when a rule whose key occurs in the text lists it |
| ScopeMatching.CardKeywords | backend/scope_engine.py:9-25 | every phrase a card triggers occurs in its lower-cased "title blurb"; exactly which ones is proved in CardKeywordsMembership |
| ScopeMatching.CardTiles | backend/scope_engine.py:9-27 | a card triggers a tile only if it triggers some phrase; exactly which tiles is proved in CardTilesMembership |
| ScopeMatching.AllTiles | backend/scope_engine.py:6-33 | the first card's tiles are in the union; the union holds exactly the tiles of every card, as proved in AllTilesMembership |
| ScopeMatching.CardKeywordsMembership | backend/scope_engine.py:16-25 | a card's keywords are the themes found in its lower-cased title plus the keywords found in "title blurb" |
| ScopeMatching.CardTilesMembership | backend/scope_engine.py:9-27 | a card's tiles are the modules of its matched themes and keywords |
| ScopeMatching.AllTilesMembership | backend/scope_engine.py:33 | a tile is in the union exactly when some card triggers it |
| ScopeMatching.AllTilesSnoc | backend/scope_engine.py:33 | each card adds its tiles to the union |
| ScopeMatching.KeywordsEmptyIffTilesEmpty | backend/scope_engine.py:16-27 | when every rule has a module, a card has no keywords exactly when it has no tiles |
| ScopeMatching.BackendKeywordsEmptyIffTilesEmpty | backend/taxonomy.py:4-54 | with the back end's tables, no keywords exactly when no tiles |
| ScopeMatching.EnrichedListsSorted | backend/scope_engine.py:29-35 | the per-card lists and the overall list are strictly sorted and duplicate-free |
| ScopeMatching.ShortTextMatchesNothing | backend/scope_engine.py:16-27 | no rule matches a text shorter than all its keys |
| ScopeMatching.MissingFieldsTriggerNothing | backend/scope_engine.py:9-10 | a card with no title and no blurb (both read as "") triggers nothing |
| ScopeMatching.NoCardsNoTiles | backend/scope_engine.py:5-35 | no cards give an empty activated list |
| CardEnrichment.TextsSpec | backend/scope_engine.py:8-10 | the texts are each card's title and blurb, in order |
| CardEnrichment.MatchRules | backend/scope_engine.py:16-27 | one rule loop adds exactly the matched keys and the matched modules |
| CardEnrichment.EnrichCard | backend/scope_engine.py:9-30 | the card gets the sorted tiles and sorted phrases its text triggers; title, blurb and other keys are untouched; the tiles come back |
| ScopeEngine.EnrichCards | backend/scope_engine.py:8-33 | every card is enriched in place and the list comes back in order, with the union of all tiles |
| ScopeEngine.ProcessScopeAndCards | backend/scope_engine.py:4-35 | every card holds its sorted tiles and phrases and nothing else changed; the cards come back in order; the second result is the sorted union of all cards' tiles |
| Classifier.ClassifyCompany | backend/classifier.py:1-31 | the industry is one of the five groups and the scope one of the two values |
| Classifier.IndustryGroup | backend/classifier.py:11-21 | the group for a folded sector and industry is always one of the five groups; its priority order is proved in IndustryPriority |
| Classifier.GeoScope | backend/classifier.py:23-29 | the scope is always one of the two values; when it is "US-based only" is proved in GeoScopeIff |
| Classifier.IndustryPriority | backend/classifier.py:12-21 | TMT, FSI, LSHC and Professional Services are tested in that order and the first signal wins; otherwise C&IP |
| Classifier.ClassifyIndustry | backend/classifier.py:6-21 | on a profile: TMT exactly when the folded sector or industry carries a TMT signal; FSI, LSHC and Professional Services exactly when theirs is the first signal present; C&IP exactly when none is |
| Classifier.GeoScopeIff | backend/classifier.py:24-29 | "US-based only" exactly when the country is "US" and the description has none of "global", "international", "worldwide" |
| Classifier.ClassifyGeoScope | backend/classifier.py:8-29 | on a profile: "US-based only" exactly when the upper-cased country is "US" and the lower-cased description mentions none of the three global words; otherwise "More than 5 countries" |
| Classifier.CaseInsensitive | backend/classifier.py:6-9 | profiles that agree after case folding classify alike |
| Classifier.EmptyProfile | backend/classifier.py:6-29 | missing keys read as "": an empty profile is (C&IP, "More than 5 countries") |
| Classifier.TechBeforeFinancial | backend/classifier.py:14-16 | sector "tech financial" is TMT |
| Classifier.UsTechnologyCompany | backend/tests/test_classifier.py:5-14 | the tested US technology profile is (TMT, "US-based only") |
| Classifier.DomesticRetailer | backend/tests/test_classifier.py:18-25 | the tested domestic retailer is "US-based only" |
| Classifier.GlobalRetailer | backend/tests/test_classifier.py:27-34 | the tested global retailer is "More than 5 countries" |
| Validators.ValidateTicker | backend/validators.py:6-18 | an accepted ticker is 1-5 upper-case letters; a refusal carries the empty-ticker or the format message |
| Validators.ValidateTickerAccepts | backend/validators.py:8-18 | accepted exactly when the stripped input is 1-5 ASCII letters, and then the result is that, upper-cased |
| Validators.ValidateTickerIdempotent | backend/validators.py:12-18 | validating an accepted ticker again gives it back |
| Validators.CapitalTickerAccepted | backend/test_validators.py:10 | "AAPL" gives "AAPL" |
| Validators.OneLetterTickerAccepted | backend/test_validators.py:13 | "T" gives "T" |
| Validators.EmptyTickerRefused | backend/test_validators.py:17-18 | "" is refused with the empty-ticker message |
| Validators.TooLongRefused | backend/validators.py:15-16 | more than five capital letters are refused with the format message |
| Validators.BlankRefused | backend/validators.py:8-16 | a non-empty blank ticker passes the emptiness test but is refused by the pattern |
| Validators.NonLetterRefused | backend/validators.py:15-16 | a ticker holding a character that is neither blank nor a letter is refused |
| Validators.LowerCaseTickerAccepted | backend/test_validators.py:11 | "msft" gives "MSFT" |
| Validators.PaddedTickerAccepted | backend/test_validators.py:12 | " GOOGL " gives "GOOGL" |
| Validators.LongTickerRefused | backend/test_validators.py:21 | "TOOLONG" is refused |
| Validators.SymbolTickersRefused | backend/test_validators.py:24-27 | "123" and "AA@L" are refused |
| Validators.ValidateApiKey | backend/validators.py:20-23 | refused exactly when the key is missing, empty or blank, with a message naming the key |
| Validators.PrefixSlice | backend/validators.py:31-32 | `text[:n]` is a prefix of the text: of length `n` capped at the text's length, the whole text once `n` reaches its length, and for a negative `n` all but the last `-n` characters (or nothing) |
| Validators.IndexOfIgnoringCase | backend/validators.py:35 | the first position at or after `from` where the word starts, ignoring case |
| Validators.ScriptBlockLength | backend/validators.py:35 | a script block at the start is at least 17 characters ("<script>" and "</script>") and fits in the text |
| Validators.RemoveScriptBlocks | backend/validators.py:35 | removing script blocks never lengthens the text |
| Validators.RemoveTags | backend/validators.py:36 | removing tags never lengthens the text |
| Validators.SanitizeText | backend/validators.py:25-38 | "" for empty input; no longer than `max_length`; no whitespace at either end; no tag left |
| Validators.SanitizeDefault | backend/validators.py:25-38 | with the default limit of 10000: "" for empty input, at most 10000 characters, no tag left |
| Validators.RemoveTagsTagFree | backend/validators.py:36 | after tag removal no '<' is followed by a '>' on the same line |
| Validators.SanitizePlainText | backend/test_validators.py:44-47 | text with no '<', no surrounding whitespace and within the limit is returned unchanged |
| Validators.ScriptBlockRemoved | backend/validators.py:35 | a script block is removed with its content, whatever its case and attributes |
| Validators.SanitizeScriptBlock | backend/test_validators.py:49-54 | text with one script block keeps only the stripped text around it |
| Validators.SanitizeWithinLimit | backend/validators.py:30-38 | text within the limit is not truncated |
| Config.AssembleCorsOrigins | backend/config.py:27-34 | refused with `ValueError` exactly for other types; a list passes through |
| Config.PlainOrigins | backend/config.py:28-30 | the origins of a string not starting with "[" |
| Config.CorsOriginsCount | backend/config.py:28-30 | a plain string gives one more origin than it has commas |
| Config.CorsOriginsInOrder | backend/config.py:30 | the origins are the comma-separated pieces in order, each stripped |
| Config.CorsOriginsClean | backend/config.py:30 | no origin holds a comma or has whitespace at either end |
| Config.CorsOriginsPassThrough | backend/config.py:31-33 | a list, or a string starting with "[", is returned unchanged |
| Config.DefaultCorsOriginsSingle | backend/config.py:21-30 | the default gives the single origin "http://localhost:3000" |
| CardSelection.Toggle | frontend/hooks/usePainCardSelection.ts:15-25 | a click flips the membership of the clicked title and of no other title |
| CardSelection.ToggleTwice | frontend/hooks/usePainCardSelection.ts:16-24 | two clicks on the same card restore the selection |
| CardSelection.TitlesMembership | frontend/hooks/usePainCardSelection.ts:29 | initialisation selects exactly the titles of the cards |
| CardSelection.SelectedTiles | frontend/hooks/usePainCardSelection.ts:36-38 | the selected cards' tiles in card order; nothing when nothing is selected |
| CardSelection.Dedup | frontend/hooks/usePainCardSelection.ts:35-41 | the insertion-ordered set is no longer than its input and empty only for an empty input |
| CardSelection.Activated | frontend/hooks/usePainCardSelection.ts:32-42 | nothing is activated when nothing is selected; its membership, distinctness and order are proved in the lemmas below |
| CardSelection.DedupMembership | frontend/hooks/usePainCardSelection.ts:35-41 | the insertion-ordered set holds exactly the added tiles |
| CardSelection.DedupDistinct | frontend/hooks/usePainCardSelection.ts:35-41 | the activated list has no duplicates |
| CardSelection.DedupPrefix | frontend/hooks/usePainCardSelection.ts:35-41 | first-encounter order: the list for a prefix of the input is a prefix of the list |
| CardSelection.ActivatedMembership | frontend/hooks/usePainCardSelection.ts:35-41 | a tile is activated exactly when some selected card triggers it |
| CardSelection.ActivatedDistinct | frontend/hooks/usePainCardSelection.ts:35-41 | the activated list never repeats a tile |
| CardSelection.ActivatedCardOrder | frontend/hooks/usePainCardSelection.ts:36-38 | the tiles of earlier cards come first |
| CardSelection.NoAssessmentNoTiles | frontend/hooks/usePainCardSelection.ts:33 | no assessment, no activated tiles |
| CardSelection.ActivatedMonotone | frontend/hooks/usePainCardSelection.ts:36-38 | selecting more titles never deactivates a tile |
| CardSelection.UnmatchedTitlesIgnored | frontend/hooks/usePainCardSelection.ts:36-38 | selected titles matching no card change nothing |
| CardSelection.InitialSelectionActivatesAll | frontend/hooks/usePainCardSelection.ts:27-42 | right after initialisation the activated tiles are the union of every card's tiles |
| CardSelection.AddTiles | frontend/hooks/usePainCardSelection.ts:38 | adding a card's tiles to the insertion-ordered set extends it in first-encounter order |
| CardSelection.PainCardSelection.constructor | frontend/hooks/usePainCardSelection.ts:12-13 | nothing selected, no assessment |
| CardSelection.PainCardSelection.HandleCardClick | frontend/hooks/usePainCardSelection.ts:15-25 | the selection becomes the toggled selection |
| CardSelection.PainCardSelection.InitializeSelection | frontend/hooks/usePainCardSelection.ts:27-30 | the assessment is stored and exactly its cards' titles are selected |
| CardSelection.PainCardSelection.ActivatedTiles | frontend/hooks/usePainCardSelection.ts:32-42 | the loop over cards and tiles yields the de-duplicated, first-encounter list of the selected cards' tiles |
| Assessment.ApiBaseUrl | frontend/hooks/useAssessment.ts:12 | the configured URL unless missing or empty, else "http://127.0.0.1:8000"; never empty |
| Assessment.RequestUrlParts | frontend/hooks/useAssessment.ts:29 | the URL is the base, "/api/v1/assessment/", then the ticker as given |
| Assessment.Stamp | frontend/hooks/useAssessment.ts:42 | the loaded data with `company_name` set to the upper-cased ticker and nothing else changed |
| Assessment.ErrorMessage | frontend/hooks/useAssessment.ts:36-45 | the message shown after a failed request is never empty |
| Assessment.Start | frontend/hooks/useAssessment.ts:19-26 | before the response the assessment is untouched; the error is cleared exactly for a non-blank ticker, which starts loading |
| Assessment.Settle | frontend/hooks/useAssessment.ts:35-48 | after the response loading has stopped; an assessment is present exactly when one loaded now or before; no error exactly after a success with none before |
| Assessment.Generate | frontend/hooks/useAssessment.ts:19-49 | no error exactly when the ticker is not blank and the request succeeded; the assessment changes only then; loading stays on only for a blank ticker on an already-loading hook |
| Assessment.BlankTickerRefused | frontend/hooks/useAssessment.ts:20-23 | a blank ticker sets "Please enter a company ticker." and leaves the assessment and the loading flag alone |
| Assessment.SettledNotLoading | frontend/hooks/useAssessment.ts:46-48 | a request that was made always ends not loading |
| Assessment.LoadedAssessment | frontend/hooks/useAssessment.ts:25-42 | a success stores the stamped data with no error |
| Assessment.FailedRequest | frontend/hooks/useAssessment.ts:36-45 | a failure keeps the old assessment and shows a non-empty message |
| Assessment.ErrorMessageChoice | frontend/hooks/useAssessment.ts:36-45 | the fallback "An unknown error occurred" is shown exactly when the detail is missing or "" (falsy); "Failed to generate assessment" exactly when the thrown message is ""; otherwise the detail or message itself |
| Assessment.EmptyTickerExample | frontend/hooks/__tests__/useAssessment.test.ts:58-67 | "" on a fresh hook gives the blank-ticker error and no loading |
| Assessment.SuccessExample | frontend/hooks/__tests__/useAssessment.test.ts:38-56 | "AAPL" loads the data named "AAPL" with no error |
| Assessment.ApiErrorExample | frontend/hooks/__tests__/useAssessment.test.ts:69-84 | an error body "Company not found" is shown and nothing is loaded |
| Assessment.AssessmentHook.constructor | frontend/hooks/useAssessment.ts:15-17 | no assessment, not loading, no error |
| Assessment.AssessmentHook.StartRequest | frontend/hooks/useAssessment.ts:20-29 | a blank ticker is refused with no request; otherwise loading starts, the error is cleared and the URL is returned |
| Assessment.AssessmentHook.FinishRequest | frontend/hooks/useAssessment.ts:35-48 | the stamped assessment or the error message is stored, then loading stops |
| Assessment.AssessmentHook.GenerateAssessment | frontend/hooks/useAssessment.ts:19-49 | the state becomes that of the whole guarded request |
| Assessment.AssessmentHook.ClearError | frontend/hooks/useAssessment.ts:51-53 | the error becomes null and nothing else changes |
| Wizard.WithAnswer | frontend/app/page.tsx:42-44 | the answer under the key is replaced and the other two are unchanged |
| Wizard.Slice | frontend/app/page.tsx:47-48 | JavaScript `slice` never yields more than the list |
| Wizard.Pages | frontend/app/page.tsx:47-48 | page 1 is the first min(4,n) cards, page 2 the next up to four, together the first min(8,n); both empty without an assessment |
| Wizard.ShortListOnePage | frontend/app/page.tsx:47-48 | with four cards or fewer page 2 is empty |
| Wizard.Page1 | frontend/app/page.tsx:47 | at most four cards, a prefix of the assessment's cards |
| Wizard.Page2 | frontend/app/page.tsx:48 | at most four cards |
| Wizard.NavigationSteps | frontend/app/page.tsx:90-159 | every button moves one step and stays within 1..4; there is none on the input step |
| Wizard.BackUndoesNext | frontend/app/page.tsx:90-159 | each "back" button returns to the step its "next" came from |
| Wizard.ShownOn | frontend/app/page.tsx:90-159 | every navigation button sits on one of the steps 1..4 |
| Wizard.Target | frontend/app/page.tsx:90-159 | every navigation button leads to one of the steps 1..4 |
| Wizard.Shown | frontend/app/page.tsx:214-220 | a button is on screen only while not loading and on a step from 1 to 4 |
| Wizard.HeaderText | frontend/app/page.tsx:169-183 | a header is shown exactly for the steps 0..4 |
| Wizard.HeaderTexts | frontend/app/page.tsx:169-183 | steps 0-2 share a header; steps 3 and 4 have their own, distinct headers; any other step has "" |
| Wizard.GridShowsSelectedTiles | frontend/components/ScopeGrid.tsx:19 | on the dashboard a tile is lit exactly when some selected card triggers it |
| Wizard.SubmitEnabledIff | frontend/app/page.tsx:66 | submit is enabled exactly when not loading and the ticker holds a non-whitespace character; an enabled submit makes the hook start loading |
| Wizard.WizardController.constructor | frontend/app/page.tsx:12-21 | step 0, empty ticker, answers {US-based only, Yes, Yes}, fresh hooks |
| Wizard.WizardController.HandleGenerate | frontend/app/page.tsx:24-35 | the error is cleared, the step set to 0 and the assessment requested; a loaded assessment selects all of its cards and opens step 1; the page invariant holds |
| Wizard.WizardController.HandleTickerChange | frontend/app/page.tsx:37-40 | the ticker is stored upper-cased and no error remains |
| Wizard.WizardController.HandleUserAnswerChange | frontend/app/page.tsx:42-44 | the answers become the single-key update |
| Wizard.WizardController.Press | frontend/app/page.tsx:90-159 | a shown navigation button moves to its target step and keeps the page invariant |

## Left out

- Unicode: case mapping, Python's `re.IGNORECASE` and the `[A-Z]` class are modelled on ASCII letters only. Strip and trim use each language's own whitespace set, which the model writes out in full.
- `formatRevenue` and other floating-point formatting: floating point.
- Everything presentational: React rendering, effect timing, `useCallback` and `useMemo` caching.
- The network request in `useAssessment.ts`: it becomes the `FetchOutcome` parameter.
- Assessment.AssessmentHook.StartRequest: the ticker goes into the URL as given. The code does not percent-encode it, so neither does the model.
- The error body's `detail` is modelled as a string or absent. A non-string `detail` (a list of validation errors) would be turned into text by `Error`; that conversion is not modelled.
- Wizard.WizardController.HandleGenerate: the page's `useEffect` on `assessment` is folded into this handler and runs right after a successful request. A failed request leaves the step at 0 and keeps the earlier assessment, as the code does.
- Wizard.WizardController.HandleTickerChange: requires an input of at most five characters. The input's `maxLength={5}` enforces this in the browser, not in the handler.
- Wizard.WizardController.Press: requires the button to be on screen. This means the matching step, no loading, and an assessment for the dashboard's button.
- The two hooks are sequential here: `GenerateAssessment` settles before the next handler runs. Overlapping requests and the order in which responses arrive are not modelled.
- ScopeEngine.ProcessScopeAndCards: the tables (`PAIN_THEME_RULES`, `KEYWORD_RULES`) are a `Tables` parameter in `ScopeMatching`, and the engine passes the back-end tables. Dictionary iteration order is the rule order; the result does not depend on it, because the per-card results are sets.
- ScopeEngine.ProcessScopeAndCards: the returned list is the input list itself. The source appends each card object to a new list in input order, so the new list holds the same objects in the same order.
- ScopeEngine.ProcessScopeAndCards: a card whose title or blurb is present but `None` would make `.lower()` raise in the source. The model reads a missing key as "" and does not model a `None` value.
- Config.AssembleCorsOrigins: a string starting with "[" is returned for pydantic to parse as JSON. That JSON parsing is not part of this model.
- Classifier.ClassifyCompany: a profile key that is present with the value `None` makes `.lower()` or `.upper()` raise in the source. The model reads a missing key as "" and does not model a `None` value.
- The `Settings` environment loading, logging, the FastAPI routes, the scraper and the AI client are not part of this model: they are configuration or I/O.
- The pydantic schemas and their 280-character blurb limit are not part of this model; the limit is enforced by the library.
- The two dashboard drafts and their revenue thresholds are not part of this model.

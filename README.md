# Ecolite chatbot: search core, catalog loader, session state and client pagination

A Dafny model of the lighting-shop chatbot's retrieval core and the small
amount of state logic around it.

- **Catalog loader** (`backend/services/product_loader.py`):
  - turns raw JSON records into canonical products (upper-cased code, the name fallback chain, list coercion, synonym enrichment of categories);
  - assembles the catalog, skipping bad records, with the later record winning on a code collision;
  - caches the catalog in the module-level `PRODUCTOS`.
- **Search engine** (`backend/services/search_service.py`):
  - normalisation and tokenisation;
  - the index derived from the catalog: per-field token sets, document frequencies, IDF and category terms;
  - trigram Jaccard similarity and query expansion;
  - the weighted multi-field score;
  - ranking by jittered score and code, then exclusion and the offset/limit window;
  - category detection.
- **Session store and message analysis** (`backend/services/state_manager.py`):
  - per-session records, with default creation and shallow merge;
  - "more" detection against the phrase set;
  - intent classification and the keyword test;
  - slot extraction with the watts, colour-temperature and budget regular expressions, matched in backtracking order.
- **The `/chat/` handler** (`backend/routers/chat.py`): validation, the page clamp, the effective query, the search arguments and the response record.
- **The chat widget** (`frontend/chatbox.js`):
  - the `lastQuery`/`page` transition of `sendMessage`;
  - `escapeHtml` and `escapeAttr`;
  - the show-more condition;
  - the inline product-line parser, including its regular expression with lazy and greedy groups.

## How the model is built

**Value modules.** The pure parts are datatypes and functions over values:

- `Text`, `Tokenizer`, `Trigram`, `Scoring`, `Sorting` and `Ranking`;
- `SearchIndex` and `Expansion`;
- the functions of `ProductLoader`, `StateManager`, `ChatRouter` and `ChatBox`.

Python dicts, which keep insertion order, become `OrderedDict.Dict` (a key sequence and a map).

**Classes, where the source mutates state:**

| class | models |
|---|---|
| `SearchService.SearchEngine` | the module globals `_INDEX_READY`, `_INDEX`, `_VOCAB`, `_IDF` and `_ALL_CATEGORY_TERMS` |
| `ProductLoader.ProductCache` | the `PRODUCTOS` cache |
| `StateManager.SessionStore` and `StateManager.Session` | `_SESSIONS` and one session's record |
| `ChatBox.ChatClient` | the widget's `lastQuery`, `page` and show-more button |

**Methods with loops.** Each is proved equal to the specification function it implements:

- `_load_from_disk`'s record loop;
- `_ensure_index`'s indexing loop;
- `field_match`;
- the `cand` loops of `_expand_query_tokens`;
- the scoring loop of `search_candidates`;
- the detection loop;
- `maybe_extract_slots`;
- the loop of `parseInlineProducts`.

The properties are then lemmas about those functions.

**One deliberate modelling choice.** The engine is given its catalog explicitly. As written, it reads a stale module binding; `StaleCatalogBinding` models that wiring ("## Findings").

**Inputs given as parameters.** Some inputs are not modelled; each becomes a parameter:

| parameter | stands for |
|---|---|
| `ln` | `math.log` |
| `rand` | the draws of the seeded `random.Random` |
| `seed` | `_stable_seed`, an MD5 hash |
| `reply` | `ask_chatgpt(build_context(...))` |
| `tok`, `sim`, `fields` | the tokenizer, the similarity and the field extractor, so each lemma is stated for the functions the engine actually uses |

The engine and the index lemmas are proved for any tokenizer `tok`. The Tokenizer lemmas are about `Tokenizer.Tok`, the model of `_tok`. `StaleCatalogBinding.StartupCorrected` builds the engine with that tokenizer.

## Model

| member | source | states |
|---|---|---|
| OrderedDict.Empty | backend/services/product_loader.py:102 | a new dict is well formed and has no keys |
| OrderedDict.Put | backend/services/product_loader.py:110 | `d[k] = v`: the value is set, a new key goes to the end, an existing key keeps its position |
| OrderedDict.Dedupe | backend/services/search_service.py:120 | `list(dict.fromkeys(s))` has no duplicates, the same elements as `s` and is no longer |
| OrderedDict.DedupeDistinct | backend/services/search_service.py:120 | a list without duplicates is returned as it is |
| Text.Lower | backend/services/search_service.py:18 | ASCII capitals become lower-case letters; characters that are not capitals are unchanged |
| Text.Upper | backend/services/product_loader.py:37 | ASCII lower-case letters become capitals; other characters that are not lower-case are unchanged |
| Text.Fold | backend/services/search_service.py:14-18 | lower-casing plus accent stripping turns every capital and accented letter into a plain ASCII lower-case letter and leaves the rest |
| Text.TrimStart | backend/services/search_service.py:20 | the result is a suffix, it does not start with whitespace, and everything dropped is whitespace |
| Text.TrimEnd | backend/services/search_service.py:20 | the result is a prefix, it does not end with whitespace, and everything dropped is whitespace |
| Text.Trim | backend/services/search_service.py:20 | `strip()` is a contiguous slice of the input with no whitespace at either end |
| Text.StripNoop | backend/routers/chat.py:29 | stripping a string whose ends are not whitespace gives it back |
| Text.RunFrom | backend/services/state_manager.py:36 | a regex run `p*` from position q covers exactly the maximal run of matching characters |
| Text.DropWhile | backend/services/search_service.py:20 | the rest after a run of the class is a suffix that does not start with it, and strictly shorter when the input started with it |
| Text.CollapseRuns | backend/services/search_service.py:20 | `re.sub(r"[P]+", rep, s)` turns a leading run of the class into `rep` and otherwise keeps the first character |
| Text.CollapseRunsClean | backend/services/search_service.py:20 | after collapsing, the class occurs only as single `rep` characters, never two in a row |
| Text.LexLessIrreflexive | backend/services/search_service.py:179 | the code order of the sort key is irreflexive |
| Text.LexLessTransitive | backend/services/search_service.py:179 | the code order is transitive |
| Text.LexLessTotal | backend/services/search_service.py:179 | distinct codes are ordered one way or the other |
| Text.DigitsValue | backend/services/state_manager.py:45 | `int` of n decimal digits is below 10^n |
| Tokenizer.NormIsClean | backend/services/search_service.py:17-21 | `_norm` output has no leading, trailing or doubled whitespace and no underscore |
| Tokenizer.SplitDigitLetter | backend/services/search_service.py:26 | the substitution keeps the first character |
| Tokenizer.SplitLetterDigit | backend/services/search_service.py:27 | the substitution keeps the first character |
| Tokenizer.SplitDigitLetterSeparates | backend/services/search_service.py:26 | after the first substitution no digit is directly followed by a letter |
| Tokenizer.SplitLetterDigitSeparates | backend/services/search_service.py:26-27 | after both substitutions no letter touches a digit in either order |
| Tokenizer.RunLen | backend/services/search_service.py:28 | the leading piece is the maximal run of `[a-z0-9]` characters |
| Tokenizer.Runs | backend/services/search_service.py:28 | the non-empty pieces of `re.split(r"[^a-z0-9]+", s)` are non-empty runs of `[a-z0-9]` |
| Tokenizer.KeepLong | backend/services/search_service.py:29 | the kept pieces are pieces of the input and at least two characters long |
| Tokenizer.Tok | backend/services/search_service.py:23-29 | every token is at least two characters over `[a-z0-9]` |
| Tokenizer.RunIsOneClass | backend/services/search_service.py:26-28 | a run of token characters in separated text is all letters or all digits |
| Tokenizer.RunsAreOneClass | backend/services/search_service.py:26-28 | every piece of separated text is all letters or all digits |
| Tokenizer.TokensAreOneClass | backend/services/search_service.py:23-29 | letters and digits never share a token |
| Tokenizer.NormKeepsTokenText | backend/services/search_service.py:17-21 | text made only of `[a-z0-9]` is its own normal form |
| Tokenizer.TokOfTokenText | backend/services/search_service.py:23-29 | on such text `_tok` only separates, splits and filters |
| Tokenizer.TokSplitsLetterDigit | backend/services/search_service.py:25-29 | `_tok("ip65")` is `["ip", "65"]` |
| Tokenizer.TokDropsShortPieces | backend/services/search_service.py:25-29 | `_tok("3000k")` is `["3000"]` |
| Tokenizer.NonStop | backend/services/search_service.py:104 | the kept tokens are exactly the tokens of the input that are not stopwords |
| ProductLoader.Or | backend/services/product_loader.py:41 | `a or b` is `a` when `a` is truthy and `b` otherwise |
| ProductLoader.Get | backend/services/product_loader.py:41 | `rec.get(key)` is None for an absent key |
| ProductLoader.NatToString | backend/services/product_loader.py:50 | `str` of a natural number is a non-empty string of digits |
| ProductLoader.Str | backend/services/product_loader.py:77 | `str` of a string is the string itself, and `str(None)` is "None" |
| ProductLoader.LNorm | backend/services/product_loader.py:26-31 | the loader's `_norm` leaves no run of whitespace longer than one space |
| ProductLoader.StrippedItems | backend/services/product_loader.py:50 | the list comprehension keeps no empty item and never grows the list |
| ProductLoader.ToList | backend/services/product_loader.py:46-51 | None or "" give `[]`, a list gives its stripped non-empty items, any other value a one-element list |
| ProductLoader.Extras | backend/services/product_loader.py:68-71 | a synonym is added exactly when the base of one of its rules occurs in a normalised category |
| ProductLoader.MapLNorm | backend/services/product_loader.py:73 | every extra synonym is normalised, in order |
| ProductLoader.NormCats | backend/services/product_loader.py:57 | the normalised categories are exactly `_norm` of the non-empty categories |
| ProductLoader.StripField | backend/services/product_loader.py:42-44 | `(v or "").strip()` is "" for a falsy value and the stripped text for a string; it raises for any other truthy value |
| ProductLoader.NormalizeProduct | backend/services/product_loader.py:33-85 | raises exactly when the stripped code is empty or `.strip()` meets a truthy non-string `price`/`precio`, `url` or `img_url`/`image`, with `RuntimeError` for the empty code; otherwise it gives the cleaned upper-case code, the name fallback, the stripped price, URL and image URL, the coerced category and tag lists, the enriched `categories_norm`, and `category` only when it is a string |
| ProductLoader.CleanCodeStripped | backend/services/product_loader.py:37 | a cleaned code has no whitespace at either end |
| ProductLoader.NameFallback | backend/services/product_loader.py:41 | the name is the stripped `name`, else the stripped `title`, else the cleaned code |
| ProductLoader.CategoryEnrichment | backend/services/product_loader.py:57-73 | `categories_norm` has no duplicates; it holds every normalised category, and a rule's normalised synonyms exactly when the rule's base is a substring of one of them |
| ProductLoader.PoolCategoryEnriched | backend/services/product_loader.py:59-71 | a category mentioning "piscina" brings in "jacuzzi" |
| ProductLoader.Normalized | backend/services/product_loader.py:103-109 | a record that is kept is an object whose normalisation succeeds |
| ProductLoader.Outcomes | backend/services/product_loader.py:103-109 | the loop sees each key in order and makes of it the record's normalisation or a skip |
| ProductLoader.Gather | backend/services/product_loader.py:102-110 | the assembled catalog is a well-formed dict |
| ProductLoader.GatherKeyed | backend/services/product_loader.py:110 | a code is in the catalog exactly when some kept record normalises to it, and the record stored there carries that code |
| ProductLoader.GatherLastWins | backend/services/product_loader.py:110 | on a code collision the record seen last is the one kept |
| ProductLoader.LoadKeyed | backend/services/product_loader.py:100-115 | a loaded catalog holds a code exactly when some record of the root object normalises to it |
| ProductLoader.LoadFromDisk | backend/services/product_loader.py:90-115 | the loop computes `Load`: a missing file or non-object root is an error, non-object and failing records are skipped, each kept record is stored under its code, and an empty result is an error |
| ProductLoader.AfterLoad | backend/services/product_loader.py:117-122 | `load_products` returns a non-empty cache as it is; an empty one takes the file's catalog when that loads, which is then non-empty, and stays as it was when the load fails |
| ProductLoader.AfterReload | backend/services/product_loader.py:124-128 | `reload_products` returns the load, and the cache takes its catalog exactly when it succeeds |
| ProductLoader.LoadedStaysCached | backend/services/product_loader.py:117-128 | after a successful load or reload, every later `load_products` returns that catalog and keeps the cache, whatever the file |
| ProductLoader.ProductCache.constructor | backend/services/product_loader.py:14 | the cache starts as the empty dict |
| ProductLoader.ProductCache.LoadProducts | backend/services/product_loader.py:117-122 | the result and the new cache are `AfterLoad` of the old cache |
| ProductLoader.ProductCache.ReloadProducts | backend/services/product_loader.py:124-128 | the result and the new cache are `AfterReload` of the old cache |
| SearchIndex.SetOf | backend/services/search_service.py:61 | `set(xs)` holds exactly the elements of `xs` |
| SearchIndex.FieldsOf | backend/services/search_service.py:60-74 | the name set comes from the raw name and the code set from the code; the slug set is empty, since the loader emits no `slug_toks` |
| SearchIndex.FieldsBy | backend/services/search_service.py:60-74 | the engine's field extractor is `FieldsOf` with its tokenizer |
| SearchIndex.IndexOf | backend/services/search_service.py:60-78 | `_INDEX` has exactly the catalog's codes, each with the field sets of its product |
| SearchIndex.DF | backend/services/search_service.py:80-81 | a document frequency never exceeds the number of products seen |
| SearchIndex.Vocab | backend/services/search_service.py:80-81 | the keys of `_VOCAB` are exactly the terms of the indexed products |
| SearchIndex.CategoryTermsHeld | backend/services/search_service.py:83 | `_ALL_CATEGORY_TERMS` holds exactly the category tokens of the products |
| SearchIndex.IndexStep | backend/services/search_service.py:60-83 | indexing one more product adds its terms, adds one to the frequency of each of its terms and nothing to the others, and adds its category tokens |
| SearchIndex.DFCountsHolders | backend/services/search_service.py:80-81 | `_VOCAB[t]` is the number of distinct products whose field union contains t |
| SearchIndex.TermsHeld | backend/services/search_service.py:80-81 | a term is in the vocabulary exactly when its frequency is at least 1 |
| SearchIndex.DFBounds | backend/services/search_service.py:80-85 | every vocabulary frequency is between 1 and the number of products |
| SearchIndex.DocCount | backend/services/search_service.py:85 | `N = max(1, len(_INDEX))` is at least 1 |
| SearchIndex.IdfTable | backend/services/search_service.py:86 | the IDF update has exactly the vocabulary's terms |
| SearchIndex.IdfAboveOne | backend/services/search_service.py:85-86 | with a logarithm positive above 1, every indexed term has an IDF above 1 |
| SearchService.Detect | backend/services/search_service.py:188-192 | the collected terms are category terms named by the message, at most six, and all such terms when fewer than six came back |
| SearchService.AddTerms | backend/services/search_service.py:80-81 | each term of the product gains one count, a new term starts at 1, others keep their count |
| SearchService.BuildIndex | backend/services/search_service.py:55-83 | the indexing loop computes `_INDEX`, `_VOCAB` and `_ALL_CATEGORY_TERMS` as the functions over the whole catalog |
| SearchService.IndexComplete | backend/services/search_service.py:60-76 | the field sets gathered over all of the catalog's keys are `_INDEX` |
| SearchService.IndexMapStep | backend/services/search_service.py:76 | storing one more product's field sets gives the index of one key more |
| SearchService.VocabStep | backend/services/search_service.py:80-81 | counting the terms of one more product gives the document frequencies over one key more |
| SearchService.Rebuild | backend/services/search_service.py:55-87 | a rebuild gives `_INDEX`, `_VOCAB` and `_ALL_CATEGORY_TERMS` of the whole catalog and merges the catalog's IDF table into `_IDF` |
| SearchService.SearchEngine.constructor | backend/services/search_service.py:42-46 | at import every global is empty and the index is not ready |
| SearchService.SearchEngine.EnsureIndex | backend/services/search_service.py:48-87 | once ready nothing changes; otherwise the index, the frequencies and the category terms are rebuilt from the catalog, and the new IDF values are merged into `_IDF`, which is never cleared |
| SearchService.SearchEngine.ExpandQueryTokens | backend/services/search_service.py:102-113 | ensures the index, then returns the expansion over the current vocabulary and IDF |
| SearchService.SearchEngine.ScoreProduct | backend/services/search_service.py:115-146 | the score of an indexed code is `Score` of its field sets |
| SearchService.SearchEngine.ScoreAll | backend/services/search_service.py:164-177 | the loop fills `scored` exactly as `Scored` over the catalog in order |
| SearchService.SearchEngine.SearchCandidates | backend/services/search_service.py:153-181 | ensures the index, then returns the ranked, filtered window `SearchResult` of the catalog |
| SearchService.SearchEngine.IndexedScores | backend/services/search_service.py:115-117 | on the built index, the score function ranking uses gives every indexed code its `_score_product` |
| SearchService.SearchEngine.DetectCategoriesFromText | backend/services/search_service.py:183-193 | at most six terms of `_ALL_CATEGORY_TERMS`, each named by the message, and every such term when fewer than six came back |
| Scoring.Idf | backend/services/search_service.py:89-90 | an unseen term has IDF 0.5 |
| Scoring.ExactIsRelated | backend/services/search_service.py:127-135 | an exact hit is also a substring hit, so it earns the 0.15 bonus in `sub` too |
| Scoring.FieldMatch | backend/services/search_service.py:124-137 | the two loops compute the gains, plus 0.15 times the exact count plus the substring count |
| Scoring.FieldScoreEmpty | backend/services/search_service.py:124-137 | `field_match` of an empty field is 0 |
| Scoring.FieldScoreSign | backend/services/search_service.py:124-137 | with positive IDF, `field_match` is never negative, and positive exactly when a query term is a substring or superstring of a field token |
| Scoring.NotIn | backend/services/search_service.py:120 | the expansions kept are exactly those not already query tokens |
| Scoring.QueryTerms | backend/services/search_service.py:119-120 | the scored terms are distinct: exactly the non-stopword tokens and the expansions |
| Scoring.ScoreWithoutTerms | backend/services/search_service.py:119-122 | with only stopword tokens and no expansions the score is 0 |
| Scoring.ScoreSign | backend/services/search_service.py:139-146 | with positive IDF the score is never negative, and positive exactly when some scored term relates to a token of some field |
| Trigram.Windows | backend/services/search_service.py:94 | there are at most k windows, each three characters long |
| Trigram.Ngrams | backend/services/search_service.py:92-94 | the trigrams of "" are none; a non-empty s has between 1 and len(s) trigrams, each three characters |
| Trigram.NgramsAreWindows | backend/services/search_service.py:92-94 | the trigrams are exactly the slices `p[i:i+3]` of the padded string for i below len(s) |
| Trigram.CharSim | backend/services/search_service.py:96-100 | the similarity is in [0, 1] and 0 when either trigram set is empty |
| Trigram.CharSimSymmetric | backend/services/search_service.py:96-100 | the similarity does not depend on the argument order |
| Trigram.CharSimSelf | backend/services/search_service.py:96-100 | a non-empty string is fully similar to itself |
| Trigram.CharSimEmpty | backend/services/search_service.py:96-100 | the similarity with the empty string is 0 |
| Trigram.CharSimPositive | backend/services/search_service.py:96-100 | a positive similarity means a shared trigram |
| Sorting.Insert | backend/services/search_service.py:179 | insertion adds exactly one element |
| Sorting.SortBy | backend/services/search_service.py:179 | sorting is a permutation |
| Sorting.InsertSorted | backend/services/search_service.py:179 | inserting into a sorted list keeps it sorted |
| Sorting.SortBySorted | backend/services/search_service.py:179 | under a strict order, the result is sorted |
| Sorting.PrefixSorted | backend/services/search_service.py:113 | a prefix of a sorted list is sorted |
| Sorting.TopK | backend/services/search_service.py:113 | `sorted(...)[:k]` has at most k elements |
| Sorting.TopKShape | backend/services/search_service.py:113 | the kept elements come from the input, once each when the input has no repeats |
| Sorting.TopKOrder | backend/services/search_service.py:113 | the kept elements are sorted, and no dropped element is strictly before a kept one |
| Expansion.Max | backend/services/search_service.py:112 | `max` is an upper bound and one of its arguments |
| Expansion.QualMax | backend/services/search_service.py:108-112 | a candidate's value is 0 or reaches the 0.35 threshold |
| Expansion.QualMaxIsBest | backend/services/search_service.py:108-112 | it is the largest qualifying similarity, and one of them when positive |
| Expansion.Scan | backend/services/search_service.py:109-112 | one pass of the inner loop keeps `cand` a well-formed dict |
| Expansion.Cands | backend/services/search_service.py:107-112 | the filled `cand` is a well-formed dict |
| Expansion.ScanEffect | backend/services/search_service.py:109-112 | a pass adds exactly the vocabulary terms at least 0.35-similar to the query term, and raises their value to the maximum |
| Expansion.CandsSpec | backend/services/search_service.py:107-112 | a term is a candidate exactly when it is in the vocabulary and some query term is at least 0.35-similar to it; its value is the best such similarity |
| Expansion.BeforeIsStrict | backend/services/search_service.py:113 | the key `(-cand[x], -_idf(x))`, read as "strictly before", is a strict order |
| Expansion.ExpandAllStopwords | backend/services/search_service.py:104-106 | when every query token is a stopword, nothing is expanded |
| Expansion.ExpandShape | backend/services/search_service.py:102-113 | at most k terms come back, each once, each a vocabulary term at least 0.35-similar to a non-stopword query token |
| Expansion.ExpandRanked | backend/services/search_service.py:113 | the terms are ordered by similarity descending, then IDF descending, and no cut-off candidate ranks strictly above a kept one |
| Expansion.ExpandTokens | backend/services/search_service.py:102-113 | the two loops filling `cand`, then the sort and cut, compute the expansion |
| Ranking.Filter | backend/services/search_service.py:150 | the survivors are input items with a non-excluded code, and every such item survives |
| Ranking.Slice | backend/services/search_service.py:151 | `s[offset:offset+limit]` has the clamped length and holds the elements from `offset` on |
| Ranking.FilterIsSubseq | backend/services/search_service.py:150 | filtering keeps the survivors in their input order |
| Ranking.FilterIdempotent | backend/services/search_service.py:150 | filtering twice by the same codes is filtering once |
| Ranking.FilterNothing | backend/services/search_service.py:149-150 | with no exclusions, every item is kept |
| Ranking.PaginateSpec | backend/services/search_service.py:148-151 | `_paginate` returns at most `limit` items, none excluded, exactly `filtered[offset:offset+limit]`, a full page when there are enough, and the filtered list keeps input order |
| Ranking.Scored | backend/services/search_service.py:164-177 | the loop appends at most one tuple per product |
| Ranking.ScoredStep | backend/services/search_service.py:165-177 | one turn appends `(score + jitter, payload)` exactly when the score is positive, drawing the next random number only then |
| Ranking.ScoredFrom | backend/services/search_service.py:165-177 | every tuple is a positively scored catalog product, with its five payload fields and a jitter below 0.01 |
| Ranking.ScoredComplete | backend/services/search_service.py:165-177 | every positively scored catalog product is in `scored` |
| Ranking.RankBeforeIsStrict | backend/services/search_service.py:179 | the key `(-score, code)` is a strict order |
| Ranking.Payloads | backend/services/search_service.py:180 | `[it for _, it in scored]` keeps the payloads in order |
| Ranking.RankedOrder | backend/services/search_service.py:179 | the sorted list is a permutation of `scored`, ordered by jittered score descending and then by code; a product outscoring another by 0.01 or more comes first |
| Ranking.SearchWithoutTerms | backend/services/search_service.py:157-159 | a message without a non-stopword token finds nothing |
| Ranking.SearchEmptyCatalog | backend/services/search_service.py:165 | an empty catalog finds nothing |
| Ranking.PageItems | backend/services/search_service.py:165-181 | each item of a page is the payload of a positively scored catalog product, not excluded, and there are at most `limit` of them |
| Ranking.SearchItems | backend/services/search_service.py:153-181 | the search returns at most `limit` items, none excluded, each the five fields of a catalog product whose `_score_product` is positive |
| Ranking.SearchWindow | backend/services/search_service.py:179-181 | with nothing excluded, the result is the window `[offset:offset+limit]` of the ranked payloads |
| StateManager.Session.constructor | backend/services/state_manager.py:10-22 | a new record is the default record |
| StateManager.Session.Update | backend/services/state_manager.py:65 | `s.update(delta)`: the keys of `delta` take its values, nested dicts replaced whole, and the other keys keep theirs |
| StateManager.SessionStore.constructor | backend/services/state_manager.py:6 | the store starts empty |
| StateManager.SessionStore.GetState | backend/services/state_manager.py:8-23 | a new session gets a fresh default record (page 0, empty `seen_codes` and `focus`, seed 0, four preferences None); a known one gets the same record object back and the store is unchanged |
| StateManager.SessionStore.UpdateState | backend/services/state_manager.py:63-65 | the session's record takes the top-level keys of `delta` and keeps its others; a new id gets a fresh record and is the only key added; every other session and its record are unchanged |
| StateManager.RootsCoverPhrases | backend/services/state_manager.py:25-31 | every phrase of `_MORE` starts with one of 21 roots, all of them phrases |
| StateManager.MoreSignalByRoots | backend/services/state_manager.py:32-34 | a text is a "more" signal exactly when its lower-cased, stripped form starts with one of the 21 roots; the `t == x` test and the four longer phrases add nothing |
| StateManager.PlainText | backend/services/state_manager.py:33 | lower-case text without surrounding spaces is its own key |
| StateManager.MascarillaIsMore | backend/services/state_manager.py:34 | "mascarilla led" counts as a "more" request, by the `startswith("mas")` test |
| StateManager.OtrosIsMore | backend/services/state_manager.py:34 | "otros colores" counts as a "more" request |
| StateManager.EmptyIsNotMore | backend/services/state_manager.py:32-34 | the empty text is not a "more" request |
| StateManager.ClassifyIntent | backend/services/state_manager.py:58-61 | the intent is "more" exactly when `is_more_signal` holds, and "keyword" otherwise |
| StateManager.KeywordSignalAnyAlnum | backend/services/state_manager.py:54-56 | the keyword test holds exactly when the text has an ASCII letter or digit |
| StateManager.SearchLeftmost | backend/services/state_manager.py:44-48 | `re.search` returns the match at the first position where the pattern matches, and fails only when it matches nowhere |
| StateManager.WattsWith | backend/services/state_manager.py:36 | a match tried with at most n digits yields a number below 1000 |
| StateManager.WattsAt | backend/services/state_manager.py:36-45 | `_WATTS` at a position yields a number below 1000 |
| StateManager.TempWith | backend/services/state_manager.py:37 | a match yields one of the listed alternatives' values |
| StateManager.TempAt | backend/services/state_manager.py:37-47 | `_TEMP` at a position yields one of 2700, 3000, 3500, 4000, 5000, 6500 |
| StateManager.MoneyPlain | backend/services/state_manager.py:38 | the first budget alternative matches at least two characters inside the text |
| StateManager.UnitWord | backend/services/state_manager.py:38 | `(mil|k)` matches a non-empty piece inside the text |
| StateManager.MoneyUnit | backend/services/state_manager.py:38 | the second budget alternative matches a non-empty piece inside the text |
| StateManager.MoneyAt | backend/services/state_manager.py:38-49 | group 1 of `_MONEY` is a non-empty slice of the text from the match position |
| StateManager.WattsBound | backend/services/state_manager.py:36-45 | the watts slot is a number from 0 to 999 |
| StateManager.TempBound | backend/services/state_manager.py:37-47 | the colour temperature is one of the six listed values |
| StateManager.MoneyIsText | backend/services/state_manager.py:38-49 | the budget is the matched text itself: a non-empty piece of the message, not a number |
| StateManager.MaybeExtractSlots | backend/services/state_manager.py:40-50 | nothing for an empty text; otherwise `preferencias` is present exactly when a pattern matched, and holds exactly the matched slots with their values |
| StateManager.WattsOf100w | backend/services/state_manager.py:36-45 | "100w" gives 100 watts |
| StateManager.BudgetOf100w | backend/services/state_manager.py:38-49 | the budget pattern takes the "100" of "100w" as well |
| ChatRouter.ClampPage | backend/routers/chat.py:33 | the page is never negative, never below the one asked for, and either 0 or the page asked for |
| ChatRouter.EffectiveQuery | backend/routers/chat.py:34 | the search uses `last_query` exactly when the page is positive and `last_query` is non-empty, and the message otherwise |
| ChatRouter.Plan | backend/routers/chat.py:29-46 | refused with 400 "message is required" exactly when the stripped message is empty; otherwise a search for the non-empty effective query, limit 5, offset page*5, nothing excluded, seeded from the session and that query |
| ChatRouter.PagesShareRanking | backend/routers/chat.py:33-46 | a first page and a later page asked with its message as `last_query` search the same query with the same seed; only the offset moves, by 5 per page |
| ChatRouter.LaterPagesIgnoreMessage | backend/routers/chat.py:34-39 | with a positive page and a `last_query`, the message does not change what is searched |
| ChatRouter.Chat | backend/routers/chat.py:24-52 | a refused request changes nothing; otherwise the response carries the search result unchanged and echoes the page and the effective query |
| ChatBox.Entity | frontend/chatbox.js:78 | a replacement starts with `&` exactly for the five special characters; any other character is kept |
| ChatBox.EscapeHtml | frontend/chatbox.js:78 | the output has no `<`, `>`, `"` or `'`; input without the five characters comes back unchanged |
| ChatBox.EntityFirst | frontend/chatbox.js:78 | an `&` in a replacement is its first character, and the replacement is one of the five entities |
| ChatBox.AmpersandsOpenEntities | frontend/chatbox.js:78 | every `&` of the output starts one of the five entities |
| ChatBox.UnescapeEscape | frontend/chatbox.js:78 | decoding the entities gives the input back, so escaping loses nothing |
| ChatBox.QuoteEntities | frontend/chatbox.js:79 | text without `"` is left unchanged |
| ChatBox.EscapeAttr | frontend/chatbox.js:79 | `escapeAttr(s)` equals `escapeHtml(s)` |
| ChatBox.MoreWords | frontend/chatbox.js:89 | "más", "Ver  MAS", "la siguiente" and "continuar" are more requests |
| ChatBox.MascarillaIsMore | frontend/chatbox.js:89 | "mascarilla led" is taken for a more request, since `^` anchors only `m(a|á)s` |
| ChatBox.DameMasIsNotMore | frontend/chatbox.js:89 | "dame mas" is not a more request, since `^` belongs to the first alternative only |
| ChatBox.ChatClient.constructor | frontend/chatbox.js:11-12 | on load `lastQuery` is "", `page` is 0 and there is no button |
| ChatBox.Transition | frontend/chatbox.js:85-111 | a blank message that is not a show-more sends nothing and changes nothing; a show-more with no last query does the same; any other show-more goes one page further and sends the last query; any other message resets the page to 0 and becomes the last query |
| ChatBox.TransitionKeepsValid | frontend/chatbox.js:85-96 | every step keeps a later page tied to a trimmed last query, and every request sent carries the last query, trimmed and not empty, as its message, with the new page |
| ChatBox.ChatClient.SendMessage | frontend/chatbox.js:84-111 | the message is `raw`, or the text box when it is not given, trimmed; it is a show-more when the button sent it or it matches the more pattern; the new `lastQuery` and `page` and the request posted are those of `Transition`, the client stays valid and every request sent is sendable |
| ChatBox.ChatClient.MaybeToggleShowMore | frontend/chatbox.js:62-75 | the button is present exactly when an array of exactly five products came back; the pagination state is unchanged |
| ChatBox.PieceLen | frontend/chatbox.js:139 | the first piece ends at the first separator |
| ChatBox.Split | frontend/chatbox.js:139 | `split` gives at least one piece, and no piece contains the separator |
| ChatBox.JoinSplit | frontend/chatbox.js:139 | joining the pieces back with the separator gives the text |
| ChatBox.SplitJoin | frontend/chatbox.js:139 | splitting pieces joined by a separator they do not contain gives the pieces |
| ChatBox.Span | frontend/chatbox.js:142 | a greedy class run covers exactly the maximal run |
| ChatBox.SchemeLen | frontend/chatbox.js:142 | `https?:\/\/` matches 7 or 8 characters, or not at all |
| ChatBox.DashRest | frontend/chatbox.js:142 | after `\s+—` the rest is strictly shorter |
| ChatBox.LazyFrom | frontend/chatbox.js:142 | the lazy name `(.+?)` is never empty |
| ChatBox.DashSpace | frontend/chatbox.js:142 | `\s+—` over " — " leaves the space after the dash |
| ChatBox.DashEnd | frontend/chatbox.js:142 | `\s+—` over " —" leaves what follows |
| ChatBox.NoTailInsideName | frontend/chatbox.js:142 | no name shorter than the written one lets the rest of the pattern match |
| ChatBox.LazySkips | frontend/chatbox.js:142 | the lazy name grows past every position where the rest of the pattern cannot match |
| ChatBox.ImagePart | frontend/chatbox.js:142-143 | the image group reads back, and `img_url` is '' when the field is missing |
| ChatBox.UrlPart | frontend/chatbox.js:142 | the URL group reads back, up to the dash that follows |
| ChatBox.PricePart | frontend/chatbox.js:142 | the price group reads back, up to the dash that follows |
| ChatBox.TailOfLine | frontend/chatbox.js:142 | the part after the name reads back its price, URL and image |
| ChatBox.ParseFormatLine | frontend/chatbox.js:142-143 | a line `Nombre — Precio — URL — IMG` parses back to its product |
| ChatBox.Lines | frontend/chatbox.js:139 | the trimmed, non-empty lines are all non-empty |
| ChatBox.Parsed | frontend/chatbox.js:141-144 | at most one product per line |
| ChatBox.CollectAll | frontend/chatbox.js:141-144 | lines that each match give exactly their products, in order |
| ChatBox.ParseLines | frontend/chatbox.js:141-145 | the loop that pushes a product per matching line gives `Parsed` of the lines |
| ChatBox.FormatLines | frontend/chatbox.js:127-142 | the written lines are one line per product, in order |
| ChatBox.LineShape | frontend/chatbox.js:139-142 | a written line contains no line break and has no space at either end |
| ChatBox.ParseFormatText | frontend/chatbox.js:137-146 | a reply listing products one per line gives back exactly those products, in order |
| ChatBox.ParseInlineProducts | frontend/chatbox.js:137-146 | no text or an empty text gives `[]`; otherwise one product per trimmed line that matches, in line order |
| Conversation.ServerFollowsClient | backend/routers/chat.py:29-46 | a request the widget sends, with a message the server's strip keeps, is accepted, and the server searches the widget's last query at offset page*5 seeded from it: the two agree on paging |
| Conversation.SeparatorOnlyRefused | backend/routers/chat.py:29-31 | the message U+001C is not blank to JavaScript's `trim`, so the widget sends it, but it is whitespace to Python's `strip`, so the server refuses it with 400 |
| StaleCatalogBinding.Interpreter.constructor | backend/services/search_service.py:9 | after the import, both module names denote the same empty dict |
| StaleCatalogBinding.Interpreter.LoadProducts | backend/services/product_loader.py:117-122 | a load binds a new dict to the loader's name only, holding `AfterLoad` of what that name held; the search module's name keeps its old object |
| StaleCatalogBinding.Interpreter.ReloadProducts | backend/services/product_loader.py:124-128 | a reload also rebinds only the loader's name, holding `AfterReload` of what it held |
| StaleCatalogBinding.StartupAsWritten | backend/services/search_service.py:52-60 | with a file that loads, the loader holds the non-empty catalog while the search module still sees the empty dict, and the search finds nothing |
| StaleCatalogBinding.StartupCorrected | backend/services/search_service.py:48-87 | an engine given the loaded catalog and the tokenizer `Tokenizer.Tok` indexes every one of its products |

## Left out

**Text handling:**
- Unicode normalisation (NFD, then dropping combining marks) is modelled only for the Spanish accented letters (á é í ó ú ü ñ, both cases). Other non-ASCII characters are kept as they are, and are not word characters.
- Python case mapping beyond ASCII and those letters is not modelled. Neither is JavaScript's `/i` beyond them.
- `\d` and `\w` are ASCII digits and word characters.
- `\s` is Python's or JavaScript's whitespace set over the code points the model lists.

**Foreign or unmodelled computation:**
- `math.log`, `random.Random`, `hashlib.md5` and `ask_chatgpt(build_context(...))` are parameters (`ln`, `rand`, `seed`, `reply`). Nothing is stated about the values they produce beyond what each lemma requires, such as `0 <= rand(n) < 1`.
- Floating point is modelled as reals, so rounding is not captured.
- Ranking.RankedOrder: the sort is modelled as a stable insertion sort on values. The model does not capture `list.sort`'s in-place update of `scored`.

**Catalog values:**
- JSON numbers with a fraction are not represented: `Json` has integers only. The source would turn `"name": 1.5` into "1.5".
- ProductLoader.Enrich: `list(set(...))` (product_loader.py:73) has no defined order. The model fixes it as first-occurrence order. The index only builds sets from `categories_norm` (search_service.py:63,70), so the order does not reach a search.
- ProductLoader.ReprStr: `str()` of a nested list escapes backslash, quotes, tab, newline and carriage return. Python's `\xNN` and `\uNNNN` escapes of other non-printable characters are not modelled.

**I/O, modules and the interface:**
- Disk I/O and JSON decoding (product_loader.py:91-98). The file is an `Option<Json>`: absent when the file is missing, otherwise the decoded value.
- The import-time loop of product_loader.py:132-134 runs over the dict that is still empty at import, so it does nothing; it is not modelled.
- DOM, `fetch`, `pushMe`/`pushBot`, `typing`, `linkify` and the rendering of products in frontend/chatbox.js.
- ChatBox.ChatClient.SendMessage: the model stops at the request body; the response handling (chatbox.js:114-129) is not modelled.
- JavaScript's `String(s)` coercion of non-string values: the escaping functions take strings.
- ChatBox.ParseInlineProducts: a non-string argument is represented only by `None`.
- `$` of the line pattern is anchored at the end of a trimmed line with no line terminator, which is the only case the parser sees.
- main.py, backend/routers/admin.py, backend/services/context_builder.py, backend/services/openai_client.py and backend/services/focus_rules.py are not part of this model. They hold web-framework wiring, prompt templating, a network client and static configuration.

**Python object identity:**
- StateManager.SessionStore.GetState: the returned record is a `Session` object. Values inside a record, such as the `seen_codes` set, are values rather than shared objects, so aliasing through them is not captured.
- Only object identity of the catalog dict is modelled, in `StaleCatalogBinding`. `ProductLoader.ProductCache` models the loader cache as a value. Both classes state their loads through `ProductLoader.AfterLoad` and `ProductLoader.AfterReload`.

**Contracts stated as relations rather than closed forms:**
- SearchIndex.FieldsOf: its contract states the name, code and slug sets. The tag, category and blob sets follow their source lines in its body: raw tags, then `categories_norm`, then the categories and the code.
- Text.CollapseRuns: its own contract speaks only of the first character. `Text.CollapseRunsClean` states the run property.

## Findings

| source | as written | input that shows it | evidently intended | confidence | as-written member | corrected member |
|---|---|---|---|---|---|---|
| backend/services/search_service.py:9 | `from backend.services.product_loader import load_products, PRODUCTOS` binds the search module's name to the empty dict of product_loader.py:14. `load_products` and `reload_products` rebind only the loader's name (product_loader.py:121,127), so `_ensure_index` and `search_candidates` iterate the empty dict | any `productos.json` that loads: after start-up `load_products()` and a search, the catalog is non-empty but the search module's `PRODUCTOS` is `{}`, and every search returns `[]` | the engine indexes and ranks the catalog the loader returned | not executed; high (follows from Python's import binding rules) | StaleCatalogBinding.StartupAsWritten | StaleCatalogBinding.StartupCorrected |

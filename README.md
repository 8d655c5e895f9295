# Fast Site Search Chatbot — a verified model

Fast Site Search Chatbot is a WordPress plugin. It exports the site's published posts and pages
as a JSON dataset and serves that dataset through a REST endpoint. A small chat widget loads the
dataset into an inline full-text engine (a MiniSearch work-alike) and answers visitors' queries in
the browser.

The repository holds two copies of the plugin. The top-level `fast-site-search-chatbot.php` goes
with `assets/chatbot.js`; the copy under `Plugin/` goes with `Plugin/assets/chatbot.js`. The two
PHP files are line-for-line the same in the parts modelled here, 114 lines apart, except for the
REST nonce action. The top-level copy checks 'wp_rest' for logged-in users and 'wp_rest_public'
otherwise; the nonce check is a boolean in the model either way. The engine rows cite the
top-level copy, the dataset and endpoint rows cite the `Plugin/` copy.

This project models, in Dafny:

- **The search engine**: `tokenize`, `levenshtein`, `addAll`, `_matchTerms` and `search`.
  - `Tokenizer`, `EditDistance`, `InvertedIndex` and `Query` define what each computes.
  - `MiniSearch.Engine` is the engine object. Its methods update the index and the stored-field
    table in place and are proved against those definitions.
  - `Retrieval` states which documents a query returns in terms of the documents themselves.
- **The dataset lifecycle** of the PHP class, in four modules.
  - `Exclusions`: `ids_from_csv`, the exclusion filter and `excerpt`.
  - `Signature`: `current_content_signature`.
  - `Lifecycle`: the state transitions of the upload directory, the options and the transients.
  - `DatasetPlugin.Plugin`: the class whose methods perform those transitions on its fields:
    building, rotating, purging, the daily job, the admin rebuild and the REST endpoint.
- **The server rate limiter** `check_rate_limit` (`RateLimit`): two transient counters per client,
  capped at 12 a minute and 200 an hour.
- **The widget**:
  - `ClientThrottle`: the client throttle `canQueryNow`, its timestamp window and the topK clamp.
  - `ChatClient`: the engine setup and the search both widgets share.
  - `LegacyChatbot.Widget` (`Plugin/assets/chatbot.js`) and `Chatbot.Widget`
    (`assets/chatbot.js`): the two widgets, with their panel flags, lazy loading and query gating.

## Model

| member | source | states |
|---|---|---|
| Tokenizer.Blank | fast-site-search-chatbot.php:487 | the replace step keeps letters, digits and white space and turns every other character into a space, position by position |
| Tokenizer.TokenizeWellFormed | fast-site-search-chatbot.php:487 | every token is non-empty and made only of lower-case letters and digits; an empty string has no tokens |
| Tokenizer.TokenizeKeepsWordChars | fast-site-search-chatbot.php:487 | the tokens, concatenated, are exactly the input's letters and digits, lower-cased and in order: nothing is lost or invented |
| Tokenizer.TokenizeJoinRoundTrip | fast-site-search-chatbot.php:487 | tokenizing the space-joined tokens gives the same tokens back |
| Tokenizer.Uniq | fast-site-search-chatbot.php:488 | `uniq` keeps the same elements, each once, and is no longer than its input |
| EditDistance.Levenshtein | fast-site-search-chatbot.php:489 | the single-row, in-place loop returns the edit distance defined by the insert/delete/substitute recurrence |
| EditDistance.NextRow | fast-site-search-chatbot.php:489 | one pass of the outer loop turns the row for a[..i-1] into the row for a[..i], in place |
| EditDistance.DistStep | fast-site-search-chatbot.php:489 | the recurrence the inner loop applies: no cost for equal characters, otherwise one plus the cheapest neighbour |
| EditDistance.LevBaseCases | fast-site-search-chatbot.php:489 | the early returns: against an empty string the distance is the other length; a string is at distance 0 from itself |
| EditDistance.LevBounds | fast-site-search-chatbot.php:489 | the distance lies between the difference of the lengths and the longer length |
| EditDistance.LevSymmetric | fast-site-search-chatbot.php:489 | the distance does not depend on the order of the arguments |
| EditDistance.LevZeroIffEqual | fast-site-search-chatbot.php:489 | distance 0 exactly when the strings are equal |
| MiniSearch.Engine.constructor | fast-site-search-chatbot.php:491 | a new engine holds no documents and an empty, consistent index |
| MiniSearch.Engine.AddAll | fast-site-search-chatbot.php:492-497 | addAll replaces the documents and leaves the index, docMap and N that the documents determine |
| MiniSearch.Engine.CountTerms | fast-site-search-chatbot.php:494 | the counting loop yields each token's number of occurrences, keys in first-occurrence order |
| MiniSearch.Engine.AddDocTerms | fast-site-search-chatbot.php:495 | the loop over Object.entries(counts) adds every term's count to the index |
| MiniSearch.Engine.AddPosting | fast-site-search-chatbot.php:495 | one entry: create the term if absent, count the document in df once, add tf to its posting |
| InvertedIndex.BuildIndexWellFormed | fast-site-search-chatbot.php:492-497 | every index addAll builds lists each term once, and each entry's df equals its number of postings, each at least 1 |
| InvertedIndex.BuildIndexPosting | fast-site-search-chatbot.php:493-495 | a posting equals the term's total number of occurrences in the title and text of the documents with that id |
| InvertedIndex.IndexContents | fast-site-search-chatbot.php:492-497 | a term has a posting for an id exactly when a document with that id contains the term; its value is that frequency |
| InvertedIndex.IndexTerms | fast-site-search-chatbot.php:492-497 | a term is a key of the index exactly when some document contains it |
| InvertedIndex.DocMapContents | fast-site-search-chatbot.php:493 | docMap holds exactly the documents' ids, each mapped to the last document carrying it |
| InvertedIndex.PostingsInDocMap | fast-site-search-chatbot.php:493-495 | every id with a posting has stored fields |
| MiniSearch.Engine.MatchTerms | fast-site-search-chatbot.php:498-502 | _matchTerms returns one variant list per query term, as Query.Expand defines |
| MiniSearch.Engine.VariantsOf | fast-site-search-chatbot.php:499-501 | the loop over the index keys collects the exact term, then the prefix and fuzzy matches, or the term itself when none |
| Query.Expand | fast-site-search-chatbot.php:498-502 | there are as many variant lists as query terms |
| Query.ExpansionsMembers | fast-site-search-chatbot.php:500 | an indexed term other than qt joins the variants exactly when qt prefixes it (prefix on) or is within maxF edits and 2 characters of length (fuzzy on) |
| Query.VariantsMembers | fast-site-search-chatbot.php:499-501 | the variant list holds qt when indexed and every accepted indexed term; it is [qt] exactly when nothing matched |
| MiniSearch.Engine.Search | fast-site-search-chatbot.php:503-512 | search returns exactly the selected documents with their stored fields and scores, ranked; nothing for a query without tokens |
| MiniSearch.Engine.Accumulate | fast-site-search-chatbot.php:505-510 | the nested loops leave the score and hit tallies that Query.TallyOf defines |
| MiniSearch.Engine.ScoreTermStep | fast-site-search-chatbot.php:505-508 | the loop over one query term's variants adds each posting's contribution and collects `seen` |
| MiniSearch.Engine.ScoreVariantStep | fast-site-search-chatbot.php:505-508 | one variant adds tf·idf·boost to every document it posts, and nothing when it is not indexed |
| MiniSearch.Engine.CountHits | fast-site-search-chatbot.php:509 | each id in `seen` gets one more hit |
| MiniSearch.Engine.Select | fast-site-search-chatbot.php:511 | the AND filter keeps the scored ids hit by every query term; otherwise all scored ids |
| MiniSearch.Engine.Rank | fast-site-search-chatbot.php:512 | the sort yields a ranked list of exactly the chosen ids: higher score first, ties by ascending id |
| MiniSearch.Engine.SearchIndexStored | fast-site-search-chatbot.php:506 | every posting of a valid engine has stored fields under its own id, so a result always has its document |
| Query.ScoreTermKeys | fast-site-search-chatbot.php:505-508 | the scored ids after a term are the earlier ones plus the ids the term's variants post |
| Query.SeenMembers | fast-site-search-chatbot.php:505-509 | `seen` holds exactly the ids with a posting in some indexed variant |
| Query.TallyHits | fast-site-search-chatbot.php:505-510 | a document's hits are the number of query terms that hit it, and it is scored exactly when at least one did |
| Query.HitCountBound | fast-site-search-chatbot.php:509-511 | hits never exceed the number of query terms and reach it exactly when every term hit the document |
| Query.SelectionMembers | fast-site-search-chatbot.php:511 | AND keeps exactly the documents hit by every query term; any other mode keeps those hit by at least one |
| Query.InsertRanked | fast-site-search-chatbot.php:512 | inserting an id into a ranked list keeps it ranked and adds exactly that id |
| Query.RankedUnique | fast-site-search-chatbot.php:512 | two ranked lists of the same ids are equal: the order is fully determined |
| Query.PresentRanked | fast-site-search-chatbot.php:512 | mapping the ranked ids to their stored fields and scores gives a list that meets Query.SearchResult |
| Query.SearchResultUnique | fast-site-search-chatbot.php:503-512 | search is deterministic: at most one result list meets Query.SearchResult |
| Query.Combine | fast-site-search-chatbot.php:503 | a missing combineWith means AND |
| Query.ScoredAreStored | fast-site-search-chatbot.php:506 | every scored id has stored fields filed under its own id |
| Retrieval.SeenCovers | fast-site-search-chatbot.php:499-509 | a query term hits a document exactly when the document contains the term or a term it expands to |
| Retrieval.SelectedCovers | fast-site-search-chatbot.php:503-511 | under AND a document is selected exactly when it covers every query term; otherwise when it covers one |
| Retrieval.ResultsCover | fast-site-search-chatbot.php:503-512 | an AND search returns a document exactly when the query has tokens and the document covers all of them |
| PrototypeKeys.BuildIndexAsWrittenAgree | fast-site-search-chatbot.php:492-497 | addAll as written throws exactly when a document mentions "constructor", and otherwise builds the intended index |
| PrototypeKeys.AddAllThrowsOnCtor | fast-site-search-chatbot.php:494-495 | the same, stated over the document list: it throws iff some title or text contains the word "constructor" |
| PrototypeKeys.ConstructorAbortsAddAll | fast-site-search-chatbot.php:494-495 | a one-document corpus whose text is "constructor" makes addAll throw |
| PrototypeKeys.VariantsAsWrittenAgree | fast-site-search-chatbot.php:499-501 | over an index without the key "constructor", a term's variant list as written makes scoring throw exactly when the term is "constructor"; for every other term it is the intended list |
| PrototypeKeys.ListThrowsMeans | fast-site-search-chatbot.php:505-506 | the scoring loop over a variant list throws exactly when the list holds "constructor" and the index has no own entry for it |
| PrototypeKeys.ExpandAsWrittenAgree | fast-site-search-chatbot.php:498-506 | over such an index, the query terms' lists as written make scoring throw exactly when "constructor" is a query term; otherwise they are the intended lists |
| PrototypeKeys.SearchAsWrittenAgree | fast-site-search-chatbot.php:503-506 | search as written throws exactly when the query contains the word "constructor"; otherwise it scores the intended variant lists |
| PrototypeKeys.QueryThrowsAfterAddAll | fast-site-search-chatbot.php:492-506 | on every index addAll as written can build, a query containing "constructor" makes search throw, and no other query does |
| PrototypeKeys.PluralVariants | fast-site-search-chatbot.php:499-501 | with prefix matching, over an index holding only "constructors", the list for "constructor" is ["constructor", "constructors"] as written and ["constructors"] as intended |
| PrototypeKeys.ConstructorQueryThrows | fast-site-search-chatbot.php:503-506 | the query "constructor" over that index makes search as written throw |
| DatasetPlugin.Plugin.UploadsDirSecure | Plugin/fast-site-search-chatbot.php:407-416 | the guard files are written only where missing: .htaccess denying all, and an empty index.html |
| DatasetPlugin.Plugin.GenerateNewFilename | Plugin/fast-site-search-chatbot.php:431-434 | a new name is 'dataset-' + the next 32-character token + '.json', and one token is used up |
| Lifecycle.FileNameShape | Plugin/fast-site-search-chatbot.php:431-434 | a generated name ends in .json, is truthy, and is neither guard file nor '.' or '..' |
| DatasetPlugin.Plugin.DatasetFilenameCurrent | Plugin/fast-site-search-chatbot.php:418-425 | a truthy stored name is kept; otherwise a fresh one is generated and stored |
| DatasetPlugin.Plugin.DatasetPathCurrent | Plugin/fast-site-search-chatbot.php:427-429 | secure the directory, then take the current name |
| DatasetPlugin.Plugin.PurgeOldDatasets | Plugin/fast-site-search-chatbot.php:436-448 | the loop over the directory entries deletes exactly the files Lifecycle.Purge deletes |
| Lifecycle.PurgeSpec | Plugin/fast-site-search-chatbot.php:436-448 | purging keeps the guard files, every non-.json file and a truthy keep, unchanged, and deletes every other .json file |
| Exclusions.Split | Plugin/fast-site-search-chatbot.php:452 | explode always returns at least one piece |
| Exclusions.IdsFromCsvRoundTrip | Plugin/fast-site-search-chatbot.php:450-454 | positive ids written comma-separated come back from ids_from_csv, same values, same order |
| Exclusions.IdsFromCsvFalsy | Plugin/fast-site-search-chatbot.php:451 | a falsy setting ("" or "0") gives no ids |
| Exclusions.ParsePiecesMembers | Plugin/fast-site-search-chatbot.php:452-453 | an id is parsed exactly when some piece trims to something other than "" and "0" and has that intval |
| Exclusions.ParsedFrom | Plugin/fast-site-search-chatbot.php:452-453 | every parsed id comes from a piece that yields it, and the lemma names that piece |
| Exclusions.YieldedIsParsed | Plugin/fast-site-search-chatbot.php:452-453 | every piece that yields an id puts that id among the parsed ids |
| Exclusions.ParsePiecesCons | Plugin/fast-site-search-chatbot.php:452-453 | an id is parsed from a list when the first piece yields it or the rest of the list gives it |
| Exclusions.IntValShow | Plugin/fast-site-search-chatbot.php:453 | intval reads a decimal numeral back as its number |
| Exclusions.PageKept | Plugin/fast-site-search-chatbot.php:565-567 | a page is dropped only by its id, never by categories or tags |
| Exclusions.PostExcluded | Plugin/fast-site-search-chatbot.php:560-577 | a post is dropped exactly when its id, one of its categories or one of its tags is excluded |
| Exclusions.SelectMembers | Plugin/fast-site-search-chatbot.php:560-578 | a post is selected exactly when the query returned it and it is not excluded |
| Exclusions.ExcerptSpec | Plugin/fast-site-search-chatbot.php:465-467 | a text of at most max code points is kept; a longer one becomes its first max code points plus '…' |
| Exclusions.ExcerptIdempotent | Plugin/fast-site-search-chatbot.php:465-467 | cutting an excerpt again changes nothing |
| Exclusions.Docs | Plugin/fast-site-search-chatbot.php:580-591 | one document per selected post, in order, each with the post's fields and an excerpt of its clean text |
| Exclusions.DocIdSelected | Plugin/fast-site-search-chatbot.php:560-591 | the payload has a document with an id exactly when a queried post with that id survives the exclusions |
| Exclusions.DocsShort | Plugin/fast-site-search-chatbot.php:589 | every payload text has at most 1001 code points |
| DatasetPlugin.Plugin.CollectDocs | Plugin/fast-site-search-chatbot.php:580-591 | the documents loop builds exactly Exclusions.Docs of the selected posts |
| DatasetPlugin.Plugin.BuildDataset | Plugin/fast-site-search-chatbot.php:546-620 | build_dataset takes the store to the state, and returns the result, that Lifecycle.Build defines |
| Lifecycle.DatasetSpec | Plugin/fast-site-search-chatbot.php:593-597 | the payload's count is its number of documents, which are exactly the non-excluded posts, each text an excerpt |
| Lifecycle.RotatedTarget | Plugin/fast-site-search-chatbot.php:599-603 | rotation stores a fresh name, secures the directory and leaves no other dataset; the fresh file exists only if it existed before |
| Lifecycle.RotatedBuild | Plugin/fast-site-search-chatbot.php:599-619 | a rotated build that writes stores the new name, which then holds the payload and is the only dataset left |
| Lifecycle.RotatedBuildFails | Plugin/fast-site-search-chatbot.php:599-610 | when the write fails after rotation, the option names a missing file and no dataset is left |
| Lifecycle.ManualBuild | Plugin/fast-site-search-chatbot.php:604-619 | a build without rotation deletes nothing, changes only the current file, and succeeds exactly when the write does |
| Signature.MaxModified | Plugin/fast-site-search-chatbot.php:487-494 | last_mod is non-negative, at least every post's modification time, and either 0 or one of them |
| Signature.IdsOf | Plugin/fast-site-search-chatbot.php:488-491 | the hashed id list is the posts' ids in order |
| Signature.CurrentSignature | Plugin/fast-site-search-chatbot.php:469-498 | the loop computes the content signature of the posts and settings |
| Signature.SettingsOnlyThroughCfg | Plugin/fast-site-search-chatbot.php:470-474 | for the same posts, two settings give the same signature exactly when their joined text is equal |
| Signature.IdsChangeSignature | Plugin/fast-site-search-chatbot.php:485-497 | a different list of published ids gives a different signature |
| Signature.EditChangesSignature | Plugin/fast-site-search-chatbot.php:490-497 | saving a post with a newer modification time changes the signature |
| Signature.ContentNotRead | Plugin/fast-site-search-chatbot.php:469-498 | a change of a post's text alone, with the modification time kept, leaves the signature unchanged |
| DatasetPlugin.Plugin.AjaxBuildDataset | Plugin/fast-site-search-chatbot.php:500-512 | the admin rebuild performs exactly the transition Lifecycle.Ajax defines |
| Lifecycle.AjaxSpec | Plugin/fast-site-search-chatbot.php:500-512 | non-managers and bad nonces change nothing; otherwise success exactly when the write succeeds, and then the fresh signature is stored |
| DatasetPlugin.Plugin.CronSmartRebuildRotate | Plugin/fast-site-search-chatbot.php:514-526 | the daily job performs exactly the transition Lifecycle.Cron defines |
| Lifecycle.CronStoresSignature | Plugin/fast-site-search-chatbot.php:514-526 | the signature is stored exactly when it differed and the rotated rebuild completed |
| DatasetPlugin.Plugin.RotateFilenameWithoutRebuild | Plugin/fast-site-search-chatbot.php:528-544 | rotation without rebuild performs exactly the transition Lifecycle.RotateOnly defines |
| Lifecycle.RotateOnlyKeepsDataset | Plugin/fast-site-search-chatbot.php:537-543 | with an existing dataset and a successful copy, the new name holds the old content and is the only dataset left |
| Lifecycle.RotateOnlyCopyFails | Plugin/fast-site-search-chatbot.php:540-543 | the copy's result is ignored: after a failed copy the option names a missing file and every dataset is purged |
| Lifecycle.RotateOnlyRebuildsMissing | Plugin/fast-site-search-chatbot.php:532-535 | when a stored dataset name has no file, rotation does a full rotated rebuild under a fresh name, which is then the only dataset |
| Lifecycle.RotateOnlyRebuildsUnnamed | Plugin/fast-site-search-chatbot.php:528-535 | with no stored name, rotation draws and stores a first name, finds no file under it, and rebuilds under a second drawn name, which is then the only dataset |
| DatasetPlugin.Plugin.CheckRateLimit | Plugin/fast-site-search-chatbot.php:647-661 | the limiter admits exactly as RateLimit.Step decides and writes only its transients |
| RateLimit.StepSpec | Plugin/fast-site-search-chatbot.php:652-660 | admitted exactly when both live counts are under 12 and 200; a denial writes nothing; an admission sets both counters to count+1 with a full TTL and touches no other client |
| RateLimit.StepSane | Plugin/fast-site-search-chatbot.php:658-659 | the stored counts stay non-negative |
| RateLimit.WindowCap | Plugin/fast-site-search-chatbot.php:655-659 | within any 60 seconds a client gets at most 12 requests through, within any hour at most 200 |
| RateLimit.WindowInvariant | Plugin/fast-site-search-chatbot.php:652-659 | during such a span, the live counter is at least the admissions so far and at most the cap |
| RateLimit.QuietClientAdmitted | Plugin/fast-site-search-chatbot.php:652-660 | a client whose counters have lapsed is admitted and starts again from 1 |
| RateLimit.ThirteenthDenied | Plugin/fast-site-search-chatbot.php:655 | of 13 requests within one minute, not all are admitted |
| Lifecycle.Decide | Plugin/fast-site-search-chatbot.php:663-688 | the endpoint answers 200 exactly when nonce, origin, limiter, presence and readability all pass |
| DatasetPlugin.Plugin.RestDataset | Plugin/fast-site-search-chatbot.php:663-694 | the endpoint, with its loop over Origin and Referer, performs exactly the transition Lifecycle.Rest defines |
| Lifecycle.RestSpec | Plugin/fast-site-search-chatbot.php:663-694 | the status comes from the first failing check; nonce and origin refusals change nothing; past them the limiter step is taken even for a 404 or 500; a 200 serves the current file |
| ClientThrottle.Recent | Plugin/assets/chatbot.js:102 | the pruned list is no longer than the stored one and holds only times less than 60 000 ms old |
| ClientThrottle.RecentExactly | Plugin/assets/chatbot.js:102 | the filter keeps every stored time less than 60 000 ms old, as often as it was stored, and drops every other time |
| ClientThrottle.RecentConcat | Plugin/assets/chatbot.js:102 | the filter keeps the stored order: pruning a concatenation prunes each part in turn |
| ClientThrottle.Throttle.constructor | Plugin/assets/chatbot.js:56 | lastQueryAt starts at 0; the stored times are what earlier pages left |
| ClientThrottle.Throttle.CanQueryNow | Plugin/assets/chatbot.js:96-108 | canQueryNow changes lastQueryAt and the stored times, and answers, exactly as ClientThrottle.Admit defines |
| ClientThrottle.AdmitSpec | assets/chatbot.js:92-104 | a refusal changes nothing; admitted iff the cooldown has passed and fewer than max recent times are stored; an admission stores the pruned list plus now (at most max, all recent) and sets lastQueryAt to now |
| ClientThrottle.AdmitKeepsWindow | assets/chatbot.js:98-102 | one call keeps the stored list counting every recent admission |
| ClientThrottle.AtMostMaxPerWindow | Plugin/assets/chatbot.js:96-108 | for calls at non-decreasing times, every admitted query is at most the max-th admitted in the 60 seconds ending at it |
| ClientThrottle.CooldownBetweenAdmissions | Plugin/assets/chatbot.js:98-106 | admitted queries are at least the cooldown apart, the first counted from the starting lastQueryAt, and lastQueryAt is the latest admission |
| ClientThrottle.ShownCount | Plugin/assets/chatbot.js:148 | the clamp is between 1 and 10, equals topK inside that range, and is 1 below and 10 above it |
| ClientThrottle.Take | assets/chatbot.js:146 | slice keeps the first min(k, length) results, and a negative k drops that many results from the end |
| ChatClient.NewIndex | Plugin/assets/chatbot.js:118-123 | loadDataset's engine has title boost 2, prefix on, fuzzy 1, and holds exactly the fetched documents |
| ChatClient.Ask | Plugin/assets/chatbot.js:148-149 | the reply is the first k hits of the AND search, or the no-match message when there are none |
| ChatClient.AnswerBounds | assets/chatbot.js:146-147 | a result list shows between 1 and the clamped topK (at most 10) best-ranked hits; "no matches" exactly when search found nothing |
| LegacyChatbot.Widget.constructor | Plugin/assets/chatbot.js:5-12 | the limits default to 12 per minute, 1200 ms and topK 5; the panel starts closed with no index |
| LegacyChatbot.Widget.OpenPanel | Plugin/assets/chatbot.js:60-66 | afterwards the panel is open; the index is untouched |
| LegacyChatbot.Widget.ClosePanel | Plugin/assets/chatbot.js:67-73 | afterwards the panel is closed; the index is untouched |
| LegacyChatbot.Widget.LoadDataset | Plugin/assets/chatbot.js:111-131 | a failed fetch keeps the index; a successful one installs a fresh engine over the fetched documents |
| Util.JsTrimUnicodeBlank | Plugin/assets/chatbot.js:139 | trim() strips non-ASCII white space too: a query of no-break, ideographic and byte-order-mark spaces trims to nothing |
| LegacyChatbot.Widget.HandleQuery | Plugin/assets/chatbot.js:139-153 | a query that trim() (all JavaScript white space and line terminators) empties, or a missing index is ignored without consulting the throttle; a refusal reports its reason; an admitted query gets the clamped AND results |
| Chatbot.Widget.constructor | assets/chatbot.js:5-12 | the same defaults; closed, not loaded, no index, launcher shown |
| Chatbot.Widget.OpenPanel | assets/chatbot.js:55-63 | opening an open panel changes nothing; otherwise it opens and hides the launcher; only the first opening ever loads, and marks loaded even if the load fails |
| Chatbot.Widget.ClosePanel | assets/chatbot.js:64-71 | closing a closed panel changes nothing; otherwise it closes and shows the launcher |
| Chatbot.Widget.LoadDataset | assets/chatbot.js:107-126 | a failed fetch keeps the index; a successful one installs a fresh engine; the flags stay |
| Chatbot.Widget.HandleQuery | assets/chatbot.js:134-150 | a query that trim() empties is ignored; without an index it loads first and stops silently if there is still none; then it gates and answers as the plugin's copy does |

## Left out

- Unicode: the tokenizer's `\p{L}`/`\p{N}` classes and `toLowerCase` are modelled on ASCII letters and digits only. Its `\s` is modelled on ASCII white space; any other white space is then a character the replace turns into a space, so the tokens are the same. The widgets' `trim()` strips all of JavaScript's white space and line terminators.
- Character counts in PHP (`mb_strlen`, `mb_substr`) and JavaScript are taken as counts of code points.
- JavaScript object key order: array-index keys (the integers 0 … 2^32−2) enumerate first, in ascending order, and every other key follows in creation order. The model lists index keys and counts in insertion order. This changes only the order of a term's variant list, not which documents come back or their ranking. For candidate ids, the model uses ascending id order, which is what `Object.keys(scores)` gives for ids below 2^32−1. Larger ids, like negative ones, enumerate in creation order (the order of variants and postings), and their tie order in the ranking is not modelled.
- MiniSearch.Engine.Rank: score ties are broken by ascending id; for ids of 2^32−1 or more, or negative ids, the source breaks them by creation order instead, which is not modelled.
- Floating point: `idf` is a parameter `Weight` of search, and scores are exact reals. Rounding, and NaN from `scores[b]-scores[a]`, are not modelled.
- `sha1` and `md5` are taken to be injective, so the content signature is the tuple of its parts. Hash collisions are not modelled.
- `intval`: only white space, an optional sign and leading decimal digits are modelled. Exponent forms, hexadecimal and integer overflow are left out.
- `clean_text` (shortcode and tag stripping, white-space folding) and `html_entity_decode` of titles: each post carries its cleaned text and decoded title as given fields.
- WordPress APIs are inputs to the model:
  - `WP_Query` results are two lists of posts, one by date and one by modification time.
  - `get_the_title`, `get_permalink`, `get_post_time` and the category and tag lookups are fields of each post.
  - `home_url` and `wp_parse_url` are parameters of the endpoint.
  - Nonce verification is a boolean, so the top-level copy's login-dependent nonce action is not distinguished.
  - `current_user_can` is a boolean.
- `wp_generate_password` is a fixed stream of 32-character alphanumeric tokens. Its randomness is not modelled.
- File system:
  - File contents are a payload value or a text; JSON encoding and decoding are not modelled.
  - A file write is modelled as a write outcome; `copy` and the endpoint's read as booleans.
  - `chmod`, `stat` and the size and mtime the build reports are not modelled; the size is part of the write outcome.
  - `mkdir`, a `scandir` failure and failed writes of the guard files are not modelled.
  - `gmdate('c')` is an integer time.
- The exclusion settings are fixed for the life of a `Plugin` object. The settings page and admin UI (`dataset_info`, option registration, scheduling hooks) and `uninstall.php` are left out.
- Concurrency: two requests interleaving inside `check_rate_limit` (a lost update) are not modelled. Requests are processed one at a time.
- Transient expiry is modelled as `expires < now`. WordPress's own clock and cache behaviour is not modelled.
- The widget:
  - The DOM, `addMsg` rendering, `sanitize`, focus handling and the Escape key handler are left out; Escape calls closePanel.
  - `onSend` is left out. It calls openPanel and handleQuery without waiting. Their interleaving across `await`, which can start a second load in `assets/chatbot.js`, is not modelled. Each method runs to completion.
  - `fetch` and `res.json()` are one input: the documents, or a failure.
  - `localStorage` is a field, so its read and write failures, which the source swallows, are not modelled.
  - `Date.now()` is a parameter.
- MiniSearch.Engine.MatchTerms: uses the corrected lookup. As written, `if(idx[qt])` also holds for an unindexed "constructor", which the source then lists as its own variant. That list is modelled separately, as `PrototypeKeys.VariantsAsWritten`; see Findings.
- MiniSearch.Engine.VariantsOf: the same gap. It does not list an unindexed "constructor" as its own variant, which the source does.
- Query.VariantsMembers: describes the corrected list. As written, the list for "constructor" also holds the term itself, even when nothing indexes it. `PrototypeKeys.VariantsAsWrittenAgree` states the difference.
- MiniSearch.Engine.Search: promises a result for every query. As written, a query containing the word "constructor" throws a TypeError on every index the source can build. `PrototypeKeys.SearchAsWrittenAgree` and `PrototypeKeys.QueryThrowsAfterAddAll` state when it throws; see Findings.
- ChatClient.Ask: promises a reply for every admitted query. As written, the search for a query containing "constructor" throws, and no reply is shown.
- LegacyChatbot.Widget.HandleQuery: as written, an admitted query containing "constructor" uses up its throttle slot, and then search throws and no reply comes. The model gives the corrected search's reply instead.
- Chatbot.Widget.HandleQuery: the same gap as LegacyChatbot.Widget.HandleQuery.
- Chatbot.Widget.LoadDataset and LegacyChatbot.Widget.LoadDataset: they use the corrected `addAll`. When `addAll` throws, the source has already set `mini` to a partly filled engine; that case is not modelled. It is covered in Findings.

## Notes on the code

- The rate limiter is often described as fixed-window. The code is not: `set_transient` stores both counters again with a full lifetime on every admission. A client that keeps requesting never sees its counter reset, and there is no burst of twice the cap across a window boundary. The model follows the code. `RateLimit.WindowCap` proves at most 12 admissions in any 60 seconds and at most 200 in any hour.
- The daily job is often described as writing the new file and then purging the others. `build_dataset(true)` does it the other way round: it stores the new name and purges first, then writes. The signature is stored only when the write succeeded. `Lifecycle.RotatedBuildFails` and `Lifecycle.RotateOnlyCopyFails` show that a failed write or copy leaves no dataset at all.

## Findings

| source | as written | input that shows it | evidently intended | confidence | as-written member | corrected member |
|---|---|---|---|---|---|---|
| fast-site-search-chatbot.php:494-495 | `idx={}` is a plain object, so for the term "constructor" `idx[term]` is the inherited `Object` function. It is truthy, so no entry is created. `e` is then that function, `e.postings` is undefined, and `e.postings[d.id]` throws a TypeError that aborts addAll. | a document whose title or text contains the word "constructor", e.g. `Doc(1, "", "", "", "", "constructor")` | every token is indexed like any other word (objects without a prototype, or a Map) | high, not executed | PrototypeKeys.ConstructorAbortsAddAll | InvertedIndex.IndexContents |
| fast-site-search-chatbot.php:499-506 | `_matchTerms` tests `if(idx[qt])` on the plain object `idx`. For the query term "constructor" the test is true through `Object.prototype`, so the term is listed as its own variant although nothing indexes it. `search` then takes `e = this.index["constructor"]`, the inherited function; it passes `if(!e) continue`, and `Object.entries(e.postings)` is called on undefined and throws a TypeError. Every index addAll can build lacks that key, so every such query throws. | the query "constructor", with prefix matching, over an index holding the word "constructors" | a query word that nothing indexes matches nothing, as for any other word | high, not executed | PrototypeKeys.ConstructorQueryThrows | Retrieval.ResultsCover |

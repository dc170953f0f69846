# Bacterial pathogenicity classifier: a Dafny model of its core logic

This project models the logic inside the bacterial classification system: the React client, the FastAPI
back end, the CSV loader and the MiMeDB scraper. Markup, HTTP, databases, the ML library and parsers are
abstracted. What remains is stated as Dafny datatypes, functions, methods and classes, and proved.

- **Client side**
  - `Values`: the dynamic JavaScript/Python value, with JavaScript and Python truthiness.
  - `Api`: the API gateway. It covers the `ApiError` defaults, the rethrow rule, cleaning of the list parameters and coercion of prediction results.
  - `Utils`: the input normalisers.
  - `BacteriaSchema`: the form schema and its converter.
  - `BacteriaDatabase`: the list page, as a `ListView` class with its eight state slots and handlers.
  - `PaginationControl`: the pagination control. Its `getPageNumbers` builds the page window with ellipsis markers.
  - `PredictBacteria`: the prediction page, as a `PredictView` class.
  - `BacteriaResult`: the similar-bacteria card, i.e. the taxonomy summary, the detail line and the display predicates.
- **Back end**
  - `Response`: the response envelopes and pagination arithmetic.
  - `BacteriaRoutes`: the `/bacteria` routes over an in-memory table (`BacteriaStore.Table`).
  - `Config`: the settings validators.
  - `InitDb`: the CSV loader, with its cleaners, the de-duplicating batched loop and the empty-table guard.
  - `ModelService`: the model service singleton, covering component extraction, column alignment, the probability choice and top-n similarity ranking.
- **Scraper**
  - `MimeDb`: id collection, detail-page field mapping and the upsert rule.
- **Shared text helpers**
  - `Text`: ASCII lower-casing, strip, split, join, the last piece after a separator, and decimal rendering.

Everything the program takes from outside is a parameter of the model:
- the HTTP transport and its outcome;
- `Date.now()`;
- `parseFloat`/`parseInt`/`float()`;
- `json.loads`;
- `String(v)` of non-strings;
- the JavaScript engine's `TypeError` texts;
- fetched and parsed pages;
- the unpickled model file;
- the ML library's `transform`/`predict`/`predict_proba`/`cosine_similarity`;
- whether a database commit succeeds.

The prediction route answers with a bare prediction object, but the client reads `response.data.data`.
In the model, a 2xx body without a `data` field makes the client throw a `TypeError`. The error passes
unchanged through the gateway's rethrow and becomes the page's error message.

## Model

| member | source | states |
|---|---|---|
| Values.Get | frontend/src/lib/utils.ts:36-39 | reading an absent key gives `undefined`; a present key gives its value |
| Text.Lower | backend/app/db/init_db.py:40 | same length, each character lower-cased (ASCII) |
| Text.Strip | backend/app/db/init_db.py:39 | the result neither starts nor ends with whitespace (space, tab to CR, and FS/GS/RS/US) and is no longer than the input |
| Text.StripDropsOnlyWhitespace | backend/app/db/init_db.py:39 | the stripped text is a middle slice of the input, and everything dropped before and after it is whitespace; with the end conditions this is exactly `str.strip()` |
| Text.StripIdempotent | backend/app/db/init_db.py:39 | stripping twice is stripping once |
| Text.LastPiece | scraper/src/scrapers/mimedb.py:79 | `s.split(sep)[-1]` is no longer than `s` |
| Text.LastPieceIsSuffix | scraper/src/scrapers/mimedb.py:79 | the last piece is a suffix of the text |
| Text.LastPieceHasNoSeparator | scraper/src/scrapers/mimedb.py:79 | the last piece holds no separator |
| Text.LastPieceFollowsSeparator | scraper/src/scrapers/mimedb.py:79 | when the separator occurs, the last piece directly follows an occurrence of it |
| Text.Split | backend/app/core/config.py:39 | `s.split(c)`: at least one piece, and no piece holds `c` |
| Text.SplitJoin | backend/app/core/config.py:39 | joining the pieces of a split with the separator gives back the text |
| Text.JoinSplit | backend/app/core/config.py:39 | splitting a join of separator-free pieces gives back the pieces |
| Text.ShowNat | frontend/src/pages/PredictBacteria.tsx:26 | the decimal text of a number is a non-empty run of digits |
| Utils.ParseOptionalBoolean | frontend/src/lib/utils.ts:17-23 | true exactly for "Yes"/"true"/"True", false exactly for "No"/"false"/"False", null for every other input (iff in each case) |
| Utils.YesNoChoiceRoundTrip | frontend/src/lib/utils.ts:17-23 | reading back a Yes/No select value gives the tri-state answer it was set to |
| Utils.ParseOptionalBooleanIsCaseSensitive | frontend/src/lib/utils.ts:20-21 | "yes", "TRUE", "no" and "FALSE" read as null |
| Utils.ParseOptionalNumber | frontend/src/lib/utils.ts:25-31 | null, undefined and "" give null without parsing; any other input gives what `parseFloat` gives, null for NaN |
| Utils.SanitizeBacteriaPredictionInput | frontend/src/lib/utils.ts:33-43 | the keys are the input's plus the four rewritten ones; other keys are copied; each rewritten key holds its parser's reading |
| Utils.SanitizedFlagsAreBooleans | frontend/src/lib/utils.ts:37-39 | after sanitising, the three yes/no fields hold a boolean or null |
| Utils.ParsedFlagIsNotAnAnswer | frontend/src/lib/utils.ts:20-22 | a boolean or null is not an accepted answer text |
| Utils.SanitizeTwiceDropsAnswers | frontend/src/lib/utils.ts:33-43 | sanitising twice turns the three yes/no fields into null, so sanitising is not idempotent |
| Utils.EnsureDefaultValues | frontend/src/lib/utils.ts:45-47 | keys are the union; the object's keys keep its values; the other keys take the defaults |
| Utils.EnsureDefaultValuesIdempotent | frontend/src/lib/utils.ts:45-47 | filling defaults twice equals filling once |
| Utils.CompleteObjectUnchanged | frontend/src/lib/utils.ts:45-47 | an object holding every default key is returned unchanged |
| BacteriaSchema.Issues | frontend/src/schemas/bacteria.schema.ts:3-29 | at most one issue per field |
| BacteriaSchema.IssuesAreRejections | frontend/src/schemas/bacteria.schema.ts:3-29 | a field is reported iff it is in the schema and its rule rejects its value |
| BacteriaSchema.ValidateForm | frontend/src/schemas/bacteria.schema.ts:3-29 | a success holds exactly the schema's keys of the input, with their values; a failure names at least one field |
| BacteriaSchema.NoIssuesMeansAccepted | frontend/src/schemas/bacteria.schema.ts:3-29 | no issues iff every field accepts its value |
| BacteriaSchema.ValidateFormAccepts | frontend/src/schemas/bacteria.schema.ts:3-29 | validation succeeds iff every field accepts its value; on failure the reported fields are exactly the rejecting ones |
| BacteriaSchema.RequiredLayout | frontend/src/schemas/bacteria.schema.ts:3-29 | 24 fields; the first four (genus, species, gram_stain, shape) are required and no others are |
| BacteriaSchema.RequiredFieldMustBeFilled | frontend/src/schemas/bacteria.schema.ts:4-7 | a required field that is not a string of length >= 1 makes validation fail and is reported |
| BacteriaSchema.OtherFieldsAreOptional | frontend/src/schemas/bacteria.schema.ts:9-28 | a form filling only the four required fields is accepted |
| BacteriaSchema.Choice | frontend/src/schemas/bacteria.schema.ts:38-55 | a two-choice field reads true iff it holds the first text ("Motile" or "Yes"), false iff the second ("Non-motile" or "No"), null iff anything else |
| BacteriaSchema.ConvertFormValues | frontend/src/schemas/bacteria.schema.ts:33-62 | the five rewritten keys are present and hold their readings; temperature and membranes are null when falsy, else parsed |
| BacteriaSchema.ConvertCopiesOtherFields | frontend/src/schemas/bacteria.schema.ts:36-37 | keys are the input's plus the five rewritten ones; every other field is copied unchanged |
| BacteriaSchema.ConverterIgnoresFormMobility | frontend/src/schemas/bacteria.schema.ts:38-43 | a "Yes"/"No" mobility becomes null in the converter, while the sanitiser reads it as a boolean |
| BacteriaSchema.ConverterAgreesWithSanitiser | frontend/src/schemas/bacteria.schema.ts:44-55 | for flagellar presence and sporulation the converter and the sanitiser agree on "Yes", "No" and "" |
| Api.ErrorMessage | frontend/src/pages/BacteriaDatabase.tsx:66-67 | there is no message exactly when the thrown value is not an `Error` |
| Api.ErrorStatus | frontend/src/lib/api.ts:23 | never 0; the response status when present and non-zero, else 500 |
| Api.ErrorData | frontend/src/lib/api.ts:24 | always truthy; the response body when truthy, else `{}` |
| Api.NewApiError | frontend/src/lib/api.ts:16-26 | name "ApiError", the axios message, a non-zero status and truthy data |
| Api.ApiErrorDefaultsSettle | frontend/src/lib/api.ts:23-24 | rebuilding an `ApiError` from its own status and data gives the same error |
| Api.Rethrow | frontend/src/lib/api.ts:66-71 | never an axios error; an axios error becomes its `ApiError`, anything else is unchanged |
| Api.RethrowIdempotent | frontend/src/lib/api.ts:91-96 | a second rethrow changes nothing |
| Api.Prop | frontend/src/lib/api.ts:56 | reading a property fails exactly on null/undefined; on an object it gives the field |
| Api.StatusErrorMessage | frontend/src/lib/api.ts:56 | when the body can be read, the message is truthy |
| Api.PredictPathogenicity | frontend/src/lib/api.ts:46-72 | never throws an axios error; a thrown transport error is rethrown |
| Api.PredictionHasSimilarList | frontend/src/lib/api.ts:59-65 | a 2xx object payload comes back with `similar_bacteria` an array: the same array, or `[]` when it was not one; all other fields unchanged |
| Api.FailedStatusThrows | frontend/src/lib/api.ts:55-57 | a non-2xx status fails, with an `Error` whose message is `error.detail` or "API request failed" |
| Api.CleanedParams | frontend/src/lib/api.ts:78-83 | no kept parameter is undefined, null or "" |
| Api.CleanedParamsExact | frontend/src/lib/api.ts:78-83 | with distinct keys, a parameter is kept iff it is not undefined/null/"", with its value; no other key appears |
| Api.ListOutcome | frontend/src/lib/api.ts:90-96 | a response gives its body; a thrown error is rethrown, never as an axios error |
| Api.GetBacteriaList | frontend/src/lib/api.ts:74-97 | the loop sends exactly the cleaned parameters, and the outcome is the body or the rethrown error |
| BacteriaDatabase.WithField | frontend/src/pages/BacteriaDatabase.tsx:114 | exactly the named filter field is replaced |
| BacteriaDatabase.PathogenParam | frontend/src/pages/BacteriaDatabase.tsx:37-42 | true iff "true", false iff "false", undefined iff anything else |
| BacteriaDatabase.ParamSent | frontend/src/pages/BacteriaDatabase.tsx:44-51 | each parameter is sent iff it is set, with its own value |
| BacteriaDatabase.OnlyParamNamesSent | frontend/src/pages/BacteriaDatabase.tsx:44-51 | no key outside the six parameter names is sent |
| BacteriaDatabase.ParamsSent | frontend/src/pages/BacteriaDatabase.tsx:37-51 | page and page_size always equal the state; search, gram_stain and phylum are sent iff non-empty; is_pathogen iff "true"/"false", as a boolean |
| BacteriaDatabase.Absorb | frontend/src/pages/BacteriaDatabase.tsx:53-73 | a response with a readable `success` loads iff `success` and `data` are truthy, with rows = `data`, total items = `meta?.total_items`, or 0 when falsy, and total pages = `meta?.total_pages`, or 1 when falsy; otherwise it fails with `message`, or "Failed to load bacteria data" when falsy; a null body fails with the engine's TypeError text; a thrown error fails with its message, or "An unknown error occurred" for a non-Error |
| BacteriaDatabase.ZeroPagesBecomeOne | frontend/src/pages/BacteriaDatabase.tsx:56 | a server total of 0 pages is stored as 1 |
| BacteriaDatabase.ListView.constructor | frontend/src/pages/BacteriaDatabase.tsx:13-27 | page 1, size 10, cleared filters, no rows, 0 items, 1 page, loading, no error |
| BacteriaDatabase.ListView.OnSubmitFilter | frontend/src/pages/BacteriaDatabase.tsx:92-95 | filters replaced wholesale, page 1, everything else unchanged |
| BacteriaDatabase.ListView.ClearFilters | frontend/src/pages/BacteriaDatabase.tsx:97-107 | all four filters "", page 1, everything else unchanged |
| BacteriaDatabase.ListView.HandleSelectChange | frontend/src/pages/BacteriaDatabase.tsx:109-115 | one filter field replaced; page and everything else unchanged |
| BacteriaDatabase.ListView.HandlePageChange | frontend/src/pages/BacteriaDatabase.tsx:117-119 | only the page changes |
| BacteriaDatabase.ListView.HandlePageSizeChange | frontend/src/pages/BacteriaDatabase.tsx:121-124 | the new page size and page 1; everything else unchanged |
| BacteriaDatabase.ListView.LoadBacteria | frontend/src/pages/BacteriaDatabase.tsx:33-76 | sends the cleaned parameters of the state. A success stores the rows and totals `Absorb` states for the response and leaves no error; a failure records `Absorb`'s message and keeps the rows and totals. Loading ends either way |
| PaginationControl.Range | frontend/src/components/list/PaginationControl.tsx:51-53 | the consecutive pages from lo to hi, empty when hi < lo |
| PaginationControl.IndexOf | frontend/src/components/list/PaginationControl.tsx:80 | -1 iff absent; otherwise the first index holding the value |
| PaginationControl.KeepFirstOccurrencesNoOp | frontend/src/components/list/PaginationControl.tsx:79-81 | on a strictly ordered list the de-duplicating filter removes nothing |
| PaginationControl.FirstOccurrence | frontend/src/components/list/PaginationControl.tsx:80 | in an ordered list a page is found at its own index |
| PaginationControl.WindowKeepsAllEntries | frontend/src/components/list/PaginationControl.tsx:79-81 | a well-formed window passes the filter unchanged |
| PaginationControl.WindowShape | frontend/src/components/list/PaginationControl.tsx:55-77 | the assembled list has 4 to 9 entries, starts at 1 and ends at the last page, is ordered and in bounds, and every page is listed or hidden behind an ellipsis |
| PaginationControl.WindowLayout | frontend/src/components/list/PaginationControl.tsx:55-77 | each position of the assembled list holds 1, an ellipsis, a window page or the last page |
| PaginationControl.LayoutOrdered | frontend/src/components/list/PaginationControl.tsx:60-77 | the layout is strictly increasing and in bounds, and every ellipsis stands for a left-out page |
| PaginationControl.LayoutCovers | frontend/src/components/list/PaginationControl.tsx:60-77 | every page of 1..totalPages is listed or hidden behind an ellipsis |
| PaginationControl.SlidingWindow | frontend/src/components/list/PaginationControl.tsx:55-77 | the bounds chosen around the current page give a list meeting the window promises, including a leading ellipsis iff current > 4 and a trailing one iff current < total-3 |
| PaginationControl.AllPagesWindow | frontend/src/components/list/PaginationControl.tsx:50-53 | with at most 7 pages, [1..totalPages] meets the window promises |
| PaginationControl.GetPageNumbers | frontend/src/components/list/PaginationControl.tsx:45-82 | the list meets the window promises: exactly [1..total] for <= 7 pages; otherwise first and last pages, the current page, ellipses as above, ordered, in bounds, covering every page |
| PaginationControl.ListAllPages | frontend/src/components/list/PaginationControl.tsx:50-53 | the first branch's list meets the window promises |
| PaginationControl.ListAroundCurrent | frontend/src/components/list/PaginationControl.tsx:54-78 | the second branch's list meets the window promises |
| PaginationControl.PushRange | frontend/src/components/list/PaginationControl.tsx:51-53 | the loop appends exactly the range lo..hi |
| PaginationControl.NavigationStaysInRange | frontend/src/components/list/PaginationControl.tsx:94-134 | Previous and Next stay in 1..totalPages and move at most one page; each is disabled iff it would request the current page |
| PaginationControl.PageSizeOf | frontend/src/components/list/PaginationControl.tsx:41-43 | an offered option gives a size in {5,10,20,50} whose text is that option |
| PaginationControl.SelectorRoundTrip | frontend/src/components/list/PaginationControl.tsx:142-150 | the selector shows an offered option for each allowed size, and choosing it forwards that size |
| PaginationControl.Render | frontend/src/components/list/PaginationControl.tsx:37-153 | nothing iff totalPages <= 1 or the list is empty; otherwise the window, the clamped targets, the disabled flags and the selector value |
| PredictBacteria.TempId | frontend/src/pages/PredictBacteria.tsx:26 | "TEMP-" followed by at least one character |
| PredictBacteria.WithBacteriaId | frontend/src/pages/PredictBacteria.tsx:24-27 | only `bacteria_id` is set; it is truthy: the user's id when truthy, else the temporary id |
| PredictBacteria.SubmittedHasId | frontend/src/pages/PredictBacteria.tsx:24-27 | the sanitised request keeps that truthy id |
| PredictBacteria.FailureMessage | frontend/src/pages/PredictBacteria.tsx:38-40 | the error's message, or "Unknown error occurred" for a non-`Error` |
| PredictBacteria.PredictView.constructor | frontend/src/pages/PredictBacteria.tsx:13-17 | not loading, no result, tab "form", no error |
| PredictBacteria.PredictView.StartSubmit | frontend/src/pages/PredictBacteria.tsx:20-27 | loading and no error; result and tab kept; the request is the sanitised data with its id |
| PredictBacteria.PredictView.Settle | frontend/src/pages/PredictBacteria.tsx:29-51 | not loading. Success: the result, tab "result", error kept. Failure: the error message, result and tab kept |
| PredictBacteria.PredictView.HandleSubmit | frontend/src/pages/PredictBacteria.tsx:19-52 | after the whole submit: not loading. Success: the result, tab "result", no error. Failure: the message, with the previous result and tab |
| PredictBacteria.PredictView.HandleNewPrediction | frontend/src/pages/PredictBacteria.tsx:54-56 | only the tab changes, to "form" |
| BacteriaResult.Labelled | frontend/src/components/bacteria/BacteriaResult.tsx:27-41 | at most one part per field; every set field contributes its "Title: value" part, every part comes from a set field, and there are none iff no field is set |
| BacteriaResult.PushIfSet | frontend/src/components/bacteria/BacteriaResult.tsx:27 | appends the field's part exactly when the field is set |
| BacteriaResult.GetTaxonomyInfo | frontend/src/components/bacteria/BacteriaResult.tsx:25-46 | the method's text is the three-tier summary |
| BacteriaResult.PushTaxonomy | frontend/src/components/bacteria/BacteriaResult.tsx:27-30 | the four taxonomy pushes give the taxonomy tier's labelled parts |
| BacteriaResult.PushPair | frontend/src/components/bacteria/BacteriaResult.tsx:33-41 | the two pushes of a later tier give that tier's labelled parts |
| BacteriaResult.FromTier | frontend/src/components/bacteria/BacteriaResult.tsx:27-41 | every part comes from a set field of its tier |
| BacteriaResult.TaxonomyAlwaysShown | frontend/src/components/bacteria/BacteriaResult.tsx:27-30 | each set taxonomy field appears in the summary parts |
| BacteriaResult.ProfileOnlyWithoutTaxonomy | frontend/src/components/bacteria/BacteriaResult.tsx:32-35 | a Gram or Shape part appears only when no taxonomy field is set |
| BacteriaResult.HabitatOnlyAsLastResort | frontend/src/components/bacteria/BacteriaResult.tsx:37-41 | an Oxygen or Habitat part appears only when no taxonomy and no profile field is set |
| BacteriaResult.SummaryFallback | frontend/src/components/bacteria/BacteriaResult.tsx:43-45 | the summary is "No additional information available" iff no field of any tier is set |
| BacteriaResult.Shown | frontend/src/components/bacteria/BacteriaResult.tsx:76-81 | only non-empty texts are kept |
| BacteriaResult.DetailLineJoins | frontend/src/components/bacteria/BacteriaResult.tsx:76-81 | the genus/species text is the set ones joined by a space; the line is that text and the oxygen preference, the non-empty ones joined by a vertical-bar separator |
| BacteriaResult.DisplayName | frontend/src/components/bacteria/BacteriaResult.tsx:72 | never empty: the name when set, else "Unknown Bacterium" |
| BacteriaResult.PathogenStyleIsStrict | frontend/src/components/bacteria/BacteriaResult.tsx:51-64 | pathogen styling implies a truthy flag; false, null, undefined, "true" and 1 are not styled as pathogens |
| BacteriaResult.SimilarListShownForNonEmptyArray | frontend/src/components/bacteria/BacteriaResult.tsx:205-206 | after the gateway's coercion, the similar list is shown iff the payload held a non-empty array |
| Response.SuccessResponse | backend/app/core/response.py:16-20 | success, no error, no meta, the given data and message |
| Response.ErrorResponse | backend/app/core/response.py:23-28 | failure without data; an error object `{detail}` iff the detail is truthy |
| Response.TotalPages | backend/app/core/response.py:51 | 0 for a non-positive size; otherwise enough pages for every row, one fewer would not be, and 0 iff no rows |
| Response.TotalPagesIsLeast | backend/app/core/response.py:51 | any page count holding every row is at least `total_pages` |
| Response.PaginatedResponse | backend/app/core/response.py:44-67 | success with the rows; meta echoes page, size and total, with `total_pages` as above, `has_previous` iff page > 1 and `has_next` iff page < total_pages |
| Response.FlagsMatchRows | backend/app/core/response.py:58-59 | has_previous iff the page's offset (page - 1) * page_size is positive, i.e. page > 1; has_next iff rows remain after the page (page * page_size < total_items) |
| Response.NextPageFlag | backend/app/core/response.py:59 | page < total_pages iff page * size < total_items |
| BacteriaRoutes.QueryViolations | backend/app/api/routes/bacteria.py:84-99 | names exactly the parameters that break their bounds (page < 1, page_size outside 1..100, search shorter than 2); none iff all hold |
| BacteriaRoutes.FilterRows | backend/app/api/routes/bacteria.py:100-116 | only table rows matching every active filter |
| BacteriaRoutes.FilterRowsComplete | backend/app/api/routes/bacteria.py:100-116 | every matching row is kept |
| BacteriaRoutes.FilterRowsOrdered | backend/app/api/routes/bacteria.py:129 | filtering keeps the ascending id order |
| BacteriaRoutes.FilterSameFilters | backend/app/api/routes/bacteria.py:119 | the matching rows do not depend on page or page size |
| BacteriaRoutes.OffsetLimit | backend/app/api/routes/bacteria.py:126-130 | at most `limit` rows: the slice from the offset, or nothing past the end |
| BacteriaRoutes.OffsetLimitWindow | backend/app/api/routes/bacteria.py:126-130 | row k of the window is row offset+k of the input |
| BacteriaRoutes.ListBacteria | backend/app/api/routes/bacteria.py:83-143 | any bounds violation gives a 422 naming every bad parameter; then a failed count gives 500 "Error processing request during count" and a failed fetch 500 "Error processing request during fetch"; otherwise the page slice of the matching rows, with the matching count, page meta, has_previous iff page > 1 and has_next iff page < total_pages |
| BacteriaRoutes.ListPageIsOrderedMatches | backend/app/api/routes/bacteria.py:100-130 | a page holds at most page_size matching rows in ascending id order; total_items is the same whatever page is asked for |
| BacteriaRoutes.RowOnItsPage | backend/app/api/routes/bacteria.py:119-130 | the k-th matching row is row k mod size of page k div size + 1, and that page is within total_pages |
| BacteriaRoutes.CreateBacteriaEntry | backend/app/api/routes/bacteria.py:21-52 | 409 for an existing id; a failed commit gives 500 "Database error: " followed by the error; success iff the id is new and the commit succeeds, appending the new row and advancing the next id by one; on error neither the rows nor the next id change |
| BacteriaRoutes.GetBacteriaByDbId | backend/app/api/routes/bacteria.py:55-65 | found iff some row has the id; otherwise 404 |
| BacteriaRoutes.GetBacteriaByUniqueId | backend/app/api/routes/bacteria.py:68-80 | found iff some row has the natural key; otherwise 404 |
| BacteriaRoutes.UpdateBacteriaEntry | backend/app/api/routes/bacteria.py:146-181 | 404 when absent, 400 when empty, 500 "Database error on update: " followed by the error when the commit fails; success iff present, non-empty and committed; only that row's set fields change |
| BacteriaRoutes.UpdateOneRow | backend/app/api/routes/bacteria.py:165-166 | writing updatable fields onto one row keeps the table valid and touches no other row |
| BacteriaRoutes.DeleteBacteriaEntry | backend/app/api/routes/bacteria.py:184-206 | 404 when absent, 500 "Database error on delete: " followed by the error when the commit fails; success iff present and committed, removing exactly that row |
| BacteriaStore.ColumnDefaults | backend/app/models/bacteria.py:11-36 | a default for every data column |
| BacteriaStore.NewRow | backend/app/models/bacteria.py:10-36 | an inserted row is complete and has the given id |
| BacteriaStore.NewRowColumns | backend/app/models/bacteria.py:36 | given values are kept; the others take the defaults (`is_pathogen` false, the rest NULL) |
| BacteriaStore.IndexOfId | backend/app/api/routes/bacteria.py:59 | finds a row with the id, or none iff no row has it |
| BacteriaStore.IndexOfBacteriaId | backend/app/api/routes/bacteria.py:27-31 | the first row with the natural key, or none iff no row has it |
| BacteriaStore.Without | backend/app/api/routes/bacteria.py:195 | all rows but the one at k, in order |
| BacteriaStore.RemoveKeepsValid | backend/app/api/routes/bacteria.py:195 | deleting a row keeps ids ascending and keys unique |
| BacteriaStore.RemoveExactlyThatRow | backend/app/api/routes/bacteria.py:195 | exactly the rows with the removed id disappear |
| BacteriaStore.AppendKeepsValid | backend/app/db/init_db.py:247 | appending a batch with fresh, distinct keys keeps the table valid |
| BacteriaStore.AppendAddsKeys | backend/app/db/init_db.py:247 | the stored keys grow by exactly the batch's keys |
| BacteriaStore.UpdateSaved | scraper/src/scrapers/mimedb.py:189-191 | writing a record over the row with its key keeps the table valid and the row found |
| BacteriaStore.InsertSaved | scraper/src/scrapers/mimedb.py:194-197 | a row appended under a new key is the one the look-up finds |
| BacteriaStore.SetFields | backend/app/api/routes/bacteria.py:165-166 | the `setattr` loop: set fields take the new values, the others are kept |
| BacteriaStore.Table.constructor | backend/app/models/bacteria.py:7-38 | an empty, valid table |
| BacteriaStore.Table.Insert | backend/app/api/routes/bacteria.py:38-44 | appends the new row with the next id; the table stays valid |
| BacteriaStore.Table.InsertMany | backend/app/db/init_db.py:247 | appends the batch's rows with consecutive ids; the keys grow by the batch's keys |
| Config.StrItems | backend/app/core/config.py:28 | one text per item |
| Config.StrippedNonEmpty | backend/app/core/config.py:39 | no more pieces than given |
| Config.AssembleCorsOrigins | backend/app/core/config.py:17-41 | None, another type or a blank string gives []; a list or a JSON list string gives its items as text |
| Config.CommaSeparatedOrigins | backend/app/core/config.py:39 | a non-blank, non-JSON string gives non-empty, stripped origins without commas |
| Config.StrippedAreClean | backend/app/core/config.py:39 | stripping comma-free pieces and dropping empties leaves clean origins |
| Config.StrippedCleanPieces | backend/app/core/config.py:39 | clean pieces pass unchanged |
| Config.CommaBranch | backend/app/core/config.py:32-39 | a non-blank string not starting with "[" takes the comma-split branch |
| Config.CorsRoundTrip | backend/app/core/config.py:32-39 | joining clean origins with commas and validating gives them back |
| Config.CorsListIsFixedPoint | backend/app/core/config.py:27-28 | validating the produced list gives the same list |
| Config.DbUrl | backend/app/core/config.py:61-64 | the URL starts with "postgresql+psycopg2://" and ends with "/db" |
| Config.AssembleDbConnection | backend/app/core/config.py:50-65 | a non-dict is unchanged; a set DATABASE_URL is unchanged; otherwise the URL is added iff all five parts are truthy, and nothing else changes |
| Config.AssembleDbConnectionIdempotent | backend/app/core/config.py:50-65 | validating twice equals validating once |
| InitDb.CleanValue | backend/app/db/init_db.py:38-51 | None iff NaN or the stripped lower-cased text is a missing marker; otherwise the stripped, non-empty text |
| InitDb.CleanValueIdempotent | backend/app/db/init_db.py:38-51 | cleaning a cleaned value changes nothing |
| InitDb.CleanBoolean | backend/app/db/init_db.py:54-79 | true for the true tokens, false for the false tokens, None for anything else |
| InitDb.RecognisedBooleanIsPresent | backend/app/db/init_db.py:54-79 | a recognised boolean cell also cleans to a value |
| InitDb.TokenSetsDisjoint | backend/app/db/init_db.py:40-75 | the true, false and missing token sets are pairwise disjoint |
| InitDb.CanonicalGramStain | backend/app/db/init_db.py:215-227 | None iff the cleaned text is None; else "Positive"/"Negative"/"Variable" by the first keyword contained, or the cleaned text |
| InitDb.CanonicalGramStainIdempotent | backend/app/db/init_db.py:215-227 | canonicalising a canonical stain changes nothing |
| InitDb.SameCleanSameStain | backend/app/db/init_db.py:216 | the stain depends only on the cleaned value |
| InitDb.MappingTargets | backend/app/db/init_db.py:123-150 | the mapping loads each of the 26 data columns once, in declaration order, starting with the key |
| InitDb.CleanFloat | backend/app/db/init_db.py:82-105 | a missing value stays missing; otherwise the parsed number |
| InitDb.CsvRecord | backend/app/db/init_db.py:188-233 | the queued record is insertable and carries the line's key |
| InitDb.CsvRecordFields | backend/app/db/init_db.py:190-229 | every column past the key holds its cleaned cell value |
| InitDb.CsvRecordColumns | backend/app/db/init_db.py:231-233 | the record sets every data column |
| InitDb.MissingColumnIsNull | backend/app/db/init_db.py:194-200 | a mapped column missing from the file is loaded as NULL |
| InitDb.PrepareRecord | backend/app/db/init_db.py:188-233 | the loop over the mapping builds exactly the line's record |
| InitDb.Scan | backend/app/db/init_db.py:163-186 | queued records plus duplicates never exceed the lines read |
| InitDb.ScanLine | backend/app/db/init_db.py:166-186 | one line queues or counts at most one record |
| InitDb.ScanKeepsInvariant | backend/app/db/init_db.py:180-186 | queued keys are distinct and exactly the keys seen |
| InitDb.ScanKeepsQueue | backend/app/db/init_db.py:169-185 | a line without a key, or with a seen key, queues nothing |
| InitDb.ScanQueuesNew | backend/app/db/init_db.py:186-240 | a line with a new key queues its record and marks the key seen |
| InitDb.ScanQueuesFullRecords | backend/app/db/init_db.py:231-240 | every queued record sets every data column |
| InitDb.CommittedAmongAttempted | backend/app/db/init_db.py:246-262 | committed records are among the attempted ones |
| InitDb.FlushBatch | backend/app/db/init_db.py:246-263 | committed iff the commit succeeds and no key is already stored; the table grows by the batch iff committed |
| InitDb.QueueRecord | backend/app/db/init_db.py:240-263 | the buffer grows below 500; at 500 it is flushed and emptied |
| InitDb.LoadLine | backend/app/db/init_db.py:163-263 | one loop iteration keeps the loader's state in step with the scan |
| InitDb.FlushRemainder | backend/app/db/init_db.py:265-285 | every queued record was attempted; inserted counts the committed ones, and inserted + errors is the number queued; batches hold 1..500 records, all but the last exactly 500 |
| InitDb.PopulateFromCsv | backend/app/db/init_db.py:108-293 | no file loads nothing. Otherwise: processed is the line count, duplicates are the scan's, attempted are exactly the records queued, and the table grows by the committed batches in order. Batch sizes as above |
| InitDb.LoadLines | backend/app/db/init_db.py:163-263 | after the loop, the loader's state matches the scan of every line |
| InitDb.InitInitialData | backend/app/db/init_db.py:296-316 | populates iff the table is empty; then the attempted records are exactly those the CSV scan queues, the counters report the lines processed, the duplicates skipped and inserted + errors = queued, each batch holds at most 500 records and commits iff its commit succeeds, and the table is exactly the committed rows |
| MimeDb.IdFromHref | scraper/src/scrapers/mimedb.py:77-81 | an id comes only from an href, starts with "MMDBm" and ends the href |
| MimeDb.IdFollowsLastSegment | scraper/src/scrapers/mimedb.py:79 | the id follows a "/microbes/" and holds none itself |
| MimeDb.IdFromLink | scraper/src/scrapers/mimedb.py:78-81 | a link base + "/microbes/" + MMDBm-id gives that id |
| MimeDb.PageIds | scraper/src/scrapers/mimedb.py:76-82 | at most one id per link, each starting with "MMDBm" |
| MimeDb.CollectedIdsArePrefixed | scraper/src/scrapers/mimedb.py:62-87 | every collected id starts with "MMDBm" |
| MimeDb.CollectStopsAtEmptyPage | scraper/src/scrapers/mimedb.py:83-87 | a fetched page after the first with no ids ends collection |
| MimeDb.GetBacteriaIds | scraper/src/scrapers/mimedb.py:60-88 | the ids are exactly the collected ones, without duplicates |
| MimeDb.CollectPage | scraper/src/scrapers/mimedb.py:75-82 | the inner loop appends the page's ids and counts them |
| MimeDb.Distinct | scraper/src/scrapers/mimedb.py:88 | the same elements, each once |
| MimeDb.TaxEntry | scraper/src/scrapers/mimedb.py:118-124 | only a mapped header gives an entry; None iff the cell says "Not Available" |
| MimeDb.YesNo | scraper/src/scrapers/mimedb.py:151-152 | None iff the value is missing or empty; true iff it lower-cases to "yes" |
| MimeDb.PropEntry | scraper/src/scrapers/mimedb.py:142-157 | an entry iff both cells exist and the stripped header is mapped, for its column; a stripped cell containing "Not Available" gives None; mobility, flagellar presence and sporulation hold the yes/no reading of the cell (None when not available); a non-empty optimal temperature holds the extracted number; every other column holds the stripped cell text |
| MimeDb.Fill | scraper/src/scrapers/mimedb.py:118-157 | filling keeps every existing key |
| MimeDb.FillOrigin | scraper/src/scrapers/mimedb.py:118-157 | each filled column keeps its earlier value or holds a value one of the rows gives |
| MimeDb.FillFromRows | scraper/src/scrapers/mimedb.py:118-124 | the row loop computes the fill |
| MimeDb.IsPathogen | scraper/src/scrapers/mimedb.py:159-167 | a pathogen iff the text contains "pathogenic" but not "non-pathogenic" |
| MimeDb.FindTag | scraper/src/scrapers/mimedb.py:102 | the first tag position reachable without a line break; none iff no tag position is reachable from the start without crossing a line break |
| MimeDb.NameFromTitle | scraper/src/scrapers/mimedb.py:100-105 | when no tag is reachable without a line break, the name is the whole stripped title; otherwise it is the stripped text before the first reachable tag; never longer than the title |
| MimeDb.NameFromTaggedTitle | scraper/src/scrapers/mimedb.py:102-105 | a title "name (MMDBm<digits>)" gives back the name |
| MimeDb.ScrapeBacteriaData | scraper/src/scrapers/mimedb.py:90-169 | no record without a page; otherwise the scraped record |
| MimeDb.TablesWithin | scraper/src/scrapers/mimedb.py:118-157 | the two tables add only table columns and keep the key |
| MimeDb.ScrapedColumns | scraper/src/scrapers/mimedb.py:98-169 | the record names data columns only, carries the id, and has a pathogen flag iff there is a disease cell |
| MimeDb.ColumnValues | scraper/src/scrapers/mimedb.py:190-195 | exactly the data's table columns, with their values |
| MimeDb.SaveBacteriaData | scraper/src/scrapers/mimedb.py:171-212 | saved iff the model exists, a string `bacteria_id` is present and the commit succeeds. Then the row with the key is updated, or a new row is appended; unchanged otherwise |
| MimeDb.WriteRecord | scraper/src/scrapers/mimedb.py:182-199 | the upsert: update the row with the key or append a new one; afterwards the row found holds the values |
| ModelService.StepsDict | backend/app/ml/model_service.py:53 | keys are the step names; the last step of a name wins |
| ModelService.StepsFallback | backend/app/ml/model_service.py:48-55 | without a named preprocessor, the components come from the steps list |
| ModelService.NamedPreprocessorWins | backend/app/ml/model_service.py:48-51 | a named preprocessor is used with the named classifier |
| ModelService.NothingLoadedKeepsState | backend/app/ml/model_service.py:42-84 | a missing file or unknown structure changes no component |
| ModelService.AddNaNColumn | backend/app/ml/model_service.py:91-92 | as many rows as before |
| ModelService.Project | backend/app/ml/model_service.py:93 | exactly the given columns |
| ModelService.AlignedShape | backend/app/ml/model_service.py:86-94 | with feature names, every row has exactly those columns, absent ones NaN |
| ModelService.AlignedIdempotent | backend/app/ml/model_service.py:86-94 | aligning twice equals aligning once |
| ModelService.PathogenProbability | backend/app/ml/model_service.py:122-126 | probability[1] when there are two or more outcomes and classes_[1] == 1, else probability[0]; an index error iff the needed index is missing |
| ModelService.BinaryClassifierReportsClassOne | backend/app/ml/model_service.py:122-126 | with classes [0,1] the class-1 probability is reported; with [1,0] probability[0] |
| ModelService.ScoredCopies | backend/app/ml/model_service.py:165-169 | each candidate copied with `similarity_score` set to its similarity, same order; the copy's score is that similarity |
| ModelService.Insert | backend/app/ml/model_service.py:171-175 | one more element, same multiset |
| ModelService.InsertKeepsOrder | backend/app/ml/model_service.py:171-175 | inserting keeps the order non-increasing |
| ModelService.SortByScore | backend/app/ml/model_service.py:171-175 | a permutation of the input |
| ModelService.SortByScoreOrders | backend/app/ml/model_service.py:171-175 | sorted by score, highest first |
| ModelService.SliceEnd | backend/app/ml/model_service.py:177-179 | Python's slice end: clamped for stop >= 0, counted from the end for stop < 0 |
| ModelService.RankedIsTopN | backend/app/ml/model_service.py:165-179 | for n >= 0, min(n, count) results; the result is a sub-multiset of the scored copies, non-increasing by score, each element a candidate's scored copy; the copies left out score no higher than any returned |
| ModelService.Service.constructor | backend/app/ml/model_service.py:14-18 | no components, no feature names, not initialized |
| ModelService.Service.Load | backend/app/ml/model_service.py:32-84 | components as extracted; feature names taken only when both components are present and the preprocessor records them |
| ModelService.Service.Init | backend/app/ml/model_service.py:27-30 | initialized afterwards; loads only when not yet initialized |
| ModelService.Service.AlignColumns | backend/app/ml/model_service.py:150-154 | the loop gives the aligned frame |
| ModelService.Service.PrepareInputData | backend/app/ml/model_service.py:86-94 | the aligned frame of the one input row |
| ModelService.Service.PreprocessData | backend/app/ml/model_service.py:96-109 | "Preprocessor not loaded" without one; otherwise the transform of the aligned row, or a preprocessing error |
| ModelService.Service.PredictPathogenicity | backend/app/ml/model_service.py:111-131 | "Model not loaded" without a model; otherwise preprocessing errors pass through and the result is the label with the chosen probability |
| ModelService.Service.FindSimilarBacteria | backend/app/ml/model_service.py:133-183 | [] without a preprocessor, without candidates, or on any failure; otherwise the top-n ranking |
| ModelService.Registry.constructor | backend/app/ml/model_service.py:15 | no instance yet |
| ModelService.Registry.Construct | backend/app/ml/model_service.py:20-30 | always the same instance, initialized; loading happens only on first construction |

## Left out

- The phylum filter: the client sends it, but `list_bacteria` has no such parameter. The server-side query ignores it.
- Stale responses: `loadBacteria` has no request sequence and `handleSubmit` no in-flight guard. Interleaved loads are not modelled; each handler runs to completion.
- The React effect that re-runs `loadBacteria` after each state change: the caller invokes `ListView.LoadBacteria` explicitly.
- Toasts, `console.error`, logging and retry sleeps: they have no effect on state.
- `ILIKE` wildcards: the search term is a plain case-insensitive substring test.
- Floating point:
  - `parseFloat`, `parseInt`, `float()`, the `clean_float` regex and the temperature regex are function parameters;
  - `toFixed` percentages and the NaN→0 fallback of the result card are not modelled.
- ML calls are parameters that may fail: `joblib.load`, `transform`, `predict`, `predict_proba` and `cosine_similarity`.
- NaN similarity scores are not modelled. Scores are `real`s.
- Text handling covers ASCII only: `lower()` does not fold non-ASCII letters, and `strip()` does not remove non-ASCII whitespace such as U+0085, U+00A0 or the Unicode space separators.
- Text.Strip: its own contract gives the end conditions and the length only; that nothing but whitespace is dropped is the separate lemma `Text.StripDropsOnlyWhitespace`.
- BacteriaRoutes.ListBacteria: the 422 answer names the failing parameters only; FastAPI's error body (location, message and error type of each violation) is not modelled.
- Parsing:
  - HTML parsing, CSV reading and `json.loads` are replaced by already-parsed inputs;
  - `String(v)` of non-strings and the engine's `TypeError` texts are the `Engine` parameter.
- MimeDb.GetBacteriaIds: `list(set(ids))` has an unspecified order. The model promises the same elements without duplicates, not an order.
- MimeDb.SaveBacteriaData: the `hasattr` test and the `valid_keys` filter are limited to data columns. Writes to `id`, `created_at` or `updated_at` are not modelled.
- MimeDb.SaveBacteriaData: a `bacteria_id` that is not a string is treated as a failed commit, the integrity error the database would raise.
- The identity sequence is not advanced by a rolled-back insert. The model's `nextId` stays where it was.
- BacteriaSchema.ValidateForm: reports the names of the failing fields, not zod's messages.
- Api.PredictPathogenicity: a payload that is an array is returned unchanged. JavaScript's `similar_bacteria` property of an array is undefined, and `Array.isArray` fails on it, but the assignment onto an array is kept out of the model.
- ModelService.SortByScore: is not proved stable. Python's `sorted` is stable, but the model does not promise an order for equal scores.
- ModelService.Service.AlignColumns: without feature names, pandas' column order and dict key order are not modelled. A frame is a set of named columns.
- ModelService.PathogenProbability: class labels are integers; a non-integer label that `int()` rejects is not modelled.
- `SimilarItem`: its text fields are string-or-missing. Numbers or other types in those fields are not modelled.
- `scrape_bacteria_data` and `init_db` run on parsed inputs; the fetch, the CSV path check and session handling are outside the model.
- `getBacteriaById` and `getBacteriaByUniqueId` of the client gateway (frontend/src/lib/api.ts:99-129) are not modelled; they follow the same rethrow rule as `getBacteriaList`.
- `create_tables` (schema creation) is not modelled; the table starts empty.

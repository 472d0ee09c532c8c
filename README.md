# OceanFront core, modelled in Dafny

OceanFront answers questions about Indian Ocean Argo float data. It has two
parts, and this project models the core of each.

The AI chat has two sides:

* **The chat page** (`ChatClient`, in `chat_client.dfy`). This is the browser component. It holds the
  input text, the message list and an idle/in-progress status. It
  sends the conversation to the relay and turns the streamed reply into one
  assistant message that grows as chunks arrive. A failure of any kind appends one error message.
* **The relay route** (`ChatRelay`, in `chat_relay.dfy`). This is the server handler. It checks that the
  provider client exists and validates the request body. It maps the history to the
  provider's message format and puts the system prompt in front. Then it relays every
  streamed delta as text.

The mixed-layer-depth (MLD) and temperature models have two parts:

* **The Argo feature pipeline** of the LSTM predictor. `ArgoFrame` holds the data and the
  specification functions that both script versions share. `MldPredictor` models
  `LSTM-2.py` and `MldPredictorV1` models what `LSTM.py` does differently.
  The pipeline covers:
  * the choice of adjusted or raw pressure, temperature and salinity columns;
  * the QC-flag filter and the numeric conversion;
  * the temperature-threshold MLD per profile and the list of MLD values built from it;
  * the sliding training windows;
  * the NaN-free feature matrix.
* **The XGBoost data preparation** (`XgbFeatures`). It selects the columns of interest,
  drops the rows without a target and splits the features from the target. It then cleans the
  feature names for XGBoost: brackets are removed and each whitespace run becomes `_`.

`Wrappers` holds `Option` and `Result`. `Seqs` holds order-preserving
filtering, subsequences, string concatenation and repetition.

Details of the code that the model follows:

* The relay builds its provider client once, when the module loads, from the
  `GROQ_API_KEY` value. A missing or empty key leaves it unset for good
  (`frontend/app/api/ocean-chat/route.ts:6-22`). It is not built lazily on the first request.
* A missing client gets a 500 JSON reply (`route.ts:29-35`), and so does any error the
  handler catches, such as an unparseable body or a failed provider call (`route.ts:87-94`).
  Neither is degraded to a 200 text stream.
* Every delta is relayed, including empty ones, because a missing delta becomes `""` (`route.ts:69-72`).
  Non-empty deltas are not the only ones sent.
* An empty `messages` array passes validation (`route.ts:40`), and then only the system prompt goes upstream.
* The page adds the empty assistant placeholder only after the response passes
  the ok/body check (`frontend/app/ai-agent/page.tsx:56-68`). A rejected
  response therefore adds the error message alone, with no placeholder.
* The page's only guard against a second submit is the status check in `handleSubmit`
  (`page.tsx:95`). There is no separate re-entrance flag.

The effects of each handler are parameters of its method:
* the clock-based message ids;
* the parsed request body;
* the fetch response, given as status, body presence, chunks and an optional read error;
* the provider's stream, given as a sequence of optional delta strings.

## Model

| member | source | states |
|---|---|---|
| ChatClient.Trim | frontend/app/ai-agent/page.tsx:94 | `input.trim()`: the result is a contiguous slice of the input with only JavaScript whitespace outside it and no whitespace at either end |
| ChatClient.SkipLeading | frontend/app/ai-agent/page.tsx:94 | the first index from a position on that is not whitespace, with only whitespace before it |
| ChatClient.SkipTrailing | frontend/app/ai-agent/page.tsx:94 | the end of a range once its trailing whitespace is dropped |
| ChatClient.TrimEmptyIff | frontend/app/ai-agent/page.tsx:94-95 | the trimmed text is empty exactly when the input is all whitespace, so the two reject the same submits |
| ChatClient.RequestBody | frontend/app/ai-agent/page.tsx:44-47 | the request body has one entry per history message, in order, with the same role and content |
| ChatClient.RequestBodyKeepsAllButIds | frontend/app/ai-agent/page.tsx:44-47 | putting the ids back into the body gives back the history, so the map drops the ids and nothing else |
| ChatClient.ReplaceContent | frontend/app/ai-agent/page.tsx:79-81 | `prev.map(...)` keeps the length; every message with another id is unchanged; a message with the id keeps its id and role and takes the new content |
| ChatClient.ReplaceTwice | frontend/app/ai-agent/page.tsx:79-81 | a second replacement by the same id overrides the first, so only the latest accumulated text matters |
| ChatClient.ReplaceFreshLast | frontend/app/ai-agent/page.tsx:68-81 | when the placeholder's id is fresh, the replacement changes only the placeholder, which is the last message |
| ChatClient.DecimalDigits | frontend/app/ai-agent/page.tsx:57 | the status in `API returned status ${response.status}` prints as decimal digits that denote the status, with no leading zero |
| ChatClient.RejectedAddsOnlyError | frontend/app/ai-agent/page.tsx:56-86 | a fetch that throws, or a response that is not ok or has no body, appends exactly one assistant message, `Error: Failed to fetch AI response. Please check server logs. (<reason>)`, after the untouched history |
| ChatClient.AcceptedFillsPlaceholder | frontend/app/ai-agent/page.tsx:60-86 | an accepted response keeps the history and adds one assistant message holding all the chunks read, concatenated; a read error keeps that partial text and adds one error message after it |
| ChatClient.AssistantContentGrows | frontend/app/ai-agent/page.tsx:71-82 | while chunks arrive, the list length and the earlier messages stay the same and the assistant text only grows by appending |
| ChatClient.StreamKeepsHistory | frontend/app/ai-agent/page.tsx:40-90 | a stream never changes the messages there before it and always adds at least one |
| ChatClient.ChatPage.constructor | frontend/app/ai-agent/page.tsx:22-25 | the initial state is empty input, no messages and idle status |
| ChatClient.ChatPage.ChangeInput | frontend/app/ai-agent/page.tsx:272 | typing replaces the input and changes nothing else |
| ChatClient.ChatPage.StreamChatResponse | frontend/app/ai-agent/page.tsx:40-90 | it sends the history without ids; the final message list is the stream outcome of the old list; status ends idle whatever happened (the `finally` block); the input is untouched |
| ChatClient.ChatPage.ReadChunks | frontend/app/ai-agent/page.tsx:71-82 | the read loop leaves the concatenated chunks in `aiResponse` and the list as the placeholder filled with them; it runs while the reply is in progress, and status and input are untouched |
| ChatClient.ChatPage.HandleSubmit | frontend/app/ai-agent/page.tsx:92-108 | empty or whitespace-only input, or a reply in progress, changes nothing and sends nothing. Otherwise it appends the user message with the trimmed text, sends that history, clears the input, ends idle, and the list is the stream outcome of the new history |
| ChatRelay.MapMessage | frontend/app/api/ocean-chat/route.ts:48-51 | the role is `user` exactly when `m.role === "user"`, otherwise it is `assistant`, never system; the content is `content` if truthy, else `text` if truthy, else `""` |
| ChatRelay.MapHistory | frontend/app/api/ocean-chat/route.ts:48-51 | the mapping succeeds exactly when no element is null or undefined, and then maps each element in order |
| ChatRelay.BadRequestIff | frontend/app/api/ocean-chat/route.ts:37-45 | the 400 reply is given exactly when the body parses to a value whose `messages` is not an array |
| ChatRelay.EmptyHistoryAccepted | frontend/app/api/ocean-chat/route.ts:40-59 | an empty `messages` array is accepted, and only the system prompt goes upstream |
| ChatRelay.PrepareShape | frontend/app/api/ocean-chat/route.ts:48-59 | the upstream list is the system prompt followed by each history message mapped, in order, one longer than the history |
| ChatRelay.DeltaTexts | frontend/app/api/ocean-chat/route.ts:67-73 | one relayed chunk per provider chunk, in order, with `""` for a missing delta |
| ChatRelay.RelayPreservesText | frontend/app/api/ocean-chat/route.ts:67-73 | the relayed chunks concatenate to the concatenation of the deltas the provider produced: nothing is lost, duplicated or reordered |
| ChatRelay.StreamController.Enqueue | frontend/app/api/ocean-chat/route.ts:72 | enqueueing appends one chunk to an open stream |
| ChatRelay.StreamController.Close | frontend/app/api/ocean-chat/route.ts:74 | closing keeps the chunks and marks the stream closed |
| ChatRelay.Pump | frontend/app/api/ocean-chat/route.ts:66-75 | the stream receives exactly the text of every delta, and gets closed unless the provider's iteration throws |
| ChatRelay.ChatRoute.constructor | frontend/app/api/ocean-chat/route.ts:6-22 | the client exists exactly when the key is present and non-empty, and it holds that key |
| ChatRelay.ChatRoute.Post | frontend/app/api/ocean-chat/route.ts:26-95 | the steps run in order: client check (500, body not read), then validation and mapping (400, or 500 for a thrown error), then the upstream call with the system prompt (500 if it throws), then a 200 `text/plain; charset=utf-8` stream of every delta |
| ArgoFrame.ChooseColumn | backend/models/LSTM/LSTM-2.py:129-131 | the `_adjusted` column is preferred when present, else the raw column; none only when both are absent |
| ArgoFrame.AddColumn | backend/models/LSTM/LSTM-2.py:152-154 | assigning a column overwrites or appends it, keeps every other column and row, and sets that cell of each row |
| ArgoFrame.QcFilter | backend/models/LSTM/LSTM-2.py:143-149 | keeps, in order, exactly the rows whose present `_qc` flags are `"1"` or `"2"`, each as often as the frame holds it, and keeps all the columns |
| ArgoFrame.ParseDecimal | backend/models/LSTM/LSTM-2.py:152-154 | the empty string is not a number |
| ArgoFrame.PointFrom | backend/models/LSTM/LSTM-2.py:152-154 | the position of the first decimal point from an index on, or the end |
| ArgoFrame.ParseDigits | backend/models/LSTM/LSTM-2.py:152-154 | a string of digits denotes the number they spell |
| ArgoFrame.ParsePointDigits | backend/models/LSTM/LSTM-2.py:152-154 | `a.b` with digits on both sides denotes the whole part plus the fraction `b / 10^len(b)` |
| ArgoFrame.ParseSigned | backend/models/LSTM/LSTM-2.py:152-154 | a leading `-` negates the number and a leading `+` changes nothing |
| ArgoFrame.ParseRejectsOther | backend/models/LSTM/LSTM-2.py:152-154 | a string with a character that is neither a digit, a point nor a sign denotes no number |
| ArgoFrame.QcWithoutFlagsKeepsAll | backend/models/LSTM/LSTM-2.py:143-146 | without any of the three flag columns the filter keeps the whole frame |
| ArgoFrame.NearestIndex | backend/models/LSTM/LSTM-2.py:210 | `argmin`: the index of least distance to the reference depth, the first one on ties |
| ArgoFrame.FirstExceedance | backend/models/LSTM/LSTM-2.py:212-214 | the first level whose temperature differs from the reference by more than the threshold, or none when no level does |
| ArgoFrame.MldIndex | backend/models/LSTM/LSTM-2.py:210-214 | the MLD level is the first exceedance, else the last level; every level before it is within the threshold |
| ArgoFrame.MldOfSortedProfile | backend/models/LSTM/LSTM-2.py:195-214 | on a profile sorted by depth, the MLD is one of its depths, every shallower level is within the threshold, and with no exceedance the MLD is the deepest depth |
| ArgoFrame.SortByDepth | backend/models/LSTM/LSTM-2.py:205 | `sort_values("depth")`: sorted by depth, a permutation of the group |
| ArgoFrame.InsertKeepsSorted | backend/models/LSTM/LSTM-2.py:205 | one insertion step keeps the levels sorted |
| ArgoFrame.ProfileIds | backend/models/LSTM/LSTM-2.py:204 | `groupby("profile_id")` visits each profile id present exactly once, in ascending order |
| ArgoFrame.Group | backend/models/LSTM/LSTM-2.py:204 | a group holds exactly the levels of its profile |
| ArgoFrame.GroupCounts | backend/models/LSTM/LSTM-2.py:204 | a group holds each level of its profile as often as the frame does, and no other level |
| ArgoFrame.MldBlock | backend/models/LSTM/LSTM-2.py:205-215 | `[mld] * len(g)`: one entry per level of the profile, each the MLD of the profile sorted by depth |
| ArgoFrame.GroupedMldLength | backend/models/LSTM/LSTM-2.py:203-215 | the MLD list is as long as the groups it visits put together |
| ArgoFrame.GroupSizesCons | backend/models/LSTM/LSTM-2.py:204 | a level adds one to the size of its own profile's group for each time its id is listed |
| ArgoFrame.OccurrencesOfMember | backend/models/LSTM/LSTM-2.py:204 | a profile id appears exactly once among the ascending group keys |
| ArgoFrame.GroupSizesCover | backend/models/LSTM/LSTM-2.py:204 | the groups partition the rows: their sizes sum to the row count |
| ArgoFrame.GroupedMldCoversEveryRow | backend/models/LSTM/LSTM-2.py:203-218 | the MLD list has exactly one entry per row, so the column assignment never fails on length |
| ArgoFrame.MldPerRow | backend/models/LSTM/LSTM-2.py:194-219 | the intended column has one value per row, and each value is the MLD of that row's own profile |
| ArgoFrame.MldPerRowOwnProfile | backend/models/LSTM/LSTM-2.py:194-219 | in the intended column, all rows of a profile share one value; it is a depth of that profile; no level of the profile above it exceeds the threshold |
| ArgoFrame.PositionalMldMisaligned | backend/models/LSTM/LSTM-2.py:203-218 | with rows not in ascending profile order, the positional list gives row 0 a value of 20 when the MLD of its own profile is 5 |
| ArgoFrame.UsedFeatures | backend/models/LSTM/LSTM-2.py:240-241 | the features used are exactly the listed features that the frame has, in list order |
| ArgoFrame.Samples | backend/models/LSTM/LSTM-2.py:246-247 | one sample per row: the used features in order as X, and `mixed_layer_depth` as y |
| ArgoFrame.DropNanRows | backend/models/LSTM/LSTM-2.py:249-250 | the same mask on X and y keeps exactly the rows with no NaN, in order and as often as they occur, so X and y stay aligned |
| ArgoFrame.FeatureMatrix | backend/models/LSTM/LSTM-2.py:240-252 | no feature column raises the given ValueError; a missing `mixed_layer_depth` raises KeyError; otherwise the (X row, y) pairs are the frame's NaN-free samples, in frame order and each as often as it occurs, with the used width |
| ArgoFrame.AllFeaturesUsed | backend/models/LSTM/LSTM-2.py:240-244 | a frame with all seven feature columns uses all of them, in list order |
| MldPredictor.MissingVariables | backend/models/LSTM/LSTM-2.py:133-138 | the missing list is empty exactly when all three variables have a column; each label is listed exactly when its variable has neither column, in pressure, temperature, salinity order |
| MldPredictor.CoerceFloat | backend/models/LSTM/LSTM-2.py:152-154 | `to_numeric(errors="coerce")` gives a float or NaN; an integer becomes its float value; a float or NaN stays as it is; text becomes the number it denotes, or NaN exactly when it denotes none |
| MldPredictor.CoerceTextExamples | backend/models/LSTM/LSTM-2.py:152-154 | `"12.5"` becomes 12.5, `"-3"` becomes -3, `"n/a"` becomes NaN |
| MldPredictor.Converted | backend/models/LSTM/LSTM-2.py:152-154 | `depth`, `temperature` and `salinity` are the coerced chosen columns; every other cell is kept; the columns are the input's plus those three |
| MldPredictor.NormalizeArgoColumns | backend/models/LSTM/LSTM-2.py:129-157 | raises `Argo variables missing: [...]` with the missing labels, else `latitude/longitude columns required`; succeeds exactly when neither applies, with the converted QC-filtered frame |
| MldPredictor.CalculateMldSimple | backend/models/LSTM/LSTM-2.py:203-218 | the loop yields the per-profile blocks in ascending profile order, one entry per row |
| MldPredictor.VisitGroups | backend/models/LSTM/LSTM-2.py:204-215 | visiting groups in a given order appends, per group, its MLD once per level of the depth-sorted group, and nothing for an empty group |
| ArgoFrame.GroupedMldSnoc | backend/models/LSTM/LSTM-2.py:204-215 | one more visited group extends the list by `[mld] * len(g)` of that group, or by nothing when it is empty |
| MldPredictor.CreateSequences | backend/models/LSTM/LSTM-2.py:272-280 | `max(0, n - t)` windows; window i is rows i to i+t-1 and its label is `y[i+t]`; consecutive windows overlap by t-1 rows |
| MldPredictor.PrepareFeatures | backend/models/LSTM/LSTM-2.py:240-252 | raises `No valid feature columns found after normalization` without features; succeeds exactly when features and `mixed_layer_depth` exist; the (X row, y) pairs are the frame's NaN-free samples, in frame order and each as often as it occurs |
| MldPredictor.NormalizedFrameUsesAllFeatures | backend/models/LSTM/LSTM-2.py:225-244 | with the three variables and latitude/longitude present, normalisation succeeds; with the two date columns added, all seven features are used, so the no-feature error cannot be raised on this path |
| MldPredictorV1.MissingVariables | backend/models/LSTM/LSTM.py:58-62 | the comprehension over label and column pairs gives the same list as LSTM-2.py's three `if`s |
| MldPredictorV1.GuardedQcFilter | backend/models/LSTM/LSTM.py:67-77 | the `if pres_col` guards never apply once the columns are chosen, so the mask is LSTM-2.py's QC filter |
| MldPredictorV1.AsFloat | backend/models/LSTM/LSTM.py:80-82 | `astype(float)` fails exactly on text that is not a number, with `could not convert string to float: '<text>'`; otherwise it matches the coercing conversion |
| MldPredictorV1.FirstUnconvertible | backend/models/LSTM/LSTM.py:80-82 | the first row from an index on whose cell does not convert, every earlier one converting |
| MldPredictorV1.FloatColumn | backend/models/LSTM/LSTM.py:80-82 | the column converts exactly when every cell does, and then equals the coerced column; otherwise the error is that of the first cell that does not convert |
| MldPredictorV1.ConvertStrict | backend/models/LSTM/LSTM.py:80-82 | the three conversions succeed exactly when every cell they read converts, giving LSTM-2.py's converted frame; otherwise the error is that of the first failing column in depth, temperature, salinity order |
| MldPredictorV1.NormalizeArgoColumns | backend/models/LSTM/LSTM.py:54-86 | raises the missing-variable error with the missing labels |
| MldPredictorV1.NormalizeVersionsAgree | backend/models/LSTM/LSTM.py:54-86 | up to the latitude/longitude check (the part both models cover, before the date handling), the two versions give the same frame and the same error, except when a kept row holds non-numeric text in a chosen column: then LSTM.py fails with the error of its strict conversion of the QC-filtered frame, a `could not convert string to float` ValueError, before the latitude/longitude check |
| MldPredictorV1.PrepareFeatures | backend/models/LSTM/LSTM.py:139-153 | raises `No valid feature columns found after normalization!` without features; where it succeeds, it matches LSTM-2.py exactly |
| XgbFeatures.Restrict | backend/models/XGBoost/XGBoost-2.py:44 | a row restricted to the selected columns keeps exactly those of its cells |
| XgbFeatures.SelectColumns | backend/models/XGBoost/XGBoost-2.py:44 | the selected columns are exactly the columns of interest present, in list order; every row is kept, holding exactly its cells in those columns |
| XgbFeatures.DropMissingTarget | backend/models/XGBoost/XGBoost-2.py:47 | KeyError without `temp_adjusted`; otherwise keeps, in order, exactly the rows whose target is present, each as often as it occurs |
| XgbFeatures.SplitTarget | backend/models/XGBoost/XGBoost-2.py:70-71 | X has every column but the target and the same rows without it; y is the target column, row for row |
| XgbFeatures.TargetPipeline | backend/models/XGBoost/XGBoost-2.py:44-71 | after selection, `dropna` succeeds exactly when the input has the target; then the split succeeds and no target value is missing |
| XgbFeatures.RemoveBrackets | backend/models/XGBoost/XGBoost-2.py:76 | no `[`, `]`, `<` or `>` is left |
| XgbFeatures.RemoveBracketsIsFilter | backend/models/XGBoost/XGBoost-2.py:76 | the substitution equals the generic filter that keeps non-bracket characters |
| XgbFeatures.RemoveBracketsKeeps | backend/models/XGBoost/XGBoost-2.py:76 | the output is a subsequence of the input holding every character that is not a bracket as often as the input does |
| XgbFeatures.SkipRun | backend/models/XGBoost/XGBoost-2.py:77 | the end of a `\s+` match: every character before it is whitespace, and the one at it is not |
| XgbFeatures.CollapseFrom | backend/models/XGBoost/XGBoost-2.py:77 | the substitution from a position on leaves no whitespace and adds no brackets |
| XgbFeatures.CollapseWhitespace | backend/models/XGBoost/XGBoost-2.py:77 | no whitespace is left, and it adds no brackets |
| XgbFeatures.CleanName | backend/models/XGBoost/XGBoost-2.py:74-78 | a cleaned name has no brackets and no whitespace |
| XgbFeatures.CleanColumnNames | backend/models/XGBoost/XGBoost-2.py:74-78 | every feature name is cleaned, one for one |
| XgbFeatures.CollapseWithoutWhitespace | backend/models/XGBoost/XGBoost-2.py:77 | a name without whitespace is unchanged by the substitution |
| XgbFeatures.CleanNameIdempotent | backend/models/XGBoost/XGBoost-2.py:74-78 | cleaning twice is cleaning once |
| XgbFeatures.CleanNameExample | backend/models/XGBoost/XGBoost-2.py:74-78 | `a < b` becomes `a_b` |
| XgbFeatures.CollapseIsPieces | backend/models/XGBoost/XGBoost-2.py:77 | the substitution matches a definition by character: a non-whitespace character stays, the first whitespace of a run becomes `_`, the rest of the run vanishes |
| XgbFeatures.CollapseSuffix | backend/models/XGBoost/XGBoost-2.py:77 | from a position outside a run, the pieces from there on are the substitution from there on |
| XgbFeatures.InsideRun | backend/models/XGBoost/XGBoost-2.py:77 | inside a run, the pieces from there on are the substitution from the end of the run |

`LSTM.py`'s `calculate_mld_simple` (`backend/models/LSTM/LSTM.py:157-182`) and
`create_sequences` (`backend/models/LSTM/LSTM.py:184-193`) are the same as
LSTM-2.py's. `MldPredictor.CalculateMldSimple` and `MldPredictor.CreateSequences` model
both versions.

## Left out

- Rendering, scrolling, the sidebar, the disabled buttons, the "..." placeholder and the suggested questions: these are UI.
- Date.now ids: `ChatPage` methods take the ids as parameters.
- React update timing: each `setMessages` updater is applied at once and in order. React's batching is not modelled. Nor is the fact that `streamChatResponse` starts inside a state updater, which React may run twice.
- `TextDecoder` and `TextEncoder`: chunks are modelled as strings. Byte splitting and decoder residue are not modelled.
- ChatClient.ChatPage.StreamChatResponse: the stream runs to its end inside one call, because `await` points are not modelled. Typing or submitting while a reply streams is not modelled. The page's guard against that is the status check that `HandleSubmit` states.
- ChatRelay.ChatRoute.Post: the JSON envelope `{ parts: [{ type: "text", text }] }` is modelled by its text and status only.
- ChatRelay.ChatRoute.Post: a provider stream that fails after the response is returned is modelled only as a stream that is never closed. Its error state on the client is not modelled.
- The Groq SDK call itself: its model name, the network and the logs. It is an input (`Upstream`).
- `generate-query.js` and the other routes and pages are not part of this model.
- The date handling of `normalize_argo_columns` and `prepare_features` is not modelled: JULD conversion, `date_time`, the sort by `date_time`, and `month`/`day_of_year`. This is calendar and timezone arithmetic. `MldPredictor.NormalizedFrameUsesAllFeatures` appends the two date columns to the normalised frame itself.
- MldPredictorV1.NormalizeVersionsAgree: covers only the steps before the date handling. On the date step the versions differ again: LSTM.py reads `juld` with `astype(float)` (`backend/models/LSTM/LSTM.py:89-94`), which raises a ValueError on a text date, while LSTM-2.py coerces it and falls back to parsing it as a date (`backend/models/LSTM/LSTM-2.py:160-176`). That difference is not modelled.
- `profile_id` construction through `groupby(...).ngroup()`: profile ids are given as part of each `Level`.
- The step that takes `depth`, `temperature` and `profile_id` columns out of a frame as `Level`s, and the one that turns a normalised frame into the numeric `Table<Num>` for the feature matrix: the stages are modelled separately.
- NaN in MLD inputs: `Level` depths and temperatures are reals. NaN comparisons inside `argmin` and `where` are not modelled.
- ArgoFrame.ParseDecimal: reads only an optional sign, digits and an optional fraction with digits on both sides of the point. Exponents, `inf`, `nan`, surrounding whitespace, `1.` and `.5` count as not numeric, although Python would accept them.
- ArgoFrame.FlagAccepted: a cell's type is modelled per cell. pandas' rule that a whole column of integer flags with a NaN becomes float, and so prints `1.0`, is not modelled.
- ArgoFrame.SortByDepth: a stable insertion sort. pandas' default quicksort is not stable, so levels of equal depth may come in another order.
- MldPredictor.CreateSequences: `time_steps` is a natural number. A negative value's slicing is not modelled.
- `MinMaxScaler`, `train_test_split`, the Keras model and its training, evaluation, plots, saving and parquet loading are left out. They are numeric libraries and I/O.
- XGBoost-2.py: the `juld` conversion, `get_dummies`, the split and the training are not modelled. `XgbFeatures.TargetPipeline` composes the selection, `dropna` and the split directly. The conversion and encoding between them do not touch `temp_adjusted`.
- Duplicate feature names after cleaning are not modelled. pandas allows them and XGBoost would reject them.
- OF-RandomForest.py and XGBoost.py are not part of this model.

## Findings

| source | as written | input that shows it | evidently intended | confidence | as-written member | corrected member |
|---|---|---|---|---|---|---|
| backend/models/LSTM/LSTM-2.py:203-218 | builds the MLD list by `groupby("profile_id")`, i.e. grouped and ascending by profile id, and assigns it to `df["mixed_layer_depth"]` by position. `prepare_features` first sorts the rows by `date_time`, so row order is not profile order. `LSTM.py:166-181` does the same. | rows (profile 1, 5 m, 20 °C), (profile 0, 5 m, 10 °C), (profile 0, 20 m, 10 °C), threshold 0.5, reference 10 m. The list is [20, 20, 5], so row 0 gets 20 m, but the MLD of profile 1 is 5 m. | every row gets the MLD of its own profile | high; not executed | MldPredictor.CalculateMldSimple, ArgoFrame.PositionalMldMisaligned | ArgoFrame.MldPerRow, ArgoFrame.MldPerRowOwnProfile |

# ActiveTigger core, modelled in Dafny

ActiveTigger is an active-learning annotation tool. Its FastAPI server manages
projects, schemes (label sets), feature computations (sbert/fasttext
embeddings, regex features), projections (umap/tsne) and model training. A
Streamlit client and a React client drive it. This project models four pieces
of that core as immutable data and pure functions, and proves what they
promise.

- `feature_registry.dfy` (`Registry`) covers the server's background-job registry in `activetigger/api.py`:
  - the `update()` reconciliation pass the HTTP middleware runs before every request;
  - the single-flight embedding submission `post_embeddings`;
  - projection compute/fetch;
  - the `get_project` dependency;
  - a request handler that chains them the way the middleware does.

  Embedding processes finishing and projection futures becoming done, with a result or an exception, are separate environment steps (`ArtifactLands`, `JobCompletes`). A future that raised makes `update()` raise; the model follows the pass up to that point and answers the 500 response the framework sends.
- `project_routes.dfy` (`Routes`) covers the guards of `POST /projects/new` and `POST /tags/{action}`: None-filtering of the form, CSV-only uploads, existing names, and the missing tag.
- `annotation_page.dfy` (`AnnotationPage`) covers the React annotation page (`frontend/src/components/ProjectAnnotationPage.tsx`):
  - the offered selection modes;
  - the latch that retrains the simple model once per multiple of the refresh frequency;
  - applying a label and going back through the history;
  - the digit shortcuts;
  - the split of the text at the context limit.

  JavaScript's `slice`, truthiness and `% 0 = NaN` are written out. The element's text is held as JavaScript holds it, a sequence of UTF-16 code units, so the split counts code units and can fall inside a surrogate pair.
- `streamlit_session.dfy` (`Session`) covers the Streamlit client (`activetigger/frontend.py`):
  - the history and the "previous element" button;
  - the empty-name and empty-feature guards;
  - regex feature naming;
  - defaulting of the selection and sample modes;
  - entering the test-annotation flow;
  - the edited-table payload.
- `lex_order.dfy` (`LexOrder`) and `label_encoding.dfy` (`LabelEncoding`) cover the data preparation of the BERT training task (`api/activetigger/tasks/train_bert.py`):
  - Python string order and `sorted(set(...))`;
  - dropping rows with a missing label or text;
  - numbering the labels (`label2id`/`id2label`) and encoding the label column;
  - the saved parameters;
  - the outcome of `process`;
  - `clean`.
- `client_agreement.dfy` (`ClientAgreement`) compares the two clients: given the same project state, they find the same simple model and offer the same selection modes.
- `base.dfy` (`Base`) holds the shared vocabulary: `Option`, `Result`, Python's first-occurrence `list.remove`, and duplicate-freedom and sub-sequence facts.

The model follows the code in two places where a reader might expect something stricter:

- **A feature can be pending and available at the same time.** Nothing enforces that a feature is exactly one of absent, pending or available:
  - `post_embeddings` only refuses names that are already pending and never looks at the available map, so an available embedding can be queued again.
  - `update()` absorbs a landed file whether or not its name was pending.

  `Registry.PostEmbeddings` and `Registry.UpdateClearsPending` state this behaviour.
- **One failed projection blocks the server.** When a projection job raised, `result()` in `update()` re-raises it on every request, before the `future` key could be deleted. Every later request gets the 500 response. Projects later in the loading order are never reconciled again. `Registry.FailedJobBlocksServer` and `Registry.FailedJobStarvesLaterProjects` state this.
- **The selection is reset on the test flow.** `annotate()` in the Streamlit client resets a `"test"` selection to the first mode as well as an empty one.

## Model

| member | source | states |
|---|---|---|
| Base.RemoveFirst | activetigger/api.py:50-51 | `list.remove` after an `in` test: a list without the name is unchanged; otherwise exactly the first occurrence is cut out |
| Base.RemoveFirstFromDistinct | activetigger/api.py:50-51 | on a duplicate-free pending list, removal takes the name out entirely, keeps every other name and keeps the list duplicate-free |
| Registry.AbsorbArtifact | activetigger/api.py:47-61 | absorbing one embedding file deletes exactly that file, keeps the other files with their contents and leaves projections alone |
| Registry.ResolveEntry | activetigger/api.py:64-69 | resolving a projection entry keeps its request and method; an entry whose future raised is left as it is; any other entry ends with no done future |
| Registry.ResolveStep | activetigger/api.py:64-69 | the loop body raises exactly on an entry whose future raised, with that error, and otherwise resolves the entry |
| Registry.ResolveStepIdempotent | activetigger/api.py:64-69 | resolving an entry a second time gives the same outcome as the first time |
| Registry.ForEach | activetigger/api.py:64-69 | a dict loop whose body may raise never adds or removes keys |
| Registry.FirstRaise | activetigger/api.py:64-69 | every key before the returned position passes; the key at it, if any, raises |
| Registry.FirstRaiseAt | activetigger/api.py:64-69 | the first raising position is unique |
| Registry.ForEachEffect | activetigger/api.py:64-69 | the loop applies its body to exactly the keys up to and including the first raising one, leaves the later ones alone, completes if and only if no body raises, and otherwise raises that body's error |
| Registry.ForEachOutcome | activetigger/api.py:64-69 | the loop completes if and only if no body raises, and otherwise carries the first raised error |
| Registry.ForEachState | activetigger/api.py:64-69 | the loop applies its body to exactly the visited keys and leaves every other value alone |
| Registry.ForEachIdempotent | activetigger/api.py:64-69 | when the body repeats itself on its own result, a second run of the loop changes nothing more and raises the same error |
| Registry.NoFailedJobIff | activetigger/api.py:64-67 | scanning the users in dict order finds a raised future if and only if some user has one |
| Registry.FailedJobFound | activetigger/api.py:64-67 | a user whose future raised is found by the scan at or before that user's place |
| Registry.UpdateProjectEffect | activetigger/api.py:43-69 | after `update()` on one project:<br>- the sbert/fasttext files are gone and their contents are available under their names, even when the pass is interrupted later;<br>- other features are kept;<br>- the pass completes if and only if no future raised, and otherwise raises the first raised future's error;<br>- the users up to that one are resolved, the later ones are untouched |
| Registry.UpdateProject | activetigger/api.py:43-69 | one project's pass of `update()` keeps the project's name, its user order and the users with a projection entry; neither embedding file is left in the directory, and no file appears or changes otherwise |
| Registry.UpdateProjectFiles | activetigger/api.py:47-61 | the pass deletes exactly the sbert and fasttext files and keeps the project name and user order |
| Registry.UpdateProjectAvailable | activetigger/api.py:47-61 | the available features after the pass are the old ones plus the landed embeddings, each with its file's content |
| Registry.UpdateProjectProjections | activetigger/api.py:64-69 | the projection part of the pass: completes if and only if no future raised; stops at the first raised future with its error; resolves exactly the users it visits |
| Registry.UpdateProjectIsPass | activetigger/api.py:64-69 | the projection part of `update()` is the dict loop over the users, with the same outcome and error |
| Registry.AbsorbBothClearsPending | activetigger/api.py:47-61 | the two embedding blocks take landed names off the pending list, keep other names' pending status and keep the list duplicate-free |
| Registry.UpdateClearsPending | activetigger/api.py:47-61 | a landed embedding leaves the pending list even if it was never pending; other names keep their pending status; the project stays valid |
| Registry.UpdateAbsorbsLanded | activetigger/api.py:47-61 | a landed embedding becomes available with the file's content, is no longer pending, and its file is deleted |
| Registry.UpdateResolvesProjection | activetigger/api.py:64-69 | a finished projection future ends as `data` with no `future` key when the pass reaches its user; when an earlier raised future stops the pass, the entry is untouched; without raised futures it is always reached |
| Registry.UpdateKeepsFailedJob | activetigger/api.py:64-67 | a future that raised interrupts every pass over its project and is never removed |
| Registry.UpdateNoOpIffQuiescent | activetigger/api.py:43-69 | `update()` completes and leaves a project unchanged if and only if no artifact exists and no future is done, successfully or not |
| Registry.UpdateReachesQuiescence | activetigger/api.py:43-69 | without raised futures one pass leaves nothing to absorb; with one, the pass is interrupted and a raised future is still there afterwards |
| Registry.UpdateProjectIdempotent | activetigger/api.py:43-69 | a second pass over a project changes nothing more and, when interrupted, raises the same error |
| Registry.BlockedFound | activetigger/api.py:42-67 | a loaded project holding a raised future is found by the scan over the projects at or before its place |
| Registry.Update | activetigger/api.py:38-69 | reconciliation keeps the registered set, the loading order and the set of loaded projects |
| Registry.UpdateEffect | activetigger/api.py:38-69 | `update()` completes if and only if no loaded project holds a raised future; otherwise it raises the first such project's error; the projects it reaches are updated as one pass over each, the others are untouched |
| Registry.FailedJobStarvesLaterProjects | activetigger/api.py:42-67 | a raised future also stops reconciliation of every project loaded after its own, which stays exactly as it was |
| Registry.UpdatePreservesValid | activetigger/api.py:38-69 | reconciliation keeps every loaded project valid: duplicate-free pending list and consistent user order |
| Registry.UpdateIdempotent | activetigger/api.py:38-69 | running `update()` on its own result changes nothing more and, when it raised, raises the same error again |
| Registry.ArtifactLands | activetigger/api.py:457-466 | an embedding process finishing adds `<name>.parquet` and changes nothing in the feature manager |
| Registry.JobCompletes | activetigger/api.py:281-293 | a projection future finishing, with a result or an exception, changes only that user's running future and touches neither files, available features nor pending list |
| Registry.PostEmbeddings | activetigger/api.py:449-481 | a name already pending is refused unchanged; sbert/fasttext are appended to the pending list with a success reply; any other name gives "not implemented"; duplicate-freedom is kept |
| Registry.PostEmbeddingsTwice | activetigger/api.py:452-453 | a second identical submission before reconciliation is refused, changes nothing, and leaves the name pending exactly once |
| Registry.EmbeddingLifecycle | activetigger/api.py:449-481 | submit, the file lands, reconcile: the embedding is available with the landed content, no longer pending, and its file is gone, even when a raised projection future interrupts the pass |
| Registry.ComputeProjection | activetigger/api.py:260-297 | an empty feature list is refused with the map unchanged; umap/tsne replaces the user's whole entry with a running job and no data, appending a new user to the dict order; an unknown method is refused with the map unchanged |
| Registry.GetProjection | activetigger/api.py:247-256 | data is returned if and only if the user's entry holds data; "Still computing" if and only if the entry has none; an error if and only if the user has no entry |
| Registry.RecomputeHidesOldData | activetigger/api.py:281-293 | right after a successful compute, even after reconciliation, the user sees "Still computing", whatever was available before |
| Registry.ProjectionLifecycle | activetigger/api.py:64-69 | compute, the future finishes, reconcile: the user receives exactly that result when the pass reaches them, and always when no future has raised |
| Registry.ComputeProjectionIsolatesUsers | activetigger/api.py:281-293 | computing for one user leaves every other user's entry as it was |
| Registry.GetProject | activetigger/api.py:85-101 | unknown project: 404 and nothing changes; otherwise the project is in the loaded map and returned; an already-loaded project leaves the server unchanged; other projects untouched |
| Registry.GetProjectLoadsOnce | activetigger/api.py:94-96 | an already-loaded project is returned as is, independent of what loading would produce |
| Registry.Handle | activetigger/api.py:72-78 | when `update()` raises, the request gets the 500 response and the server keeps what the pass did; otherwise a request for an unregistered project gets 404; the registered set never changes |
| Registry.LandedEmbeddingVisibleNextRequest | activetigger/api.py:72-78 | without raised futures a landed embedding is listed by the very next request and can be requested again; with one, both requests get the 500 response, and the file is absorbed only when the pass reaches its project |
| Registry.Serve | activetigger/api.py:72-78 | a run of requests gets exactly one reply per request |
| Registry.FailedJobBlocksRequest | activetigger/api.py:64-78 | on a server holding a raised future a request gets the 500 response and the raised future is still in place |
| Registry.FailedJobBlocksServer | activetigger/api.py:64-78 | once a projection future has raised, every later request gets the 500 response |
| Registry.HandlePreservesValid | activetigger/api.py:72-78 | every request keeps every loaded project's pending list duplicate-free |
| Routes.ParamsIn | activetigger/api.py:175-187 | the parameter dict has exactly the eleven form keys, and the required ones are always present |
| Routes.DropNoneRoundTrip | activetigger/api.py:188-191 | dropping `None` entries loses nothing: putting `None` back under the original keys restores the dict |
| Routes.DropNone | activetigger/api.py:188-191 | the filtered dict keeps exactly the keys whose value is not `None`, each with its value |
| Routes.FilterParams | activetigger/api.py:188-191 | the filtered dict has exactly the keys whose value is not `None`, each with its value unchanged |
| Routes.NewProject | activetigger/api.py:188-205 | non-`.csv` uploads are refused; then existing names are refused; otherwise creation gets the filtered parameters, which always include the required fields |
| Routes.EndsWith | activetigger/api.py:197 | `endswith` holds only when the text is some stem followed by the suffix |
| Routes.EndsWithAppend | activetigger/api.py:197 | any stem followed by the suffix ends with it |
| Routes.PostTag | activetigger/api.py:343-366 | add/update without a tag fail with 422 "Missing a tag"; with a tag they push it; delete always deletes |
| Routes.AddIsUpdate | activetigger/api.py:350-359 | add and update dispatch identically |
| Routes.DeleteIgnoresTag | activetigger/api.py:360-364 | a deletion dispatches the same call whatever tag the request carries |
| Routes.PushTagRoundTrip | activetigger/api.py:350-359 | a pushed tag carries the whole annotation: the request is rebuilt from the dispatched call |
| AnnotationPage.EncodeChar | frontend/src/components/ProjectAnnotationPage.tsx:333-334 | a character inside the Basic Multilingual Plane is one code unit equal to it; above U+FFFF it is a high then a low surrogate from which the character is recomputed |
| AnnotationPage.Utf16 | frontend/src/components/ProjectAnnotationPage.tsx:333-334 | the JavaScript string of a text has between one and two code units per character |
| AnnotationPage.Utf16Append | frontend/src/components/ProjectAnnotationPage.tsx:333-334 | the code units of two texts put together are the code units of each, in order |
| AnnotationPage.Utf16RoundTrip | frontend/src/components/ProjectAnnotationPage.tsx:333-334 | every text is read back exactly from its code units |
| AnnotationPage.SplitAtLimit | frontend/src/components/ProjectAnnotationPage.tsx:333-334 | counted in UTF-16 code units, as `String.prototype.slice` counts: the in-context span is a prefix of the text's code units and the out-of-context span a suffix |
| AnnotationPage.SplitAtLimitRecomposes | frontend/src/components/ProjectAnnotationPage.tsx:333-334 | the in-context and out-of-context spans concatenate to the text's code units for every limit, null and negative included; a limit inside the text cuts exactly that many code units off |
| AnnotationPage.SplitAtCharBoundary | frontend/src/components/ProjectAnnotationPage.tsx:333-334 | a limit equal to the code-unit length of the first k characters splits the text into its first k characters and the rest |
| AnnotationPage.SplitCountsCodeUnits | frontend/src/components/ProjectAnnotationPage.tsx:333-334 | on `"\u{1F600}abc"` a limit of 2 shows only the emoji in context, and a limit of 1 splits the emoji's surrogate pair between the two spans |
| AnnotationPage.RelativeIndex | frontend/src/components/ProjectAnnotationPage.tsx:333-334 | `slice`'s index normalisation: a non-negative index is capped at the length; a negative one counts from the end, floored at 0 |
| AnnotationPage.Slice | frontend/src/components/ProjectAnnotationPage.tsx:333 | `slice(start, end)` is never longer than its input |
| AnnotationPage.SliceFrom | frontend/src/components/ProjectAnnotationPage.tsx:334 | `slice(start)` is never longer than its input |
| AnnotationPage.ApplyLabel | frontend/src/components/ProjectAnnotationPage.tsx:139-152 | a request is sent if and only if the element id is truthy; then the history grows by exactly that id; otherwise it is unchanged |
| AnnotationPage.Back | frontend/src/components/ProjectAnnotationPage.tsx:356-361 | the back link targets the last history entry, and the new history plus that entry is the old history; an empty history has no target, which the page renders as `/projects/<name>/annotate/undefined` |
| AnnotationPage.BackUndoesApply | frontend/src/components/ProjectAnnotationPage.tsx:356-361 | back after applying a label targets the element just annotated and restores the previous history |
| AnnotationPage.OnKeyDown | frontend/src/components/ProjectAnnotationPage.tsx:165-176 | without 1 to 9 labels no key does anything |
| AnnotationPage.MatchingLabels | frontend/src/components/ProjectAnnotationPage.tsx:156-160 | the labels a key event applies from index `i` on are at most one per label, all taken from index `i` on |
| AnnotationPage.MatchingLabelsSingle | frontend/src/components/ProjectAnnotationPage.tsx:156-160 | a digit code selects only the label at the index it names, if that index exists |
| AnnotationPage.MatchingLabelsNone | frontend/src/components/ProjectAnnotationPage.tsx:156-160 | a code naming no digit selects nothing |
| AnnotationPage.KeyShortcuts | frontend/src/components/ProjectAnnotationPage.tsx:154-176 | `Digit k` and `Numpad k` apply exactly label `k-1` for `1 <= k <= n`; every other code applies nothing |
| AnnotationPage.ShortcutPushesOnce | frontend/src/components/ProjectAnnotationPage.tsx:154-163 | a shortcut grows the history by exactly the current element |
| AnnotationPage.CurrentModel | frontend/src/components/ProjectAnnotationPage.tsx:56-62 | a model is found if and only if user, scheme and project are present and the user has a model on that scheme |
| AnnotationPage.CurrentModelIgnoresOthers | frontend/src/components/ProjectAnnotationPage.tsx:56-62 | the model found depends only on the logged-in user's entry: other users' models play no part |
| AnnotationPage.AvailableModes | frontend/src/components/ProjectAnnotationPage.tsx:70-77 | all methods if and only if a current model exists; otherwise `methods_min`, or `[]` when it is absent |
| AnnotationPage.RetrainEffect | frontend/src/components/ProjectAnnotationPage.tsx:118-124 | retrains if and only if the latch is clear, a model exists and the length is a multiple of the frequency (never for frequency 0); firing sets the latch; the latch clears only off a multiple |
| AnnotationPage.LatchHeld | frontend/src/components/ProjectAnnotationPage.tsx:118-124 | once fired, the latch stays set while the history length stays on a multiple |
| AnnotationPage.RetrainOncePerMultiple | frontend/src/components/ProjectAnnotationPage.tsx:118-124 | between two retrains some render saw a history length off the multiple |
| AnnotationPage.RetrainOnceWhileIdle | frontend/src/components/ProjectAnnotationPage.tsx:118-133 | re-renders with an unchanged history retrain at most once |
| ClientAgreement.ClientsSeeSameModel | activetigger/frontend.py:1508-1515 | the Streamlit client and the React page find a simple model for the same user and non-empty scheme; the React page finds none for an empty scheme name |
| ClientAgreement.ClientsOfferSameModes | frontend/src/components/ProjectAnnotationPage.tsx:70-77 | both clients offer the same selection modes for the same user, non-empty scheme and model state; for an empty scheme name the React page offers the reduced list |
| Session.CreateScheme | activetigger/frontend.py:950-967 | an empty scheme name returns "Empty" without a request; otherwise the add-scheme request is sent |
| Session.CreateLabel | activetigger/frontend.py:969-981 | an empty label returns "Empty" without a request; otherwise the add-label request is sent |
| Session.RemoveScheme | activetigger/frontend.py:983-997 | an empty scheme name returns "Empty" without a request; otherwise the delete-scheme request is sent |
| Session.RemoveLabel | activetigger/frontend.py:999-1011 | an empty label returns "Empty" without a request; otherwise the delete-label request is sent |
| Session.EditsNeverSendEmptyNames | activetigger/frontend.py:950-1011 | no scheme or label request ever carries an empty name |
| Session.RegexFeatureName | activetigger/frontend.py:1048 | the feature name is `regex_<user>_<name>` |
| Session.TrainModel | activetigger/frontend.py:1291-1309 | a `None` or empty feature list is refused with "Need at least one feature" before any request; otherwise training is requested with those features |
| Session.TrainingNeverSendsEmptyFeatures | activetigger/frontend.py:1291-1309 | no training request ever carries an empty feature list, and the one sent carries exactly the selected features |
| Session.AddRegexFeature | activetigger/frontend.py:1041-1059 | the request carries the expression and user, and a feature name whose suffix is the given name or, failing that, the expression |
| Session.RegexNameRoundTrip | activetigger/frontend.py:1045-1048 | the chosen name is recovered from the feature name, so one user's regex names never collide |
| Session.RegexNamesCollideAcrossUsers | activetigger/frontend.py:1048 | for every user name containing `_`, the prefix before any `_` is another user whose regex of a suitable name builds the same feature name |
| Session.SendTag | activetigger/frontend.py:1118-1136 | the tag request names the displayed element and its selection; the history grows by that id if and only if the reply has no `"error"` key |
| Session.FetchOutcome | activetigger/frontend.py:1147-1161 | the fetch helpers return `True` exactly for an element reply, `False` exactly for an error reply, and raise `KeyError` exactly for a reply without `"status"` |
| Session.ShowReply | activetigger/frontend.py:1147-1161 | an element reply becomes the current element and nothing else changes; an error reply, or a reply without `"status"` (which raises first), leaves the session alone |
| Session.NextElementRequest | activetigger/frontend.py:1062-1105 | the next-element request carries the session's project, user, scheme, selection, sample, tag filter and history |
| Session.GetNextElement | activetigger/frontend.py:1062-1116 | the next element is requested under the current options; it becomes the current element and `True` is returned exactly for an element reply; an error reply returns `False` and a reply without `"status"` raises `KeyError`, both leaving the session alone |
| Session.PreviousElement | activetigger/frontend.py:1147-1172 | an empty history does nothing; otherwise exactly the last id is popped and that element requested, and the reply becomes the current element only if it is an element; the outcome is `True`, `False` or the `KeyError` of a reply without `"status"`, and the id stays popped in every case; nothing else changes |
| Session.PreviousElementLosesIdOnMissingStatus | activetigger/frontend.py:1147-1172 | on a reply without `"status"`, such as the 404 for an unknown id, the popped id is lost, the displayed element stays and `KeyError` escapes |
| Session.BackAfterTag | activetigger/frontend.py:416-426 | tag, the next fetch `_display_labels` runs at once, then previous: the next request carries the tagged id in its history; previous requests the element just tagged and restores the history; a reply to previous that is not an element (an error, or no `"status"`) keeps the element the next fetch displayed; when the server sends the tagged element back, the session is exactly as before the tag |
| Session.ModeSelection | activetigger/frontend.py:297-299 | `methods` if and only if the user has a simple model on the scheme, else `methods_min` |
| Session.IsSimpleModel | activetigger/frontend.py:1508-1515 | a simple model exists if and only if the user has an entry and the current scheme is in it |
| Session.DefaultModes | activetigger/frontend.py:302-306 | an unset, empty or `"test"` selection becomes the first mode; a falsy sample becomes the first sample mode; `IndexError` if and only if a needed list is empty; nothing else changes |
| Session.DefaultModesIdempotent | activetigger/frontend.py:302-306 | with usable option lists, defaulting succeeds and a second pass changes nothing |
| Session.EnterTestFlow | activetigger/frontend.py:747-767 | with a test set and not yet on it: selection "test", no tag filter, sample "untagged", no frame, one next-element request with its outcome (`KeyError` for a reply without `"status"`, after the selection has switched), and its reply as the current element only if it is an element; otherwise nothing |
| Session.EnterTestFlowIdempotent | activetigger/frontend.py:762-767 | rendering the test page again sends no second request, whatever the first reply was |
| Session.AnnotateAfterTestFlow | activetigger/frontend.py:303-304 | returning to annotation after the test flow leaves the test selection for the first mode and keeps the sample |
| Session.SendTablePayload | activetigger/frontend.py:1268-1286 | ids and labels have the table's length; each id is the row's; each label is `None` if and only if the cell is NA, and otherwise the label unchanged |
| Session.ReplaceNa | activetigger/frontend.py:1273-1276 | a cell becomes `None` exactly when it is NA, and otherwise its label unchanged |
| Session.SendTableRoundTrip | activetigger/frontend.py:1277-1281 | the edited table is rebuilt from the payload |
| LexOrder.LessIrreflexive | api/activetigger/tasks/train_bert.py:110 | no string is smaller than itself |
| LexOrder.LessTransitive | api/activetigger/tasks/train_bert.py:110 | string order is transitive |
| LexOrder.LessTotal | api/activetigger/tasks/train_bert.py:110 | any two strings are equal or ordered one way |
| LexOrder.LessAsymmetric | api/activetigger/tasks/train_bert.py:110 | never ordered both ways |
| LexOrder.Insert | api/activetigger/tasks/train_bert.py:110 | insertion keeps the list strictly sorted and adds exactly the new element |
| LexOrder.SortedDistinct | api/activetigger/tasks/train_bert.py:110 | the result is strictly ascending and holds exactly the elements of the input |
| LexOrder.SortedIsDistinct | api/activetigger/tasks/train_bert.py:110 | a strictly sorted list has no duplicates |
| LexOrder.SortedUnique | api/activetigger/tasks/train_bert.py:110 | two strictly sorted lists with the same elements are equal |
| LexOrder.SortedDistinctCanonical | api/activetigger/tasks/train_bert.py:110 | the label list depends only on which labels occur, not their order or multiplicity |
| LabelEncoding.Filter | api/activetigger/tasks/train_bert.py:100 | mask selection keeps exactly the rows that pass, in their original order |
| LabelEncoding.Clean | api/activetigger/tasks/train_bert.py:99-106 | every row of the cleaned frame is a row of the input with both a label and a text |
| LabelEncoding.FilterKeepsAll | api/activetigger/tasks/train_bert.py:99-106 | a mask that passes every row changes nothing, so the `isnull().sum() > 0` guards do not matter |
| LabelEncoding.FilterFilter | api/activetigger/tasks/train_bert.py:99-106 | the label filter then the text filter equals one filter on complete rows |
| LabelEncoding.DropMissingLabels | api/activetigger/tasks/train_bert.py:99-101 | the guarded label filter equals the plain mask selection |
| LabelEncoding.DropMissingTexts | api/activetigger/tasks/train_bert.py:104-106 | the guarded text filter equals the plain mask selection |
| LabelEncoding.CleanKeepsCompleteRows | api/activetigger/tasks/train_bert.py:99-106 | after cleaning, no row lacks a label or text; every complete row survives; survivors keep their relative order |
| LabelEncoding.DropNa | api/activetigger/tasks/train_bert.py:110 | `dropna` keeps exactly the present values |
| LabelEncoding.Labels | api/activetigger/tasks/train_bert.py:110 | the label list is strictly ascending, duplicate-free, and holds exactly the labels present in the column |
| LabelEncoding.Label2Id | api/activetigger/tasks/train_bert.py:111 | `label2id` has exactly the labels as keys, each mapped to an id in `[0, len(labels))` |
| LabelEncoding.Id2Label | api/activetigger/tasks/train_bert.py:112 | `id2label` has exactly the ids `0..len(labels)-1` as keys and exactly the labels as values |
| LabelEncoding.Label2IdLastPosition | api/activetigger/tasks/train_bert.py:111 | `label2id` has a key for every label, mapped to its last position |
| LabelEncoding.LabelMapsInverse | api/activetigger/tasks/train_bert.py:111-112 | on the label list, `label2id` and `id2label` are mutual inverses, and the ids are exactly `0..len(labels)-1` |
| LabelEncoding.Replace | api/activetigger/tasks/train_bert.py:114 | `.replace(label2id)` on one cell: a missing cell stays missing, a known label becomes its id, any other label is kept as it is |
| LabelEncoding.EncodeColumn | api/activetigger/tasks/train_bert.py:114 | the encoded column has one cell per row, each the replacement of that row's label |
| LabelEncoding.EncodingInRange | api/activetigger/tasks/train_bert.py:110-114 | on the cleaned frame every encoded label is an id in `[0, len(labels))` that `id2label` maps back to the row's label |
| LabelEncoding.SavedParams | api/activetigger/tasks/train_bert.py:211-214 | saved parameters are the input ones plus `test_size` and `base_model`, with every other key unchanged |
| LabelEncoding.SavedParamsIdempotent | api/activetigger/tasks/train_bert.py:211-212 | re-saving saved parameters with the same split and model changes nothing |
| LabelEncoding.ToParquet | api/activetigger/tasks/train_bert.py:208 | writing a frame fails with `ValueError` if and only if a column name repeats; otherwise the file holds the frame as it is |
| LabelEncoding.TrainingDataAsWritten | api/activetigger/tasks/train_bert.py:113 | the frame built at line 113 has the label column's name twice and holds the label twice per row |
| LabelEncoding.TrainingDataAsWrittenUnwritable | api/activetigger/tasks/train_bert.py:208 | the frame built at line 113 cannot be written, whatever its rows and the label column's name |
| LabelEncoding.TrainingDataAsWrittenLosesTexts | api/activetigger/tasks/train_bert.py:113 | for all frames: two frames of equal length with the same labels row by row give the same frame at line 113, whatever their texts |
| LabelEncoding.TrainingDataAsWrittenLosesTextsExample | api/activetigger/tasks/train_bert.py:113 | an instance: two cleaned one-row frames whose texts differ give the same frame |
| LabelEncoding.TrainingData | api/activetigger/tasks/train_bert.py:113 | the corrected frame has the text and label columns and one row per cleaned row |
| LabelEncoding.TrainingDataRoundTrip | api/activetigger/tasks/train_bert.py:113 | the cleaned frame is rebuilt from the corrected training data |
| LabelEncoding.TrainingDataWritable | api/activetigger/tasks/train_bert.py:208 | the corrected training data can be written if and only if the text and label columns are different columns |
| LabelEncoding.ProcessAsWritten | api/activetigger/tasks/train_bert.py:66-235 | a failure before the `try` propagates with its own exception; a failure inside the `try` before `trainer` is bound raises `UnboundLocalError`; every other run returns `None` |
| LabelEncoding.ProcessAsWrittenNeverSucceeds | api/activetigger/tasks/train_bert.py:204-228 | a finished training returns `None` just like a failed one: the write at line 208 fails and the `except` branch deletes the model directory |
| LabelEncoding.ProcessAsWrittenEarlyFailureEscapes | api/activetigger/tasks/train_bert.py:226-230 | an early failure escapes as an exception despite the `except` |
| LabelEncoding.Process | api/activetigger/tasks/train_bert.py:66-224 | raises exactly the exception of a failure before the `try`; otherwise `None` if and only if training failed or the text and label columns coincide. On success:<br>- the training data rebuilds the cleaned frame under the text and label column names;<br>- the parameters are the augmented ones;<br>- the labels are sorted;<br>- the label maps are inverse with ids `0..n-1` |
| LabelEncoding.ProcessAsWrittenVersusCorrected | api/activetigger/tasks/train_bert.py:66-235 | both raise the same exception for a failure before the `try`; otherwise the code returns `None` and the corrected `process` returns normally, with a result exactly for a finished training on distinct columns |
| LabelEncoding.IsSubstring | api/activetigger/tasks/train_bert.py:242 | Python's `in` on strings: the empty string occurs in every string, and a pattern longer than the string occurs nowhere |
| LabelEncoding.IsSubstringOfSuffix | api/activetigger/tasks/train_bert.py:242 | a pattern occurs in any string it ends |
| LabelEncoding.IsSubstringAt | api/activetigger/tasks/train_bert.py:242 | the substring search succeeds if and only if some window of the string equals the pattern |
| LabelEncoding.Contains | api/activetigger/tasks/train_bert.py:242 | Python `in`:<br>- a substring test on strings;<br>- element test on lists;<br>- key test on dicts;<br>- `TypeError` if and only if the container is not iterable |
| LabelEncoding.CleanResult | api/activetigger/tasks/train_bert.py:237-243 | a non-dict raises; without `path` the result is `None`; otherwise `in` decides between the path and `None`, and its `TypeError` propagates |
| LabelEncoding.CleanReturnsPredictionPath | api/activetigger/tasks/train_bert.py:242-243 | for a string path, `clean` returns it if and only if `predict_train.parquet` occurs in it |
| LabelEncoding.CleanReturnsOnlyThePath | api/activetigger/tasks/train_bert.py:242-243 | anything `clean` returns is the `path` entry of the dict it received |

## Left out

- I/O is not modelled: parquet reads and writes, file deletion, logging, `print`/`st.write`, HTTP calls, the process and executor launches, and Streamlit/React rendering. Client helpers return the request they would send, and server replies are parameters.
- The feature, scheme, simple-model and BERT managers are used only through the state this model keeps. `features.add` is a map overwrite. `features.get`, `server.start_project`, `server.create_project`, `schemes.push_tag`/`delete_tag` and `get_next` are treated as abstract: their results are parameters or the returned dispatch.
- Registry.ComputeProjection: the call to `features.get` is treated as abstract and left out. It runs before the method check and could fail on unknown features; the model assumes it returns.
- Routes.NewProject: the `ProjectModel(**params_out)` validation is treated as abstract and left out: the model does not reproduce pydantic's field validation, so it promises nothing about which filtered parameter dicts the model class rejects.
- Registry.Handle: only the four routes of the registry are dispatched. The other routes work through managers this model treats as abstract, so they are not modelled.
- JSON parsing failures of user-typed parameters are left out: `json.loads` raising `ValueError` in `_train_simplemodel`, `_compute_projection` and `_add_feature`.
- Session.TrainModel: takes the parameters as a string only. The `UnboundLocalError` for non-string `sm_params` is not modelled.
- Session.DefaultModes: the later `selectbox(..., index=options.index(...))` is left out. It raises `ValueError` when the stored selection is not among the options, and that is widget code.
- Session.EnterTestFlow: the upload branch for a project without a test set is left out. Its code is a TODO and sends nothing.
- The Torch/transformers part of training is left out: device choice, tokenizer, train/test split, model load and trainer. Their outcome is the parameter `Training`. Device choice, tokenizer, split and model load run before the `try` (train_bert.py:71-155): a failure there is the case `FailedBeforeTry`, whose exception leaves `process` unchanged while the model directory is kept (the directory itself is not modelled).
- The float step arithmetic at train_bert.py:161-165 is left out. It is floating-point.
- LabelEncoding.Labels: labels are strings compared by code point. Columns of other dtypes are not modelled.
- AnnotationPage.SplitAtLimitRecomposes: `limit` is a `number | null`. An `undefined` limit is not modelled; it makes the first span the whole text and the second span also the whole text. Fractional limits are not modelled either; `slice` truncates them.
- AnnotationPage.RetrainEffect: a negative frequency is treated through `|freq|`. That matches JavaScript's `%` only for the non-negative history length used here.
- The navigation effects after `applyLabel` and back (fetching the next element by URL) are left out. They are routing, not state.

## Findings

| source | as written | input that shows it | evidently intended | confidence | as-written member | corrected member |
|---|---|---|---|---|---|---|
| api/activetigger/tasks/train_bert.py:113 | `training_data` selects the label column twice. `to_parquet` at line 208 refuses the repeated column name, so every finished training raises there; the `except` branch deletes the trained model's directory and `process` returns `None`. The texts are not in that frame either. | any run whose training finishes, for instance on the one-row frame `("first text", "pos")` | select the text and label columns, so the data is written and the model kept | medium, not executed | LabelEncoding.ProcessAsWrittenNeverSucceeds | LabelEncoding.Process |
| api/activetigger/tasks/train_bert.py:230 | `finally` deletes `trainer`. When the `try` fails before line 190, `trainer` is unbound, so the `except` handler's recovery ends in `UnboundLocalError`. | params without an `"eval"` key (a `KeyError` at line 165) | the failure is absorbed and `process` returns `None` | high, not executed | LabelEncoding.ProcessAsWrittenEarlyFailureEscapes | LabelEncoding.Process |

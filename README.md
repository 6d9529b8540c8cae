# Daptin action pipeline and row writes, modelled in Dafny

Daptin is a headless back-end server. Clients call *actions* on its data tables. An action
resolves a list of *outcome* templates against a context map, then sends each resulting request
to the table store (create, find, update, delete) or to an *action performer*. The outcomes'
results are published back into the context. Writes to tables pass through chains of request
interceptors, one of which runs *exchanges*: contracts that forward rows to other services.

This project models that core and proves properties of the model. It covers:

- the action request pipeline (`HandleActionRequest`, `BuildActionRequest`, `BuildOutcome`);
- the template language (`BuildActionContext`, `evaluateString`);
- the validated in-fields;
- the create and update paths of the table store (`CreateWithoutFilter`/`Create`,
  `UpdateWithoutFilters`/`Update`);
- the exchange middleware (registry, `InterceptBefore`, `InterceptAfter`);
- the request-body builder of the integration performer (`GetParametersNames`,
  `CreateRequestBody`, `excludeFromMode`);
- the file-upload performer's planning;
- `CmsConfig.AddRelations`;
- the start-up schema merge (`MergeTables`, `actionPerformersListToMap`).

## How the model is organised

Each Dafny module follows one source file or one concern of it:

| module | file | models |
|---|---|---|
| `Values` | values.dfy | the dynamic values (`interface{}` over JSON-like data), `m[k]` lookups, `%v` printing |
| `Text` | text.dfy | the string functions the source calls (`strings.Split`, `Replace`, `ToLower`, `TrimSpace`, `strconv.ParseInt`), and sorted keys |
| `Evaluate`, `EvaluateProperties` | evaluate.dfy, evaluate_properties.dfy | `evaluateString` in handle_action.go |
| `ContextBuilder`, `ContextProperties` | context_builder.dfy, context_properties.dfy | `BuildActionContext` |
| `Actions` | action.dfy | `BuildOutcome`, `BuildActionRequest`, `GetValidatedInFields`, `NewClientNotification` |
| `OutcomeDispatch` | dispatch.dfy | the switch on the outcome's method and the publication of results into the context |
| `Pipeline` | pipeline.dfy | `HandleActionRequest` as a whole |
| `Columns` | columns.dfy | what create and update share: column loops, enum and truefalse handling, after-interceptor chains |
| `Creation` | resource_create.dfy | resource_create.go |
| `Updating` | resource_update.dfy | resource_update.go |
| `Exchanges` | exchange.dfy | middleware_exchangegenerator.go |
| `RequestBody` | request_body.dfy | the parameter-name scan and `CreateRequestBody` of action_integration_execute.go |
| `FileUpload` | file_upload.dfy | action_cloudstore_file_upload.go: the suffix test, the file loop and the path join |
| `Config` | cms_config.dfy | `CmsConfig` and `AddRelations` |
| `Schema` | schema.dfy | `MergeTables` and `actionPerformersListToMap` of server.go |

### Form of the model

- **Loops become methods.** Each source function that loops or updates state step by step is a
  method with loop invariants. Its `ensures` ties the result to a specification function.
  The lemmas beside that function state what the source promises.
- **Classes and arrays.** `CmsConfig` is a class whose `AddRelations` updates its `relations`
  field. `MergeTables` rewrites the stored tables in an array, in place. `InterceptBefore`
  rewrites its rows in an array; in the source, this is the slice it is handed.
- **Collaborators are parameters.** These include the JavaScript VM, the store, the performers,
  the validator and conformer, the interceptors, the exchange executor, the relation hash, the
  clock and the UUID source. Each is a function-typed parameter, so every property holds for
  every behaviour of that collaborator. The clock is an input reading: create takes two
  readings (`Creation.Stamps`), one for `created_at` and one for `updated_at`, because the code
  reads the time once for each; update takes one, because it reads the time once.
- **Panics are error values.** A Go run-time panic (a failed type assertion, a write to a nil
  map, an index out of range) is modelled as an explicit `Panic` error that aborts the request,
  and is not a precondition. Such panics are reachable from request data.
- **Map iteration order.** Where Go ranges over a map, the model takes one of three forms.
  Most methods visit the keys in an arbitrary order and prove the result does not depend on
  it. Where the order decides only which error is reported, the model fixes ascending key
  order (`BuildActionContext`). In `CreateRequestBody`, the order of the schema's properties
  is an input: `Schema.properties` is a sequence, visited in the order given. That order
  decides which "can't get example" error is returned. In form encoding, it also decides which
  of two properties writing the same key wins: an array property `a` writes `a[]`, and so may
  a property named `a[]`. The lemmas about the request body hold for every order.

### Behaviour of the code the model keeps

The model follows the code as written in each of these cases:

- A reference whose only segment is indexed, such as `$list[2]`, is looked up as the literal
  key `list[2]`. The index is parsed only on segments before the last, so no index-out-of-range
  error arises from such a reference (handle_action.go:968-1016).
- A `js:` template hands the script runner everything after the *first* character, so the code
  the runner sees starts with `s:` (handle_action.go:915-917).
- The exchange interceptors merge the re-built exchange attributes into the result only when
  the build returns an error (`err != nil`). A successful build therefore merges nothing. A
  failed one asserts the nil result to a map and panics, unless the builder itself panicked
  first (middleware_exchangegenerator.go:121-127, 194-200).
- A form field or query parameter with several values is a Go `[]string`, not a
  `[]interface{}` (handle_action.go:574-580, 613-619). A `$name[i].field` reference through it
  finds no rows and fails as out of range (handle_action.go:976-990). As a template,
  `BuildActionContext` copies it into a list of strings first (handle_action.go:847-855).
- Before an `EXECUTE` performer runs, the session user is written into the outcome's attribute
  map under `user`. An outcome without attributes panics at that write (handle_action.go:477).
- `InterceptBefore` does not skip a nil `hook`. It compares the interface value to `""` and then
  asserts it to a string, which panics (middleware_exchangegenerator.go:95-100).
- `HandleActionRequest` writes `attributes` into the in-field map before checking the error of
  `GetValidatedInFields`. The model proves that the in-fields are always filled first, so that
  write never hits a nil map (handle_action.go:249-285).
- A BeforeCreate interceptor's reply never replaces the data. Only its error, or a nil reply,
  matters (resource_create.go:578-589). A BeforeUpdate reply's first row does replace the data
  (resource_update.go:950-970).

## Model

| member | source | states |
|---|---|---|
| Values.Lookup | server/resource/handle_action.go:938 | Go's `m[k]`: nil for an absent key, the stored value otherwise |
| Values.FormatString | server/resource/handle_action.go:1017 | a string prints with `%v` as exactly its own text, so substituting a string inserts it verbatim |
| Values.FormatEmptyContainers | server/resource/handle_action.go:1017 | an empty list prints as `[]` and an empty map as `map[]` |
| Text.Split | server/resource/action_cloudstore_file_upload.go:139 | `strings.Split` yields at least one piece |
| Text.SplitPiecesHaveNoSeparator | server/resource/action_cloudstore_file_upload.go:139 | no piece of a split contains the separator |
| Text.JoinSplit | server/resource/handle_action.go:925 | joining the pieces of a split restores the string |
| Text.SplitJoin | server/resource/handle_action.go:956 | splitting a join of separator-free pieces gives the pieces back |
| Text.SplitWithoutSeparator | server/resource/handle_action.go:972-973 | a string without the separator splits into itself alone |
| Text.ReplaceAbsent | server/resource/handle_action.go:1017 | `strings.Replace` with a pattern that does not occur changes nothing |
| Text.ReplaceWhole | server/resource/handle_action.go:1017 | replacing the whole string that is the pattern gives the replacement |
| Text.ReplaceSingle | server/resource/handle_action.go:1017 | a pattern whose first character occurs nowhere else is replaced exactly once, in place |
| Text.ToLower | server/resource/middleware_exchangegenerator.go:73 | lower-casing keeps the length and maps every character by the ASCII rule |
| Text.TrimLeft | server/resource/handle_action.go:325 | the result is a suffix of the input that does not start with white space, and every character removed is white space in the sense of `unicode.IsSpace` (the ASCII spaces, U+0085, U+00A0 and Unicode's other White_Space characters) |
| Text.TrimRight | server/resource/handle_action.go:325 | the result is a prefix of the input that does not end with white space, and every character removed is white space in the sense of `unicode.IsSpace` |
| Text.NatToString | server/resource/handle_action.go:518 | the decimal text of a number is non-empty and all digits |
| Text.ParseInt64 | server/resource/handle_action.go:975 | a parsed 64-bit integer lies within the signed 64-bit range |
| Text.ParseFormattedNat | server/resource/handle_action.go:975 | parsing the decimal text of a 64-bit natural number gives the number back |
| Text.SortedKeys | server/resource/handle_action.go:805 | a set's strings listed once each, strictly ascending: the fixed order in which a map is visited |
| Text.LessTotal | server/resource/handle_action.go:805 | the string order relates every two distinct strings |
| Text.LessTransitive | server/resource/handle_action.go:805 | the string order is transitive |
| Text.SortedDistinct | server/resource/handle_action.go:805 | sorted keys hold no duplicates |
| FileUpload.EndsWithCheck | server/resource/action_cloudstore_file_upload.go:74-86 | the length-guarded suffix test is exactly `strings.HasSuffix`: false for a longer suffix, true for the empty one |
| FileUpload.EndsWith | server/resource/action_cloudstore_file_upload.go:88-105 | on Go's bytes: the flag is the suffix test, and on a suffix the prefix completes it to the string; a longer or equal-length different suffix gives `("", false)`; a shorter one returns the leading bytes, even when they end inside a character |
| FileUpload.EndsWithAgrees | server/resource/action_cloudstore_file_upload.go:74-105 | on text, the byte test `EndsWith` and the character test `EndsWithCheck` always give the same answer |
| FileUpload.ByteSuffixOfText | server/resource/action_cloudstore_file_upload.go:88-105 | a byte suffix of UTF-8 text is a character suffix, because no character's encoding ends inside another's |
| Text.Utf8CharInjective | server/resource/action_cloudstore_file_upload.go:88-105 | different characters have different UTF-8 encodings |
| FileUpload.EndsWithOnText | server/resource/action_cloudstore_file_upload.go:88-105 | a character suffix is a byte suffix: the bytes of `p + t` end in those of `t`, leaving the bytes of `p` |
| FileUpload.EndsWithPrefixUnique | server/resource/action_cloudstore_file_upload.go:88-105 | the byte prefix returned is the unique byte string that completes the suffix to the input |
| FileUpload.EncodedPart | server/resource/action_cloudstore_file_upload.go:139-143 | contents without a comma are used whole, otherwise the second comma-separated piece; the result never holds a comma |
| FileUpload.UploadTarget | server/resource/action_cloudstore_file_upload.go:170-177 | the root path alone for an empty path; otherwise the two joined with exactly one `/` added only when neither supplies it; the target always starts with the root and ends with the path |
| FileUpload.FileContents | server/resource/action_cloudstore_file_upload.go:132-138 | an attachment has contents exactly when `file` or `contents` holds a string |
| FileUpload.PlanFiles | server/resource/action_cloudstore_file_upload.go:123-164 | the loop succeeds exactly when every attachment is a map, else panics; it never writes more files than attachments |
| FileUpload.PlanUpload | server/resource/action_cloudstore_file_upload.go:119-177 | the upload plan step by step equals its specification; a list under `file` never yields "improper file attachment" |
| FileUpload.PlanFilesPrefix | server/resource/action_cloudstore_file_upload.go:124 | a non-map attachment anywhere aborts the whole loop |
| FileUpload.PlanFilesKeepsEveryWellFormedFile | server/resource/action_cloudstore_file_upload.go:123-164 | when each attachment has a string name and contents, every file is written, in order, under its own name |
| Config.AddedRelationsAppendsFirstOfEach | server/resource/cms_config.go:32-54 | adding relations keeps the listed ones and appends, in argument order, the first of each hash not already listed |
| Config.AddedRelationsCover | server/resource/cms_config.go:37-51 | every hash listed before or passed in is listed afterwards |
| Config.AddedRelationsDistinct | server/resource/cms_config.go:37-51 | the listed relations stay a prefix, and no appended relation shares a hash with any other |
| Config.AddedRelationsNothingNew | server/resource/cms_config.go:41-49 | relations whose hashes are all listed change nothing |
| Config.AddedRelationsIdempotent | server/resource/cms_config.go:32-54 | adding the same relations twice is adding them once |
| Config.CmsConfig.constructor | server/resource/cms_config.go:15-27 | a configuration holds its tables and host name, with no relations yet |
| Config.CmsConfig.Listed | server/resource/cms_config.go:41-47 | the inner scan finds a relation exactly when its hash is among the listed hashes |
| Config.CmsConfig.AddRelations | server/resource/cms_config.go:32-54 | the relations field becomes the specified addition to the old list (nil read as empty); nothing else changes |
| Schema.FirstKeyed | server/server.go:899-906 | the first index whose key matches, with no match before it, or none when nothing matches |
| Schema.FindKeyed | server/server.go:899-906 | the search loop finds exactly the first matching index |
| Schema.FirstKeyedUnique | server/server.go:899-906 | the first match is the only matching index with no match before it |
| Schema.Overwrite | server/server.go:925-936 | the merged column has the configured column's twelve definition fields and the stored column's identity |
| Schema.ColumnsKept | server/server.go:917-942 | no stored column is removed or moved, and each keeps its identity |
| Schema.ColumnsUntouched | server/server.go:917-942 | a stored column no configured column names is unchanged |
| Schema.MergeColumnDefines | server/server.go:917-942 | after merging a column, the first column of its name carries its definition |
| Schema.MergeColumnElsewhere | server/server.go:917-942 | merging a column of another name does not move or change the first column named `n` |
| Schema.LastDefinitionWins | server/server.go:917-942 | the last configured column of each name decides that column's definition |
| Schema.AddedColumnsConfigured | server/server.go:937-940 | every added column comes from the configuration, under a name no stored column had |
| Schema.MergeColumnInto | server/server.go:918-940 | one configured column: its loop overwrites the first match or appends |
| Schema.MergeColumnList | server/server.go:917-942 | the column loop equals the column merge specification |
| Schema.Unseen | server/server.go:944-959 | exactly the relations whose hash is unseen, drawn from the input |
| Schema.MergeRelations | server/server.go:944-959 | stored relations stay a prefix; each configured relation with an unstored hash is appended, and only such relations |
| Schema.MergeRelationList | server/server.go:944-959 | the relation loop equals the relation merge specification |
| Schema.NewTables | server/server.go:973-978 | exactly the configured tables whose name no stored table has |
| Schema.MergedStored | server/server.go:891-970 | each stored table, in place, becomes its merge with the first configured table of its name |
| Schema.MergedTablesOrder | server/server.go:887-980 | the result lists the stored tables in order, then exactly the configured tables with new names |
| Schema.UnmatchedTableUnchanged | server/server.go:904-970 | a stored table no configured table names comes back unchanged |
| Schema.MatchedTableMerged | server/server.go:904-966 | a matched table is merged with its first match; it takes that table's icon and default groups and keeps its columns when the match lists none |
| Schema.MergeStoredTable | server/server.go:891-970 | one stored table: modified exactly when a configured table matches, and the result is its merge |
| Schema.CollectNewTables | server/server.go:973-978 | the second loop collects exactly the new configured tables |
| Schema.MergeAt | server/server.go:966 | one iteration overwrites exactly slot `j` of the array with the merged table |
| Schema.MergeTables | server/server.go:887-980 | the array of stored tables is rewritten in place to their merges, and the returned list is the full merge |
| Schema.MergeStoredTables | server/server.go:891-971 | the first loop rewrites the array in place and collects the stored names |
| Schema.PerformerNames | server/server.go:875-885 | the map's keys are exactly the names of the non-nil performers |
| Schema.LastPerformerWins | server/server.go:875-885 | each name maps to the last non-nil performer of that name |
| Schema.ActionPerformersListToMap | server/server.go:875-885 | the loop builds exactly the performers-by-name map |
| Exchanges.KeyOf | server/resource/middleware_exchangegenerator.go:35-58 | the table a contract registers under: the source name for a "self" source (none if nil), else the target name for a "self" target, else none; a non-string name panics |
| Exchanges.RegistryIsChosen | server/resource/middleware_exchangegenerator.go:28-58 | the registry holds, per table, the qualifying contracts no later one of the same name shadows, later first; the seen set is the qualifying names |
| Exchanges.ChosenQualify | server/resource/middleware_exchangegenerator.go:31-57 | every registered contract qualifies for its table and is not shadowed |
| Exchanges.RegistryStopped | server/resource/middleware_exchangegenerator.go:41-56 | a panic on a later contract, scanned first, is the panic of the whole scan |
| Exchanges.NewExchangeMiddleware | server/resource/middleware_exchangegenerator.go:22-67 | the reverse-index loop builds exactly the registry, or fails with its panic |
| Exchanges.Checked | server/resource/middleware_exchangegenerator.go:95-107 | an exchange fires exactly when its hook matches and its methods list holds the request method; no hook means skipped; only a present hook can panic |
| Exchanges.ExchangeBefore | server/resource/middleware_exchangegenerator.go:111-131 | a firing exchange that runs replaces the row with its result when the attribute build succeeds and panics when it fails; a failed run or a non-firing one keeps the row |
| Exchanges.BuildFailure | server/resource/middleware_exchangegenerator.go:121-124 | a failed attribute build always ends in a panic: the builder's own panic, or else the assertion on the nil result |
| Exchanges.ExchangesBefore | server/resource/middleware_exchangegenerator.go:93-132 | a changed row is the result of running some firing exchange of the table on the original row |
| Exchanges.RowType | server/resource/middleware_exchangegenerator.go:78-83 | nothing when `__type` is missing or nil; otherwise the string it holds |
| Exchanges.RowsBefore | server/resource/middleware_exchangegenerator.go:76-135 | the interceptor keeps the number of rows |
| Exchanges.RowsBeforeAt | server/resource/middleware_exchangegenerator.go:76-133 | each result row is the per-row result for the same position |
| Exchanges.InterceptBeforeRows | server/resource/middleware_exchangegenerator.go:76-135 | an untyped or unwatched row is kept; any other row is kept or replaced by a firing exchange's result |
| Exchanges.InterceptRowBefore | server/resource/middleware_exchangegenerator.go:93-132 | the inner loop equals the per-row specification |
| Exchanges.InterceptBefore | server/resource/middleware_exchangegenerator.go:70-136 | the rows array is rewritten in place to the specified rows, or the first panic is reported |
| Exchanges.RowsBeforeStopped | server/resource/middleware_exchangegenerator.go:76-133 | a panic on an earlier row is the result of the whole interceptor |
| Exchanges.ExchangesBeforeStopped | server/resource/middleware_exchangegenerator.go:93-132 | a panic on an earlier exchange is the result for the row |
| Exchanges.ExchangesAfterStopped | server/resource/middleware_exchangegenerator.go:164-204 | a panic on an earlier exchange is the result for the row |
| Exchanges.RowsAfterStopped | server/resource/middleware_exchangegenerator.go:147-205 | a panic on an earlier row is the result of the whole interceptor |
| Exchanges.InterceptAfterUnchanged | server/resource/middleware_exchangegenerator.go:147-207 | when it returns, the after interceptor returns its rows unchanged; rows without a type never panic |
| Exchanges.InterceptRowAfter | server/resource/middleware_exchangegenerator.go:164-204 | the inner loop reports exactly the first panic among a row's exchanges |
| Exchanges.InterceptAfter | server/resource/middleware_exchangegenerator.go:139-208 | the after interceptor equals its specification over the lower-cased request method |
| Actions.NewClientNotification | server/resource/handle_action.go:624-633 | a notification has exactly the keys type, message and title, holding the given strings |
| Actions.ValidatedInFields | server/resource/handle_action.go:1027-1046 | the check passes exactly when every declared field is present, defaulted or nullable; a failure is a blank-field error |
| Actions.ValidatedIsRestriction | server/resource/handle_action.go:1032-1045 | a passing check returns the request attributes restricted to the declared columns |
| Actions.ValidatedReportsFirstBlank | server/resource/handle_action.go:1040-1041 | a failing check names the first unacceptable field by its name |
| Actions.GetValidatedInFields | server/resource/handle_action.go:1027-1046 | the loop equals the in-field check |
| Actions.ValidatedPrefix | server/resource/handle_action.go:1032-1043 | once a prefix of the fields fails, the whole check fails with that error |
| Actions.BuildOutcome | server/resource/handle_action.go:661-771 | a failed attribute build is the error; otherwise the built map is routed |
| Actions.MakeOutcome | server/resource/handle_action.go:661-771 | the step-by-step build equals `BuildOutcome` |
| Actions.Route | server/resource/handle_action.go:726-765 | client response types become `ACTIONRESPONSE`, admin types `EXECUTE`, the schema update an `EXECUTE` of `__restart`, any other type keeps its method; only the schema update can fail |
| Actions.SchemaUpdate | server/resource/handle_action.go:670-724 | succeeds exactly when `json_schema` is a non-empty list and every file is written; a missing or empty list is "no files uploaded" |
| Values.Strs | server/resource/handle_action.go:850-854 | each string becomes a string value, in order |
| Values.FormatStringsAsList | server/resource/handle_action.go:1017 | `%v` prints a `[]string` exactly as it prints the list of the same strings |
| Actions.WithParamsLast | server/resource/handle_action.go:609-611 | the last path parameter with a key decides its value |
| Actions.WithParamsAbsent | server/resource/handle_action.go:609-611 | a key no path parameter names keeps its body value |
| Actions.AttributePrecedence | server/resource/handle_action.go:558-622 | query parameters override path parameters, which override the body |
| Actions.BodyPrecedence | server/resource/handle_action.go:568-601 | a JSON top-level member overrides `attributes` (never copied itself); a form keeps every field plus its raw text under `__body`; an undecodable body adds nothing |
| Actions.BuildActionRequest | server/resource/handle_action.go:558-622 | the loops over body, path and query equal the specified request, whatever the map order |
| OutcomeDispatch.Notify | server/resource/handle_action.go:382 | a store failure's response is a `client.notify` carrying a notification map |
| OutcomeDispatch.RowValues | server/resource/handle_action.go:540-545 | each row becomes a map value, in order |
| OutcomeDispatch.Dispatch | server/resource/handle_action.go:376-509 | a halt without an error appends exactly one `client.notify` to the responses so far |
| OutcomeDispatch.WithUser | server/resource/handle_action.go:477 | the outcome an `EXECUTE` performer receives has `user` set to the session user in its attributes and is otherwise the same |
| OutcomeDispatch.Executed | server/resource/handle_action.go:467-486 | a performer's responses are all kept and its first error reported; a responder not holding a model panics |
| OutcomeDispatch.Handled | server/resource/handle_action.go:494-507 | the registered handler's error discards its responses and reports the first error; without one its responses are kept |
| OutcomeDispatch.IndexedKeysDiffer | server/resource/handle_action.go:515-545 | distinct positions publish under distinct keys, none equal to the bare reference |
| OutcomeDispatch.AttributesOf | server/resource/handle_action.go:519 | the attributes of each response, in order |
| OutcomeDispatch.ResponseEntriesAt | server/resource/handle_action.go:517-520 | `response.<ref>[j]` holds the j-th response's attributes |
| OutcomeDispatch.ResponseEntriesElsewhere | server/resource/handle_action.go:517-520 | other keys keep their values |
| OutcomeDispatch.RowEntriesAt | server/resource/handle_action.go:540-543 | `<ref>[j]` holds the j-th row |
| OutcomeDispatch.ResponsesPublished | server/resource/handle_action.go:515-522 | with a reference and responses, `<ref>` holds all their attributes as a list; otherwise the context is unchanged |
| OutcomeDispatch.ResponsePublishedAt | server/resource/handle_action.go:518 | with a reference, the j-th response is published as `response.<ref>[j]` |
| OutcomeDispatch.ObjectsPublished | server/resource/handle_action.go:524-548 | a single row replaces `<ref>`; a row list is published as a list and indexed; any other result leaves `<ref>` an empty list; no reference or result changes nothing |
| OutcomeDispatch.BuildQueryParams | server/resource/handle_action.go:392-400 | the GET query parameters: `query` as JSON, every other entry as its `%v` text, whatever the map order |
| OutcomeDispatch.DispatchOutcome | server/resource/handle_action.go:376-509 | the switch equals the dispatch specification |
| OutcomeDispatch.PublishResponses | server/resource/handle_action.go:515-522 | the publication loop equals the specified context |
| OutcomeDispatch.PublishObjects | server/resource/handle_action.go:524-548 | the result publication equals the specified context |
| ContextBuilder.MapKeys | server/resource/handle_action.go:805-843 | the template's keys in strictly ascending order, each a key of the template |
| ContextBuilder.MapKeysCover | server/resource/handle_action.go:805-843 | every key of the template is visited |
| ContextBuilder.BuildEntries | server/resource/handle_action.go:805-843 | a successful run stores only keys still to be visited |
| ContextBuilder.Insert | server/resource/handle_action.go:836-840 | storing one entry succeeds exactly when the rest does and adds only that key |
| ContextBuilder.BuildActionContext | server/resource/handle_action.go:799-888 | the builder equals the template resolution `Build` |
| ContextBuilder.ResolveField | server/resource/handle_action.go:809-835 | one field is resolved as specified: strings evaluated, containers rebuilt, nil panics |
| ContextBuilder.BuildMap | server/resource/handle_action.go:805-843 | the map loop equals the map entries specification |
| ContextBuilder.BuildList | server/resource/handle_action.go:845-883 | the list loop equals the list items specification |
| ContextProperties.EntryResolves | server/resource/handle_action.go:805-843 | in a successful run every field resolves |
| ContextProperties.EntriesResolve | server/resource/handle_action.go:805-843 | when every field resolves the run succeeds |
| ContextProperties.EntryAt | server/resource/handle_action.go:836-840 | a successful run stores each key exactly when its field is not nil, under that field's value |
| ContextProperties.EntriesError | server/resource/handle_action.go:805-843 | a failed run fails with the error of the first failing key |
| ContextProperties.MapTemplateOk | server/resource/handle_action.go:805-843 | a map template resolves exactly when each of its fields does, to a map |
| ContextProperties.EveryFieldResolves | server/resource/handle_action.go:805-843 | all fields resolving makes the map template resolve |
| ContextProperties.FailingFieldFails | server/resource/handle_action.go:805-843 | one failing field makes the map template fail |
| ContextProperties.MapTemplateEntry | server/resource/handle_action.go:805-843 | a resolved map holds a key exactly when the template has it with a non-nil resolved value, holding that value |
| ContextProperties.MapTemplateError | server/resource/handle_action.go:805-843 | a failing map template fails with the error of its least failing key |
| ContextProperties.FirstFailureKey | server/resource/handle_action.go:805-843 | the first failing position is the least failing key |
| ContextProperties.ListTemplate | server/resource/handle_action.go:845-883 | a list is its elements' results in order: nil elements panic, other scalars are dropped, the first error aborts |
| ContextProperties.StringsTemplate | server/resource/handle_action.go:847-855 | a `[]string` template builds exactly as the list of the same strings |
| ContextProperties.ListTemplateWhole | server/resource/handle_action.go:845-883 | the list template as a whole resolves to the list of kept results |
| Evaluate.WordEnd | server/resource/handle_action.go:951 | the end of the longest run of reference characters |
| Evaluate.DotsEnd | server/resource/handle_action.go:951 | the end of the longest run of `.segment` groups, after which the pattern cannot continue |
| Evaluate.ScanEnd | server/resource/handle_action.go:951 | the greedy end of a reference body: a body of the pattern that cannot be extended |
| Evaluate.ScanEndUnique | server/resource/handle_action.go:951 | the greedy end is the only body end after which the pattern cannot continue |
| Evaluate.ReferencesFrom | server/resource/handle_action.go:951-952 | every match found has the reference shape |
| Evaluate.ReferencesCountDollars | server/resource/handle_action.go:951-952 | every `$` starts exactly one match |
| Evaluate.ReferencesSkip | server/resource/handle_action.go:951-952 | text without `$` contributes no match |
| Evaluate.PathSegments | server/resource/handle_action.go:956-960 | a path always has at least one segment |
| Evaluate.RowsOf | server/resource/handle_action.go:977-988 | a list yields one row per element; any other value, a `[]string` included, yields no rows |
| EvaluateProperties.IndexedStrings | server/resource/handle_action.go:976-990 | `$a[n].b` where `a` holds a `[]string` fails as out of range with no rows |
| Evaluate.MapsOf | server/resource/handle_action.go:984-986 | the elements convert exactly when all are maps, in order; otherwise the assertion panics |
| Evaluate.AsRows | server/resource/handle_action.go:979-988 | the conversion loop equals the rows specification |
| Evaluate.LookupPath | server/resource/handle_action.go:923-947 | the `~` walk equals its specification |
| Evaluate.StepReference | server/resource/handle_action.go:968-1006 | one intermediate segment equals its specification |
| Evaluate.WalkReference | server/resource/handle_action.go:956-1016 | the walk of one match equals its specification |
| Evaluate.EvaluateString | server/resource/handle_action.go:890-1025 | the in-place rewrite equals the evaluation `Eval` |
| EvaluateProperties.EmptyTemplate | server/resource/handle_action.go:894-896 | the empty template is the empty string |
| EvaluateProperties.BangRunsRemainder | server/resource/handle_action.go:898-905 | a leading `!` runs the rest as script |
| EvaluateProperties.BracesRunInnerText | server/resource/handle_action.go:906-914 | a `{{…}}` template runs its inner text as script |
| EvaluateProperties.JsPrefixRunsFromSecondCharacter | server/resource/handle_action.go:915-922 | a `js:` template runs everything after its first character |
| EvaluateProperties.NonScriptIgnoresRunner | server/resource/handle_action.go:923-1021 | templates that are not script escapes never consult the runner |
| EvaluateProperties.EvalAsTilde | server/resource/handle_action.go:923-947 | a `~` template is the `~` lookup |
| EvaluateProperties.TildeOverTwo | server/resource/handle_action.go:936-946 | the two-segment walk: nil gives nil, a map gives its entry, anything else panics |
| EvaluateProperties.TildeTopLevel | server/resource/handle_action.go:923-947 | `~name` is the context's entry, nil when absent |
| EvaluateProperties.TildeTwoSegments | server/resource/handle_action.go:923-947 | `~a.b` reads `b` from the map at `a`; nil `a` gives nil; any other value panics |
| EvaluateProperties.TildeSubject | server/resource/handle_action.go:927-929 | an empty first segment names `subject` |
| EvaluateProperties.ReferencesShape | server/resource/handle_action.go:951-952 | the matches number the `$` signs and each has the pattern's shape |
| EvaluateProperties.LiteralTextIsKept | server/resource/handle_action.go:948-1019 | text without `$` evaluates to itself |
| EvaluateProperties.EvalAsSubstitution | server/resource/handle_action.go:948-1019 | any other template is the substitution of all its matches |
| EvaluateProperties.SubstituteSingle | server/resource/handle_action.go:1007-1017 | one match: an error propagates, a nil container makes the template nil, otherwise every occurrence is replaced by the value's text |
| EvaluateProperties.JoinedSegmentsAreReference | server/resource/handle_action.go:951 | `$` and dot-joined segments form a match |
| EvaluateProperties.ResolveTopLevel | server/resource/handle_action.go:1016 | a one-segment reference names a top-level entry |
| EvaluateProperties.ResolveNested | server/resource/handle_action.go:997-1015 | `$a.b`: a missing `a` fails, a nil `a` gives nil, a map gives `b`, anything else fails |
| EvaluateProperties.TopLevelReferenceIsReplaced | server/resource/handle_action.go:1016-1019 | `$name` inside text is replaced by the entry's `%v` text |
| EvaluateProperties.NestedReferenceIsReplaced | server/resource/handle_action.go:997-1019 | `$a.b` inside text is replaced by `b`'s text, or fails or gives nil as the walk does |
| EvaluateProperties.IndexedSegment | server/resource/handle_action.go:972-975 | `a[n]` is a segment that carries the index `n` |
| EvaluateProperties.ResolveIndexed | server/resource/handle_action.go:972-993 | `$a[n].b` reads `b` from the n-th row, failing past the end |
| EvaluateProperties.ReferenceAlone | server/resource/handle_action.go:954-1019 | a template that is one reference evaluates to the `%v` text of what it names |
| EvaluateProperties.IndexedReference | server/resource/handle_action.go:990-992 | `$a[n].b` as a whole template: the n-th row's `b` as text, an error past the end, a panic for non-map elements |
| Pipeline.SubjectOf | server/resource/handle_action.go:205-231 | no `<type>_id` means no subject; a loaded subject may be executed; failures are HTTP errors or panics |
| Pipeline.Admit | server/resource/handle_action.go:196-243 | an admitted action was found and is allowed, and has a subject unless optional; a missing action is 400 "no such action" |
| Pipeline.Filled | server/resource/handle_action.go:245-254 | every declared column is present afterwards, existing attributes are kept, and nothing else is added |
| Pipeline.Conformed | server/resource/handle_action.go:266-278 | conforming keeps exactly the same keys |
| Pipeline.Attributes | server/resource/handle_action.go:245-285 | success leaves every declared column present; failure is a 400 |
| Pipeline.InFieldContext | server/resource/handle_action.go:280-298 | the context holds the attributes map; failure is the nil-map panic or the 401 "failed to identify user" |
| Pipeline.InFieldsNeverBlank | server/resource/handle_action.go:249-285 | after filling, the in-field check cannot fail, so the nil-map write never happens |
| Pipeline.Gate | server/resource/handle_action.go:312-344 | an empty condition passes; the only error the gate returns is a panic |
| Pipeline.ConditionGate | server/resource/handle_action.go:312-344 | an outcome runs exactly when its condition is empty or truthy; otherwise it is skipped with nothing changed |
| Pipeline.BuildFailurePolicy | server/resource/handle_action.go:346-356 | a build error adds an error response and continues under ContinueOnError; otherwise the request fails with no responses |
| Pipeline.SkipInResponse | server/resource/handle_action.go:511-513 | an outcome's responses reach the reply unless SkipInResponse |
| Pipeline.CreateFailureNotifies | server/resource/handle_action.go:377-389 | a failed create ends the loop with an error notification and no error |
| Pipeline.StoreFailureEndsLoop | server/resource/handle_action.go:377-466 | any store failure ends the loop with one more `client.notify` and no error |
| Pipeline.ExecuteWithoutAttributesPanics | server/resource/handle_action.go:477 | an `EXECUTE` outcome with a registered performer and no attribute map ends the request with the nil-map panic |
| Pipeline.UnknownMethodSkipped | server/resource/handle_action.go:494-500 | an unknown method with no handler is skipped silently |
| Pipeline.PerformerErrorReturned | server/resource/handle_action.go:467-552 | a performer's error ends the request with the responses so far and that error |
| Pipeline.StepKeepsResponses | server/resource/handle_action.go:302-553 | one outcome only appends responses, unless the request ends with none |
| Pipeline.AttemptKeepsResponses | server/resource/handle_action.go:346-553 | a built outcome only appends responses, unless the request ends with none |
| Pipeline.SettleKeepsResponses | server/resource/handle_action.go:511-553 | settling only appends responses, unless the request ends with none |
| Pipeline.DispatchErrorHaltIsEmpty | server/resource/handle_action.go:413-418 | the switch returns early with an error only with no responses |
| Pipeline.RunKeepsResponses | server/resource/handle_action.go:302-555 | the reply extends the responses collected so far, unless it carries none |
| Pipeline.FillInFields | server/resource/handle_action.go:249-254 | the fill loop equals `Filled` |
| Pipeline.Validate | server/resource/handle_action.go:256-264 | the validation loop reports the first failing validation |
| Pipeline.FirstInvalidPrefix | server/resource/handle_action.go:256-264 | a validation failing in a prefix is the reported one |
| Pipeline.Conform | server/resource/handle_action.go:266-278 | the conformation loop equals `Conformed` |
| Pipeline.PrepareRequest | server/resource/handle_action.go:184-298 | the checks before the loop equal their specification |
| Pipeline.CheckCondition | server/resource/handle_action.go:312-344 | the condition check equals `Gate` |
| Pipeline.RunOutcome | server/resource/handle_action.go:303-553 | one pass of the loop equals `Step` |
| Pipeline.AttemptOutcome | server/resource/handle_action.go:346-553 | an outcome past its gate equals `Attempt` |
| Pipeline.SettleOutcome | server/resource/handle_action.go:511-553 | the appending and publication equal `Settle` |
| Pipeline.HandleActionRequest | server/resource/handle_action.go:184-556 | the whole request equals `Handle` |
| RequestBody.IndexOf | server/resource/action_integration_execute.go:424-428 | the first position of the character, or none when absent |
| RequestBody.ParameterNamesWellFormed | server/resource/action_integration_execute.go:420-433 | every parameter name is non-empty and holds no `}` |
| RequestBody.ParameterNamesOfTemplate | server/resource/action_integration_execute.go:420-433 | `literal{name}rest` yields `name` then the names of the rest |
| RequestBody.NoBracesNoParameters | server/resource/action_integration_execute.go:420-433 | text without `{` has no parameters |
| RequestBody.ParameterNamesAt | server/resource/action_integration_execute.go:424-431 | an unclosed brace ends the scan, an empty pair is skipped, a closed pair yields its name |
| RequestBody.GetParametersNames | server/resource/action_integration_execute.go:420-433 | the scan loop equals the parameter-name specification |
| RequestBody.ExcludeFromMode | server/resource/action_integration_execute.go:640-652 | a nil schema is excluded; otherwise read-only properties are excluded from requests and write-only ones from responses |
| RequestBody.ArrayRows | server/resource/action_integration_execute.go:506-528 | never more rows than items |
| RequestBody.ItemsBody | server/resource/action_integration_execute.go:530-546 | without error, one built item per row |
| RequestBody.BooleanSchemaBody | server/resource/action_integration_execute.go:441-461 | a boolean property: absent is nil, a boolean stays, a string is whether it lower-cases to "true", anything else is false |
| RequestBody.StringSchemaBody | server/resource/action_integration_execute.go:489-496 | a string property: a string stays, nil stays nil, anything else panics |
| RequestBody.ArrayBodyShape | server/resource/action_integration_execute.go:497-546 | an array: nil stays nil, a non-list is a "not array" error with an empty list, a list builds one item per kept row |
| RequestBody.ItemsBodyAt | server/resource/action_integration_execute.go:530-546 | each built item is the item schema applied to its row |
| RequestBody.ItemsBodyFails | server/resource/action_integration_execute.go:530-546 | one failing item fails the array |
| RequestBody.ArrayRowsKeep | server/resource/action_integration_execute.go:506-528 | map items are kept as rows, string items wrapped under "", other items dropped |
| RequestBody.ArrayRowsConcat | server/resource/action_integration_execute.go:516-527 | the kept items of a concatenation are those of each part, in order, so any mixed list reduces to its single items |
| RequestBody.ArrayRowsSingle | server/resource/action_integration_execute.go:518-525 | a single map is kept, a single string wrapped as `{"": s}`, anything else dropped |
| RequestBody.ExcludedPropertiesLeftOut | server/resource/action_integration_execute.go:547-598 | excluded properties contribute nothing |
| RequestBody.EmptyObjectIsNil | server/resource/action_integration_execute.go:547-621 | an object with every property excluded builds to nil |
| RequestBody.PropertyNilLeftOut | server/resource/action_integration_execute.go:561-567 | a kept property that builds to nil leaves the object and its emptiness unchanged |
| RequestBody.PropertiesEmptyExactly | server/resource/action_integration_execute.go:549-601 | while no property aborts, the object is still empty exactly when no property so far produced a value |
| RequestBody.ObjectNilExactly | server/resource/action_integration_execute.go:547-621 | an object that builds without an error is nil exactly when no property and no additional property produced a value |
| RequestBody.PropertyStoredUnderKey | server/resource/action_integration_execute.go:587-598 | outside form encoding a built property is stored under its key, prefixed by the object's name |
| RequestBody.BracketedAt | server/resource/action_integration_execute.go:576-581 | each key of a map item is stored under `prefix + key + "]"` |
| RequestBody.ArrayFormMapKeys | server/resource/action_integration_execute.go:570-585 | in form encoding `key[][sub]` holds the last map item's `sub` |
| RequestBody.ArrayFormListKeys | server/resource/action_integration_execute.go:570-585 | in form encoding `key[]` holds the last non-map item |
| RequestBody.NotAValidSchemaRefused | server/resource/action_integration_execute.go:635 | a schema of no known shape is refused |
| RequestBody.CreateRequestBody | server/resource/action_integration_execute.go:438-636 | the builder equals the request-body specification |
| RequestBody.CreateArrayBody | server/resource/action_integration_execute.go:497-546 | the array branch equals its specification |
| RequestBody.CollectRows | server/resource/action_integration_execute.go:506-528 | the row loop equals `ArrayRows` |
| RequestBody.CreateObjectBody | server/resource/action_integration_execute.go:547-621 | the object branch equals its specification |
| RequestBody.CreatePropertyBody | server/resource/action_integration_execute.go:553-600 | one property equals its specification |
| RequestBody.StorePropertyEntries | server/resource/action_integration_execute.go:567-598 | storing a property equals its specification |
| RequestBody.SpreadArray | server/resource/action_integration_execute.go:570-585 | the form spread loop equals its specification |
| RequestBody.AddBracketed | server/resource/action_integration_execute.go:576-581 | the map-item loop adds exactly the bracketed entries, whatever the map order |
| RequestBody.CreateAdditionalBody | server/resource/action_integration_execute.go:603-616 | the additional-properties branch equals its specification |
| Columns.ColumnsOf | server/resource/resource_create.go:404 | the column names of the pairs, in order |
| Columns.EnumValue | server/resource/resource_create.go:317-337 | an enum value is accepted exactly when its lower-cased text is an option, and then is that text; otherwise "invalid value" |
| Columns.EnumValueIdempotent | server/resource/resource_update.go:270-292 | an accepted enum value is accepted again unchanged |
| Columns.CheckEnum | server/resource/resource_create.go:317-337 | the option loop equals `EnumValue` |
| Columns.TrueFalse | server/resource/resource_update.go:359-384 | booleans stay, strings become whether they read true, integers become non-zero on update only, anything else is kept |
| Columns.TrueFalseIdempotent | server/resource/resource_create.go:382-401 | coercing twice is coercing once, and strings and booleans end as booleans |
| Columns.Normalised | server/resource/resource_update.go:111-384 | a foreign-key failure is the error; enum and truefalse columns take their handling; other unconverted types keep the value |
| Columns.Normalise | server/resource/resource_update.go:111-384 | the conversion step equals `Normalised` |
| Columns.CollectConcat | server/resource/resource_create.go:77-406 | the loop over a split column list is the loops over its parts, in order |
| Columns.CollectFrom | server/resource/resource_create.go:77-406 | every pair comes from a column whose step produced that value |
| Columns.CollectComplete | server/resource/resource_create.go:77-406 | every column that produced a value contributes it |
| Columns.CollectFails | server/resource/resource_create.go:77-406 | the loop fails exactly when some column fails, with the first such error |
| Columns.CollectStopped | server/resource/resource_update.go:79-390 | a failure in a prefix is the failure of the whole loop |
| Columns.AfterOne | server/resource/resource_create.go:596-607 | an after interceptor leaves the resource nil exactly when it returns no rows |
| Columns.AfterChainConcat | server/resource/resource_update.go:977-996 | running two interceptor lists in turn is running their concatenation |
| Columns.AfterChainCleared | server/resource/resource_create.go:596-607 | once an interceptor that never returns rows runs, with none after it returning rows, the resource ends nil |
| Columns.RunAfter | server/resource/resource_update.go:977-996 | the after loop equals the chain specification |
| Creation.Unquoted | server/resource/resource_create.go:107-111 | a default of more than two characters whose first character is ASCII and equal to the last loses both; any other is kept |
| Creation.UnquotedAsBytes | server/resource/resource_create.go:107-111 | the character rule is Go's byte rule: testing and stripping the end bytes of the UTF-8 encoding gives the encoding of `Unquoted` |
| Creation.UnquotedKeepsWideFirst | server/resource/resource_create.go:107-111 | a default starting with a non-ASCII character is kept whole, since a UTF-8 lead byte never equals a string's last byte |
| Creation.UnquotedQuoted | server/resource/resource_create.go:107-111 | a default quoted with an ASCII character reads back as what was quoted |
| Creation.Supplied | server/resource/resource_create.go:102-115 | the request's non-nil attribute, else the unquoted default, else nothing |
| Creation.CreateValue | server/resource/resource_create.go:80-124 | skipped or unsupplied columns contribute nothing; a non-string reference_id panics; an empty one contributes nothing |
| Creation.IdFrom | server/resource/resource_create.go:117-124 | only a non-empty reference_id string sets the new id |
| Creation.NewIdGenerated | server/resource/resource_create.go:408-411 | without a reference_id column the generated id is used |
| Creation.CollectedNotSkipped | server/resource/resource_create.go:80-98 | no collected pair names a timestamp or the permission, nor the owner outside the join table |
| Creation.CollectedNoBookkeeping | server/resource/resource_create.go:80-98 | the loop names neither timestamp nor the permission |
| Creation.BookkeepingOnce | server/resource/resource_create.go:408-433 | after the loop, the permission and each timestamp are named once and the reference id at least once |
| Creation.InsertTimestamps | server/resource/resource_create.go:423-427 | `created_at` takes the first clock reading and `updated_at` the second, each its own |
| Creation.InsertBookkeepingOnce | server/resource/resource_create.go:77-433 | every INSERT names the permission and each timestamp exactly once and the reference id at least once |
| Creation.DefaultUsed | server/resource/resource_create.go:104-115 | an omitted column takes its unquoted default, or is left to the database without one |
| Creation.ConversionLeavesOutOnCreate | server/resource/resource_create.go:202-218 | a supplied column whose conversion gives up (no upload performer, no cloud store) is left out of the INSERT |
| Creation.EnumOnCreate | server/resource/resource_create.go:317-337 | an enum value that is not an option refuses the whole create |
| Creation.CreateColumn | server/resource/resource_create.go:80-401 | one column equals `CreateValue` and sets the id `IdFrom` names |
| Creation.AppendBookkeeping | server/resource/resource_create.go:408-433 | the appended columns equal the bookkeeping specification |
| Creation.CollectColumns | server/resource/resource_create.go:77-406 | the column loop equals `Collect` and ends with the specified new id |
| Creation.CreateWithoutFilter | server/resource/resource_create.go:55-435 | the INSERT planned equals `PlannedInsert` |
| Creation.BeforeCreate | server/resource/resource_create.go:578-589 | the create goes on exactly when every interceptor accepts, and the data is not replaced |
| Creation.BeforeCreateFirstRefusal | server/resource/resource_create.go:582-588 | the first refusing interceptor's error, or "no object", is the result |
| Creation.Created | server/resource/resource_create.go:567-568 | the read-back row has no id and carries the table's `__type`; every other entry is kept |
| Creation.CreateRefusedBefore | server/resource/resource_create.go:578-594 | a refusal means nothing is inserted |
| Creation.CreateResponse | server/resource/resource_create.go:591-617 | a create answers 201; without after interceptors the resource has no id; an empty last after reply makes it nil |
| Creation.RunBeforeCreate | server/resource/resource_create.go:578-589 | the before loop equals `BeforeCreate` |
| Creation.BeforeCreateStopped | server/resource/resource_create.go:582-588 | a refusal within a prefix is the result of the whole chain |
| Creation.CreateRow | server/resource/resource_create.go:574-618 | `Create` step by step equals its specification |
| Updating.UpdateValue | server/resource/resource_update.go:79-110 | only changed, writable columns are set, to their normalised new value |
| Updating.ChangedColumnsOnly | server/resource/resource_update.go:79-390 | every set column is a changed writable column with the value its change normalises to |
| Updating.ChangedColumnsWritten | server/resource/resource_update.go:79-390 | every changed writable column is set |
| Updating.UpdateBookkeeping | server/resource/resource_update.go:394-410 | with changes the UPDATE ends with the timestamp and next version, sets them nowhere else, and targets the row's reference id at its version; without changes nothing is written |
| Updating.ConversionLeavesOut | server/resource/resource_update.go:139-149 | a changed column whose conversion gives up (a nil cloud-store value, no upload performer, a failed hash) is left out of the UPDATE |
| Updating.EnumOnUpdate | server/resource/resource_update.go:270-292 | an enum change that is not an option refuses the update |
| Updating.UpdateColumn | server/resource/resource_update.go:79-390 | one column equals `UpdateValue` |
| Updating.CollectChanges | server/resource/resource_update.go:79-390 | the column loop equals `Collect` |
| Updating.UpdateWithoutFilters | server/resource/resource_update.go:28-410 | a failed reference-id or row lookup is returned before any column is normalised; otherwise the UPDATE planned equals `PlannedUpdate` |
| Updating.LookupFailsFirst | server/resource/resource_update.go:37-57 | a failed lookup ends the update with its own error, whatever the changes, and nothing is written |
| Updating.BeforeUpdate | server/resource/resource_update.go:949-970 | the data is tagged once, then each interceptor's first row replaces it; an error or no rows stops |
| Updating.BeforeUpdateStep | server/resource/resource_update.go:953-969 | one interceptor: its error, or "no rows", or its first row |
| Updating.BeforeUpdateStopped | server/resource/resource_update.go:961-967 | a refusal within a prefix is the result of the whole chain |
| Updating.WithoutId | server/resource/resource_update.go:997 | the response drops only the id |
| Updating.UpdateResponse | server/resource/resource_update.go:972-999 | an update answers 200 without an id; an empty last after reply makes the resource nil |
| Updating.RunBeforeUpdate | server/resource/resource_update.go:949-970 | the before loop equals `BeforeUpdate` |
| Updating.UpdateRow | server/resource/resource_update.go:940-1001 | `Update` step by step equals its specification |

## Left out

- Outside data and systems: the JavaScript VM, the store and database, the validator and
  conformer libraries, the exchange executor, the relation `Hash()`, UUID generation and the
  clock. Each is a function-typed parameter, so the model holds for any behaviour of them.
- HTTP only: gin handlers, reading and JSON-decoding the request body, and writing schema files
  to disk. The decoded body is an input; the schema write is a parameter that may fail.
- Floating point: the model has no floats. `Int` stands for a Go `int` only. JSON numbers,
  which Go decodes as `float64`, are not represented, so the numeric (`number`/`integer`) branch
  of `CreateRequestBody` is a parameter.
- Columns.TrueFalse: a JSON number in an update's `truefalse` column is a Go `float64`, which
  the code's `int` assertion does not match, so Go keeps it as a number. The model applies the
  integer rule only to `Int`, which stands for a Go `int`, and has no value for a JSON number.
- Values.Format: Go's `%v` prints a `float64` such as 1000000 as `1e+06`. This matters for `$`
  substitution and for the GET query parameters of an outcome. The model has no floats and
  prints only integers, in decimal.
- SQL, and conversions this model does not describe, in create and update: bcrypt, md5 and
  encryption columns, date/time parsing, measurement and translations, the cloud-store column
  branch, default groups, relation updates, and the SELECT after the write. The conversions sit
  behind the `Converters` parameter: each may fail, give a value, or give up on the column (the
  loop's `continue`, as for a nil cloud-store value or a failed bcrypt). The writes sit behind
  the `insert`/`execute` functions.
- `GetChanges` and the versions of the row being updated come from `pendingOf`, a parameter,
  because the api2go model's change tracking is outside this code. The same parameter stands
  for the reference-id lookup and, for a model without a version, the read of the stored row.
  It may fail, and its error is returned before any column is looked at.
- The integration performer's `DoAction` (OAuth, the HTTP call), and the upload performer's
  base64 decoding, unzip, file writes and rclone sync. The model plans which files are written
  and where.
- The rest of the upload action: the `oauth_token_id` and `store_provider` string assertions
  (action_cloudstore_file_upload.go:190, 198), which panic on a non-string value, the token
  lookup, and the `client.notify` "Cloud storage file upload queued" reply (247-254). The model
  covers the suffix test, the file loop and the path join.
- Go map iteration order: where only the error reported depends on it, the model fixes ascending
  key order; elsewhere it proves that the order taken does not matter. `CreateRequestBody` is the
  exception: its property order is an input, which picks the reported error and, in form
  encoding, the property that writes a shared key last. The lemmas hold for every order.
- Aliasing: interceptors sharing the request's maps, and `MergeTables` slices sharing storage,
  are not modelled. All values are copied.
- Nil and empty slices are the same in the model, except the interceptor replies (a nil reply is
  `None`).
- `InArray` is taken to be membership; its code is not part of this model.
- `TableInfo.AddRelation` is taken to be an append; its code is not part of this model.
- Whole files left out: dbfunctions_get.go, imap_user.go, imap_backend.go, exchange_action.go,
  action_become_admin.go, action_cloudstore_site_create.go, config.go and utils.go of the server,
  the `ConfigStore` methods of cms_config.go, and the rest of server.go (`Main`, the FTP servers,
  the stream processors).
- Exchanges.Checked: `InArray` membership stands for the library call.
- Pipeline.Gate: a non-panicking evaluation error skips the outcome (as the code does); the
  error text it logs is not modelled.
- Text.ToLower: lower-cases ASCII only; Go's Unicode case mapping of other letters is not modelled.
- Strings are sequences of characters. Go's byte slicing is modelled through their UTF-8
  encoding (`Text.Utf8`) only where the result can differ: `EndsWith` and `Unquoted`.
- OutcomeDispatch.Handled: a handler's responder that is an `api2go.Response` whose result is
  not a model panics in Go when the outcome has a reference (handle_action.go:526-528); the
  model treats every non-model responder as a result that publishes an empty list.
- OutcomeDispatch.Dispatch: a missing `db.Cruds[outcome.Type]` makes Go's store call panic on a
  nil resource; the store functions of the model always answer, so that panic is not modelled.

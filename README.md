# TimeLogger pipeline in Dafny

TimeLogger collects time entries from two kinds of import source: Tempo
worklogs pulled over HTTP, and CSV or Excel timesheets uploaded by hand. It
classifies the entries with user-defined mapping rules and books the mapped
ones as time registrations in Timelog. This project models that
ingest → classify → submit pipeline over the application's tables, and
proves what each stage promises. It also models the services beside the
pipeline: the entry and submission pages, rule administration, and the sync
of Timelog's project and task catalogue.

One Dafny module stands for one source file:

| module | file | form |
|---|---|---|
| `MappingEngine` | `mapping_engine.dfy` | functions and lemmas (the rule engine is pure) |
| `MappingResults` | `mapping_result.dfy` | a two-constructor datatype |
| `ApplyMappings` | `apply_mappings.dfy` | methods with loops that rewrite entries in place |
| `MappingRules` | `mapping_rules.dfy` | methods on the rules table, plus pure queries |
| `FileImport` | `file_import.dfy` | pure row parsing and keys, and the import loop as methods |
| `TempoImport` | `tempo_import.dfy` | the pagination, metadata and import loops as methods |
| `TimelogSubmission` | `timelog_submission.dfy` | the submission state machine as methods |
| `Entries` | `entries.dfy` | status changes as methods, list queries as functions |
| `Submissions` | `submissions.dfy` | counters, the ready list, skip and submit-selected |
| `TimelogSync` | `timelog_sync.dfy` | the project and task upsert loops as methods |

Five shared modules support them:
- `Wrappers` holds `Option`, `Result` and `Outcome`.
- `Text` holds ASCII case folding, blank tests, prefix and infix tests, and integer-to-text conversion.
- `Seqs` holds search, filter, count and stable sort over sequences, with their lemmas.
- `Domain` holds the entities and enumerations.
- `Store` holds the database context. It is a class `Db` whose fields are the tables.

**The database.** Each table is a `seq` of rows, kept in table order. One
identity counter `nextId` hands out keys. `Db.Valid()` states the unique
indexes the schema declares:
- keys are unique and below the counter;
- (import source, external id) is unique among entries;
- an entry has at most one submission record;
- a project's external id is unique;
- (project, external id) is unique among tasks.

Every method that changes the database keeps `Valid()`. It states its new
state as a function of the old one, and lemmas about that function state
what the service promises.

**Outside the model.** Outside services and libraries become parameters:
- the regular-expression engine (`RegexOracle`);
- the Tempo, Jira and Timelog HTTP clients (`Env`, `Remote`, `Api`);
- `SHA256` with its hex truncation, date parsing and decimal-hours parsing (`Parsers`);
- `int.Parse`;
- the clock (`now`).

A JSON metadata document is a `Bag`: its properties in document order, each
value a string, JSON null, or any other value kept as its raw text. That
order is what lets the model state which of two duplicate keys
`TryGetProperty` finds. A document that is null, blank or malformed is
`None`.

## Model

| member | source | states |
|---|---|---|
| MappingResults.MakeMatched | src/TimeLogger.Application/Mapping/MappingResult.cs:15-16 | a matched result is matched and exposes exactly the given rule, project and (possibly absent) task |
| MappingResults.MakeUnmatched | src/TimeLogger.Application/Mapping/MappingResult.cs:18-19 | the unmatched result is not matched and has no rule, project or task |
| MappingResults.Shapes | src/TimeLogger.Application/Mapping/MappingResult.cs:8-19 | every result has one of the two shapes: it is matched exactly when it has a rule, and exactly when it has a project; an unmatched one has no task |
| MappingEngine.JsonElementToString | src/TimeLogger.Application/Mapping/MappingEngine.cs:111-118 | a JSON null gives no value, a JSON string gives its text, and any other kind gives its raw JSON text |
| MappingEngine.LastNamed | src/TimeLogger.Application/Mapping/MappingEngine.cs:94-95 | the exact-name property lookup finds a property with that name and none after it, and finds nothing exactly when no property has that name |
| MappingEngine.MetadataExactWins | src/TimeLogger.Application/Mapping/MappingEngine.cs:94-95 | when a property has exactly the key, its value is the result, whatever case-insensitive matches come before it |
| MappingEngine.MetadataCaseInsensitiveFallback | src/TimeLogger.Application/Mapping/MappingEngine.cs:97-101 | with no exact match, the first property whose name equals the key ignoring case supplies the value |
| MappingEngine.MetadataAbsent | src/TimeLogger.Application/Mapping/MappingEngine.cs:85-109 | an absent (null, blank or malformed) document, or one with no property matching the key in any case, resolves to no value |
| MappingEngine.ResolveStandardFields | src/TimeLogger.Application/Mapping/MappingEngine.cs:74-82 | the names ProjectKey, IssueKey, UserEmail, Description and Activity, in any case, resolve to that entry field; any other name without the metadata prefix resolves to no value |
| MappingEngine.StandardNamesAreNotMetadata | src/TimeLogger.Application/Mapping/MappingEngine.cs:66-82 | no standard field name, in any case, is taken for a metadata reference, so the standard switch is reached for all five |
| MappingEngine.ResolveMetadataName | src/TimeLogger.Application/Mapping/MappingEngine.cs:68-72 | a field name starting with `metadata.` in any case resolves to the metadata lookup of the rest of the name |
| MappingEngine.Matches | src/TimeLogger.Application/Mapping/MappingEngine.cs:30-53 | a rule never matches an entry whose field resolves to no value, and a stored operator outside the four known ones never matches |
| MappingEngine.MatchesOperators | src/TimeLogger.Application/Mapping/MappingEngine.cs:36-52 | on a resolved value, Equals is equality ignoring case, Contains is a match of the needle at some position ignoring case, StartsWith is a case-insensitive prefix, and Regex is the unanchored pattern search |
| MappingEngine.EntrySourceType | src/TimeLogger.Application/Mapping/MappingEngine.cs:120-121 | an entry's source type is its source's type, and Tempo when it has no source |
| MappingEngine.BestSpec | src/TimeLogger.Application/Mapping/MappingEngine.cs:11-28 | the reference choice (the lowest-priority acceptable rule, the earliest one among equal priorities) is absent exactly when no rule is acceptable, and otherwise is such a rule |
| MappingEngine.FirstOfSortedIsBest | src/TimeLogger.Application/Mapping/MappingEngine.cs:13-24 | the first acceptable rule of the stable priority sort is the reference choice |
| MappingEngine.BestOfEnabled | src/TimeLogger.Application/Mapping/MappingEngine.cs:13 | choosing among the enabled rules is choosing among all rules with "enabled" added to the test |
| MappingEngine.EvaluateIsBest | src/TimeLogger.Application/Mapping/MappingEngine.cs:11-28 | `Evaluate` returns the reference choice among the candidates (enabled, in scope, matching) with that rule's project and task, and Unmatched when there is none |
| MappingEngine.EvaluateSpec | src/TimeLogger.Application/Mapping/MappingEngine.cs:11-28 | Unmatched exactly when no rule is an enabled, in-scope match; a match is enabled, in scope for the entry's source type, matches the entry, carries the rule's project and task, and comes first by stable priority |
| MappingEngine.EvaluateLoaded | src/TimeLogger.Application/Mapping/MappingEngine.cs:13 | evaluating over rules already filtered to enabled and sorted by priority gives the same result as over the raw list |
| MappingEngine.PriorityScenario | tests/TimeLogger.Application.Tests/Mapping/MappingEngineTests.cs:266-292 | of two matching rules listed low priority first, the one with the smaller priority number wins |
| MappingEngine.ProjectKeyRuleApplies | src/TimeLogger.Application/Mapping/MappingEngine.cs:16-24 | an enabled unscoped Equals rule on ProjectKey is a candidate for an entry of any source with that project key |
| MappingEngine.CustomFieldFallback | src/TimeLogger.Application/Mapping/MappingEngine.cs:97-101 | an upper-case custom-field key finds the lower-case property of the document |
| MappingEngine.MetadataKeyCaseLookup | tests/TimeLogger.Application.Tests/Mapping/MappingEngineTests.cs:208-214 | `metadata.CUSTOMFIELD_10200` resolves to the value of property `customfield_10200` |
| MappingEngine.MetadataKeyCaseScenario | tests/TimeLogger.Application.Tests/Mapping/MappingEngineTests.cs:208-214 | an Equals rule on `metadata.CUSTOMFIELD_10200` with value "value" matches an entry whose document holds `customfield_10200` = "Value" |
| Text.ContainsIgnoreCaseMeans | src/TimeLogger.Application/Mapping/MappingEngine.cs:41-42 | a case-insensitive Contains holds exactly when the needle occurs at some position of the value, ignoring case |
| Text.StartsWithIgnoreCaseMeans | src/TimeLogger.Application/Mapping/MappingEngine.cs:44-45 | a case-insensitive StartsWith holds exactly when the needle is no longer than the value and equals its start ignoring case |
| ApplyMappings.LoadRules | src/TimeLogger.Infrastructure/Mapping/ApplyMappingsService.cs:106-112 | the loaded rules are all enabled, sorted by ascending priority, and a permutation of the enabled rules of the table |
| ApplyMappings.MapWith | src/TimeLogger.Infrastructure/Mapping/ApplyMappingsService.cs:41-44 | a mapped entry is Mapped with the rule's id, project and (possibly absent) task, every other field kept |
| ApplyMappings.Step | src/TimeLogger.Infrastructure/Mapping/ApplyMappingsService.cs:34-46 | an entry that is not Pending is left identical, and no step changes an entry's key or its (source, external id) pair |
| ApplyMappings.MapPending | src/TimeLogger.Infrastructure/Mapping/ApplyMappingsService.cs:34-46 | the in-place loop leaves each entry as one step of the chooser makes it and returns the number of entries that went from Pending to Mapped |
| ApplyMappings.ClassifyOutcome | src/TimeLogger.Infrastructure/Mapping/ApplyMappingsService.cs:34-46 | a Pending entry becomes Mapped exactly when some enabled in-scope rule matches it, then to the rule that comes first by stable priority; otherwise it is left identical |
| ApplyMappings.ApplyAllPending | src/TimeLogger.Infrastructure/Mapping/ApplyMappingsService.cs:16-53 | every entry is classified in place, the result counts the entries newly Mapped, and with no enabled rule nothing changes and the result is 0 |
| ApplyMappings.TestRule | src/TimeLogger.Infrastructure/Mapping/ApplyMappingsService.cs:55-74 | an unknown rule id is an error with the service's message; otherwise the result is drawn from the table and holds every Pending entry the rule matches, and only such entries, whether or not the rule is enabled |
| ApplyMappings.ApplyRule | src/TimeLogger.Infrastructure/Mapping/ApplyMappingsService.cs:76-104 | an unknown rule id is an error that changes nothing; otherwise every Pending entry the rule matches is mapped to that rule's project and task, and the result counts them |
| MappingRules.GetAll | src/TimeLogger.Infrastructure/Services/MappingRuleService.cs:12-22 | all rules, sorted by ascending priority, as a permutation of the table |
| MappingRules.NewRule | src/TimeLogger.Infrastructure/Services/MappingRuleService.cs:26-37 | a created rule carries every requested field and is enabled |
| MappingRules.Create | src/TimeLogger.Infrastructure/Services/MappingRuleService.cs:24-41 | the new rule is appended under a fresh key that no rule had |
| MappingRules.Updated | src/TimeLogger.Infrastructure/Services/MappingRuleService.cs:47-54 | an updated rule carries every requested field and keeps its key, its enabled flag and its creation time |
| MappingRules.Update | src/TimeLogger.Infrastructure/Services/MappingRuleService.cs:43-56 | an unknown id is an error that changes nothing; otherwise only that rule is rewritten |
| MappingRules.SetEnabled | src/TimeLogger.Infrastructure/Services/MappingRuleService.cs:66-72 | an unknown id is an error that changes nothing; otherwise only that rule's enabled flag changes |
| MappingRules.Unlinked | src/TimeLogger.Infrastructure/Persistence/Configurations/ImportedEntryConfiguration.cs:27-30 | deleting a rule clears the rule reference of the entries it mapped and changes nothing else about them |
| MappingRules.Delete | src/TimeLogger.Infrastructure/Services/MappingRuleService.cs:58-64 | an unknown id is an error that changes nothing; otherwise the rule is removed, the others kept in order, and the entries that referenced it lose the reference |
| MappingRules.SetPriority | src/TimeLogger.Infrastructure/Services/MappingRuleService.cs:83 | the rule with the id gets the priority and every other rule is unchanged |
| MappingRules.MovePriority | src/TimeLogger.Infrastructure/Services/MappingRuleService.cs:74-85 | the table becomes the reference move on the old table, and stays valid |
| MappingRules.MovedRules | src/TimeLogger.Infrastructure/Services/MappingRuleService.cs:76-83 | the steps before the save compute the reference move, and every row keeps its key |
| MappingRules.Priorities | src/TimeLogger.Infrastructure/Services/MappingRuleService.cs:83 | the priority column, position by position |
| MappingRules.MoveUnknownId | src/TimeLogger.Infrastructure/Services/MappingRuleService.cs:77-78 | a move with an id no rule has changes nothing |
| MappingRules.SetOwnPriority | src/TimeLogger.Infrastructure/Services/MappingRuleService.cs:83 | giving a rule its own priority changes nothing |
| MappingRules.Swapped | src/TimeLogger.Infrastructure/Services/MappingRuleService.cs:83 | swapping two rules' priorities keeps the table's length |
| MappingRules.SwappedPriorities | src/TimeLogger.Infrastructure/Services/MappingRuleService.cs:83 | swapping two rules' priorities keeps the multiset of priorities |
| MappingRules.SetPrioritiesSwap | src/TimeLogger.Infrastructure/Services/MappingRuleService.cs:83 | the two assignments of the tuple swap are the swap of the two priorities |
| MappingRules.MoveSpec | src/TimeLogger.Infrastructure/Services/MappingRuleService.cs:76-83 | for the rule at position idx of the priority order: when idx plus the direction falls outside the list the move changes nothing, and otherwise it swaps the priorities of the table rows holding the rules at positions idx and idx plus the direction, every other rule unchanged |
| MappingRules.OrderedPosition | src/TimeLogger.Infrastructure/Services/MappingRuleService.cs:76-77 | in the priority order, the first rule with the id is the one at its position, as ids are unique |
| MappingRules.MoveKeepsPriorities | src/TimeLogger.Infrastructure/Services/MappingRuleService.cs:74-85 | a move keeps the multiset of priorities |
| MappingRules.TestRule | src/TimeLogger.Infrastructure/Services/MappingRuleService.cs:87-105 | an unknown id is an error; otherwise the result is drawn from the table and holds every Pending or Failed entry the rule matches, and only such entries |
| FileImport.TryGetValue | src/TimeLogger.Infrastructure/FileImport/FileImportService.cs:284 | the header lookup ignores case; it finds a cell whose header equals the key ignoring case, and finds nothing exactly when there is none |
| FileImport.FindField | src/TimeLogger.Infrastructure/FileImport/FileImportService.cs:281-287 | a found field value is never blank |
| FileImport.FindFieldNone | src/TimeLogger.Infrastructure/FileImport/FileImportService.cs:281-287 | no value is found exactly when no alias has a non-blank cell |
| FileImport.FindFieldFirst | src/TimeLogger.Infrastructure/FileImport/FileImportService.cs:281-287 | a found value is the cell of the first alias, in list order, that has a non-blank cell |
| FileImport.ExtrasExactly | src/TimeLogger.Infrastructure/FileImport/FileImportService.cs:266-274 | the extra columns are exactly the row's non-blank cells whose lower-cased header is no known alias |
| FileImport.ExtraColumns | src/TimeLogger.Infrastructure/FileImport/FileImportService.cs:266-274 | the loop over the cells collects exactly the extra columns |
| FileImport.DecimalValueOfText | src/TimeLogger.Infrastructure/FileImport/FileImportService.cs:329-333 | the decimal text of a number reads back as that number |
| FileImport.ParseClock | src/TimeLogger.Infrastructure/FileImport/FileImportService.cs:329-333 | a clock duration, when it parses, is less than a day in seconds |
| FileImport.ClockTextParses | src/TimeLogger.Infrastructure/FileImport/FileImportService.cs:329-333 | the text h:mm parses as h * 3600 + m * 60 seconds |
| FileImport.NinetyMinutes | tests/TimeLogger.Infrastructure.Tests/FileImport/FileImportServiceTests.cs:114-124 | "1:30" parses as 5400 seconds |
| FileImport.ParseHours | src/TimeLogger.Infrastructure/FileImport/FileImportService.cs:323-343 | the clock form is tried first; the decimal reading is used only when the clock form fails |
| FileImport.MessageNamesRow | src/TimeLogger.Infrastructure/FileImport/FileImportService.cs:237-257 | every row error message starts with "Row n: " |
| FileImport.Messages | src/TimeLogger.Infrastructure/FileImport/FileImportService.cs:237-257 | one message per problem, in order |
| FileImport.MissingColumns | src/TimeLogger.Infrastructure/FileImport/FileImportService.cs:237-245 | a problem is reported exactly when a required column is missing, and one names each missing column |
| FileImport.ParseRow | src/TimeLogger.Infrastructure/FileImport/FileImportService.cs:229-279 | a rejected row has at least one problem |
| FileImport.ParseRowAccepts | src/TimeLogger.Infrastructure/FileImport/FileImportService.cs:229-279 | a row is accepted exactly when date, hours and email are present, the date parses, and the hours parse to a positive number of seconds |
| FileImport.ParsedRowFields | src/TimeLogger.Infrastructure/FileImport/FileImportService.cs:247-278 | an accepted row carries the parsed date and seconds, the email, the optional fields found by their aliases, and the extra columns |
| FileImport.RejectedRowProblems | src/TimeLogger.Infrastructure/FileImport/FileImportService.cs:237-251 | a missing required column rejects the row with a problem naming it, and a date problem is reported only for a date that does not parse |
| FileImport.TryParseRow | src/TimeLogger.Infrastructure/FileImport/FileImportService.cs:229-279 | an accepted row is returned and the error list is unchanged; a rejected row returns nothing and appends exactly its messages |
| FileImport.ParseAllRejects | src/TimeLogger.Infrastructure/FileImport/FileImportService.cs:128-161 | the error list is empty exactly when every row parses, and then every row is parsed, in order |
| FileImport.RowParserReports | src/TimeLogger.Infrastructure/FileImport/FileImportService.cs:229-279 | the row parser never rejects a row without a message |
| FileImport.ParseRows | src/TimeLogger.Infrastructure/FileImport/FileImportService.cs:128-161 | the loop over the sheet rows gives the parsed rows and error messages of the reference fold |
| FileImport.KeyFields | src/TimeLogger.Infrastructure/FileImport/FileImportService.cs:349-354 | the dedup key is built from exactly seven parts: source, date, user, seconds, description, project key and issue key |
| FileImport.ExternalId | src/TimeLogger.Infrastructure/FileImport/FileImportService.cs:349-354 | every file entry's external id starts with "file-" |
| FileImport.ExternalIdIgnoresActivity | src/TimeLogger.Infrastructure/FileImport/FileImportService.cs:349-354 | rows that differ only in activity or in extra columns get the same external id |
| FileImport.KeyRowsAt | src/TimeLogger.Infrastructure/FileImport/FileImportService.cs:74 | each parsed row is paired with its own external id |
| FileImport.NewRowsFresh | src/TimeLogger.Infrastructure/FileImport/FileImportService.cs:64-98 | the rows imported have pairwise distinct ids, none of them already stored for the source |
| FileImport.NewRowsIds | src/TimeLogger.Infrastructure/FileImport/FileImportService.cs:64-98 | every imported id is the id of some row of the file |
| FileImport.NewRowsCover | src/TimeLogger.Infrastructure/FileImport/FileImportService.cs:64-98 | every row's id is either already stored or imported |
| FileImport.KnownIffRepeat | src/TimeLogger.Infrastructure/FileImport/FileImportService.cs:75-79 | a row is skipped exactly when its id was stored before or produced by an earlier row of the same file |
| FileImport.ReimportAddsNothing | src/TimeLogger.Infrastructure/FileImport/FileImportService.cs:75-79 | partitioning the same keyed rows again, with the ids they added now known, gives no new row |
| FileImport.StoredIdsAfterRows | src/TimeLogger.Infrastructure/FileImport/FileImportService.cs:98-116 | after the rows are stored, the ids stored for the source are the old ones plus exactly the ids of the rows imported |
| FileImport.StoredIdsAppend | src/TimeLogger.Infrastructure/FileImport/FileImportService.cs:98 | appending the new entries adds exactly their ids to those stored for the source |
| FileImport.ReimportSameFile | tests/TimeLogger.Infrastructure.Tests/FileImport/FileImportServiceTests.cs:206-216 | importing the same file a second time, over the tables the first import left, imports nothing, skips every row, reports the same errors and changes no table |
| FileImport.NoneNew | src/TimeLogger.Infrastructure/FileImport/FileImportService.cs:75-79 | when every id is known, nothing is imported |
| FileImport.Partition | src/TimeLogger.Infrastructure/FileImport/FileImportService.cs:72-100 | the loop yields the new rows of the reference partition, and imported plus skipped is the number of parsed rows |
| FileImport.ExtraBag | src/TimeLogger.Infrastructure/FileImport/FileImportService.cs:92-94 | the metadata document holds the extra columns as strings, in order |
| FileImport.NewEntry | src/TimeLogger.Infrastructure/FileImport/FileImportService.cs:81-97 | a new entry is Pending and unmapped, carries the row's fields, its id and the import time, and has metadata only when there are extra columns |
| FileImport.NewEntries | src/TimeLogger.Infrastructure/FileImport/FileImportService.cs:72-100 | one new entry per new row, in order, with consecutive keys |
| FileImport.AddKeepsEntriesValid | src/TimeLogger.Infrastructure/Migrations/20260220083741_InitialCreate.cs:183-187 | adding the new entries keeps keys unique and (source, external id) unique |
| FileImport.SaveNew | src/TimeLogger.Infrastructure/FileImport/FileImportService.cs:102-109 | the save appends the new entries, advances the key counter by their number and stamps the source's last poll time |
| FileImport.AddAndClassify | src/TimeLogger.Infrastructure/FileImport/FileImportService.cs:102-115 | after the save every entry, old and new, is as classification by the enabled rules makes it |
| FileImport.StoreRows | src/TimeLogger.Infrastructure/FileImport/FileImportService.cs:60-121 | total is the number of parsed rows and imported plus skipped equals it; with nothing new no table changes; otherwise the new rows are added and classified and the source is stamped |
| FileImport.Import | src/TimeLogger.Infrastructure/FileImport/FileImportService.cs:39-122 | a file that cannot be read gives the single error "File parse failed: " plus the reason and changes nothing; otherwise the parsed rows are stored as above |
| TempoImport.Fetch | src/TimeLogger.Infrastructure/Tempo/TempoImportService.cs:137-175 | the fetch fails exactly when a failed request comes before any last page |
| TempoImport.FetchStopsAt | src/TimeLogger.Infrastructure/Tempo/TempoImportService.cs:152-172 | the fetch stops at the first page with no next link or fewer than 5000 results, and returns the results of the pages up to it, in order |
| TempoImport.FetchRunsOut | src/TimeLogger.Infrastructure/Tempo/TempoImportService.cs:152-172 | when no listed page stops the loop, the results are those of all pages, in order |
| TempoImport.OffsetPage | src/TimeLogger.Infrastructure/Tempo/TempoImportService.cs:148 | offset k * 5000 addresses page k |
| TempoImport.FetchAll | src/TimeLogger.Infrastructure/Tempo/TempoImportService.cs:137-175 | the loop returns the reference fetch; it requests offsets 0, 5000, 10000, ... and stops at the first page that stops it |
| TempoImport.PutLookup | src/TimeLogger.Infrastructure/Tempo/TempoImportService.cs:179-202 | a dictionary assignment makes its key look up the new value and leaves every other key alone |
| TempoImport.CustomValue | src/TimeLogger.Infrastructure/Tempo/TempoImportService.cs:197-200 | a copied custom field is JSON null exactly when it was |
| TempoImport.AttrKeyPrefix | src/TimeLogger.Infrastructure/Tempo/TempoImportService.cs:188-192 | every attribute is stored under a key starting with "attr_" |
| TempoImport.AttrKeyInjective | src/TimeLogger.Infrastructure/Tempo/TempoImportService.cs:188-192 | distinct attribute keys are stored under distinct keys |
| TempoImport.AttributeStored | src/TimeLogger.Infrastructure/Tempo/TempoImportService.cs:188-192 | the last attribute with a key is stored under "attr_" plus that key |
| TempoImport.CustomStored | src/TimeLogger.Infrastructure/Tempo/TempoImportService.cs:195-202 | the last Jira field of a "customfield_" name is stored under that name |
| TempoImport.MetadataHolds | src/TimeLogger.Infrastructure/Tempo/TempoImportService.cs:181-185 | every worklog's metadata holds billableSeconds and startTime |
| TempoImport.MetadataNothingElse | src/TimeLogger.Infrastructure/Tempo/TempoImportService.cs:177-205 | metadata holds nothing besides those two, the "attr_" keys and the "customfield_" keys |
| TempoImport.MetadataAttribute | src/TimeLogger.Infrastructure/Tempo/TempoImportService.cs:188-192 | each attribute of the worklog is in its metadata under "attr_" plus its key |
| TempoImport.MetadataCustom | src/TimeLogger.Infrastructure/Tempo/TempoImportService.cs:195-202 | each custom field of the issue is in the metadata, JSON null kept as null |
| TempoImport.BuildMetadata | src/TimeLogger.Infrastructure/Tempo/TempoImportService.cs:177-205 | the dictionary-filling loops build the reference metadata |
| TempoImport.Enrich | src/TimeLogger.Infrastructure/Tempo/TempoImportService.cs:58-76 | the Jira lookup happens only for a positive issue id; a failed lookup leaves project key, issue key and custom fields absent; a successful one supplies the issue key, and the project key and fields when the issue has fields |
| TempoImport.TempoEntry | src/TimeLogger.Infrastructure/Tempo/TempoImportService.cs:80-93 | a new entry is Pending and unmapped, its external id is the worklog id, its user is the author account or "unknown", and it carries the worklog's time, description, enrichment and metadata |
| TempoImport.Candidates | src/TimeLogger.Infrastructure/Tempo/TempoImportService.cs:51-55 | the candidates are drawn from the fetched worklogs |
| TempoImport.CandidatesMeans | src/TimeLogger.Infrastructure/Tempo/TempoImportService.cs:51-55 | exactly the fetched worklogs whose id was not stored before the loop are candidates |
| TempoImport.ConvertMeans | src/TimeLogger.Infrastructure/Tempo/TempoImportService.cs:51-97 | the conversion either fails with the start date of some candidate that does not parse, or gives one entry per candidate, in order, with consecutive keys |
| TempoImport.ConvertErrPersists | src/TimeLogger.Infrastructure/Tempo/TempoImportService.cs:51-97 | once a start date fails to parse, the loop's outcome is that failure |
| TempoImport.ConvertOne | src/TimeLogger.Infrastructure/Tempo/TempoImportService.cs:58-93 | converting one worklog gives its reference entry, or the parse failure |
| TempoImport.ConvertAll | src/TimeLogger.Infrastructure/Tempo/TempoImportService.cs:51-97 | the loop over the worklogs gives the reference conversion, and the entries it has added to the context when it stops |
| TempoImport.ConvertStops | src/TimeLogger.Infrastructure/Tempo/TempoImportService.cs:85 | a new worklog whose start date does not parse ends the conversion with its error, and the entries added are those before it |
| TempoImport.LoadedMeans | src/TimeLogger.Infrastructure/Tempo/TempoImportService.cs:80-96 | the entries the loop leaves added are one per new worklog, in order, with consecutive keys: all of them when the conversion succeeds, and otherwise those before the first new worklog whose start date does not parse, whose error is the conversion's |
| TempoImport.ImportFetched | src/TimeLogger.Infrastructure/Tempo/TempoImportService.cs:44-106 | a failure adds nothing, and a success returns the number of entries added |
| TempoImport.ImportSpec | src/TimeLogger.Infrastructure/Tempo/TempoImportService.cs:23-107 | a failure adds nothing, and a success returns the number of entries added |
| TempoImport.ImportChecksFirst | src/TimeLogger.Infrastructure/Tempo/TempoImportService.cs:29-34 | an unknown source, or one with a blank token, fails before any fetch, whatever the remote services would answer |
| TempoImport.ImportAdds | src/TimeLogger.Infrastructure/Tempo/TempoImportService.cs:40-106 | for a known source with a token, a failed fetch is the failure and a successful one is imported |
| TempoImport.ImportFetchedAdds | src/TimeLogger.Infrastructure/Tempo/TempoImportService.cs:44-106 | the entries added are one per candidate, in order, none of their ids stored before, and pairwise distinct |
| TempoImport.NoneCandidates | src/TimeLogger.Infrastructure/Tempo/TempoImportService.cs:53-55 | when every worklog id is stored, there is no candidate |
| TempoImport.ImportedAreStored | src/TimeLogger.Infrastructure/Tempo/TempoImportService.cs:44-106 | after an import, every fetched worklog's id is stored for the source |
| TempoImport.ReimportFetchedNone | src/TimeLogger.Infrastructure/Tempo/TempoImportService.cs:51-55 | importing the same worklogs again adds nothing and returns 0 |
| TempoImport.ReimportAddsNone | tests/TimeLogger.Infrastructure.Tests/Tempo/TempoImportServiceTests.cs:146-170 | running the same import a second time adds nothing and returns 0 |
| TempoImport.StoreFetched | src/TimeLogger.Infrastructure/Tempo/TempoImportService.cs:44-106 | the entries table grows by exactly the reference entries, the key counter by their number |
| TempoImport.Import | src/TimeLogger.Infrastructure/Tempo/TempoImportService.cs:23-107 | the database changes as the reference import says, and the result is its outcome |
| TempoImport.ImportAddsPending | src/TimeLogger.Infrastructure/Tempo/TempoImportService.cs:80-93 | every entry an import adds belongs to the source, is Pending, and has the next free key |
| TempoImport.TempoTargets | src/TimeLogger.Infrastructure/Tempo/TempoImportService.cs:113-115 | the daily job visits exactly the enabled Tempo sources |
| TempoImport.ImportInContextEffect | src/TimeLogger.Infrastructure/Tempo/TempoImportService.cs:23-107 | in the daily job's shared context, an import that throws commits nothing and leaves the held entries followed by entries of its source; one that imports nothing changes nothing; one that imports commits first what the context held, then its own entries, under the keys that follow |
| TempoImport.FetchedInContextEffect | src/TimeLogger.Infrastructure/Tempo/TempoImportService.cs:51-100 | the same, for the part after the fetch |
| TempoImport.BadStartDateLeavesPrefix | src/TimeLogger.Infrastructure/Tempo/TempoImportService.cs:85-95 | a start date that does not parse throws with nothing committed, the held entries kept, and in the context the entries of the new worklogs before the failing one |
| TempoImport.FreshImportIsImport | src/TimeLogger.Infrastructure/Tempo/TempoImportService.cs:23-107 | in a context with nothing pending, the import has the stand-alone outcome, and on success commits exactly the stand-alone batch |
| TempoImport.BatchSaveOk | src/TimeLogger.Infrastructure/Migrations/20260220083741_InitialCreate.cs:183-187 | a batch of one source's entries, none of whose ids is stored, passes the unique index exactly when its ids are distinct |
| TempoImport.PoisonedJob | src/TimeLogger.Infrastructure/Tempo/TempoImportService.cs:99-130 | once the context holds entries the unique index rejects, no later source commits anything and the job's last save throws |
| TempoImport.PoisonStays | src/TimeLogger.Infrastructure/Tempo/TempoImportService.cs:99-100 | one import in a context the unique index already rejects commits nothing and leaves the context rejected |
| TempoImport.PollOneInFrame | src/TimeLogger.Infrastructure/Tempo/TempoImportService.cs:117-128 | one visit appends only entries of the visited sources and changes sources only by stamping a visited one |
| TempoImport.PollAllTouches | src/TimeLogger.Infrastructure/Tempo/TempoImportService.cs:109-131 | the daily job only appends entries, all of them from visited sources, hands out keys upwards, and changes a source only by stamping one it visited, whether or not its last save throws |
| TempoImport.PollAllStep | src/TimeLogger.Infrastructure/Tempo/TempoImportService.cs:117-128 | one source's import, failure or success, does not stop the job from going on to the next |
| TempoImport.CommitKeepsEntriesValid | src/TimeLogger.Infrastructure/Migrations/20260220083741_InitialCreate.cs:183-187 | committing pending entries under the next keys that the unique index accepts keeps the entries table valid |
| TempoImport.SaveContext | src/TimeLogger.Infrastructure/Tempo/TempoImportService.cs:100 | a successful save of the shared context inserts the pending entries under their keys and writes back the held sources |
| TempoImport.StoreTracked | src/TimeLogger.Infrastructure/Tempo/TempoImportService.cs:44-106 | the loop and the save in the shared context change the database and the pending entries as the reference says |
| TempoImport.SaveTracked | src/TimeLogger.Infrastructure/Tempo/TempoImportService.cs:95-100 | a failed loop throws with its entries left pending, an empty batch saves nothing, and otherwise the save commits everything pending or throws |
| TempoImport.SaveLoadedEffect | src/TimeLogger.Infrastructure/Tempo/TempoImportService.cs:95-100 | the end of an import leaves the context as the import's effect says, given a loop whose entries are of the source |
| TempoImport.ImportTracked | src/TimeLogger.Infrastructure/Tempo/TempoImportService.cs:23-107 | the import in the shared context changes the database and the pending entries as the reference says |
| TempoImport.PollSource | src/TimeLogger.Infrastructure/Tempo/TempoImportService.cs:117-128 | one visit is the import in the shared context, and the stamp left in the context when it did not throw |
| TempoImport.ImportYesterday | src/TimeLogger.Infrastructure/Tempo/TempoImportService.cs:109-131 | the job's effect and whether it throws are those of the reference fold over the enabled Tempo sources followed by the last save |
| TimelogSubmission.RecordOf | src/TimeLogger.Infrastructure/Timelog/TimelogSubmissionService.cs:40-41 | the audit record found belongs to the entry, and none is found exactly when the entry has none |
| TimelogSubmission.SubmitSpec | src/TimeLogger.Infrastructure/Timelog/TimelogSubmissionService.cs:16-92 | a submission never adds or removes entries |
| TimelogSubmission.Post | src/TimeLogger.Infrastructure/Timelog/TimelogSubmissionService.cs:45-91 | posting never adds or removes entries |
| TimelogSubmission.SubmitGuards | src/TimeLogger.Infrastructure/Timelog/TimelogSubmissionService.cs:18-33 | an entry without a task, or whose task is missing, changes nothing; whenever nothing is posted, nothing changes and the remote answer plays no part |
| TimelogSubmission.SubmitPosts | src/TimeLogger.Infrastructure/Timelog/TimelogSubmissionService.cs:24-47 | with a found task whose external id parses, the registration is posted with that number as its task |
| TimelogSubmission.PostEntries | src/TimeLogger.Infrastructure/Timelog/TimelogSubmissionService.cs:31-89 | the request carries the task number, the yyyy-MM-dd date, the seconds and the description, not billable; the entry becomes Submitted on success and Failed otherwise; the audit table is updated |
| TimelogSubmission.UpsertValid | src/TimeLogger.Infrastructure/Migrations/20260220083741_InitialCreate.cs:214-218 | writing a record keeps one record per entry and unique keys |
| TimelogSubmission.UpsertRecord | src/TimeLogger.Infrastructure/Timelog/TimelogSubmissionService.cs:56-72 | the entry then has a record with the given status, message, attempt count and time; an existing record keeps its key, and a new one is added only when none existed |
| TimelogSubmission.UpsertKeepsOthers | src/TimeLogger.Infrastructure/Timelog/TimelogSubmissionService.cs:116-133 | writing one entry's record leaves every other entry's record as it was |
| TimelogSubmission.PostKeepsValid | src/TimeLogger.Infrastructure/Migrations/20260220083741_InitialCreate.cs:214-218 | posting keeps one record per entry |
| TimelogSubmission.AuditValid | src/TimeLogger.Infrastructure/Migrations/20260220083741_InitialCreate.cs:214-218 | the audit write keeps one record per entry |
| TimelogSubmission.VerdictStatus | src/TimeLogger.Infrastructure/Timelog/TimelogSubmissionService.cs:54-87 | the entry becomes Submitted and the record Success on success, and both Failed otherwise |
| TimelogSubmission.AuditRecord | src/TimeLogger.Infrastructure/Timelog/TimelogSubmissionService.cs:43-89 | the attempt count becomes one more than before (1 with no record); success clears the message, a rejection stores "<status code>: <error>", and an exception stores its message |
| TimelogSubmission.AuditKeepsOthers | src/TimeLogger.Infrastructure/Timelog/TimelogSubmissionService.cs:109-134 | the audit write leaves every other entry's record as it was |
| TimelogSubmission.PersistFailure | src/TimeLogger.Infrastructure/Timelog/TimelogSubmissionService.cs:109-134 | the failed record is written in place when one exists and added otherwise |
| TimelogSubmission.PersistSuccess | src/TimeLogger.Infrastructure/Timelog/TimelogSubmissionService.cs:56-72 | the success record is written in place when one exists and added otherwise, with no message |
| TimelogSubmission.SetStatus | src/TimeLogger.Infrastructure/Timelog/TimelogSubmissionService.cs:54 | only that entry's status changes |
| TimelogSubmission.PostEntry | src/TimeLogger.Infrastructure/Timelog/TimelogSubmissionService.cs:45-91 | the tables change as the reference post says |
| TimelogSubmission.Submit | src/TimeLogger.Infrastructure/Timelog/TimelogSubmissionService.cs:16-92 | the tables and the outcome are those of the reference submission |
| TimelogSubmission.SubmitEach | src/TimeLogger.Infrastructure/Timelog/TimelogSubmissionService.cs:103-106 | submitting a list of entries keeps the entries table's length |
| TimelogSubmission.SubmitEachTouches | src/TimeLogger.Infrastructure/Timelog/TimelogSubmissionService.cs:94-107 | entries not in the list are unchanged, and listed entries change only their status |
| TimelogSubmission.SubmitSpecTouches | src/TimeLogger.Infrastructure/Timelog/TimelogSubmissionService.cs:16-92 | one submission changes at most that entry's status, and keeps one record per entry |
| TimelogSubmission.SubmitEachStep | src/TimeLogger.Infrastructure/Timelog/TimelogSubmissionService.cs:103-106 | unless `int.Parse` throws, one entry is submitted and the loop goes on with the next |
| TimelogSubmission.SubmitPositions | src/TimeLogger.Infrastructure/Timelog/TimelogSubmissionService.cs:103-106 | the loop's effect is the reference sequence of submissions |
| TimelogSubmission.SubmitAllPending | src/TimeLogger.Infrastructure/Timelog/TimelogSubmissionService.cs:94-107 | exactly the Mapped or Failed entries with a task are submitted, one at a time, in table order |
| Entries.ManuallyMapped | src/TimeLogger.Infrastructure/Services/EntryService.cs:29-31 | the entry becomes Mapped to the given project and task whatever its status was, and keeps every other field, its rule reference included |
| Entries.MarkedIgnored | src/TimeLogger.Infrastructure/Services/EntryService.cs:39-40 | the entry becomes Ignored whatever its status was, and keeps every other field |
| Entries.ManualMap | src/TimeLogger.Infrastructure/Services/EntryService.cs:24-33 | an unknown key is an error that changes nothing; otherwise only that entry changes, to its manually mapped form |
| Entries.Ignore | src/TimeLogger.Infrastructure/Services/EntryService.cs:35-42 | an unknown key is an error that changes nothing; otherwise only that entry changes, to Ignored |
| Entries.Unmapped | src/TimeLogger.Infrastructure/Services/EntryService.cs:10-18 | the list is drawn from the table, holds every Pending or Failed entry and only those, latest work date first |
| Entries.UnmappedCount | src/TimeLogger.Infrastructure/Services/EntryService.cs:20-22 | the count is the length of the unmapped list |
| Entries.ManualMapLowersUnmapped | src/TimeLogger.Infrastructure/Services/EntryService.cs:24-33 | mapping an entry by hand lowers the unmapped count by one exactly when it was Pending or Failed |
| Entries.IgnoreLowersUnmapped | src/TimeLogger.Infrastructure/Services/EntryService.cs:35-42 | ignoring an entry lowers the unmapped count by one exactly when it was Pending or Failed |
| Entries.Wrap32 | src/TimeLogger.Infrastructure/Services/EntryService.cs:49 | the 32-bit arithmetic of the offset is the identity on values that fit |
| Entries.Newest | src/TimeLogger.Infrastructure/Services/EntryService.cs:48 | the list is a permutation of the table, newest import first |
| Entries.TotalCount | src/TimeLogger.Infrastructure/Services/EntryService.cs:55-56 | the total is the length of the list the pages cut up |
| Entries.PageHolds | src/TimeLogger.Infrastructure/Services/EntryService.cs:44-53 | page p holds positions (p-1) * size up to p * size - 1 of the newest-first list, as far as the list reaches |
| Entries.EntryOnPage | src/TimeLogger.Infrastructure/Services/EntryService.cs:44-53 | the j-th newest entry is item j mod size of page j / size + 1 |
| Submissions.ReadyList | src/TimeLogger.Infrastructure/Services/SubmissionService.cs:73-109 | the list is drawn from the table, holds every Mapped or Failed entry with a task and only those, earliest work date first |
| Submissions.ReadyCount | src/TimeLogger.Infrastructure/Services/SubmissionService.cs:16-18 | the ready count counts Mapped entries with a task: the ready list less its Failed entries |
| Submissions.SubmittedCount | src/TimeLogger.Infrastructure/Services/SubmissionService.cs:20-22 | the count is the number of Submitted entries |
| Submissions.FailedCount | src/TimeLogger.Infrastructure/Services/SubmissionService.cs:24-26 | the count is the number of failed audit records |
| Submissions.SubmittedCountAfterPost | src/TimeLogger.Infrastructure/Services/SubmissionService.cs:20-22 | a post changes the submitted count by its own entry alone, which counts afterwards exactly when the post succeeded |
| Submissions.FailedCountAfterAudit | src/TimeLogger.Infrastructure/Services/SubmissionService.cs:24-26 | an audit write changes the failed count by its own entry's record alone, which counts afterwards exactly when the post did not succeed |
| Submissions.Skip | src/TimeLogger.Infrastructure/Services/SubmissionService.cs:127-133 | an unknown key is an error that changes nothing; otherwise only that entry changes, to Ignored, whatever its status was |
| Submissions.SelectionOnce | src/TimeLogger.Infrastructure/Services/SubmissionService.cs:117-125 | the selection holds each entry whose key was selected once, and nothing else; unknown and repeated keys add nothing |
| Submissions.SubmitSelected | src/TimeLogger.Infrastructure/Services/SubmissionService.cs:117-125 | the selected entries are submitted one after another, in table order |
| TimelogSync.ProjectKeys | src/TimeLogger.Infrastructure/Timelog/TimelogSyncService.cs:25 | each listed project is keyed by its project id as text |
| TimelogSync.LastProject | src/TimeLogger.Infrastructure/Timelog/TimelogSyncService.cs:23-53 | the listing that set a key's row last is found, and none is found exactly when no listing has that key |
| TimelogSync.UpsertProject | src/TimeLogger.Infrastructure/Timelog/TimelogSyncService.cs:27-48 | the upserted row is a row of the table |
| TimelogSync.UpsertProjectMeans | src/TimeLogger.Infrastructure/Timelog/TimelogSyncService.cs:27-48 | a stored project with the key is updated in place to the listing's name and description, active, synced now; an unknown key adds one such row; keys stay unique |
| TimelogSync.RetireProjects | src/TimeLogger.Infrastructure/Timelog/TimelogSyncService.cs:55-67 | the stale loop keeps the table's length |
| TimelogSync.TaskKeys | src/TimeLogger.Infrastructure/Timelog/TimelogSyncService.cs:95 | each listed task is keyed by its task id as text |
| TimelogSync.LastTask | src/TimeLogger.Infrastructure/Timelog/TimelogSyncService.cs:93-116 | the listing that set a key's task last is found, and none is found exactly when no listing has that key |
| TimelogSync.TaskLoop | src/TimeLogger.Infrastructure/Timelog/TimelogSyncService.cs:93-116 | the upsert loop never removes tasks |
| TimelogSync.RetireTasks | src/TimeLogger.Infrastructure/Timelog/TimelogSyncService.cs:118-124 | the stale loop keeps the table's length |
| TimelogSync.TaskLoopMeans | src/TimeLogger.Infrastructure/Timelog/TimelogSyncService.cs:89-116 | after the upsert loop, each loaded task of the project is updated by the last listing with its key; tasks of other projects are untouched; the listings with no loaded match are added, in order, with consecutive keys |
| TimelogSync.AppendedDistinct | src/TimeLogger.Infrastructure/Persistence/Configurations/TimelogTaskConfiguration.cs:16 | new tasks keyed apart from the stored ones keep (project, external id) unique exactly when they are unique among themselves |
| TimelogSync.RetiredRows | src/TimeLogger.Infrastructure/Timelog/TimelogSyncService.cs:89-124 | after the stale loop, each loaded task is in its final synced state, and the added tasks follow in order |
| TimelogSync.SavedKeys | src/TimeLogger.Infrastructure/Persistence/Configurations/TimelogTaskConfiguration.cs:16 | the save keeps the unique index exactly when the added listings have distinct task ids, and then the tasks table stays valid |
| TimelogSync.SyncTasksMeans | src/TimeLogger.Infrastructure/Timelog/TimelogSyncService.cs:80-127 | one project's task sync fails with a duplicate exactly when two unmatched listings share a task id, and then changes nothing; otherwise each loaded task reaches its final state, active tasks of the project that were not listed become inactive, and the new tasks are appended with fresh keys |
| TimelogSync.RoundValid | src/TimeLogger.Infrastructure/Timelog/TimelogSyncService.cs:23-53 | one project's round keeps the catalogue valid and never lowers the key counter |
| TimelogSync.ListingAppend | src/TimeLogger.Infrastructure/Timelog/TimelogSyncService.cs:27-48 | a further listing rewrites the project with its key and no other |
| TimelogSync.ProjectLoopMeans | src/TimeLogger.Infrastructure/Timelog/TimelogSyncService.cs:23-53 | the project loop keeps the catalogue valid, and when it completes every project is in the state the last listing with its key gives it |
| TimelogSync.ProjectTurn | src/TimeLogger.Infrastructure/Timelog/TimelogSyncService.cs:27-48 | one more upsert keeps every row in its last-listed state |
| TimelogSync.SyncMeans | src/TimeLogger.Infrastructure/Timelog/TimelogSyncService.cs:14-70 | a failed listing changes nothing; a completed sync keeps the catalogue valid, brings every old project to its final state (refreshed if listed, retired if active and unlisted, else unchanged), adds rows only for listed keys, and stores every listed key |
| TimelogSync.LastSyncedAt | src/TimeLogger.Infrastructure/Timelog/TimelogSyncService.cs:72-78 | the latest sync time is none exactly when there are no projects, and otherwise is the greatest project sync time |
| TimelogSync.SamePlaceBound | src/TimeLogger.Infrastructure/Timelog/TimelogSyncService.cs:74-77 | the first row of a descending sort bounds every row's sync time and is one of the rows |
| TimelogSync.UpsertProjectRow | src/TimeLogger.Infrastructure/Timelog/TimelogSyncService.cs:27-48 | the in-place upsert gives the reference upsert and keeps the tables valid |
| TimelogSync.UpsertTasks | src/TimeLogger.Infrastructure/Timelog/TimelogSyncService.cs:93-116 | the loop gives the reference upsert loop |
| TimelogSync.RetireStaleTasks | src/TimeLogger.Infrastructure/Timelog/TimelogSyncService.cs:118-124 | the loop gives the reference stale-task pass |
| TimelogSync.SyncProjectTasks | src/TimeLogger.Infrastructure/Timelog/TimelogSyncService.cs:80-127 | the tasks table and the outcome are those of the reference task sync, and the tables stay valid |
| TimelogSync.SyncProjects | src/TimeLogger.Infrastructure/Timelog/TimelogSyncService.cs:23-53 | the loop over the listed projects gives the reference project loop |
| TimelogSync.SyncProject | src/TimeLogger.Infrastructure/Timelog/TimelogSyncService.cs:25-52 | one project's round gives the reference round |
| TimelogSync.ProjectLoopStops | src/TimeLogger.Infrastructure/Timelog/TimelogSyncService.cs:23-53 | once a project's task sync fails, the loop's outcome is that failure |
| TimelogSync.RetireStaleProjects | src/TimeLogger.Infrastructure/Timelog/TimelogSyncService.cs:55-67 | the loop gives the reference stale-project pass |
| TimelogSync.RetireProjectsValid | src/TimeLogger.Infrastructure/Timelog/TimelogSyncService.cs:55-67 | the stale pass keeps the projects table valid |
| TimelogSync.SyncCatalogue | src/TimeLogger.Infrastructure/Timelog/TimelogSyncService.cs:14-70 | the sync's effect on the tables and its outcome are those of the reference sync |
| Store.SourceTypeOf | src/TimeLogger.Application/Mapping/MappingEngine.cs:120-121 | an entry's source type is its source's type, and absent exactly when no source has the key |
| Store.MarkPolled | src/TimeLogger.Infrastructure/FileImport/FileImportService.cs:104-108 | stamping a source's last poll time changes that source's row and no other |
| Store.AppendKeepsEntriesValid | src/TimeLogger.Infrastructure/Migrations/20260220083741_InitialCreate.cs:183-187 | appending entries under the next keys, with new and distinct external ids, keeps the entries table valid |

## Left out

- Regular expressions: `Regex.IsMatch` with its one-second timeout is a `RegexOracle` parameter. An invalid pattern or a timeout throws in the source; in the model the oracle simply answers.
- JSON: parsing and serialising metadata documents is not modelled. A document is a `Bag` of properties in document order, and a null, blank or unparsable one is `None`. A document whose root is not an object, such as `[1]`, makes `TryGetProperty` throw an InvalidOperationException that the `catch (JsonException)` of the mapping engine does not catch, so evaluating a rule on it throws; a `Bag` cannot represent such a document, and the pipeline only writes objects.
- `SHA256` and its truncation to the first 24 hex characters: an opaque `digest` of the joined key, a parameter. Its collisions are not modelled.
- CsvHelper and EPPlus: reading a file is not modelled. The input is its rows as (header, value) cells with their row numbers, Excel's blank rows already dropped; a file that cannot be read is `Err(message)`.
- Date parsing (`TryParseDate` with its formats and OA dates) and decimal hours: oracles in `Parsers`. The clock form of hours is modelled in full, with hours up to 23 and minutes and seconds as two digits up to 59.
- `Math.Round(seconds / 3600.0, 2)`: floating point. The request carries seconds, and the list items are not modelled.
- `ToListItem` and the display-name joins (`GetRecentAsync`, the item shape of `GetReadyToSubmitAsync`, the DTO of `GetAllAsync` for rules): view-model projections with no logic. They are not modelled; the queries return entries.
- `GetRecentAsync` and `TriggerSubmitAllAsync`: a display join and a Hangfire enqueue, with no pipeline logic.
- HTTP, Refit, authentication, and the Jira, Tempo and Timelog clients: their answers are the `Env`, `Remote` and `Api` parameters.
- Failure atomicity: each `SaveChangesAsync` is one atomic commit. The daily Tempo job's shared context is modelled: entries added before an exception stay pending and a later save commits or rejects them. Every other operation runs in its own request scope, whose context is discarded when it throws, so a thrown exception leaves no change there.
- TempoImport.ImportTracked, TempoImport.PollSource, TempoImport.ImportYesterday: identity keys are taken as handed out in the order entries are added to the context, and a rejected save consumes none.
- Foreign keys: a missing import source, project or task is not checked on insert.
- Logging, the clock (`now` is a parameter), async and cancellation tokens.
- ImportSourceService, TimelogDataService, EmployeeMappingService, the jobs, DI wiring and startup: outside the pipeline.
- Entries.Page: the model clamps a negative or oversized skip and take as LINQ to Objects does; the SQL translation may reject a negative OFFSET instead.
- Ordering ties: SQL gives no order among rows with equal sort keys. The model breaks ties by table order, through a stable sort.
- Sync keys: projects are keyed by `ProjectId` as text, as the code does (TimelogSyncService.cs:25), not by `Id` as TimelogSyncServiceTests.cs:57 expects.
- Task activity: `IsActive` of a listed task is taken as an input field of the listing.
- Task sync failure: when the save of a project's tasks breaks the unique index, no task is written and the key counter is not advanced; SQL Server would already have consumed identity values.
- File name: the doc comment of `ImportAsync` says the dedup key includes the file name, but `ComputeExternalId` does not use it; the model follows the code.
- TempoImport.FetchAll: the offsets it requests are stated through a ghost out-parameter; its real result is tied to the reference fetch.
- Metadata as a map: the document is kept as an ordered sequence, not a map, so that duplicate property names resolve as the JSON reader does.

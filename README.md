# Graylog core logic in Dafny

This project models seven sequential pieces of the Graylog log-management
server and web interface, and proves properties of them.

- **Failure handling** (`Failures`, `FailureDispatch`, `FailureQueue`, `FailureService`).
  - Failures from indexing, processing and inputs are grouped into batches, each tagged with one origin type.
  - Batches go through a bounded FIFO submission queue.
  - A consumer hands each batch to every enabled custom handler that supports it. When no custom handler does, the fallback handler gets it, if it is enabled and supports it. Otherwise nobody gets it.
  - A handler that throws does not stop the consumer.
  - After a processing batch is handled, the failures flagged for acknowledgement are acknowledged in one call.
  - On shutdown the service drains the queue, polling with the configured timeout until a poll yields nothing.
  - The service class records every handler call and every acknowledger call in ghost logs. Its methods are proved to produce exactly the calls the pure dispatch policy prescribes.
- **Messages** (`Messages`).
  - Key validation and key cleaning.
  - The field map: values are trimmed and blank strings dropped, and message, source and timestamp cannot be removed.
  - The stream set, the metadata map and the append-only processing-error list.
- **Versions** (`Versions`).
  - Building semantic versions from their parts.
  - Deciding the version read from the classpath properties: existing build metadata is preferred, otherwise the commit sha is abbreviated and used, and the default applies on failure.
  - Precedence as in section 11 of Semantic Versioning 2.0.0, `compareTo`/`equals`, and `sameOrHigher`, which compares a pre-release by its stable core.
- **Pipelines** (`Pipelines`): the pipeline AST node. This covers its factories, the `containsRule` query, and the guard that installs and marks the execution meter only for pipelines with an id.
- **Closing retention** (`ClosingRetention`): the closing retention strategy configuration, its factories, and its check against disabled strategies.
- **Rule usage** (`RuleUsage`): the context the rule resource attaches to a page of rules. It maps each rule id to the pipelines that use the rule's title.
- **Content-pack constraints** (`ContentPacks`): the web interface's constraint value, its JSON form and its immutable builder.

Three pieces are modelled from their tests, because their implementation files are not part of this model:

- the failure handling service (`FailureHandlingService.java`);
- the message class (`Message.java`);
- the rule resource (`RuleResource.java`).

Java's `null` and JavaScript's missing values are `Option.None` or the `Undefined`/`Null` values of `ContentPacks.JsValue`.

## Model

| member | source | states |
|---|---|---|
| Failures.IndexingFailureBatch | graylog2-server/src/test/java/org/graylog/failure/FailureHandlingServiceTest.java:293-295 | the indexing factory tags the batch Indexing, keeps the failures, and the batch is homogeneous |
| Failures.ProcessingFailureBatch | graylog2-server/src/test/java/org/graylog/failure/FailureHandlingServiceTest.java:297-299 | the processing factory tags the batch Processing, keeps the failures in order, and the batch is homogeneous |
| Failures.InputFailureBatch | graylog2-server/src/test/java/org/graylog/failure/FailureHandlingServiceTest.java:225 | the input factory tags the batch Input, keeps the failures, and the batch is homogeneous |
| FailureDispatch.SuitableCustomsEmpty | graylog2-server/src/test/java/org/graylog/failure/FailureHandlingServiceTest.java:70-92 | no custom handler is picked exactly when no custom handler is both enabled and supporting the batch |
| FailureDispatch.SuitableCustomsCount | graylog2-server/src/test/java/org/graylog/failure/FailureHandlingServiceTest.java:134-158 | with distinct handler names, a custom handler is picked once if it is suitable and not at all otherwise |
| FailureDispatch.CallsFaithful | graylog2-server/src/test/java/org/graylog/failure/FailureHandlingServiceTest.java:155-157 | the picked handlers are called one call each, in order, every call with the batch itself, so a handler's call count is its number of occurrences |
| FailureDispatch.AckFilterMembers | graylog2-server/src/test/java/org/graylog/failure/FailureHandlingServiceTest.java:190-216 | the acknowledgement list holds exactly the processing failures whose ack flag is set |
| FailureDispatch.AckFilterNoProcessing | graylog2-server/src/test/java/org/graylog/failure/FailureHandlingServiceTest.java:219-243 | failures that are not processing failures are never in the acknowledgement list |
| FailureDispatch.RunAppend | graylog2-server/src/test/java/org/graylog/failure/FailureHandlingServiceTest.java:178-186 | batches consumed one after another cause their calls and acknowledgements in submission order: a run's log is the log of its first part followed by that of the rest |
| FailureDispatch.RunStep | graylog2-server/src/test/java/org/graylog/failure/FailureHandlingServiceTest.java:178-186 | consuming the oldest queued batch extends the log by that batch's calls, and the rest of the run supplies the remainder |
| FailureDispatch.FallbackOnly | graylog2-server/src/test/java/org/graylog/failure/FailureHandlingServiceTest.java:70-92 | with no suitable custom handler and a suitable fallback, the only call is one fallback call with the batch, and custom handlers get no call |
| FailureDispatch.Unroutable | graylog2-server/src/test/java/org/graylog/failure/FailureHandlingServiceTest.java:102-124 | with neither a suitable custom handler nor a suitable fallback, no handler is called |
| FailureDispatch.CustomsOverrideFallback | graylog2-server/src/test/java/org/graylog/failure/FailureHandlingServiceTest.java:134-158 | when some custom handler is suitable, each suitable custom handler is called exactly once, unsuitable ones never, and the fallback never, even if it supports the batch |
| FailureDispatch.OnlyResolvedHandlersCalled | graylog2-server/src/test/java/org/graylog/failure/FailureHandlingServiceTest.java:70-158 | any handler that gets a call is a suitable custom handler, or the suitable fallback when no custom handler is suitable |
| FailureDispatch.ThrowingHandlerStillCalled | graylog2-server/src/test/java/org/graylog/failure/FailureHandlingServiceTest.java:161-187 | a fallback that throws on the first of two batches is still called with the second |
| FailureDispatch.AckFilterCount | graylog2-server/src/test/java/org/graylog/failure/FailureHandlingServiceTest.java:190-216 | each flagged processing failure is in the acknowledgement list exactly as often as in the batch, and nothing else is in it, so nothing is acknowledged twice |
| FailureDispatch.AckFilterAppend | graylog2-server/src/test/java/org/graylog/failure/FailureHandlingServiceTest.java:190-216 | the acknowledgement list keeps batch order: filtering two parts one after the other is filtering the whole |
| FailureDispatch.AckedOnceWithFlagged | graylog2-server/src/test/java/org/graylog/failure/FailureHandlingServiceTest.java:190-216 | a batch holding a flagged processing failure causes exactly one acknowledger call, whose list holds the flagged processing failures with their multiplicity; a batch of just that failure is acknowledged with the one-element list of it |
| FailureDispatch.NoAckForIndexingOrInput | graylog2-server/src/test/java/org/graylog/failure/FailureHandlingServiceTest.java:219-243 | indexing and input batches never cause an acknowledger call |
| FailureDispatch.AtMostOneAckPerBatch | graylog2-server/src/test/java/org/graylog/failure/FailureHandlingServiceTest.java:214-215 | a run of batches causes at most one acknowledger call per batch |
| FailureQueue.FailureSubmissionQueue.constructor | graylog2-server/src/test/java/org/graylog/failure/FailureHandlingServiceTest.java:63-65 | the queue takes its capacity from configuration and starts empty |
| FailureQueue.FailureSubmissionQueue.SubmitBlocking | graylog2-server/src/test/java/org/graylog/failure/FailureHandlingServiceTest.java:84 | a submit into a queue with room appends the batch at the end, within capacity |
| FailureQueue.FailureSubmissionQueue.ConsumeBlockingWithTimeout | graylog2-server/src/test/java/org/graylog/failure/FailureHandlingServiceTest.java:257-259 | a timed poll returns and removes the oldest batch, or returns nothing and leaves the queue alone when it is empty |
| FailureQueue.FailureSubmissionQueue.ConsumeBlocking | graylog2-server/src/test/java/org/graylog/failure/FailureHandlingServiceTest.java:86-87 | the consumer takes and removes the oldest batch |
| FailureQueue.FailureSubmissionQueue.QueueSize | graylog2-server/src/test/java/org/graylog/failure/FailureHandlingServiceTest.java:87 | the size is the number of queued batches |
| FailureQueue.FifoClient | graylog2-server/src/test/java/org/graylog/failure/FailureHandlingServiceTest.java:178-182 | two batches submitted to an empty queue come out in submission order and leave it empty |
| FailureService.FailureHandlingService.Start | graylog2-server/src/test/java/org/graylog/failure/FailureHandlingServiceTest.java:80-81 | a new service becomes running; a start in any other state is refused and changes nothing |
| FailureService.FailureHandlingService.HandleBatch | graylog2-server/src/test/java/org/graylog/failure/FailureHandlingServiceTest.java:155-215 | handling a batch appends exactly the dispatch policy's calls to the call log and exactly the batch's acknowledgement calls to the acknowledger log |
| FailureService.FailureHandlingService.ConsumeNext | graylog2-server/src/test/java/org/graylog/failure/FailureHandlingServiceTest.java:84-91 | one consumer step removes the oldest batch and logs exactly its dispatch calls and acknowledgements |
| FailureService.FailureHandlingService.RunUntilIdle | graylog2-server/src/test/java/org/graylog/failure/FailureHandlingServiceTest.java:86-186 | the consumer empties the queue, and the logs grow by exactly the calls and acknowledgements of every queued batch, in submission order |
| FailureService.FailureHandlingService.Stop | graylog2-server/src/test/java/org/graylog/failure/FailureHandlingServiceTest.java:246-271 | a running service drains: it polls once per pending batch plus one final empty poll, every poll with the configured shutdown timeout, handles every pending batch in order, and terminates; a service that is not running terminates without touching queue or logs |
| FailureService.ShutdownDrainsPendingBatch | graylog2-server/src/test/java/org/graylog/failure/FailureHandlingServiceTest.java:246-271 | with one pending batch and only a suitable fallback, stopping polls twice, both times with the configured 300 ms, calls the fallback once with the batch, and terminates |
| Messages.CleanKeyPointwise | graylog2-server/src/test/java/org/graylog2/plugin/MessageTest.java:374-392 | cleaning keeps the length and replaces each invalid character by exactly one underscore, leaving valid ones in place |
| Messages.CleanKeyIsValid | graylog2-server/src/test/java/org/graylog2/plugin/MessageTest.java:374-392 | a cleaned key is always a valid key |
| Messages.CleanKeyFixesExactlyValid | graylog2-server/src/test/java/org/graylog2/plugin/MessageTest.java:357-392 | cleaning leaves a key unchanged exactly when the key is valid |
| Messages.CleanKeyIdempotent | graylog2-server/src/test/java/org/graylog2/plugin/MessageTest.java:374-392 | cleaning twice is cleaning once |
| Messages.TrimSpec | graylog2-server/src/test/java/org/graylog2/plugin/MessageTest.java:120-130 | trimming yields the slice between the outermost non-blank characters; everything cut off is blank and the result starts and ends with a non-blank |
| Messages.TrimIdempotent | graylog2-server/src/test/java/org/graylog2/plugin/MessageTest.java:120-130 | a trimmed value is its own trim |
| Messages.TrimEmptyIffBlank | graylog2-server/src/test/java/org/graylog2/plugin/MessageTest.java:133-151 | a value trims to nothing exactly when all of it is blank |
| Messages.NormalizeClean | graylog2-server/src/test/java/org/graylog2/plugin/MessageTest.java:120-158 | a stored value is never blank or untrimmed, and a value already in that form is stored unchanged |
| Messages.WithFieldEffect | graylog2-server/src/test/java/org/graylog2/plugin/MessageTest.java:101-158 | adding a field with an invalid key, a null value or a blank string stores nothing; otherwise the key maps to the trimmed string or the value itself; no other field changes |
| Messages.WithFieldWellFormed | graylog2-server/src/test/java/org/graylog2/plugin/MessageTest.java:101-130 | adding a field keeps every stored key valid and every stored value clean |
| Messages.StorableEntriesEffect | graylog2-server/src/test/java/org/graylog2/plugin/MessageTest.java:161-171 | adding a map of fields stores exactly its storable entries, overriding old values, and keeps old fields the map cannot override |
| Messages.WithoutFieldEffect | graylog2-server/src/test/java/org/graylog2/plugin/MessageTest.java:174-190 | removing a field deletes it unless it is message, source or timestamp, touches nothing else, and keeps the field invariant |
| Messages.InitialFieldsEffect | graylog2-server/src/test/java/org/graylog2/plugin/MessageTest.java:133-151 | the constructor stores the id unchanged under `_id`, message and source trimmed and neither when it is null or blank, always the timestamp, and no other field |
| Messages.InitialFieldNames | graylog2-server/src/test/java/org/graylog2/plugin/MessageTest.java:512-535 | a message built with message text and source has exactly the fields _id, message, source and timestamp, and _id holds its id |
| Messages.UuidTextClean | graylog2-server/src/test/java/org/graylog2/plugin/MessageTest.java:296-300 | a generated id, a UUID in text form, has nothing to trim and is a storable value |
| Messages.InitialFieldsWellFormed | graylog2-server/src/test/java/org/graylog2/plugin/MessageTest.java:133-151 | with a generated id, the fields of a new message already satisfy the field invariant: valid keys and clean values |
| Messages.InitialComplete | graylog2-server/src/test/java/org/graylog2/plugin/MessageTest.java:494-509 | a new message is complete exactly when its message text is neither null nor blank, whatever the source |
| Messages.Message.constructor | graylog2-server/src/test/java/org/graylog2/plugin/MessageTest.java:133-151 | a new message holds the initial fields and no streams, metadata or errors |
| Messages.Message.FromFields | graylog2-server/src/test/java/org/graylog2/plugin/MessageTest.java:133-151 | a message built from a field map holds exactly the storable entries |
| Messages.Message.AddField | graylog2-server/src/test/java/org/graylog2/plugin/MessageTest.java:101-158 | adding a field updates the field map as the field rule says and keeps the invariant |
| Messages.Message.AddFields | graylog2-server/src/test/java/org/graylog2/plugin/MessageTest.java:161-171 | adding the entries one key at a time, in any order, adds exactly their storable part |
| Messages.Message.RemoveField | graylog2-server/src/test/java/org/graylog2/plugin/MessageTest.java:174-190 | removing a field follows the removal rule and keeps the invariant |
| Messages.Message.GetField | graylog2-server/src/test/java/org/graylog2/plugin/MessageTest.java:101-117 | a field read returns the stored value, or null when the key is absent |
| Messages.Message.HasField | graylog2-server/src/test/java/org/graylog2/plugin/MessageTest.java:545-551 | the check is true exactly when the key is stored |
| Messages.Message.IsComplete | graylog2-server/src/test/java/org/graylog2/plugin/MessageTest.java:494-509 | a message is complete exactly when a non-empty message text is stored |
| Messages.Message.AddStream | graylog2-server/src/test/java/org/graylog2/plugin/MessageTest.java:217-227 | adding a stream inserts it into the set |
| Messages.Message.AddStreams | graylog2-server/src/test/java/org/graylog2/plugin/MessageTest.java:206-214 | adding several streams inserts all of them |
| Messages.Message.RemoveStream | graylog2-server/src/test/java/org/graylog2/plugin/MessageTest.java:233-240 | the stream is no longer assigned afterwards, and the result is true exactly when it was assigned before |
| Messages.Message.GetStreams | graylog2-server/src/test/java/org/graylog2/plugin/MessageTest.java:222-231 | the result is the current stream set as a value |
| Messages.Message.SetMetadata | graylog2-server/src/test/java/org/graylog2/plugin/MessageTest.java:651-652 | setting a metadata key maps it to the value and leaves the other keys |
| Messages.Message.RemoveMetadata | graylog2-server/src/test/java/org/graylog2/plugin/MessageTest.java:655-660 | removing a metadata key clears only that key |
| Messages.Message.GetMetadataValue | graylog2-server/src/test/java/org/graylog2/plugin/MessageTest.java:646-661 | a metadata read gives the value, or null when the key is unset |
| Messages.Message.GetMetadataValueOr | graylog2-server/src/test/java/org/graylog2/plugin/MessageTest.java:664-674 | a metadata read with a default gives the value, or the default when the key is unset |
| Messages.Message.AddProcessingError | graylog2-server/src/test/java/org/graylog2/plugin/MessageTest.java:677-697 | each added error is appended at the end |
| Messages.Message.ProcessingErrors | graylog2-server/src/test/java/org/graylog2/plugin/MessageTest.java:700-714 | the error list is returned as an immutable value, in the order the errors were added |
| Messages.StreamMutators | graylog2-server/src/test/java/org/graylog2/plugin/MessageTest.java:217-241 | a snapshot taken after the first add keeps only that stream; removing an assigned stream reports true, removing it again false; the two others remain |
| Messages.MetadataRoundTrip | graylog2-server/src/test/java/org/graylog2/plugin/MessageTest.java:646-661 | an unset key gives null, set-then-get gives the value, removing another key keeps it, removing the key clears it |
| Versions.SplitJoin | graylog2-server/src/main/java/org/graylog2/plugin/Version.java:204-210 | joining well-formed identifiers into the dotted string and parsing it again gives the identifiers back |
| Versions.From | graylog2-server/src/main/java/org/graylog2/plugin/Version.java:78-119 | a version keeps its core, and gets a pre-release or build part only when the given string is neither null nor empty |
| Versions.Abbreviate | graylog2-server/src/main/java/org/graylog2/plugin/Version.java:219-222 | a sha longer than 7 characters is cut to its first 7, a shorter one is kept |
| Versions.UnreadableGivesDefault | graylog2-server/src/main/java/org/graylog2/plugin/Version.java:229-232 | an unreadable or unparsable version yields the default, which is 0.0.0-unknown for the classpath version |
| Versions.ExistingBuildMetadataKept | graylog2-server/src/main/java/org/graylog2/plugin/Version.java:206-212 | a version property that has build metadata is returned as it is, and the commit sha is not used |
| Versions.CommitShaAsBuildMetadata | graylog2-server/src/main/java/org/graylog2/plugin/Version.java:214-228 | without build metadata in the property, the version keeps core and pre-release, and its build part is the abbreviated sha, or nothing when the sha is missing or empty |
| Versions.CompareStringsLaws | graylog2-server/src/main/java/org/graylog2/plugin/Version.java:300-303 | text comparison of identifiers is antisymmetric and zero exactly on equal strings |
| Versions.CompareIdsLaws | graylog2-server/src/main/java/org/graylog2/plugin/Version.java:300-303 | identifier comparison is antisymmetric and zero exactly on equal identifiers |
| Versions.CompareIdListsLaws | graylog2-server/src/main/java/org/graylog2/plugin/Version.java:300-303 | identifier-list comparison is antisymmetric and zero exactly on equal lists |
| Versions.CompareStringsTransitive | graylog2-server/src/main/java/org/graylog2/plugin/Version.java:300-303 | text comparison of identifiers is transitive |
| Versions.CompareIdsTransitive | graylog2-server/src/main/java/org/graylog2/plugin/Version.java:300-303 | identifier comparison is transitive |
| Versions.CompareIdListsTransitive | graylog2-server/src/main/java/org/graylog2/plugin/Version.java:300-303 | identifier-list comparison is transitive |
| Versions.PrecedenceLaws | graylog2-server/src/main/java/org/graylog2/plugin/Version.java:259-261 | precedence is antisymmetric, and two versions have equal precedence exactly when they differ at most in build metadata |
| Versions.PrecedenceTransitive | graylog2-server/src/main/java/org/graylog2/plugin/Version.java:259-261 | precedence is transitive |
| Versions.CompareToLaws | graylog2-server/src/main/java/org/graylog2/plugin/Version.java:276-303 | `compareTo` is antisymmetric, and `equals` holds exactly for identical versions, so the two agree |
| Versions.CompareToTransitive | graylog2-server/src/main/java/org/graylog2/plugin/Version.java:300-303 | `compareTo` is transitive |
| Versions.PreReleaseMeetsItsRelease | graylog2-server/src/main/java/org/graylog2/plugin/Version.java:262-269 | a pre-release is the same or higher than its own release (2.1.0-beta.2 against 2.1.0), although its precedence is lower |
| Versions.ReleaseSameOrHigher | graylog2-server/src/main/java/org/graylog2/plugin/Version.java:259-261 | for a release, `sameOrHigher` is precedence at least zero, and build metadata plays no part |
| Versions.SameOrHigherReflexive | graylog2-server/src/main/java/org/graylog2/plugin/Version.java:259-270 | every version is the same or higher than itself and than any version of equal precedence |
| Pipelines.RuleReferencesMembers | graylog2-server/src/main/java/org/graylog/plugins/pipelineprocessor/ast/Pipeline.java:77-82 | a rule name occurs among the flattened references exactly when some stage with references lists it |
| Pipelines.Pipeline.constructor | graylog2-server/src/main/java/org/graylog/plugins/pipelineprocessor/ast/Pipeline.java:30-40 | a built pipeline has the given id, name and stages and no meter |
| Pipelines.Pipeline.Empty | graylog2-server/src/main/java/org/graylog/plugins/pipelineprocessor/ast/Pipeline.java:46-48 | the empty pipeline has the given name, no stages, a null id and no meter |
| Pipelines.Pipeline.WithId | graylog2-server/src/main/java/org/graylog/plugins/pipelineprocessor/ast/Pipeline.java:52-54 | `withId` yields a new pipeline that differs only in its id and has no meter |
| Pipelines.Pipeline.ContainsRule | graylog2-server/src/main/java/org/graylog/plugins/pipelineprocessor/ast/Pipeline.java:77-82 | `containsRule` is true exactly when some stage with non-null references lists the rule |
| Pipelines.Pipeline.RegisterMetrics | graylog2-server/src/main/java/org/graylog/plugins/pipelineprocessor/ast/Pipeline.java:65-69 | the meter is installed exactly when the id is non-null; otherwise the slot is unchanged |
| Pipelines.Pipeline.MarkExecution | graylog2-server/src/main/java/org/graylog/plugins/pipelineprocessor/ast/Pipeline.java:71-75 | an installed meter is marked exactly once; without one nothing changes |
| Pipelines.Pipeline.ToString | graylog2-server/src/main/java/org/graylog/plugins/pipelineprocessor/ast/Pipeline.java:96-98 | the text is `Pipeline '<name>' (<id>)`, with "null" for a missing id, and the name sits right after the opening quote |
| Pipelines.MeterOnlyWithId | graylog2-server/src/main/java/org/graylog/plugins/pipelineprocessor/ast/Pipeline.java:65-75 | registering then marking counts one execution for a pipeline with id and none for one without |
| ClosingRetention.Create | graylog2-server/src/main/java/org/graylog2/indexer/retention/strategies/ClosingRetentionStrategyConfig.java:42-45 | the two-argument factory stores type and maximum unchanged |
| ClosingRetention.CreateWithMax | graylog2-server/src/main/java/org/graylog2/indexer/retention/strategies/ClosingRetentionStrategyConfig.java:47-49 | the one-argument factory uses the canonical class name as type and keeps the maximum |
| ClosingRetention.CreateDefault | graylog2-server/src/main/java/org/graylog2/indexer/retention/strategies/ClosingRetentionStrategyConfig.java:35-53 | the default configuration has the canonical type and a maximum of exactly 20 indices |
| ClosingRetention.Validate | graylog2-server/src/main/java/org/graylog2/indexer/retention/strategies/ClosingRetentionStrategyConfig.java:55-65 | validation reports exactly one error, the deactivation message under the strategy field, when the closing strategy is disabled, and no error otherwise |
| ClosingRetention.ValidateIgnoresConfig | graylog2-server/src/main/java/org/graylog2/indexer/retention/strategies/ClosingRetentionStrategyConfig.java:56-64 | validation depends only on the disabled strategies, not on type or maximum |
| RuleUsage.Titles | graylog2-server/src/test/java/org/graylog/plugins/pipelineprocessor/rest/RuleResourceTest.java:114 | the grouping is queried with exactly the titles of the rules on the page |
| RuleUsage.Compact | graylog2-server/src/test/java/org/graylog/plugins/pipelineprocessor/rest/RuleResourceTest.java:128-134 | each pipeline becomes its (id, title) pair, in the grouping's order |
| RuleUsage.UsageByRuleId | graylog2-server/src/test/java/org/graylog/plugins/pipelineprocessor/rest/RuleResourceTest.java:92-136 | the usage map is keyed by rule id, never by title, and its keys are exactly the ids on the page |
| RuleUsage.IdsSnoc | graylog2-server/src/test/java/org/graylog/plugins/pipelineprocessor/rest/RuleResourceTest.java:126-136 | the ids of a page are those of all its rules but the last, plus the last one's |
| RuleUsage.LastIdFresh | graylog2-server/src/test/java/org/graylog/plugins/pipelineprocessor/rest/RuleResourceTest.java:126-136 | with distinct ids, the last rule's id is not yet in the map built from the others |
| RuleUsage.UsageSize | graylog2-server/src/test/java/org/graylog/plugins/pipelineprocessor/rest/RuleResourceTest.java:92-136 | with distinct ids, the usage map has exactly one entry per rule |
| RuleUsage.UsageEntries | graylog2-server/src/test/java/org/graylog/plugins/pipelineprocessor/rest/RuleResourceTest.java:114-136 | with distinct ids, each rule maps to the pipelines grouped under its title, in the grouping's order |
| RuleUsage.EmptyPage | graylog2-server/src/test/java/org/graylog/plugins/pipelineprocessor/rest/RuleResourceTest.java:86-89 | an empty page gives `used_in_pipelines` mapped to an empty map |
| RuleUsage.RuleUsage | graylog2-server/src/test/java/org/graylog/plugins/pipelineprocessor/rest/RuleResourceTest.java:92-136 | every rule on the page has an entry; a title the grouping does not list, or lists with no pipelines, gives an empty list; every pipeline grouped under the title appears in the rule's list |
| ContentPacks.DefaultPlugin | graylog2-web-interface/src/logic/content-packs/Constraint.js:4 | the default plugin replaces only a missing argument, never a given one, so the result is never undefined |
| ContentPacks.Create | graylog2-web-interface/src/logic/content-packs/Constraint.js:4-28 | `create` keeps type and version, and the plugin defaults to 'server' only when it is not given |
| ContentPacks.ToJson | graylog2-web-interface/src/logic/content-packs/Constraint.js:30-38 | the JSON object has exactly the keys type, plugin and version, holding the constraint's parts |
| ContentPacks.JsonRoundTrip | graylog2-web-interface/src/logic/content-packs/Constraint.js:30-43 | reading back the JSON of a constraint that has a plugin gives the same constraint |
| ContentPacks.CreateJsonRoundTrip | graylog2-web-interface/src/logic/content-packs/Constraint.js:26-43 | every created constraint survives the JSON round trip |
| ContentPacks.Set | graylog2-web-interface/src/logic/content-packs/Constraint.js:57-67 | a setter's new builder holds the value under its key and agrees with the old builder on every other key |
| ContentPacks.NewBuilder | graylog2-web-interface/src/logic/content-packs/Constraint.js:45-49 | `builder()` starts with only the plugin, set to 'server' |
| ContentPacks.ToBuilder | graylog2-web-interface/src/logic/content-packs/Constraint.js:20-24 | `toBuilder` holds exactly type, plugin and version, copied from the constraint |
| ContentPacks.Build | graylog2-web-interface/src/logic/content-packs/Constraint.js:69-72 | `build()` as written: the map's `id` becomes the type, the version is undefined, the plugin is 'server' |
| ContentPacks.ReplayKeys | graylog2-web-interface/src/logic/content-packs/Constraint.js:20-67 | no builder the API produces ever holds any key other than type, plugin and version |
| ContentPacks.BuildAsWrittenDropsFields | graylog2-web-interface/src/logic/content-packs/Constraint.js:69-72 | every builder the API produces builds the same constraint, with undefined type and version and plugin 'server' |
| ContentPacks.BuildAsWrittenLosesRoundTrip | graylog2-web-interface/src/logic/content-packs/Constraint.js:20-72 | a constraint of type "plugin" on version ">=1.0" does not come back from its own builder |
| ContentPacks.BuildIntended | graylog2-web-interface/src/logic/content-packs/Constraint.js:69-72 | the corrected `build()` passes the map's type, version and plugin to the constructor |
| ContentPacks.BuildIntendedRoundTrip | graylog2-web-interface/src/logic/content-packs/Constraint.js:20-72 | with the corrected `build()`, a constraint rebuilt from its builder is itself, and `builder()` with type and version set builds what `create` builds |

## Left out

- Threads and blocking in the failure handling service are not modelled:
  - `startAsync`, `awaitRunning`, `stopAsync` and `awaitTerminated` become sequential `Start` and `Stop`;
  - the consumer thread becomes `ConsumeNext` and `RunUntilIdle`;
  - a blocking submit becomes the precondition "queue not full", and a blocking consume the precondition "queue not empty";
  - a timed poll that finds the queue empty yields nothing, since no producer runs while the single consumer waits;
  - the timing of the tests' waits is not modelled.
- The files `FailureHandlingService.java`, `FailureSubmissionQueue.java` and `FailureBatch.java` are not part of this model. The dispatch and acknowledgement rules are those the tests assert:
  - the acknowledger receives the flagged failures themselves;
  - the acknowledger is not called with an empty list.
- Custom handlers are a Java set. The model keeps them in a sequence with distinct names and calls them in sequence order. The set's iteration order is not modelled.
- A handler is identified by its name in the call log. The lemmas that count calls per handler assume distinct names.
- Queue metrics and the service's logging are not modelled.
- The file `Message.java` is not part of this model. The message model follows what the message tests assert, so the following are not modelled:
  - trimming of keys;
  - the rejection of other reserved keys by `addField`;
  - the protection of reserved keys other than message, source and timestamp from `removeField`: the model removes `_id` when asked;
  - timestamp and date conversions;
  - `toElasticSearchObject`, `getSize` and field size accounting;
  - `getFieldAs`, index sets, the filter-out flag and `getStreamIds`.
- The generated UUID of a new message is a constructor parameter, and a stream is represented by its id.
- Messages.Message.IsComplete: completeness is taken as "a non-empty message text is stored", as the tests show. Any check on other required fields is not modelled.
- Semantic-version parsing happens in an external library and is not modelled:
  - `parsed` in `Versions.FromClasspathProperties` is the parse result, or `None` when reading or parsing failed;
  - identifier validation and negative components (which the library rejects with an exception) are not modelled, so components are `nat`;
  - `toString` is not modelled.
- Reading `version.properties` and `git.properties`, and the logging, are not modelled. The property values are parameters.
- Versions.CompareTo: the external library's build-metadata tie-break is taken to compare identifier lists as for pre-releases, with no build metadata lowest.
- Versions.CompareIds: numeric identifiers of equal value, which only happens with leading zeros, are ordered by their text.
- Versions.CommitShaAsBuildMetadata: the contract states the build part for dot-free shas only. A sha containing '.' would be split into several identifiers.
- Pipeline stages are a sorted set in the source. The model keeps them as a sequence and models only stage numbers and rule references.
- The metric registry is a parameter: `RegisterMetrics` receives the meter the registry would return for the pipeline id. A meter is modelled only by its count.
- Memoized `hashCode` and the AutoValue builder of pipelines are not modelled.
- The values of `ClosingRetentionStrategy.NAME` and `RetentionStrategyConfig.FIELD_NAME` are defined outside this model. They are taken to be "close" and "retention_strategy".
- Bean validation (`@Min(1)`) and JSON annotations on the closing retention configuration are not modelled.
- The file `RuleResource.java` is not part of this model.
  - Its grouping of all pipelines by rule title is a function parameter.
  - Rule ids are database keys, so distinct ids are assumed. With duplicate ids the model keeps the last rule's entry.
  - Pipelines are modelled only by id and title.
- Constraint values other than strings, `undefined` and `null` are not modelled. An Immutable.js map is a Dafny map.

## Findings

| source | as written | input that shows it | evidently intended | confidence | as-written member | corrected member |
|---|---|---|---|---|---|---|
| graylog2-web-interface/src/logic/content-packs/Constraint.js:69-72 | `build()` reads the map's `id` entry, which no setter writes, and passes it as the only constructor argument | `Constraint.builder().type('plugin').version('>=1.0').build()` yields type undefined, version undefined, plugin 'server'; so does `toBuilder().build()` of any constraint | pass the map's type, version and plugin to the constructor, so that a constraint rebuilt from its own builder is itself | not executed | ContentPacks.BuildAsWrittenDropsFields | ContentPacks.BuildIntendedRoundTrip |

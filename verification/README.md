# Modela, verified

A Dafny model of the parts of the Modela AI gateway that carry state machines,
transformations and arithmetic, with proofs of what they promise. `dafny verify
dfyconfig.toml` checks the whole project.

Each component is one module. Where the program updates state, the model is a class or a
method with the program's own loops, proved equal to a closed form; what the program
promises is then proved of the closed form, for every input and every run. A run is a list
of steps folded from the empty state, so a statement about all lists of steps is a
statement about every reachable state.

| module | component |
|---|---|
| `KnowledgeStore`, `Indexing` | knowledge documents, and the three-phase indexing task interleaved with edits and deletes |
| `Chunking` | fixed-size overlapping chunks |
| `Frontmatter` | frontmatter splitting and the JSON normaliser |
| `EventCollector`, `AgentStream`, `SseFraming`, `ChunkCodec` | the `events` channel of a completion: bounded collector, streaming runner, server-sent events, and an encoding as the framing assumes it |
| `SchemaCompiler` | JSON Schema objects to typed models |
| `ModelConfigs`, `SystemPrompts`, `Gateway` | the two stores, their constraints, and runs over both |
| `Scopes`, `TokenCache` | delegated tokens: normalised scopes, composed key, cache |
| `ProviderParameters` | the parameter validator and the repair pass |

## The main results

- **Indexing.** In every interleaving of document commands, config changes and any number of
  tasks that may fail anywhere, the chunk rows of a document are none, or the complete index
  of the content it had at one moment under the config that was the default at that same
  moment, with the embeddings of one reply to a task on it, row i with component i
  (`ReplacementIsAllOrNothing`). If no task of a document fails and none overlap, then
  an idle document is indexed at its current content (`FreshWhenIdle`). Overlap really breaks
  this (`OverlapLosesAnEdit`). In every run, calm or not, a document's index is fresh exactly
  when its last committed replacement read the content it has now, or none was committed and
  the content is empty (`FreshIff`).
- **Events.** What a finished stream yields is the timeline of the run: every retained event
  and every text in execution order, then the marker (`RunStream`, `ExecutionOrder`). A
  consumer that leaves at any yield was given a prefix of it, with the marker exactly when it
  stayed for everything else (`DeliveredIsPrefix`, `MarkerDeliveredIff`). The retained events
  are a prefix of the recorded ones exactly when nothing later fits in place of the first
  suppressed one (`RetainedIsPrefixIff`). A client that parses the response body sees exactly
  what a non-streaming caller gets (`ClientSeesTheRun`), and one whose connection is cut
  anywhere sees a prefix of that, or all of it if it read `[DONE]` (`CutClientSeesPrefix`).
- **Schema compiler.** The built type accepts exactly the values that are valid, once the None
  of optional fields is dropped, under the schema less the required names it does not declare
  (`AcceptsIff`); dumps are valid under the schema itself, for every accepted value, exactly
  when every required name is declared (`DumpsValidIff`).
- **Stores.** Refusals are characterised as guards on the state before the call, and every
  reachable state of both tables satisfies all constraints (`RunStaysGood`).
- **Tokens.** A cached token was exchanged for the same user, audience and scopes, and two
  exchanges of one key keep their distance (`HitAgrees`, `ExchangesSpaced`).
- **Parameters.** Settings repaired over no others always pass the validator, and a config is
  sent unchanged exactly when it passes (`RepairPasses`, `SentUnchangedIff`). Over other base
  settings they pass exactly when every value that comes from the base is in range
  (`RepairPassesIff`). What is sent is the clamped config, less the second of two sampling
  parameters in the first clashing group (`SentIs`).

Four places where the code does less than a reader may expect, each with the exact condition:

- A string of scopes keeps its order while a list is sorted. The two forms of one scope list
  share a normal form, and a cache entry, exactly when the string is in ascending order
  (`FormsAgreeIff`, `FormsShareKeyIff`; `TextKeepsOrder` is an instance where they do not).
- The cache key leaves out the context an exchange is sent with. So `HitAgrees` speaks of
  user, audience and scopes only; cached tokens keep to their context, over every run, exactly
  when no two requests with one key differ in it (`ContextKeptIff`, with the witness run of
  `ServedAcross`).
- A required name that is not declared in `properties` is not enforced by the built type
  (`UndeclaredBreaks`, `DumpsValidIff`).
- The normaliser of frontmatter passes every float through, also `.nan` and `.inf`, which JSON
  does not have, and every string, also one with a NUL, which a JSONB column refuses. Its
  result is JSON exactly when every number is finite, and can be stored exactly when there is
  no NUL either (`NormaliseYieldsJsonIff`, `NormaliseStorableIff`, `SplitFrontmatterSound`;
  `NanPassesThrough` is an instance). An upload that cannot be stored is refused by the
  database, and nothing changes (`DocumentsFit`).

## Assumptions

Transactions are serialised, and an on-commit hook runs with its commit. The JSON encoding of
a chunk is a parameter: decodable, on one line, and never `[DONE]` (`SseFraming.Codec`;
`CodecExists` shows that there is such an encoding). The scope digest is a parameter that
yields no colon; freedom from collisions is assumed only in `HitAgreesOnScopes`, and only for
the scopes in play. The embedding provider is a parameter that may answer anything or fail.
The YAML loader is a parameter that gives any finite tree or fails with a YAML error. Strings
are sequences of Unicode scalar values.

## Model

| member | source | states |
|---|---|---|
| Chunking.FixedSize | app/services/knowledge/chunking.py:13-23 | the loop ends and returns the window at each multiple of the step that lies inside the content, and no other |
| Chunking.ChunkText | app/services/knowledge/chunking.py:31-50 | refuses an unknown strategy, and refuses for size exactly when the content is longer than 1000 steps; otherwise the chunks |
| Chunking.Reassembles | app/services/knowledge/chunking.py:16-23 | the first step characters of all chunks, joined, are the content |
| Chunking.ChunksInjective | app/services/knowledge/chunking.py:13-23 | contents with the same chunks are the same |
| Chunking.ChunkPlace | app/services/knowledge/chunking.py:20-22 | chunk i is the slice of the content from i steps on, size characters or all that is left, and is not empty |
| Chunking.ChunksOverlap | app/services/knowledge/chunking.py:20-22 | neighbouring chunks agree on their overlap, which is full except at the end of the content |
| Chunking.RedundantTail | app/services/knowledge/chunking.py:16-22 | the chunks that only repeat their predecessor are exactly those from a computed index on |
| Chunking.RedundantCount | app/services/knowledge/chunking.py:16-22 | there are at most ceil(overlap/step) of them, and at most one when overlap is at most half the size |
| Chunking.RedundantTailOccurs | docs/knowledge-base-chunking-research.md:34 | the documented case of 300 characters, size 300 and overlap 50 has a redundant second chunk |
| Frontmatter.FindDelimiter | app/services/knowledge/frontmatter.py:22 | the lazy group ends at the earliest delimiter |
| Frontmatter.MatchIff | app/services/knowledge/frontmatter.py:53-57 | a split gives (block, body) exactly when the block holds no delimiter and the input is the two joined, with or without the one optional newline |
| Frontmatter.NoMatchIff | app/services/knowledge/frontmatter.py:53-55 | there is no split exactly when the input opens no block or closes none |
| Frontmatter.SplitJoin | app/services/knowledge/frontmatter.py:18-22 | splitting undoes joining exactly for blocks without the delimiter |
| Frontmatter.NormaliseFailsIff | app/services/knowledge/frontmatter.py:25-39 | normalising fails exactly when some node has a key that is not a string or an unsupported type |
| Frontmatter.NormaliseAt | app/services/knowledge/frontmatter.py:31-36 | the result has the shape of the input, keeps the keys of every map in order, and holds at every path the normal form of what the input holds there |
| Frontmatter.NormaliseIsoformats | app/services/knowledge/frontmatter.py:25-36 | at every path a date becomes its isoformat text, and nothing else changes |
| Frontmatter.NormaliseError | app/services/knowledge/frontmatter.py:33-39 | it fails with the error of the first offending node in document order, and only then |
| Frontmatter.NormaliseSettles | app/services/knowledge/frontmatter.py:25-39 | a successful result has no date, no unsupported type and only string keys, at every path |
| Frontmatter.NormaliseYieldsJsonIff | app/services/knowledge/frontmatter.py:25-36 | a successful result is JSON exactly when no number of the input is nan or an infinity |
| Frontmatter.NormaliseStorableIff | app/models/knowledge_document.py:28 | a successful result can be stored in a JSONB column exactly when the input is finite and has no NUL in its text |
| Frontmatter.StorableIff | app/models/knowledge_document.py:28 | what a JSONB column takes, defined by recursion, is a JSON tree without NUL, at every path |
| Frontmatter.NormaliseIdentityIff | app/services/knowledge/frontmatter.py:25-36 | the trees left unchanged are exactly those without dates, unsupported types and other keys than strings; the JSON trees are the finite ones of these |
| Frontmatter.NormaliseIdempotent | app/services/knowledge/frontmatter.py:25-36 | normalising twice is normalising once |
| Frontmatter.SplitFrontmatterSound | app/services/knowledge/frontmatter.py:42-71 | metadata is always a mapping without dates, unsupported types and other keys than strings; it is JSON exactly when the loaded numbers are finite, and can be stored exactly when there is no NUL either |
| Frontmatter.NanPassesThrough | app/services/knowledge/frontmatter.py:27-28 | the instance x: .nan, whose metadata is not JSON and cannot be stored |
| Frontmatter.EveryDocument | app/services/knowledge/frontmatter.py:53-57 | every document has no block, or is one block and one body in exactly one way |
| Frontmatter.SplitWithoutBlock | app/services/knowledge/frontmatter.py:54-55 | a document without a block is all body, with empty metadata |
| Frontmatter.SplitWithBlock | app/services/knowledge/frontmatter.py:57-71 | a document with a block succeeds exactly when the block loads to null or to a mapping without offending node; body and metadata are then those of the document, and each failure has its own error |
| Frontmatter.SplitFrontmatterRoundTrip | app/services/knowledge/frontmatter.py:42-71 | a document joined from a block that loads to a mapping the normaliser leaves alone splits into that mapping and its body |
| KnowledgeStore.KnowledgeBase.Create | app/commands/knowledge_documents/create_knowledge_document_command.py:20-27 | a new document with the title sent and the body of the raw text, and indexing enqueued; or, for an upload that does not split or that a column refuses, nothing |
| KnowledgeStore.KnowledgeBase.Update | app/commands/knowledge_documents/update_knowledge_document_command.py:20-37 | title, content and metadata are what was sent or what they were, indexing is enqueued exactly when content was sent, and a refused update changes nothing |
| KnowledgeStore.KnowledgeBase.Delete | app/repositories/knowledge_document_repository.py:55-58 | the document goes, and its chunk rows with it, and nothing else |
| KnowledgeStore.KnowledgeBase.ReadDocument | app/tasks/index_knowledge_document.py:28-46 | phase 1 reads document and config of one state, with the very size, overlap and strategy the config stores; or ends, or raises |
| KnowledgeStore.ValidateParams | app/schemas/embedding_config_params.py:12-29 | valid exactly with all fields there, 256 <= size <= 8192, 0 <= overlap < size and strategy fixed_size; every field is then the one stored |
| KnowledgeStore.FitsIff | app/models/knowledge_document.py:24-28 | what the columns take: a title of at most 255 characters, text without NUL, and JSON metadata without NUL |
| KnowledgeStore.KnowledgeBase.Embed | app/tasks/index_knowledge_document.py:49-62 | phase 2 yields the chunks of the content with the task's size and overlap and the provider's reply, or raises; and when |
| KnowledgeStore.KnowledgeBase.ReplaceChunks | app/tasks/index_knowledge_document.py:67-85 | phase 3 replaces all rows of a document that is still there, and touches no other |
| KnowledgeStore.ReplaceRows | app/tasks/index_knowledge_document.py:73-85 | afterwards the document has exactly the task's rows and every other document its old ones |
| Indexing.IndexKnowledgeDocument | app/tasks/index_knowledge_document.py:17-88 | an undisturbed task does what its phases do; it raises exactly when the config, the content's length or the reply is no good, and then no row changes; else the rows are the index of the content under the default config, with the reply as embeddings, and no other document's rows change |
| Indexing.TaskOutcomeIsRun | app/tasks/index_knowledge_document.py:26-88 | the task's outcome is that of its three steps in a run, when nothing comes between them |
| Indexing.StepEffects | app/commands/knowledge_documents/update_knowledge_document_command.py:20-37 | what the commands leave in a document and what ends a task, field by field |
| Indexing.RowsChangeOnlyBy | app/tasks/index_knowledge_document.py:64-85 | a document's rows change only by its deletion or by a replacement that commits |
| Indexing.TasksAlwaysSound | app/tasks/index_knowledge_document.py:28-62 | every running task holds the content and config of one moment of the run, chunked whole |
| Indexing.ReplacementIsAllOrNothing | app/tasks/index_knowledge_document.py:26-88 | in every reachable state a document's rows are none, or the full index of one content version under the config of that moment, with the size and overlap it stores, numbered without gap, row i with component i of one provider reply |
| Indexing.TasksAreAnswered | app/tasks/index_knowledge_document.py:49-62 | every task ready with chunks holds the whole of one reply given to that task, on the same snapshot |
| Indexing.DocumentsFit | app/models/knowledge_document.py:26-28 | in every reachable state every document is one its columns take |
| Indexing.NoOrphans | app/repositories/knowledge_document_repository.py:55-64 | no chunk row belongs to a document that is not there |
| Indexing.FreshWhenIdle | app/commands/knowledge_documents/update_knowledge_document_command.py:23-37 | without failure and overlap, an idle document's rows are the index of its current content |
| Indexing.ReplaceFreshIff | app/tasks/index_knowledge_document.py:67-85 | a replacement leaves a fresh index exactly when the content read in phase 1 is still current |
| Indexing.FreshIff | app/tasks/index_knowledge_document.py:26-88 | in every run an index is fresh exactly when the last committed replacement read the current content, or none was committed and the content is empty |
| Indexing.OverlapLosesAnEdit | docs/knowledge-base-chunking-research.md:38 | for every edit the columns take there is an overlapping run without failures that ends idle with a stale index |
| EventCollector.CompletionEventCollector.Record | app/services/mcp/event_collector.py:46-65 | after any batches the kept events are the greedy ones of everything recorded, with exact byte and suppressed counts |
| EventCollector.CompletionEventCollector.Drain | app/services/mcp/event_collector.py:67-71 | all drains so far, joined, are the retained list |
| EventCollector.CompletionEventCollector.Truncation | app/services/mcp/event_collector.py:73-84 | the marker counts the recorded events that are not retained |
| EventCollector.CompletionEventCollector.Events | app/services/mcp/event_collector.py:86-88 | reading returns the full retained list |
| EventCollector.CompletionEventCollector.Truncations | app/services/mcp/event_collector.py:90-94 | the marker as a list of none or one |
| EventCollector.KeepConcat | app/services/mcp/event_collector.py:46-65 | how recordings are batched does not matter |
| EventCollector.RetainedIsGreedy | app/services/mcp/event_collector.py:52-65 | any choice of positions in which an event is chosen exactly when it fits after the chosen ones picks the retained list |
| EventCollector.GreedyChoiceExists | app/services/mcp/event_collector.py:52-65 | such a choice exists for every history |
| EventCollector.RetainedWithinBudget | app/services/mcp/event_collector.py:52-65 | count and bytes, the length of all retained texts joined, stay within both budgets |
| EventCollector.RetainedGrows | app/services/mcp/event_collector.py:64-71 | later recordings only add at the end, so drained events are never taken back |
| EventCollector.CountBudgetLatches | app/services/mcp/event_collector.py:52-63 | once the count is full nothing more is kept |
| EventCollector.NoMarkerIff | app/services/mcp/event_collector.py:73-84 | there is no marker exactly when the whole history, its texts joined, fits both budgets |
| EventCollector.RetainedIsPrefixIff | app/services/mcp/event_collector.py:52-65 | the retained list is a prefix of the recorded one exactly when no later event fits in place of the first suppressed one |
| EventCollector.FirstSuppressedIs | app/services/mcp/event_collector.py:52-65 | the first suppressed position: all before it is kept, and the event there does not fit |
| EventCollector.RetainedSkips | app/services/mcp/event_collector.py:52-65 | an instance where it is not a prefix: a small event is kept after a large one was suppressed |
| AgentStream.TerminalEventItems | app/inference/agent_runner.py:95-110 | the pending events, then the marker if any |
| AgentStream.RunStream | app/inference/agent_runner.py:228-259 | the consumer is given the stream of the run up to the yield at which it leaves, if it does; all non-empty text fields of the received events in order, the retained events and the suppressed count if it stays; the error is raised only to a consumer still there |
| AgentStream.FollowAgent | app/inference/agent_runner.py:230-244 | the loop over agent events keeps what was yielded and what is pending together equal to the execution so far |
| AgentStream.YieldTerminal | app/inference/agent_runner.py:245-259 | the terminal items complete the stream |
| AgentStream.RunStep | app/inference/agent_runner.py:230-244 | after each turn the runner is in step with the execution, or the consumer has left with all it is to be given |
| AgentStream.TakeAction | app/inference/agent_runner.py:230-244 | what one agent event yields, also when the consumer leaves in the middle of a drained batch |
| AgentStream.Execute | app/commands/completions/create_completion_command.py:80-106 | the body, or the wrapped error, carries the retained events and the marker of everything recorded |
| AgentStream.TimelineCarries | app/inference/agent_runner.py:230-244 | the timeline holds the final retained events once each in recording order, and the non-empty text fields of the received events in order |
| AgentStream.StreamMatchesBody | app/commands/completions/create_completion_command.py:160-170 | a finished stream carries what the non-streaming body carries: retained events, suppressed count and all text, the marker only as its last item |
| AgentStream.StreamSpeaks | app/inference/agent_runner.py:230-244 | with the channel or without, and however the run ends, the text of the stream is the non-empty text fields of the received events in order |
| AgentStream.DeliveredIsPrefix | app/inference/agent_runner.py:228-259 | whatever the ending and wherever the consumer leaves, what was delivered is a prefix of the finished stream, its events one of the retained events, its text one of the text |
| AgentStream.MarkerDeliveredIff | app/inference/agent_runner.py:252-259 | the marker was delivered exactly when something was suppressed, the agent was not cancelled, and the consumer stayed for every other item |
| AgentStream.CancelledIsPrefix | app/inference/agent_runner.py:228-259 | what a cancelled run delivered is a prefix of every stream it could still have become |
| AgentStream.ExecutionOrder | app/inference/agent_runner.py:192-194 | events of a batch stand after all text received before it and before all text received after it |
| ChunkCodec.CodecExists | app/routers/completion_router.py:67-89 | there are an encoding and a decoding as the framing assumes them |
| SseFraming.Sse | app/routers/completion_router.py:52-96 | the body is one frame for each item, then stop and [DONE] only when the run completed |
| SseFraming.FrameIsMessage | app/routers/completion_router.py:67-96 | a receiver of section 9.2.6 of the WHATWG HTML Living Standard reads data: and the text and two line feeds as one message, whatever follows |
| SseFraming.FramingInvertible | app/routers/completion_router.py:52-96 | decoding gives back the items in order, a role on the first text only, one stop and one [DONE] exactly for completed runs, and the same id, time and model on every chunk |
| SseFraming.ClientSeesTheRun | app/routers/completion_router.py:52-96 | from agent to client: all text in order, and the same events and marker as a non-streaming caller, the marker last |
| SseFraming.CutIsPrefix | app/routers/completion_router.py:67-96 | any stream cut anywhere dispatches a prefix of its messages |
| SseFraming.CutResponse | app/routers/completion_router.py:52-96 | a response cut anywhere is read as a prefix of it, and as all of it when [DONE] was read |
| SseFraming.CutClientSeesPrefix | app/routers/completion_router.py:52-96 | from agent to client with a cut connection: a prefix of text, events and marker, and everything when [DONE] was read |
| SchemaCompiler.CheckUnsupportedKeywords | app/commands/completions/schema_to_model.py:33-44 | the loop finds the first unsupported keyword in document order |
| SchemaCompiler.FillFields | app/commands/completions/schema_to_model.py:47-59 | the loop builds one field for each property, required exactly when listed |
| SchemaCompiler.Resolve | app/commands/completions/schema_to_model.py:62-86 | the type of a property schema, or the error of its first bad node |
| SchemaCompiler.CompilesIff | app/commands/completions/schema_to_model.py:17-86 | compiling succeeds exactly on objects whose checked tree is clean and whose built tree is supported |
| SchemaCompiler.CompileErrorIs | app/commands/completions/schema_to_model.py:17-86 | the error is a wrong top level, else the unsupported keywords of the first node that has any, else what is wrong with the first node that cannot be built |
| SchemaCompiler.ValidIsAccepted | app/commands/completions/schema_to_model.py:47-86 | every value valid under the schema is accepted by the built type |
| SchemaCompiler.AcceptsIff | app/commands/completions/schema_to_model.py:47-86 | for every schema that is built, the type accepts exactly the values valid, after dropping the None of optional fields at every depth, under the schema without undeclared required names |
| SchemaCompiler.TrimKeepsType | app/commands/completions/schema_to_model.py:49-57 | taking the undeclared names out of required does not change the built type |
| SchemaCompiler.TrimUnchangedIff | app/commands/completions/schema_to_model.py:49-57 | only schemas with an undeclared required name are changed by that |
| SchemaCompiler.DumpIsValid | app/commands/completions/schema_to_model.py:47-86 | every accepted value, dumped and with that None dropped, is valid |
| SchemaCompiler.DumpsValidIff | app/commands/completions/schema_to_model.py:49-57 | all dumps are valid exactly when every required name is declared, at every built node |
| SchemaCompiler.UndeclaredBreaks | app/commands/completions/schema_to_model.py:49-57 | a required name that is not declared has an accepted value whose dump is not valid |
| SchemaCompiler.ValidRoundTrip | app/commands/completions/schema_to_model.py:47-86 | a valid value comes back as itself, less the members the schema does not declare |
| SchemaCompiler.CompilerPreservesMeaning | app/commands/completions/schema_to_model.py:17-30 | all of this for the compiler's own result, for every schema it accepts in the fragment |
| ModelConfigs.ModelConfigRepository.ClearDefault | app/repositories/model_config_repository.py:90-101 | exactly the live defaults of the type, but for the excluded record, stop being defaults |
| ModelConfigs.ModelConfigRepository.Create | app/repositories/model_config_repository.py:71-78 | refused exactly for a used key, a live slug or a missing prompt, and then nothing changes; else the new row has the fields sent, type chat when none was, and of the others only live defaults of its type change |
| ModelConfigs.ModelConfigRepository.Update | app/repositories/model_config_repository.py:80-88 | refused exactly by a guard on the state before, and then nothing changes; else every field is what was sent or what it was, and of the others only live defaults of its type change |
| ModelConfigs.ModelConfigRepository.SetAttributes | app/repositories/model_config_repository.py:84-86 | only the keys sent change; a null on a mandatory column is refused |
| ModelConfigs.ModelConfigRepository.DeleteRecord | app/repositories/soft_delete_repository.py:30-50 | only a live row is found, and it stays in the table |
| ModelConfigs.ModelConfigRepository.RestoreRecord | app/repositories/soft_delete_repository.py:66-87 | refused exactly when a live row took the slug or the default meanwhile |
| ModelConfigs.ModelConfigRepository.HardDeleteRecord | app/repositories/soft_delete_repository.py:89-109 | only a live row is found; it leaves the table unless chunk rows refer to it, and then nothing changes |
| ModelConfigs.ModelConfigRepository.GetDefaultForType | app/repositories/model_config_repository.py:40-49 | finds a live default of the type, or there is none |
| ModelConfigs.PutConsistent | alembic/versions/2026_05_18_0006_add_config_type_to_model_configs.py:30-36 | writing one live row keeps all constraints exactly when its slug, default and prompt are free |
| ModelConfigs.CreateDefaultWins | app/repositories/model_config_repository.py:71-78 | a created default is the default of the type sent, chat when none was, and no other type's default changes |
| ModelConfigs.UpdateDefaultWins | app/repositories/model_config_repository.py:80-88 | an updated default is the default of its type; of the others only its own old type loses it |
| ModelConfigs.DefaultNeverRefused | app/repositories/model_config_repository.py:72-83 | asking for the default never adds a refusal |
| ModelConfigs.TypeMoveRefusedIff | app/repositories/model_config_repository.py:80-88 | a bare type change is refused exactly when a default moves to a type that has one |
| ModelConfigs.DeleteRestore | app/repositories/soft_delete_repository.py:30-87 | restoring undoes deleting |
| SystemPrompts.SystemPromptRepository.Create | app/repositories/system_prompt_repository.py:32-58 | a new prompt with version 1 of the content sent as its current one; or a name or key error and no change, and exactly when |
| SystemPrompts.SystemPromptRepository.UpdateName | app/repositories/system_prompt_repository.py:75-93 | a rename, refused exactly when another prompt has the name |
| SystemPrompts.SystemPromptRepository.AddVersion | app/repositories/system_prompt_repository.py:209-246 | the next number with the content and note sent, and the current pointer moved to it |
| SystemPrompts.SystemPromptRepository.Update | app/commands/system_prompts/update_system_prompt_command.py:59-85 | rename and new version together or not at all, the content read afterwards, and which error exactly when |
| SystemPrompts.SystemPromptRepository.Delete | app/commands/system_prompts/delete_system_prompt_command.py:51-66 | refused for a referenced prompt, else the prompt and all its versions go |
| SystemPrompts.AppendSound | app/repositories/system_prompt_repository.py:223-246 | adding a version keeps numbers dense and the pointer on the last version |
| SystemPrompts.CurrentIsHighest | app/repositories/system_prompt_repository.py:163-173 | the content read is that of version n of n |
| SystemPrompts.UpdateReadsBack | app/commands/system_prompts/update_system_prompt_command.py:70-80 | after an update with content, that content is read back |
| SystemPrompts.UpdateIdempotent | app/commands/system_prompts/update_system_prompt_command.py:59-85 | repeating an update changes nothing |
| SystemPrompts.UpdateAddsVersionIff | app/commands/system_prompts/update_system_prompt_command.py:70-80 | a version is added exactly when the content differs from the one read |
| Gateway.ReferenceCheckIsForeignKey | app/repositories/system_prompt_repository.py:175-188 | the check over all rows, soft-deleted too, is exactly the RESTRICT foreign key |
| Gateway.RunStaysGood | app/commands/system_prompts/delete_system_prompt_command.py:57-63 | over every run on both tables all constraints hold and every history is dense with its pointer on the last version |
| Gateway.HistoryAppendOnly | app/repositories/system_prompt_repository.py:223-246 | over every run in which a prompt survives its old history is a prefix of the new |
| Gateway.LoadModelConfig | app/commands/load_model_config.py:27-35 | the config with the current content of its prompt, or none |
| Gateway.LoadReturnsHighest | app/commands/load_model_config.py:27-35 | in every reachable state a config's prompt exists and loading returns its highest-numbered version |
| Gateway.StepIsTransaction | app/repositories/soft_delete_repository.py:30-109 | what each kind of write does to the two tables, or that it does nothing |
| Gateway.UpdateConfigStep | app/repositories/model_config_repository.py:80-88 | an update in a run does, field by field, what the repository promises |
| Gateway.UpdateIsLoaded | app/commands/load_model_config.py:27-35 | the content an update sends is what loading any config of the prompt gives |
| Gateway.AddedIsLoaded | app/commands/load_model_config.py:27-35 | and so is the content of an added version |
| Gateway.CreatedIsLoaded | app/commands/load_model_config.py:27-35 | a prompt and a config of it made under free names load with the first content |
| Gateway.ReferencedStays | app/commands/system_prompts/delete_system_prompt_command.py:57-63 | deleting a prompt some config refers to changes nothing |
| Scopes.ListOrderIrrelevant | app/repositories/mcp_delegated_token_repository.py:95-97 | lists of the same scopes in any order normalise alike |
| Scopes.StripIs | app/repositories/mcp_delegated_token_repository.py:96-98 | stripping takes off the white space at both ends and nothing else |
| Scopes.KeptIs | app/repositories/mcp_delegated_token_repository.py:96 | a scope of a list counts stripped, and not at all when nothing is left |
| Scopes.WordsSkip | app/repositories/mcp_delegated_token_repository.py:98 | white space in front does not matter to splitting |
| Scopes.WordsTake | app/repositories/mcp_delegated_token_repository.py:98 | a word before white space or the end is the first of the split |
| Scopes.SortKeeps | app/repositories/mcp_delegated_token_repository.py:97 | sorting keeps every scope as often as it was given |
| Scopes.LeqIs | app/repositories/mcp_delegated_token_repository.py:97 | the order is the usual one of strings |
| Scopes.TextIdempotent | app/repositories/mcp_delegated_token_repository.py:98 | normalising a string twice is normalising it once |
| Scopes.FormsAgreeIff | app/repositories/mcp_delegated_token_repository.py:94-98 | a string of scopes and the list of the same scopes normalise alike exactly when the string is in ascending order |
| Scopes.TextAgreesIff | app/repositories/mcp_delegated_token_repository.py:94-98 | the same for any string, with whatever spacing |
| Scopes.TextKeepsOrder | app/repositories/mcp_delegated_token_repository.py:94-98 | an instance where the two forms differ |
| TokenCache.ComposeInjective | app/repositories/mcp_delegated_token_repository.py:90-92 | the composed key determines user, audience and digest |
| TokenCache.FormsShareKeyIff | app/repositories/mcp_delegated_token_repository.py:90-98 | the two forms share a cache key exactly when the string is in ascending order, if the digest tells their normal forms apart |
| TokenCache.MCPDelegatedTokenRepository.GetAccessToken | app/repositories/mcp_delegated_token_repository.py:36-77 | a usable cached token and no exchange; or a fresh one, cached under the composed key with its expiry and a time to live of max(1, min(E, 300)) seconds; or the error and no change |
| TokenCache.MCPDelegatedTokenRepository.InvalidateToken | app/repositories/mcp_delegated_token_repository.py:79-88 | the key's entry goes and no other |
| TokenCache.HitAgrees | app/repositories/mcp_delegated_token_repository.py:49-54 | a cached token came from the latest exchange of its key, for the same user, audience and scope digest, and has more than the margin left |
| TokenCache.HitAgreesOnScopes | app/repositories/mcp_delegated_token_repository.py:90-92 | and for the same scopes, when the digest does not collide on them |
| TokenCache.HitIff | app/repositories/mcp_delegated_token_repository.py:49-54 | undisturbed, the latest token of a key is given out exactly while it is younger than max(1, min(E, 300)) seconds with more than the margin left, and without an exchange |
| TokenCache.NoHitAfterTtl | app/repositories/mcp_delegated_token_repository.py:68-76 | in every run no token is given out from the cache after that time |
| TokenCache.ContextKeptIff | app/repositories/mcp_delegated_token_repository.py:60-66 | cached tokens keep to the context they are asked for in, over every run, exactly when no two requests with one key differ in it |
| TokenCache.ServedAcross | app/repositories/mcp_delegated_token_repository.py:49-54 | a run in which a token exchanged in one context is given to a request in another |
| TokenCache.ExchangesSpaced | app/repositories/mcp_delegated_token_repository.py:67-76 | undisturbed, two exchanges of a key are at least min(max(1, min(E, 300)), E - margin) seconds apart |
| ProviderParameters.Validate | app/inference/adapters/parameter_validation.py:54-72 | reports exactly the violated bounds and the clashing groups |
| ProviderParameters.ValidateValue | app/inference/adapters/parameter_validation.py:42-51 | adds exactly the violated bounds of one field |
| ProviderParameters.ValidateExclusiveGroups | app/inference/adapters/parameter_validation.py:26-39 | adds exactly the clashing groups |
| ProviderParameters.ResolveProviderSettings | app/inference/adapters/parameter_validation.py:75-83 | the nested loop drops all but the first present member of each group in turn |
| ProviderParameters.ApplyConfigParams | app/inference/model.py:160-176 | clamped config values over the base settings, then the groups: every setting of either that stands in no group is sent, and every one sent has the config's value clamped or the base's as it is |
| ProviderParameters.GroupsResolved | app/inference/adapters/parameter_validation.py:77-83 | after the whole loop every group has at most one member set, for all groups and settings |
| ProviderParameters.DroppedIff | app/inference/adapters/parameter_validation.py:75-83 | a setting is dropped exactly when some group, at its turn, has it behind a member still set |
| ProviderParameters.ClampIsNearest | app/inference/adapters/parameter_validation.py:86-96 | clamping gives the value of the range nearest to the one asked for |
| ProviderParameters.FirstOfClashSurvives | app/inference/adapters/parameter_validation.py:75-83 | for groups over the sampling parameters without repeats, only the second present member of the first clashing group is dropped |
| ProviderParameters.ResolveIdempotent | app/inference/adapters/parameter_validation.py:75-83 | resolving twice is resolving once |
| ProviderParameters.RepairPassesIff | app/inference/model.py:160-176 | over any base settings, what is sent passes the validator exactly when every value that comes from the base is in range |
| ProviderParameters.RepairPasses | app/inference/model.py:160-176 | the settings built for any config over no base settings pass the validator |
| ProviderParameters.SentIs | app/inference/model.py:160-176 | what is sent is the config clamped, less the sampling parameter that the first clashing group names second |
| ProviderParameters.SamplingSurvives | app/inference/model.py:160-176 | if a sampling parameter was set, one is sent with its clamped value |
| ProviderParameters.SentUnchangedIff | app/inference/model.py:160-176 | a config is sent unchanged exactly when it passes the validator |
| ProviderParameters.RepairIdempotent | app/inference/model.py:160-176 | repairing what was sent changes nothing |

## Left out

- HTTP, routing, RBAC, telemetry, logging, Celery and NATS plumbing, and the pydantic-ai agent loop: the agent is an adversarial list of actions.
- A crash between a commit and its on-commit hook, which would lose an indexing message.
- Isolation of rows inside one transaction, and two concurrent `create_version` calls: transactions are serialised.
- A drain that raises while an agent error is being handled (`app/inference/agent_runner.py:249-254`), which yields no terminal items.
- Error messages, generated model names and log lines.
- Validation keywords beyond type, enum, properties, required and items: the compiler ignores them, so the meaning of a schema that uses them is not preserved; `Plain` admits annotations only. Integer-valued floats, enums on other types than strings, and schemas that are not dictionaries are not modelled.
- Pydantic's lax coercion and its restrictions on field names.
- The foreign key from chunk rows to configs over one joint run: a hard delete is given the configs in use, and a replacement that the key aborts is a step that fails.
- Values that contain themselves, which YAML anchors can build and on which the normaliser would not end, and errors of the loader that are not YAML errors.
- `_split_messages`, `_merge_system_prompts` and config resolution by slug: concatenations and lookups without a run-long property.
- Whitespace beyond the six ASCII characters of `Scopes.Space`.
- The MCP tool catalog cache, credentials, search ranking and cost analytics.
- Chunking.FixedSize: requires overlap below size, which `EmbeddingConfigParams` guarantees; with a step of zero the loop would not end.
- TokenCache.ExchangesSpaced: covers calls that do not run concurrently, and assumes the cache keeps an entry for its time to live.

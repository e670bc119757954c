# Voice platform model

A Dafny model of the parts of a voice-agent platform whose correctness rests on more than one function: the
workflow compiler and its analyser, the publishing of workflows, the outbound dialler, two bounded in-memory
stores, the streaming directive parser, the call session protocol, the provider cache and the voice detectors.
`dafny verify dfyconfig.toml` checks all of it.

What each file is about:

- `Templates`, `TemplateSyntax`, `WorkflowGraph`, `GraphWarnings`: placeholders, walks of a call through a workflow,
  and the must-define analysis. The central result is that the iterative analysis equals the meet over all walks, so a
  warning about a blank placeholder is given exactly when some call would leave it blank. `TemplateSyntax` says what a
  placeholder is by writing it out, and what is said in its place.
- `Json`, `Reprints`, `SortedViews`, `Validation`, `ToolNames`, `GraphJson`, `Permutations`, `Equivalence`,
  `SkipExact`: from editor JSON to a graph. Validation is proved against rules stated independently of the passes; the shortcut of
  not validating an "equivalent" graph again is proved sound exactly under a condition, with the input that breaks
  it otherwise. The shortcut compares values with `==`, the compiler reads them through `str()`, and 1, 1.0 and
  True are equal and print differently. Whether two printings of one value can meet depends on where the values
  come from (`Json.Origin`): a column gives keys one order and returns large whole numbers as integers.
- `Publishing`, `AgentRows`, `PublishEffects`, `Starter`: the agent row under create, save draft, publish, rollback
  and prompt patch. A publish validates the graph it peeked at before taking the row lock, so the model lets any other
  requests come in between. A row stays in step as long as a publish that skips validation does so against a peek
  that equality decides, and one that leaves the columns alone over a live graph whose columns it decides
  (`AgentRows.SteadyRequest`; strings, null, fractions and lists of them in text fields always are); two
  equivalences say that neither can be spared, and `Starter.UnvalidatedGraphGoesLive` what happens otherwise.
- `Directives`, `TagSyntax`: the tag parser and the buffer that hands text on while a model streams it. Piecewise and
  whole parsing agree exactly when no release point falls inside a tag; what that asks of the chunks is stated as well.
- `RateLimiter`, `Throttles`, `ThrottleExact`: the fixed-window counter and the check-then-count throttles, and when
  exactly a check says no.
- `OrderedDicts`, `ToolLatency`, `LatencyOrder`, `TenantOrder`: the two-level least-recently-used store of tool
  latencies, against a plain log. The keys of a tenant are in the order of their last use. Among the tenants a sweep
  counts as use for those it keeps, since it moves them to the end too.
- `Dialler`, `DialOutcomes`: ticks and job callbacks as steps between awaits. A dial is named by its place in the list
  of dials; it is unresolved until its contact's row says how it ended. A call the switch accepts without a job id
  is resolved as failed by the worker, as in the code, whatever the switch then does with it.
- `CallFsm`, `CallSession`, `SessionTable`, `Servicer`, `TurnOutcomes`: the conversation state machine, where a session
  rests between messages, and the message loop with its in-turn drain of the queue: what is heard of a turn, and which
  of its transfers go out.
- `ProviderCache`, `VoiceDetector`: creation under per-id locks, and the hysteresis automaton shared by both
  detectors (frames that are empty, of the wrong length or not judged by the model are skipped).

`Text`, `Sets` and `Ordering` hold helpers. Where the digits Python prints for a float, lower-casing outside ASCII, or
`int()` of an unusual text matter to no result, they are constants left open: any function of the value or text.

Where the code and its comments differ, the model follows the code: the comment in `session.py` says speech is
taken from listening only, the code also takes it from recognizing; the timer trigger of the state machine is
modelled although no module of the service calls it, so being parked in barge-in ends with the call.

Python integers and the numbers of samples and calls are unbounded here as there; times, levels and durations
are real numbers. Clock readings are parameters.

## Model

| member | source | states |
|---|---|---|
| `Templates.MatchPlaceholder` | libs/config_sdk/workflow.py:44 | the placeholder pattern as a scanner: a match opens with two braces and ends at the first closing brace, which is followed by another; what it takes in between is TemplateSyntax.MatchIff |
| `Templates.ChunkLength` | libs/config_sdk/workflow.py:45 | the catch-all pattern as a scanner: the chunk ends with the first closing brace and a second one right behind it, or takes the whole text when there is none |
| `Templates.RenderNeverShowsBraces` | libs/config_sdk/workflow.py:254-268 | for every text and every values, including values with braces in them, the rendered text never contains two opening braces in a row |
| `Templates.DropBracesIdentity` | libs/config_sdk/workflow.py:266-268 | the neutralising second pass deletes nothing exactly when its input has no pair of opening braces |
| `Templates.PiecesNames` | libs/config_sdk/workflow.py:240-241 | the names a text uses are the names of its placeholders |
| `Templates.RenderIsExact` | libs/config_sdk/workflow.py:244-268 | with no malformed chunk and a non-empty brace-free value for every placeholder, rendering is exact substitution: every literal character survives in order and every placeholder becomes its value |
| `TemplateSyntax.MatchIff` | libs/config_sdk/workflow.py:44 | a match with this name, fallback and length is there if and only if the text starts with two braces, blanks, the name (an identifier), blanks, an optional bar and fallback without a closing brace, two braces: said by writing the text out, without the scanners |
| `TemplateSyntax.PlaceholderRendered` | libs/config_sdk/workflow.py:254-268 | whatever the blanks in a placeholder and the text around it, its name is the one collected, and what takes its place is the value of that name if there is a non-empty one, otherwise the fallback without the blanks around it, otherwise nothing |
| `TemplateSyntax.OnePlaceholder` | libs/config_sdk/workflow.py:254-268 | so a text of one placeholder renders to just that, as long as it has no pair of opening braces |
| `TemplateSyntax.MalformedAt` | libs/config_sdk/workflow.py:244-251 | a chunk is reported exactly when it is not, as a whole, a placeholder written out that way |
| `Text.StripExact` | libs/config_sdk/workflow.py:254-268 | stripping takes away the white space around a text and nothing else |
| `WorkflowGraph.Reachable` | libs/config_sdk/workflow.py:146-155 | the stack-driven search returns exactly the steps some walk from the start enters |
| `WorkflowGraph.IncomingSources` | libs/config_sdk/workflow.py:186-191 | each step is listed with exactly the steps that have a connection into it |
| `WorkflowGraph.EvaluateMeet` | libs/config_sdk/workflow.py:221-229 | intersecting over the listed predecessors computes the data-flow equation for a step |
| `WorkflowGraph.LowerOne` | libs/config_sdk/workflow.py:215-232 | lowering one step to what the equation gives keeps every approximation at or above the meet over all walks |
| `WorkflowGraph.SettledIsMustCapture` | libs/config_sdk/workflow.py:193-237 | an approximation that satisfies the equation everywhere is the meet over all walks |
| `WorkflowGraph.Round` | libs/config_sdk/workflow.py:217-232 | one round, in any visiting order, either removes a fact or leaves a solution of the equation |
| `WorkflowGraph.VariablesAvailableAt` | libs/config_sdk/workflow.py:193-237 | the loop ends, and its result is exactly the set captured on every walk to the step, with the step's own variables when leaving, and empty for a step no walk enters |
| `GraphWarnings.GuaranteedIffNoMissingWalk` | libs/config_sdk/workflow.py:556-595 | a name is outside what is guaranteed at a step exactly when some walk misses it |
| `GraphWarnings.WarnTemplates` | libs/config_sdk/workflow.py:518-553 | the warnings about one text: every malformed chunk, and every name not available, told apart by who declares it |
| `GraphWarnings.Analyse` | libs/config_sdk/workflow.py:556-595 | a warning is reported if and only if it is deserved, where deserved is said in terms of walks: each unfilled placeholder on a reachable step has a walk on which its name is missing, and each such walk is reported |
| `GraphWarnings.CleanGraphSpeaksExactly` | libs/config_sdk/workflow.py:518-595 | with no placeholder warning, the prompt and greeting of the step entered after any walk render exactly, each placeholder replaced by its value |
| `GraphWarnings.CleanGraphSpeaksConnections` | libs/config_sdk/workflow.py:587-593 | the same for the speech of the connection taken, once the step left has stored what it declares |
| `GraphWarnings.CleanGraphSpeaksAlwaysOn` | libs/config_sdk/workflow.py:565-571 | the same for the always-on instruction, from call context and known variables alone |
| `Validation.CheckSteps` | libs/config_sdk/workflow.py:393-411 | the first pass reports nothing exactly when every step is a dictionary with an id of its own, a known type and a name |
| `Validation.CheckNames` | libs/config_sdk/workflow.py:413-421 | no complaint exactly when no two names differ only in case or not at all |
| `Validation.CheckCensus` | libs/config_sdk/workflow.py:423-436 | no complaint exactly when there is one start, at least one end and at most one always-on step |
| `Validation.CheckTools` | libs/config_sdk/workflow.py:497-507 | no complaint about tool names exactly when no two connections out of a step look the same to the agent |
| `Validation.Wire` | libs/config_sdk/workflow.py:470-474 | the outgoing lists and incoming counts are those of the connections, in order |
| `Validation.ValidateAndBuild` | libs/config_sdk/workflow.py:374-515 | the error list is empty if and only if the rules hold (stated without reference to how they are checked), and then the graph handed out is the one the JSON describes |
| `Validation.BuiltWellFormed` | libs/config_sdk/workflow.py:374-515 | what the validator accepts can be analysed: connections lead to steps of the graph, ids are unique and complete |
| `ToolNames.ToolNameIs` | libs/config_sdk/workflow.py:91-94 | the tool name of a connection is the runs of letters and digits of its lowered label, joined by single underscores |
| `ToolNames.SharedNames` | libs/config_sdk/workflow.py:91-94 | two labels look the same to the agent exactly when those runs agree, and a label has no tool name exactly when, lowered, it has neither a letter nor a digit |
| `GraphJson.StepReadsBack` | libs/config_sdk/workflow.py:271-343 | a step written as JSON, with blanks around its name and endings, optional entries left out or null and any further entries, is read as that step |
| `GraphJson.MoveReadsBack` | libs/config_sdk/workflow.py:346-356 | so is a connection |
| `GraphJson.GraphReadsBack` | libs/config_sdk/workflow.py:374-515 | so the steps and connections of a graph read back as written, and the graph is valid exactly when what was written follows the rules |
| `GraphJson.DelayIs` | libs/config_sdk/workflow.py:316-325 | a delay given as a whole number, a fraction, a truth value or the decimal text of a whole number, with blanks around it, is that number without its fraction, kept between 0 and 2000; any other kind of value is no delay |
| `Json.EqualTransitive` | libs/config_sdk/workflow.py:603-607 | Python equality of JSON values is transitive, although equal values may print differently |
| `Json.FixedPrintsOneWay` | libs/config_sdk/workflow.py:276-358 | whatever equals a fixed value, and can come from the same place (a request, or a database column), prints as it does |
| `Reprints.FixedIff` | libs/config_sdk/workflow.py:276-358 | and only then: a value is fixed exactly when every such equal value prints the same text |
| `Reprints.PrintingsAre` | libs/config_sdk/workflow.py:276-358 | the texts that the values equal to a whole number print, listed |
| `SortedViews.PinnedKeys` | libs/config_sdk/workflow.py:606-614 | two equal lists sorted by the text of their ids have the same texts as ids when the ids of one are pinned: no equal value that prints differently would sort into the same place |
| `SortedViews.NumberPinnedIff` | libs/config_sdk/workflow.py:606-614 | an id that is a whole number or a truth value is pinned exactly when none of the other texts listed for it stands between its neighbours |
| `Equivalence.SameLogicSymmetric` | libs/config_sdk/workflow.py:603-625 | the equivalence of graphs is symmetric |
| `Equivalence.SameLogicTransitive` | libs/config_sdk/workflow.py:603-625 | the equivalence of graphs is transitive |
| `Equivalence.SkipIsSound` | services/config/workflows.py:234-247 | a graph equivalent to a validated one whose texts are fixed by equality, and whose step ids are pinned, validates too and describes the same steps and connections up to order |
| `SkipExact.SkipSoundIffFixed` | services/config/workflows.py:234-247 | skipping re-validation is sound for every equivalent graph if and only if the validated graph is fixed in that sense, for graphs as they are sent and for graphs as a column returns them: the others have an equivalent one from the same place that is invalid or says something else |
| `SkipExact.CrowdedIdPinned` | libs/config_sdk/workflow.py:606-614 | why ids are asked less than the other texts: 1 is not fixed, but next to an id 1! neither 1.0 nor True sorts into its place |
| `SkipExact.SkipCanAdmitInvalid` | services/config/workflows.py:234-247 | the concrete failure, in graphs a column can return: an id given as 1 and as 1.0; the graphs count as equivalent, one is valid and the other is not |
| `Publishing.ColumnPrompts` | services/config/workflows.py:60-80 | one pass over the raw steps gives the greeting of the last start step and the prompt of the last always-on step |
| `Publishing.ColumnsHold` | services/config/workflows.py:60-80 | for every valid graph those are the texts of the one start and the one always-on step, whatever values hold them |
| `Publishing.ColumnsSpeakIff` | services/config/workflows.py:60-80 | the columns are the greeting and prompt the runtime parses, exactly when the always-on prompt is not an empty or zero value other than a string, which the column prints and the runtime takes for none |
| `Publishing.EquivalentColumns` | services/config/workflows.py:250-271 | equivalent graphs give the same columns when what goes into the columns is fixed by equality |
| `Publishing.ColumnsKeptIff` | services/config/workflows.py:250-271 | and only then: the columns may be left alone for every equivalent valid graph exactly under that condition |
| `AgentRows.MirroredValid` | services/config/agents.py:107-124 | mirroring prompts into a valid graph leaves it valid and changes those two texts and nothing else |
| `AgentRows.MirroredColumns` | services/config/agents.py:107-124 | the columns of the mirrored graph are the patched columns |
| `AgentRows.AfterInStep` | services/config/workflows.py:214-304 | every request, whatever came between a publish's peek and its lock, keeps: the live graph valid, the columns those it gives, versions numbered 1..n, the newest equivalent to the live graph; asked only of a publish that takes one of two equivalent branches |
| `AgentRows.RunInStep` | services/config/workflows.py:214-304 | the same over every run of requests, and the history only grows |
| `AgentRows.EquivalentDraftGoesLive` | services/config/workflows.py:214-304 | publishing the draft puts every graph equivalent to the validated peek that can come from the same place live, valid and with the same parts, if and only if the peeked graph is fixed; with the origin Stored, for what the column can return |
| `AgentRows.ColumnsStay` | services/config/workflows.py:250-271 | publishing any valid graph equivalent to the live one leaves columns that it gives too, if and only if equality decides the columns of the live graph |
| `AgentRows.RollbackSucceeds` | services/config/workflows.py:344-355 | a recorded version can always be published again and then is the live graph, with its columns unless it takes the equivalent branch over columns that equality does not decide |
| `AgentRows.FencedDraft` | database/schema.sql:640-658 | a draft save fenced on a config version is refused if anything since changed the live graph or the columns |
| `AgentRows.AgentRow.SaveDraft` | services/config/workflows.py:140-198 | saves the draft unless the fence was passed, and says which |
| `AgentRows.AgentRow.AppendVersion` | services/config/workflows.py:99-118 | appends the graph one above the highest number |
| `AgentRows.AgentRow.Publish` | services/config/workflows.py:214-304 | the whole row after a publish whose graph was peeked at before the lock |
| `AgentRows.AgentRow.Rollback` | services/config/workflows.py:344-355 | the row after publishing the recorded version with that number |
| `AgentRows.AgentRow.UpdatePrompts` | services/config/agents.py:335-372 | the row after a prompt patch, mirrored into the live graph and the draft (PublishEffects.PatchReachesBoth says what that does to both); data given as a list of pairs is taken for the dictionary it makes, and a type that does not hash refuses the patch |
| `AgentRows.NewRowInStep` | services/config/agents.py:247-273 | a new agent with any valid graph starts in step |
| `PublishEffects.PublishTakes` | services/config/workflows.py:214-304 | a valid graph that is published is live and the draft; it is recorded, as one version more, and gives the columns exactly when it is not equivalent to the graph that was live |
| `PublishEffects.PublishRefuses` | services/config/workflows.py:214-247 | an invalid graph, or a draft that is not there, changes nothing |
| `PublishEffects.SavedDraftGoesLive` | services/config/workflows.py:140-198 | an accepted save followed by a publish of the draft puts what was saved live |
| `PublishEffects.ConfigVersionMoves` | database/schema.sql:640-658 | the config version moves, by one, exactly when the live graph or the columns do |
| `PublishEffects.PatchReachesBoth` | services/config/agents.py:335-372 | a prompt patch of an agent with a valid live graph and draft changes, in both, the text it sets and nothing else, and the columns with them |
| `PublishEffects.PatchSurvivesPublish` | services/config/agents.py:349-356 | so publishing the draft afterwards gives the columns of the old draft with the patch on them: no publish brings the old texts back |
| `PublishEffects.PatchRefuses` | services/config/agents.py:335-372 | a patch that sets nothing, or a system prompt where either graph has no always-on step, changes nothing |
| `Starter.StarterSound` | libs/config_sdk/workflow.py:628-675 | the starter graph validates for every greeting and system prompt, and meets every condition above |
| `Starter.CreateAgent` | services/config/agents.py:223-273 | an agent is created exactly when the graph given, or else the starter graph, validates, with that graph live and as version 1 |
| `Starter.UnvalidatedGraphGoesLive` | services/config/workflows.py:214-304 | whatever the row, a draft changed between the peek and the lock only in how a number prints goes live invalid |
| `Directives.TagLength` | services/conversation/directives.py:10 | the tag pattern as a scanner: a tag opens with two brackets and ends at its first closing bracket, followed by another |
| `Directives.StripMarkdownTwice` | services/conversation/directives.py:14-19 | stripping markdown again, as the speech boundary does, changes nothing |
| `TagSyntax.TagIff` | services/conversation/directives.py:10 | a tag is met if and only if the text starts with two opening brackets, capital letters and underscores, attributes without a closing bracket, two closing brackets: said by writing the text out |
| `TagSyntax.AttributesRead` | services/conversation/directives.py:11 | from attributes written one behind the other, each read value is the last one written for its name, and no other name is read |
| `TagSyntax.TransferBuilt` | services/conversation/directives.py:168-177 | a transfer tag with its attributes in any order gives the destination and reason written in it, or none, and warm or cold as its type, or neither |
| `TagSyntax.OthersBuilt` | services/conversation/directives.py:168-177 | one other tag ends the call; the rest keep their name and attributes |
| `TagSyntax.TagTakenOut` | services/conversation/directives.py:154-165 | a tag is taken out of the text around it and heard |
| `TagSyntax.HeldBack` | services/conversation/directives.py:127-137 | the stream buffer holds back exactly the text from the last pair of opening brackets on, if no tag closes in it, and otherwise nothing |
| `Directives.PiecewiseAgreesIffCleanCuts` | services/conversation/directives.py:148-165 | parsing piece by piece gives the text and tags of one parse of the whole exactly when no piece ends inside a tag |
| `Directives.StreamBuffer.Feed` | services/conversation/directives.py:127-137 | hands on the longest front that cannot be part of an open tag, and holds the rest |
| `Directives.StreamBuffer.Flush` | services/conversation/directives.py:139-145 | hands on everything held |
| `Directives.Stream` | services/conversation/directives.py:115-145 | the outputs of a whole run of feeds, feed by feed |
| `Directives.StreamConserves` | services/conversation/directives.py:115-145 | what is fed comes out: outputs and flush concatenate to the input |
| `Directives.StreamAgreesIff` | services/conversation/pipeline.py:1376-1414 | what is spoken and heard piecewise is one parse of the whole exactly when no release point falls inside a tag |
| `Directives.StreamAgrees` | services/conversation/pipeline.py:1376-1414 | if no chunk boundary falls between the brackets that open a tag, or inside a tag behind a second pair, directives and spoken text equal those of the whole text |
| `Directives.StreamAgreesOnChunks` | services/conversation/pipeline.py:1376-1414 | in a text whose every pair of opening brackets belongs to a tag, that condition on the chunks is necessary too |
| `Directives.NestedAlwaysBreaks` | services/conversation/pipeline.py:1376-1414 | and in every text its second half is: a chunk that ends inside a tag behind a second pair always breaks agreement |
| `Directives.SplitOpenLosesDirective` | services/conversation/directives.py:127-137 | a boundary between the two brackets loses the directive |
| `Directives.NestedOpenChangesDirective` | services/conversation/directives.py:127-137 | a second pair inside an open tag makes the stream hear another directive |
| `RateLimiter.FixedWindowCounter.EvictStale` | services/config/app.py:101-104 | removes exactly the buckets whose window has run out |
| `RateLimiter.FixedWindowCounter.MaybeSweep` | services/config/app.py:106-114 | sweeps on every access below the threshold and every 500th above it |
| `RateLimiter.FixedWindowCounter.Admit` | services/config/app.py:116-128 | sweeps, and refuses a new key only after a forced eviction still leaves no room |
| `RateLimiter.FixedWindowCounter.OverLimit` | services/config/app.py:136-145 | the answer, and the table after the sweeps that precede it; when the answer is no, and for how long, is ThrottleExact.CheckExact |
| `RateLimiter.FixedWindowCounter.Increment` | services/config/app.py:147-153 | one more in the current window, unless there is no room |
| `RateLimiter.TableBounded` | services/config/app.py:90-93 | no access takes the table past its cap |
| `RateLimiter.RefusedMeansFull` | services/config/app.py:119-128 | a key is refused for room exactly when it is untracked and the cap is filled by keys with unexpired windows |
| `Throttles.SweepingIsInvisible` | services/config/app.py:101-153 | while no increment is turned away, every access that is not itself turned away answers as a table that is never swept and has no cap |
| `Throttles.SweepingIsInvisibleFromStart` | services/config/app.py:101-153 | over any run in time order with no capacity refusal, the answers are those of a never-sweeping counter |
| `ThrottleExact.CheckExact` | services/config/app.py:136-145 | after any run, a check says no if and only if there is no room, the limit admits nothing, or as many counts of the key as the limit are logged in its window that is not over; the wait it asks for is the rest of that window rounded up to the next whole second, or the whole seconds of a window for lack of room |
| `Throttles.AdmittedIsRecorded` | services/config/app.py:172-176 | a request the check let through is always recorded by the increment that follows |
| `Throttles.AdmissionsBounded` | services/config/app.py:136-153 | over any run of check-then-count calls for any keys, a key is let through at most limit times per window and twice that in any span of one window length, and the log holds every request let through |
| `Throttles.RetryClears` | services/config/app.py:143-145 | waiting the returned retry with no further count of the key clears the refusal exactly unless the table has filled up or the limit admits nothing |
| `Throttles.CapacityRetryClears` | services/config/app.py:140-141 | a refusal for lack of room clears after the whole seconds of one window if nothing is counted meanwhile, whatever is peeked at |
| `Throttles.InviteThrottle.CheckProbe` | services/config/app.py:172-176 | a probe is one check-then-count call |
| `Throttles.AcceptThrottle.Check` | services/config/app.py:202-209 | both counters are checked before either counts, both count or neither does, and the hour counter is not consulted when the minute counter says no |
| `OrderedDicts.Without` | services/conversation/tool_latency.py:41-43 | the key order without one key: the others in order, once each |
| `ToolLatency.RecordedBounded` | services/conversation/tool_latency.py:45-72 | a record keeps all three bounds: samples per key, keys per tenant, tenants |
| `ToolLatency.ReadBounded` | services/conversation/tool_latency.py:74-100 | so does a read |
| `ToolLatency.RunBounded` | services/conversation/tool_latency.py:22-72 | all three bounds hold at every point of every run |
| `ToolLatency.AverageIsReference` | services/conversation/tool_latency.py:74-100 | from any store without the key, over any run in which neither cap evicts it, the average is the mean of the last 50 accepted samples no older than 900 s, and none below three |
| `ToolLatency.SweptDeque` | services/conversation/tool_latency.py:102-121 | a sweep leaves a key's samples alone or drops them when the newest is too old |
| `ToolLatency.OthersKeepLiveSamples` | services/conversation/tool_latency.py:45-72 | after any run from an empty store, with no more tenants than the cap, no further run of operations of other tenants changes what a tenant is told or costs it a sample that is not too old |
| `ToolLatency.TenantIsReclaimable` | services/conversation/tool_latency.py:115-121 | true exactly when no key of the tenant has a recent sample |
| `LatencyOrder.MeanIs` | services/conversation/tool_latency.py:96-100 | an average is given from three samples on, and times their number it is their sum |
| `LatencyOrder.AcceptedIff` | services/conversation/tool_latency.py:45-52 | a sample counts exactly when tenant and agent have a character that is not blank and the duration is finite and positive |
| `LatencyOrder.RunByUse` | services/conversation/tool_latency.py:45-100 | at every point of every run the keys of a tenant are in the order of their last record or read |
| `LatencyOrder.EvictedKeyIsOldest` | services/conversation/tool_latency.py:58-64 | so the key its cap pushes out is the one that all others were recorded or read after, and it goes only when the cap is reached |
| `LatencyOrder.PlacedOrder` | services/conversation/tool_latency.py:53-58 | a record moves its tenant to the end, and of a full store a new tenant pushes out the first |
| `LatencyOrder.ReadOrder` | services/conversation/tool_latency.py:74-95 | a read moves its tenant to the end unless nothing is left of it |
| `LatencyOrder.SweptOrder` | services/conversation/tool_latency.py:102-112 | a sweep moves the tenants it keeps behind the rest, in the same order |
| `TenantOrder.RunByTouch` | services/conversation/tool_latency.py:45-112 | at every point of every run the tenants are in the order in which they were last recorded for, read, or kept by a sweep |
| `TenantOrder.EvictedTenantIsOldest` | services/conversation/tool_latency.py:53-58 | so the tenant the cap pushes out is one that no other has gone longer without any of these, and it goes only for a new tenant in a full store |
| `ToolLatency.ToolLatencyStore.Record` | services/conversation/tool_latency.py:45-72 | the whole store after a record, sweep included |
| `ToolLatency.ToolLatencyStore.AverageMs` | services/conversation/tool_latency.py:74-100 | the answer and the whole store after a read |
| `ToolLatency.ToolLatencyStore.Sweep` | services/conversation/tool_latency.py:102-112 | the store after one sweep of the first 32 tenants |
| `Dialler.CapHolds` | services/campaigns/worker.py:94-205 | under every interleaving of ticks, callbacks, lost events and failures, placed but unresolved calls never exceed the in-flight counter, which never exceeds the cap |
| `Dialler.CountedKept` | services/campaigns/worker.py:101-139 | each step keeps the counter at or above the true number and the value a tick read at or above the counter, although it is written back several awaits later |
| `Dialler.SeparateKept` | services/campaigns/worker.py:59-60 | every unresolved dial is in one place at most: the tick, a registered job, or a resolution |
| `Dialler.HeldOnce` | services/campaigns/campaign_contacts.py:67-88 | a contact belongs to at most one unresolved dial or claiming tick, and its row says calling meanwhile |
| `Dialler.TerminalForGood` | services/campaigns/campaign_contacts.py:91-98 | once completed, failed, unanswered or blocked, a contact never changes again |
| `Dialler.DialsBounded` | services/campaigns/worker.py:179-199 | no contact is dialled more than max(1, max_attempts) times, consecutive dials are at least the pacing apart, and a finite campaign is dialled boundedly often |
| `Dialler.CompletedIff` | services/campaigns/worker.py:113-121 | when the tick is about to mark the campaign completed, all contacts are terminal if and only if none was queued since the empty claim |
| `Dialler.RequeueRace` | services/campaigns/worker.py:113-121 | the concrete run where the last dial is requeued between the two reads and the campaign completes with a queued contact |
| `DialOutcomes.DialEnds` | services/campaigns/worker.py:156-205 | when the row of a dial is written, its contact is completed after a success, back in the queue after a failure with attempts left, and unanswered or failed, as reported, after the last one |
| `DialOutcomes.OnlyReportsChange` | services/campaigns/worker.py:156-205 | and only so: a contact is queued again, completed, failed or unanswered only by the report on a dial of its own that says so |
| `DialOutcomes.AnsweredForGood` | services/campaigns/worker.py:156-178 | a person who answered is not dialled again: from the row on, the contact stays completed and no new dial is theirs |
| `DialOutcomes.AttemptsExact` | services/campaigns/campaign_contacts.py:67-88 | over every run, a contact has its earlier attempts and one for every claim |
| `DialOutcomes.OtherChanges` | services/campaigns/worker.py:112-134 | only a claim makes a queued contact busy, only the do-not-call list blocks one, the one just claimed, and new contacts are queued with nothing tried |
| `DialOutcomes.NewDialIs` | services/campaigns/worker.py:136-144 | a dial is placed only for the contact claimed and checked, as its latest attempt |
| `DialOutcomes.TickGoesOn` | services/campaigns/worker.py:94-111 | a tick goes on exactly when the pacing has passed, the counter is below the cap and the campaign is ready |
| `DialOutcomes.CounterExact` | services/campaigns/worker.py:101-137 | the counter is the number of calls owed to it plus the releases a tick has overwritten by writing back what it read before them: exact when no call ends while a contact is claimed |
| `Dialler.CampaignWorker.BeginTick` | services/campaigns/worker.py:94-111 | the decision before the first await, as the first step of the machine takes it |
| `Dialler.CampaignWorker.Reserve` | services/campaigns/worker.py:136-137 | the write-back from the count read earlier: what the machine's placing step does to this campaign's memory, and nothing to another's |
| `Dialler.CampaignWorker.Register` | services/campaigns/worker.py:142-144 | what the accepting step does to it |
| `Dialler.CampaignWorker.JobComplete` | services/campaigns/worker.py:156-199 | forgets the job and decides between retry, exhaustion and success as the machine does (DialOutcomes says which over runs); unknown jobs change nothing |
| `Dialler.CampaignWorker.ReleaseSlot` | services/campaigns/worker.py:193 | what the releasing step does: one campaign's counter is lowered, never below zero |
| `CallFsm.ConversationFSM.Transition` | services/conversation/fsm.py:368-393 | changes state only as the table allows, and records the change; the record stays an unbroken path from idle to the current state |
| `CallFsm.NothingAfterClosed` | services/conversation/fsm.py:61-110 | nothing follows the closed state in any recorded path |
| `CallFsm.ConversationFSM.OnCancel` | services/conversation/fsm.py:247-265 | the state after a cancel; nothing happens in barge-in |
| `CallFsm.ConversationFSM.OnTimeout` | services/conversation/fsm.py:334-364 | the state after a timer, stale ones ignored |
| `CallSession.MessageRests` | services/conversation/session.py:302-530 | one message from a state of rest leads to a state of rest, or parks the session exactly if it met an interrupted playback while speaking |
| `CallSession.RunRests` | services/conversation/session.py:302-553 | over every run after the handshake the session rests in listening, speaking, transferring, closing or closed, except that it is parked in barge-in exactly when some message met an interrupted playback while speaking and no close has come since |
| `CallSession.CloseCloses` | services/conversation/session.py:539-549 | a close ends closed from every state but idle |
| `SessionTable.RestTable` | services/conversation/session.py:302-553 | where each message leaves each state of rest: playback that ends leads from speaking to listening, a cancel likewise, a turn is taken up when listening and leads back there unless it parks, a close is heeded everywhere |
| `SessionTable.TurnParksIff` | services/conversation/session.py:302-355 | a turn parks exactly when its reply is being spoken, nothing having cancelled it, and the first word about its playback is that it was interrupted |
| `SessionTable.TurnBegins` | services/conversation/session.py:263-355 | the handshake leads from idle to listening, a transcript to thinking and the first audio to speaking |
| `CallSession.ConversationSession.SessionReady` | services/conversation/session.py:263-265 | the handshake |
| `CallSession.ConversationSession.SpeechEnded` | services/conversation/session.py:302-355 | a spoken turn with any handler output interleaved with any notices |
| `CallSession.ConversationSession.TextInput` | services/conversation/session.py:357-387 | a typed turn |
| `CallSession.ConversationSession.OnTransferFailed` | services/conversation/session.py:455-500 | the apology, with the synthetic end of playback when it has no audio |
| `CallSession.ConversationSession.CloseSession` | services/conversation/session.py:539-549 | close, which ends closed after the handshake |
| `Servicer.ConservedKept` | services/conversation/servicer.py:297-373 | every step, arrivals between any two included, keeps: each item that arrived is either still queued or was taken once |
| `Servicer.LeftAloneKept` | services/conversation/servicer.py:351-370 | a turn never takes a speech or transfer notice, nor the end of the stream, for itself |
| `Servicer.AckedOnceKept` | services/conversation/servicer.py:311-322 | the acknowledgements are those of the cancels taken, one each and in order |
| `Servicer.SingleKept` | services/conversation/servicer.py:514-529 | no transfer goes out twice, and the held one and the turn's have not gone out |
| `Servicer.TimelyKept` | services/conversation/servicer.py:36-83 | a transfer of a spoken turn goes out only right after a playback notice taken once the turn is over, an interrupted one only if the system itself decided on it, and never without a destination |
| `Servicer.RunSound` | services/conversation/servicer.py:254-660 | all of these at every moment of every run |
| `Servicer.AbandonedIff` | services/conversation/servicer.py:304-367 | when the loop ends with the stream, a message is left in the queue if and only if it is a speech or transfer notice that a turn put back while the end was queued, with no later turn putting the end back too |
| `Servicer.NothingAbandoned` | services/conversation/servicer.py:304-367 | so nothing is left if no response was waiting for the drain when the stream ended and none came after |
| `Servicer.NoticeAbandoned` | services/conversation/servicer.py:351-355 | the concrete run in which a speech notice is put back behind the end of the stream and never taken |
| `Servicer.DrainQueue` | services/conversation/servicer.py:302-373 | the drain loop ends, although it puts messages back in the queue it drains, and does what the drain steps do, whatever arrives while it waits; what a cancel it meets does to the turn is TurnOutcomes.NothingFollowsStop |
| `Servicer.DrainedSteps` | services/conversation/servicer.py:302-373 | that is a stretch of a run of the loop, after which the response can be passed on |
| `TurnOutcomes.HeardIff` | services/conversation/servicer.py:375-470 | at every moment of every run a response with audio is passed on exactly when its turn has met no cancel and no end of the stream |
| `TurnOutcomes.NothingFollowsStop` | services/conversation/servicer.py:304-322 | once a turn has met either, nothing more of it is heard and no transfer it asks for, before or after, goes out |
| `TurnOutcomes.TurnEnds` | services/conversation/servicer.py:508-529 | as a turn ends, the transfer it asked for last goes out at once if nothing of the turn was heard and it has a destination, is held if something was, and is dropped if the turn was stopped |
| `TurnOutcomes.PlaybackDecides` | services/conversation/servicer.py:644-655 | a playback notice sends the held transfer exactly if it has a destination and playback was not interrupted or the system itself decided on it, and nothing is held afterwards |
| `TurnOutcomes.HeldWaits` | services/conversation/servicer.py:644-655 | until the next playback notice, or the end of another turn, a held transfer stays held |
| `TurnOutcomes.HeardTransferGoesOut` | services/conversation/servicer.py:36-83 | so the transfer of a turn that was heard and not stopped goes out at the next playback notice, exactly under that condition |
| `TurnOutcomes.OuterLoopTakes` | services/conversation/servicer.py:242-655 | what the outer loop does with the message it takes: a spoken turn, a typed one with its transfers sent at once, the end of the loop, or neither |
| `ProviderCache.RunBalanced` | services/conversation/ai_provider_manager.py:331-350 | under every interleaving of getters and evictions at most one getter creates and nothing is cached while it does |
| `ProviderCache.SameUnlessEvicted` | services/conversation/ai_provider_manager.py:331-388 | instances stored equal successful evictions plus one if cached, and two gets give the same instance exactly when no eviction succeeded between them |
| `ProviderCache.AIProviderManager.Lookup` | services/conversation/ai_provider_manager.py:331-339 | both lookups of a get, as the machine takes them |
| `ProviderCache.AIProviderManager.Get` | services/conversation/ai_provider_manager.py:331-350 | a get nobody interferes with goes through the machine's steps: it gives the instance that is cached, or else makes one, where a factory is known and succeeds, and stores it; everything else stays |
| `ProviderCache.AIProviderManager.Invalidate` | services/conversation/ai_provider_manager.py:375-388 | the machine's eviction of one id; says whether it was cached |
| `VoiceDetector.EnergyTuning` | libs/vad_sdk/vad.py:49-52 | at least one frame each; otherwise the onset is the fewest frames that last the onset time, the hold the most that last no longer than the hold time |
| `VoiceDetector.SileroTuning` | libs/vad_sdk/silero_vad.py:75-78 | at least one window each; otherwise both are the fewest windows that last as long as they are to |
| `VoiceDetector.VoiceActivityDetector.Process` | libs/vad_sdk/vad.py:60-93 | one frame: the event and the counters; a frame that cannot be judged changes nothing |
| `VoiceDetector.EventsExact` | libs/vad_sdk/silero_vad.py:121-143 | speech starts at a frame exactly when no speech is under way and it completes the needed loud frames in a row since the last end, and ends likewise |
| `VoiceDetector.EventsAlternate` | libs/vad_sdk/vad.py:60-93 | events alternate, beginning with a start |
| `VoiceDetector.StartsNeedFrames` | libs/vad_sdk/vad.py:60-93 | k starts need at least k onsets and k - 1 holds of frames |

## Left out

- Error texts: a validation error keeps its kind, id and field only; unfilled placeholders are reported as a set, without the sorting by name.
- NaN and the infinities, which `json.loads` also accepts; the sign of a negative zero; escapes of unprintable characters outside ASCII inside a printed list or dictionary; the interpreter's limit on the digits of an integer.
- Word characters outside ASCII in the attribute names of directives.
- The key order a caller gave to the dictionaries around what is mirrored or built, which get the column's order here: only a dictionary in a text field is ever printed.
- Graphs whose list entries are not dictionaries, or whose containers are not lists, count as not equivalent here; Python may raise or compare them as empty.
- AgentRows.RunInStep: covers runs of requests within AgentRows.SteadyRequest; AgentRows.EquivalentDraftGoesLive and AgentRows.ColumnsStay say exactly what fails without its two halves.
- AgentRows.AgentRow.UpdatePrompts: a pair whose key is not a text is refused; Python keeps the key and writes it out as a text.
- Agents from before workflows existed, with no live graph.
- A row keeps the JSON it was given: what a column changes on the way (`Json.From` says what it can return) is not applied on each write; audit rows, cache messages, tenant scoping and deleted agents are not modelled.
- The send cap of InviteThrottle: its check and its record are separate requests, so the bound of Throttles.AdmissionsBounded is not claimed for it.
- Floating-point rounding of clock differences and averages.
- The order in which pending contacts are claimed, CSV parsing, calling hours and the do-not-call list: the dialler takes any pending contact and any answer.
- Several worker processes: one worker lifetime is followed, starting with nothing in flight, on rows an earlier worker may have left.
- Sequence numbers, audio payloads, workflow-node messages and end-of-call requests of the message loop, and the events it publishes.
- Servicer.RunSound: typed text drained during a spoken turn is dropped with a warning, as in the code, so it is not among what a turn leaves to the outer loop.
- Handler output is arbitrary: prompts, transcription, synthesis, model inference and energy computation are inputs.
- A factory that returns None as an instance; the registry of factories and secret resolution.
- Invites, users, phone numbers, the admin interface, the gateway, authentication and transport.

# Multi-swarm orchestrator core, modelled in Dafny

This project models the core of the multi-swarm orchestrator. The orchestrator is a set of Python skill scripts. Together they take a goal through these stages:

- a workflow topology;
- a mental-model bundle;
- an execution plan;
- task tickets;
- agent collaboration over a persistent message bus;
- an audit log;
- observability reports;
- governance checks.

Every script's logic is a pure Dafny function over immutable data:

- JSON-like values (`Json.Value`);
- insertion-ordered dictionaries (`Dicts.Dict`);
- Python string built-ins (`PyStr`);
- Option/Result wrappers (`Results`).

Files, clocks, hashes, uuids, subprocesses and the database enter as parameters.

Modules follow the source files:

- **Tickets.** The ticket scripts are `Tickets` (status transitions and rewrite), `TicketCreate` (new ticket ids and files) and `TicketValidate` (dependency checks). Their front matter reader is shared as `FrontMatter`.
- **Message bus.** `Bus` is a state machine over the stored messages. It covers send, the lease claim, the done/retry/dead marks and the diagnostic queries. Each call is one atomic step with an explicit clock.
- **Swarm worker.** `Swarm` holds the agent specification, the worker's reaction to a claimed message, and the output report. `TraceManifest` replays a trace into its run manifest. `WorkerTrace` shows how the worker's own messages land in that manifest.
- **Batch runs.** `BatchManifest` and `Manifest` cover the batch run manifest of the collaborator command line.
- **Collaborator helpers.** `CollabUtils`, `Providers`, `Schemas` and `NormalizeResults` are the collaborator helpers. `CollaborateHistory` covers the two earlier single-file collaborators. The helpers of the version 0.3 history file (`parse_task_spec`, `merge_prompt`, `_read_task_file`, `_load_resume_ids`, `_exit_code_for_results`) differ from `utils.py` only by their fixed provider table and the missing stdin read. They are therefore modelled once, in `CollabUtils` and `CollaborateHistory.ParseTaskSpec`.
- **Runtime workspace.** `RunIdentity`, `WorkspaceSettings`, `WorkspacePhases`, `WorkspaceManifest` and `WorkspaceIndex` cover the run-identity, settings, phase and manifest logic of the shared runtime workspace.
- **Design stages.** `Dispatch`, `Topology`, `Estimator`, `Bundle` and `ExecutionPlan` are the design stages. `AuditPayload` is the audit writer. `Observations` and `Portfolio` are the observability reports.
- **Governance.** `CcDefaults`, `CcContracts`, `GovValidate`, `SchemaValidate` and `CheckDeps` are the governance validators.

Two editions of several scripts are in the repository, one under `skills/` and one under `01.product/skills/`. Where they differ, both are modelled. Where they agree, the rows below cite one of them. The portfolio generator's two editions differ only in the label of the theta column, which `Portfolio` takes as a parameter.

## Where the code and the design description differ

The model follows the code in each case below.

- **A successful request may never complete its run.** The design's manifest builder expects a successful request to end with a completed run. In the code, the worker names the task of its result with `_derive_task_id`, in `ai_collaborator/swarm.py` lines 387-393. That keeps the request's `task_id` only when it starts with `task-`; otherwise it uses a hash of the message id. The manifest builder, in lines 96-98, seeds the request's row under any non-empty `task_id`, else under its position. So a request whose payload names its task `T1`, or names none, gets its result filed under another row. The request's own row stays in progress and the run never completes. `WorkerTrace.MissedResultLeavesRunOpen` and `WorkerTrace.MetResultCompletesRun` state both cases, and `WorkerTrace.NamedTaskIdsMeetIff` and `WorkerTrace.UnnamedTaskIdsMeetIff` say exactly when the two ids meet. This is not listed under Findings. The output-report schema, which is not part of this model, may require the `task-` prefix. If so, the evidently intended fix could sit in the worker or in the manifest builder, and nothing in the code says which.

- **An expired lease does not put a message back in the queue.** The design describes crash recovery: a message whose worker dies while holding it becomes claimable again once its lease lapses. In the code, the claim query in `ai_collaborator/bus.py` lines 161-162 selects only rows whose status is `queued` or `retry`, and a crashed worker's row stays `leased`. The lease-expiry test only decides among queued and retried rows, whose lease is cleared anyway. So a lapsed lease alone never makes a row claimable again. `Bus.LeasedNeverEligible` states this, and `Bus.LeaseTestRedundant` shows that, while queued and retried rows carry no lease, the lease test never changes which rows are eligible.

## Model

| member | source | states |
|---|---|---|
| Tickets.Allowed | 01.product/skills/mso-task-context-management/scripts/update_status.py:9-15 | the statuses a ticket may move to are ticket statuses; an unknown current status allows nothing |
| Tickets.TransitionTable | 01.product/skills/mso-task-context-management/scripts/update_status.py:9-15 | every status may stay put; done and cancelled are final; todo and blocked cannot jump to done; in_progress cannot be cancelled |
| Tickets.StatusLineIndex | 01.product/skills/mso-task-context-management/scripts/update_status.py:18-22 | the index found is the first line starting with `status:`, and none is found only when no line starts so |
| Tickets.ReadStatus | 01.product/skills/mso-task-context-management/scripts/update_status.py:18-22 | a status is read exactly when some line starts with `status:` |
| Tickets.ReplaceLines | 01.product/skills/mso-task-context-management/scripts/update_status.py:25-36 | the rewrite drops every legacy `state:` line, never adds lines, and keeps only original lines plus the new status line |
| Tickets.ReadReplacedLines | 01.product/skills/mso-task-context-management/scripts/update_status.py:18-36 | after the rewrite the first status line read is the new one |
| Tickets.StatusLineValue | 01.product/skills/mso-task-context-management/scripts/update_status.py:21-30 | an unpadded status written by the rewrite reads back as itself |
| Tickets.ReadStatusBehind | 01.product/skills/mso-task-context-management/scripts/update_status.py:19-22 | a first line that is not a status line is skipped by the reader |
| Tickets.ReadStatusFront | 01.product/skills/mso-task-context-management/scripts/update_status.py:19-22 | a first status line is the one the reader takes |
| Tickets.SplitLinesOfJoin | 01.product/skills/mso-task-context-management/scripts/update_status.py:28-37 | lines joined with newlines and ended by one split back into the same lines |
| Tickets.ReadReplacedStatus | 01.product/skills/mso-task-context-management/scripts/update_status.py:18-37 | rewriting a ticket that has a status line to an unpadded one-line status reads back that status |
| Tickets.ReplaceStatusTogglesNewline | 01.product/skills/mso-task-context-management/scripts/update_status.py:37 | the script as written differs from the corrected rewrite exactly by the final newline, which it drops from texts that had one |
| Tickets.ReplaceStatusDropsNewline | 01.product/skills/mso-task-context-management/scripts/update_status.py:37 | a one-line ticket ending in a newline loses its newline in the rewrite as written |
| Tickets.UpdateStatus | 01.product/skills/mso-task-context-management/scripts/update_status.py:40-61 | exit 0 exactly when the target is a status, a status line exists and the transition is allowed; only then is the text written, which is the corrected rewrite less the final newline when the ticket had one, and the transition reported |
| Tickets.UpdateStatusCorrected | 01.product/skills/mso-task-context-management/scripts/update_status.py:40-61 | the same decisions, with a written ticket that always ends in a newline |
| Tickets.UpdateStatusAgrees | 01.product/skills/mso-task-context-management/scripts/update_status.py:40-61 | the script and the corrected update agree on exit code and message and differ only in the final newline of a ticket that had one |
| Tickets.UpdateStatusDropsNewline | 01.product/skills/mso-task-context-management/scripts/update_status.py:57-58 | a one-line ticket ending in a newline, moved to an allowed status, is written back without its newline |
| Tickets.UpdateThenRead | 01.product/skills/mso-task-context-management/scripts/update_status.py:48-58 | a ticket that moved to a new status by the corrected update reads back in that status |
| Tickets.DoneIsFinal | 01.product/skills/mso-task-context-management/scripts/update_status.py:53-55 | once done, every update to another status fails with exit 1 and writes nothing |
| TicketCreate.KeepTitleChars | 01.product/skills/mso-task-context-management/scripts/create_ticket.py:13 | the kept text has only title characters, comes from the title, and a title of only such characters is kept whole |
| TicketCreate.CollapseSeps | 01.product/skills/mso-task-context-management/scripts/create_ticket.py:14 | the result has no two adjacent separators, is empty only for empty input, and adds no character except `-` |
| TicketCreate.CollapseFixed | 01.product/skills/mso-task-context-management/scripts/create_ticket.py:14 | text without adjacent separators is left alone |
| TicketCreate.TitleBase | 01.product/skills/mso-task-context-management/scripts/create_ticket.py:13-14 | the base holds only slug characters, no adjacent separators, and is empty when the title holds no slug character |
| TicketCreate.NormalizeTitle | 01.product/skills/mso-task-context-management/scripts/create_ticket.py:12-15 | the slug has 1 to 60 slug characters, no adjacent separators, and is `ticket` when the title has no slug character |
| TicketCreate.NormalizeTitleIdempotent | 01.product/skills/mso-task-context-management/scripts/create_ticket.py:12-15 | normalising a slug again changes nothing |
| TicketCreate.SlugIsBase | 01.product/skills/mso-task-context-management/scripts/create_ticket.py:13-14 | a slug is its own title base |
| TicketCreate.LeadingDigits | 01.product/skills/mso-task-context-management/scripts/create_ticket.py:25 | the `\d+` prefix: the longest run of digits at the start |
| TicketCreate.TicketBodyOf | 01.product/skills/mso-task-context-management/scripts/create_ticket.py:24-25 | a `TKT-*.md` name gives back its stem body |
| TicketCreate.TicketNumberFromFile | 01.product/skills/mso-task-context-management/scripts/create_ticket.py:23-27 | every number collected comes from some ticket file |
| TicketCreate.MaxPlusOne | 01.product/skills/mso-task-context-management/scripts/create_ticket.py:28 | the result exceeds every number and is 1 or one more than some number |
| TicketCreate.NextTicketId | 01.product/skills/mso-task-context-management/scripts/create_ticket.py:22-28 | the next id exceeds every ticket number in the folder and is 1 or one past the largest |
| TicketCreate.TicketNumberOfFileName | 01.product/skills/mso-task-context-management/scripts/create_ticket.py:47-49 | the number a ticket file name was made from is read back from it |
| TicketCreate.NextIdAfterCreate | 01.product/skills/mso-task-context-management/scripts/create_ticket.py:22-50 | after a ticket is created under the next id, the next id is one more |
| TicketCreate.NewFileIsFresh | 01.product/skills/mso-task-context-management/scripts/create_ticket.py:47-52 | the next ticket's file name is never one the folder already holds |
| TicketCreate.StrippedDeps | 01.product/skills/mso-task-context-management/scripts/create_ticket.py:58 | every dependency kept is non-empty and already stripped |
| TicketCreate.CreateTicket | 01.product/skills/mso-task-context-management/scripts/create_ticket.py:31-77 | invalid choices exit 2; a name clash exits 1 without writing; success writes the file named by the next id and the slug |
| TicketCreate.CreateAlwaysWrites | 01.product/skills/mso-task-context-management/scripts/create_ticket.py:47-52 | with valid choices the name clash guarded against cannot happen |
| TicketCreate.CreatedTicketStatus | 01.product/skills/mso-task-context-management/scripts/create_ticket.py:59-74 | a new ticket reads back, through the status updater, in the status it was created with |
| TicketValidate.KeyValue | 01.product/skills/mso-task-context-management/scripts/validate_task_node.py:32-34 | the pair is split at the first ':' with both sides stripped |
| TicketValidate.FenceIndex | 01.product/skills/mso-task-context-management/scripts/validate_task_node.py:26-31 | the first fence line at or after the start, and no fence before it |
| TicketValidate.FrontBlock | 01.product/skills/mso-task-context-management/scripts/validate_task_node.py:24-34 | the block between the first two fences holds no fence |
| TicketValidate.ScanInside | 01.product/skills/mso-task-context-management/scripts/validate_task_node.py:26-34 | inside the front matter the scan reads every line up to the closing fence |
| TicketValidate.ScanOutside | 01.product/skills/mso-task-context-management/scripts/validate_task_node.py:23-34 | the line-by-line scan reads exactly the key/value pairs of the block between the first two fences |
| TicketValidate.FrontGet | 01.product/skills/mso-task-context-management/scripts/validate_task_node.py:34-36 | a missing key gives the default; otherwise the value of the key's last assignment |
| TicketValidate.DepItems | 01.product/skills/mso-task-context-management/scripts/validate_task_node.py:36-40 | only a bracketed value yields dependencies, none of which holds a comma |
| TicketValidate.Stems | 01.product/skills/mso-task-context-management/scripts/validate_task_node.py:21 | a stem is known exactly when some ticket file has it |
| TicketValidate.DepIssues | 01.product/skills/mso-task-context-management/scripts/validate_task_node.py:41-43 | a ticket has no issue exactly when each of its non-empty dependencies is a known stem |
| TicketValidate.DepIssuesExact | 01.product/skills/mso-task-context-management/scripts/validate_task_node.py:41-43 | each issue names a missing non-empty dependency and each such dependency has its issue |
| TicketValidate.Issues | 01.product/skills/mso-task-context-management/scripts/validate_task_node.py:22-43 | there are no issues exactly when no ticket has one |
| TicketValidate.Validate | 01.product/skills/mso-task-context-management/scripts/validate_task_node.py:10-52 | a missing folder exits 1 with its message; success prints only VALIDATION_OK; failure prints VALIDATION_FAIL and at least one issue |
| TicketValidate.ValidateOkIff | 01.product/skills/mso-task-context-management/scripts/validate_task_node.py:36-52 | passes iff every non-empty dependency of every ticket names a ticket stem |
| TicketValidate.MissingDependencyReported | 01.product/skills/mso-task-context-management/scripts/validate_task_node.py:41-49 | a missing dependency fails the run and its message is printed |
| TicketValidate.CreatedDepsReadBack | 01.product/skills/mso-task-context-management/scripts/validate_task_node.py:36-40 | the `dependencies` value the ticket creator writes (create_ticket.py line 67) reads back as the list it was given, for dependencies in which `str` of the list escapes nothing, with no comma and no quote or whitespace at either end |
| Tickets.ReplaceStatus | 01.product/skills/mso-task-context-management/scripts/update_status.py:25-37 | the corrected rewrite always ends the ticket with a newline |
| Bus.OrDefault | 01.product/skills/mso-agent-collaboration/v0.0.1/Skill/ai-collaborator/scripts/ai_collaborator/bus.py:114-115 | an empty or missing trace or thread id takes the default, any other is kept |
| Bus.SendMessage | 01.product/skills/mso-agent-collaboration/v0.0.1/Skill/ai-collaborator/scripts/ai_collaborator/bus.py:93-142 | an unsupported type, a string payload that is not JSON text, or an id already in the table is rejected. Otherwise exactly one queued row with attempt 0 and the given fields is appended and its id returned. A string payload is stored decoded, so a JSON string literal loses its quotes; any other payload is stored as given |
| Bus.OldestEligible | 01.product/skills/mso-agent-collaboration/v0.0.1/Skill/ai-collaborator/scripts/ai_collaborator/bus.py:156-167 | no row is chosen exactly when none is eligible; the chosen row is eligible and no eligible row is older |
| Bus.Lease | 01.product/skills/mso-agent-collaboration/v0.0.1/Skill/ai-collaborator/scripts/ai_collaborator/bus.py:176-189 | the claimed row is leased to the worker until the lease end, attempt raised by one, every other column kept |
| Bus.LeaseUpdate | 01.product/skills/mso-agent-collaboration/v0.0.1/Skill/ai-collaborator/scripts/ai_collaborator/bus.py:176-189 | the UPDATE rewrites exactly the rows with the id that still pass the status and lease test, and counts them |
| Bus.FindById | 01.product/skills/mso-agent-collaboration/v0.0.1/Skill/ai-collaborator/scripts/ai_collaborator/bus.py:195 | a row found has the id; none is found only when no row has it |
| Bus.LeaseLength | 01.product/skills/mso-agent-collaboration/v0.0.1/Skill/ai-collaborator/scripts/ai_collaborator/bus.py:173 | a lease lasts at least one clock unit and at least the requested length |
| Bus.ClaimNext | 01.product/skills/mso-agent-collaboration/v0.0.1/Skill/ai-collaborator/scripts/ai_collaborator/bus.py:145-204 | with no eligible message nothing is claimed and the store is unchanged |
| Bus.CountMatchingOne | 01.product/skills/mso-agent-collaboration/v0.0.1/Skill/ai-collaborator/scripts/ai_collaborator/bus.py:184-191 | with unique ids the UPDATE matches exactly one row, so the rowcount check never fails |
| Bus.LeaseUpdateUnique | 01.product/skills/mso-agent-collaboration/v0.0.1/Skill/ai-collaborator/scripts/ai_collaborator/bus.py:176-189 | with unique ids the UPDATE rewrites exactly the chosen row |
| Bus.ClaimSome | 01.product/skills/mso-agent-collaboration/v0.0.1/Skill/ai-collaborator/scripts/ai_collaborator/bus.py:173-199 | a successful claim returns the leased row and changes no other row |
| Bus.ClaimSpec | 01.product/skills/mso-agent-collaboration/v0.0.1/Skill/ai-collaborator/scripts/ai_collaborator/bus.py:145-204 | a claim returns nothing exactly when no message is eligible, leaving the store alone; otherwise it leases the oldest eligible one |
| Bus.MarkDone | 01.product/skills/mso-agent-collaboration/v0.0.1/Skill/ai-collaborator/scripts/ai_collaborator/bus.py:207-220 | the message's rows become done with the lease cleared and the error kept; no other row changes |
| Bus.MarkRetry | 01.product/skills/mso-agent-collaboration/v0.0.1/Skill/ai-collaborator/scripts/ai_collaborator/bus.py:223-236 | the message's rows go back to retry with the lease cleared and the error recorded; no other row changes |
| Bus.MarkDead | 01.product/skills/mso-agent-collaboration/v0.0.1/Skill/ai-collaborator/scripts/ai_collaborator/bus.py:239-252 | the message's rows become dead with the lease cleared and the error recorded; no other row changes |
| Bus.SendPreservesValid | 01.product/skills/mso-agent-collaboration/v0.0.1/Skill/ai-collaborator/scripts/ai_collaborator/bus.py:119-137 | sending keeps ids unique and the lease invariant (leased exactly when a lease end is set) |
| Bus.ClaimPreservesValid | 01.product/skills/mso-agent-collaboration/v0.0.1/Skill/ai-collaborator/scripts/ai_collaborator/bus.py:176-189 | claiming keeps ids unique and a lease end set exactly on leased rows, since the claim sets status and lease end together |
| Bus.MarksPreserveValid | 01.product/skills/mso-agent-collaboration/v0.0.1/Skill/ai-collaborator/scripts/ai_collaborator/bus.py:207-252 | done, retry and dead each clear the lease end, so ids stay unique and a lease end stays set exactly on leased rows |
| Bus.LeasedNeverEligible | 01.product/skills/mso-agent-collaboration/v0.0.1/Skill/ai-collaborator/scripts/ai_collaborator/bus.py:161-162 | a leased row is never claimable, whatever the clock says |
| Bus.LeaseTestRedundant | 01.product/skills/mso-agent-collaboration/v0.0.1/Skill/ai-collaborator/scripts/ai_collaborator/bus.py:160-162 | while queued and retry rows carry no lease end, the lease test is always true: eligibility depends only on recipient and status |
| Bus.OutcomeClaimability | 01.product/skills/mso-agent-collaboration/v0.0.1/Skill/ai-collaborator/scripts/ai_collaborator/bus.py:207-252 | after retry the row can be claimed again at once; after done or dead never |
| Bus.NoDoubleClaim | 01.product/skills/mso-agent-collaboration/v0.0.1/Skill/ai-collaborator/scripts/ai_collaborator/bus.py:155-199 | two successive claims never return the same message |
| Bus.CountStatus | 01.product/skills/mso-agent-collaboration/v0.0.1/Skill/ai-collaborator/scripts/ai_collaborator/bus.py:255-268 | a status counts zero exactly when no row has it |
| Bus.StatusCounts | 01.product/skills/mso-agent-collaboration/v0.0.1/Skill/ai-collaborator/scripts/ai_collaborator/bus.py:255-268 | a status has a pair exactly when some row has it, and every pair is the count of its status |
| Bus.StatusCountsSpec | 01.product/skills/mso-agent-collaboration/v0.0.1/Skill/ai-collaborator/scripts/ai_collaborator/bus.py:255-268 | the counts add up to the number of rows and the status names come out strictly increasing |
| Bus.Sort | 01.product/skills/mso-agent-collaboration/v0.0.1/Skill/ai-collaborator/scripts/ai_collaborator/bus.py:271-304 | the ordering used by both listings: sorted by time and a permutation of its input |
| Bus.RecentMessages | 01.product/skills/mso-agent-collaboration/v0.0.1/Skill/ai-collaborator/scripts/ai_collaborator/bus.py:271-286 | the limit newest messages, newest first, drawn from the store, none left out newer than one kept; a negative limit is no limit |
| Bus.MessagesForTrace | 01.product/skills/mso-agent-collaboration/v0.0.1/Skill/ai-collaborator/scripts/ai_collaborator/bus.py:289-304 | every message of the trace and nothing else, oldest first |
| Swarm.ParseAgentToken | skills/mso-agent-collaboration/v0.0.1/Skill/ai-collaborator/scripts/ai_collaborator/swarm.py:35-44 | a token without ':' is rejected; an accepted pair has a non-empty agent and a known provider |
| Swarm.ParseTokens | skills/mso-agent-collaboration/v0.0.1/Skill/ai-collaborator/scripts/ai_collaborator/swarm.py:34-44 | every token is parsed in order; the parse fails exactly when some token is malformed |
| Swarm.ParseAgentsSpec | skills/mso-agent-collaboration/v0.0.1/Skill/ai-collaborator/scripts/ai_collaborator/swarm.py:25-45 | blank input raises; every parsed pair has a non-empty agent and a known provider |
| Swarm.ParseRenderRoundTrip | skills/mso-agent-collaboration/v0.0.1/Skill/ai-collaborator/scripts/ai_collaborator/swarm.py:25-45 | rendering well-formed pairs as `--agents` text and parsing it back gives the same pairs in the same order |
| Swarm.DeriveTaskPrompt | skills/mso-agent-collaboration/v0.0.1/Skill/ai-collaborator/scripts/ai_collaborator/swarm.py:366-375 | a truthy objective wins; a payload that is not a mapping gives its JSON text |
| Swarm.DeriveRunId | skills/mso-agent-collaboration/v0.0.1/Skill/ai-collaborator/scripts/ai_collaborator/swarm.py:378-384 | the run id always starts with `run-`, and a payload run id that does is used as it is |
| Swarm.DeriveTaskId | skills/mso-agent-collaboration/v0.0.1/Skill/ai-collaborator/scripts/ai_collaborator/swarm.py:387-393 | the task id always starts with `task-` |
| Swarm.ReportSummary | skills/mso-agent-collaboration/v0.0.1/Skill/ai-collaborator/scripts/ai_collaborator/swarm.py:397-399 | the summary is non-empty and at most 2000 characters |
| Swarm.OutputReport | skills/mso-agent-collaboration/v0.0.1/Skill/ai-collaborator/scripts/ai_collaborator/swarm.py:396-418 | success maps to status success, E-000 and proceed; failure to S-001 and retry; run and task ids keep their prefixes |
| Swarm.OutputReportValid | skills/mso-agent-collaboration/v0.0.1/Skill/ai-collaborator/scripts/ai_collaborator/swarm.py:555-558 | every output report carries all fields the result schema requires, so checking it reports nothing |
| Swarm.RequestEffects | skills/mso-agent-collaboration/v0.0.1/Skill/ai-collaborator/scripts/ai_collaborator/swarm.py:519-600 | a passing request first sends TASK_ACCEPT and ends by rebuilding the trace manifest |
| Swarm.ExpectedMark | skills/mso-agent-collaboration/v0.0.1/Skill/ai-collaborator/scripts/ai_collaborator/swarm.py:554-600 | the reference outcome: done on success, dead once attempts reach the maximum, retry before |
| Swarm.RequestEffectsSettle | skills/mso-agent-collaboration/v0.0.1/Skill/ai-collaborator/scripts/ai_collaborator/swarm.py:554-600 | a request's effects mark it exactly as the reference outcome says and answer its sender |
| Swarm.WorkerStep | skills/mso-agent-collaboration/v0.0.1/Skill/ai-collaborator/scripts/ai_collaborator/swarm.py:465-600 | only task requests can fail; every step ends by rebuilding the trace manifest |
| Swarm.WorkerStepSettles | skills/mso-agent-collaboration/v0.0.1/Skill/ai-collaborator/scripts/ai_collaborator/swarm.py:478-600 | each claimed message is settled by exactly one mark, the reference one, and the step ends with the manifest |
| Swarm.WorkerStepFailsOnlyOnSchema | skills/mso-agent-collaboration/v0.0.1/Skill/ai-collaborator/scripts/ai_collaborator/swarm.py:515 | a step fails exactly when a task request fails the strict schema check |
| Swarm.AcceptFirst | skills/mso-agent-collaboration/v0.0.1/Skill/ai-collaborator/scripts/ai_collaborator/swarm.py:519-534 | a task request's step sends the acceptance before anything else |
| Swarm.FailedRound | skills/mso-agent-collaboration/v0.0.1/Skill/ai-collaborator/scripts/ai_collaborator/swarm.py:574-600 | a failed round raises the attempt by one, clears the lease, and ends dead once attempts reach the maximum |
| Swarm.AlwaysFailingLifecycle | skills/mso-agent-collaboration/v0.0.1/Skill/ai-collaborator/scripts/ai_collaborator/swarm.py:459-600 | a message that always fails goes through retry and is dead after max(1, max_attempts) claims; no claim is possible after that |
| WorkerTrace.NamedTaskIdsMeetIff | skills/mso-agent-collaboration/v0.0.1/Skill/ai-collaborator/scripts/ai_collaborator/swarm.py:387-393 | for a request naming its task, the worker's result names the task the manifest seeded exactly when the name starts with task- |
| WorkerTrace.UnnamedTaskIdsMeetIff | skills/mso-agent-collaboration/v0.0.1/Skill/ai-collaborator/scripts/ai_collaborator/swarm.py:387-393 | for a request without a task id, the result names the seeded task-NNN exactly when the hash of the message id leaves the request's position modulo 1000 |
| WorkerTrace.ReportTaskId | skills/mso-agent-collaboration/v0.0.1/Skill/ai-collaborator/scripts/ai_collaborator/swarm.py:396-418 | the task id an output report carries is the one the manifest reads from the TASK_RESULT |
| WorkerTrace.MissedResultLeavesRunOpen | skills/mso-agent-collaboration/v0.0.1/Skill/ai-collaborator/scripts/ai_collaborator/swarm.py:77-181 | when the worker's result names another task than the seeded one, the replayed manifest lists two tasks and the run stays in progress instead of completing |
| WorkerTrace.MissedIdLeavesRunOpen | skills/mso-agent-collaboration/v0.0.1/Skill/ai-collaborator/scripts/ai_collaborator/swarm.py:88-181 | a done request followed by a result under a different task id leaves the request's row in progress beside a successful second row |
| WorkerTrace.MetResultCompletesRun | skills/mso-agent-collaboration/v0.0.1/Skill/ai-collaborator/scripts/ai_collaborator/swarm.py:77-181 | when the result names the seeded task, the manifest lists that one task as successful and the run completes |
| WorkerTrace.MetIdCompletesRun | skills/mso-agent-collaboration/v0.0.1/Skill/ai-collaborator/scripts/ai_collaborator/swarm.py:88-181 | a done request followed by a result under its own task id gives one successful row and a completed run |
| TraceManifest.SeedStatus | skills/mso-agent-collaboration/v0.0.1/Skill/ai-collaborator/scripts/ai_collaborator/swarm.py:102-108 | a request's row starts in progress exactly when it is leased or done, failed exactly when dead, pending otherwise |
| TraceManifest.SeedTaskId | skills/mso-agent-collaboration/v0.0.1/Skill/ai-collaborator/scripts/ai_collaborator/swarm.py:96-98 | the seeded task id is never empty |
| TraceManifest.KeptRole | skills/mso-agent-collaboration/v0.0.1/Skill/ai-collaborator/scripts/ai_collaborator/swarm.py:117-119 | a role is kept only when it is an allowed role and is the payload's |
| TraceManifest.KeptDependsOn | skills/mso-agent-collaboration/v0.0.1/Skill/ai-collaborator/scripts/ai_collaborator/swarm.py:121-123 | `depends_on` is kept exactly when it is a list of strings |
| TraceManifest.Seed | skills/mso-agent-collaboration/v0.0.1/Skill/ai-collaborator/scripts/ai_collaborator/swarm.py:86-125 | the counter counts the requests, there are at most that many rows, and every request id maps to a seeded row |
| TraceManifest.SeededIdAt | skills/mso-agent-collaboration/v0.0.1/Skill/ai-collaborator/scripts/ai_collaborator/swarm.py:92-98 | request i seeds its payload's task id, else the one its position among the requests gives |
| TraceManifest.SeedKeys | skills/mso-agent-collaboration/v0.0.1/Skill/ai-collaborator/scripts/ai_collaborator/swarm.py:88-125 | the seeded task ids are exactly the ids the requests resolve to |
| TraceManifest.SeedIndexesRequests | skills/mso-agent-collaboration/v0.0.1/Skill/ai-collaborator/scripts/ai_collaborator/swarm.py:100 | every request's message id is indexed |
| TraceManifest.Settle | skills/mso-agent-collaboration/v0.0.1/Skill/ai-collaborator/scripts/ai_collaborator/swarm.py:136-141 | setdefault then set: the task gets the status and exit code, a new task is appended under its id, other rows are unchanged |
| TraceManifest.ErrorTarget | skills/mso-agent-collaboration/v0.0.1/Skill/ai-collaborator/scripts/ai_collaborator/swarm.py:144-153 | the task an error settles is its request's task, else its own non-empty task id |
| TraceManifest.ApplyEvent | skills/mso-agent-collaboration/v0.0.1/Skill/ai-collaborator/scripts/ai_collaborator/swarm.py:127-171 | a named result marks its task success, an error marks its target failure with S-001, an update only flips a known row to in progress, anything else changes nothing, and no row is lost |
| TraceManifest.FoldKeepsRows | skills/mso-agent-collaboration/v0.0.1/Skill/ai-collaborator/scripts/ai_collaborator/swarm.py:127-171 | the second pass never drops a task row |
| TraceManifest.FoldAddsOnlyNamed | skills/mso-agent-collaboration/v0.0.1/Skill/ai-collaborator/scripts/ai_collaborator/swarm.py:132-160 | a row the second pass adds comes from a result or an error naming it |
| TraceManifest.LastResultWins | skills/mso-agent-collaboration/v0.0.1/Skill/ai-collaborator/scripts/ai_collaborator/swarm.py:132-141 | a final result message leaves its task successful whatever came before |
| TraceManifest.TraceRunStatus | skills/mso-agent-collaboration/v0.0.1/Skill/ai-collaborator/scripts/ai_collaborator/swarm.py:175-183 | completed iff there are rows and all succeeded; failed iff not and some row failed, timed out or is blocked; then in progress; else pending |
| TraceManifest.StatusAgreesWithCounts | skills/mso-agent-collaboration/v0.0.1/Skill/ai-collaborator/scripts/ai_collaborator/swarm.py:175-209 | the status agrees with the metrics: completed iff every task succeeded, and a counted failure always means failed |
| TraceManifest.RetryTotal | skills/mso-agent-collaboration/v0.0.1/Skill/ai-collaborator/scripts/ai_collaborator/swarm.py:190-196 | no retry is counted exactly when no row is a retry update |
| TraceManifest.RetryTotalAppend | skills/mso-agent-collaboration/v0.0.1/Skill/ai-collaborator/scripts/ai_collaborator/swarm.py:190-196 | appending one retry update adds one retry |
| TraceManifest.MinCreated | skills/mso-agent-collaboration/v0.0.1/Skill/ai-collaborator/scripts/ai_collaborator/swarm.py:185-187 | the creation time is the earliest row's |
| TraceManifest.MaxUpdated | skills/mso-agent-collaboration/v0.0.1/Skill/ai-collaborator/scripts/ai_collaborator/swarm.py:186-188 | the update time is the latest row's |
| TraceManifest.TraceRunId | skills/mso-agent-collaboration/v0.0.1/Skill/ai-collaborator/scripts/ai_collaborator/swarm.py:65-74 | the first `run-` prefixed payload run id of the trace, else `run-<day>-<digest>`; always `run-` prefixed |
| TraceManifest.RecordTraceManifest | skills/mso-agent-collaboration/v0.0.1/Skill/ai-collaborator/scripts/ai_collaborator/swarm.py:77-215 | nothing for an empty trace; else the replayed rows with their run status and metrics (total, succeeded plus failed at most total, non-negative duration) |
| TraceManifest.EveryRequestHasRow | skills/mso-agent-collaboration/v0.0.1/Skill/ai-collaborator/scripts/ai_collaborator/swarm.py:88-173 | every request of the trace has a row under the id it seeded |
| TraceManifest.FoldKeyedById | skills/mso-agent-collaboration/v0.0.1/Skill/ai-collaborator/scripts/ai_collaborator/swarm.py:136-160 | every row's task id is its key in the table |
| Manifest.CountSuccess | skills/mso-agent-collaboration/v0.0.1/Skill/ai-collaborator/scripts/ai_collaborator/swarm.py:208 | the success count equals the number of rows exactly when every row succeeded |
| Manifest.CountFailing | skills/mso-agent-collaboration/v0.0.1/Skill/ai-collaborator/scripts/ai_collaborator/swarm.py:209 | no failing row is counted exactly when none fails |
| Manifest.CountsBounded | skills/mso-agent-collaboration/v0.0.1/Skill/ai-collaborator/scripts/ai_collaborator/swarm.py:207-209 | succeeded plus failed never exceeds the number of rows |
| Manifest.ManifestJson | skills/mso-agent-collaboration/v0.0.1/Skill/ai-collaborator/scripts/ai_collaborator/swarm.py:198-215 | the manifest object carries the manifest keys in order |
| Manifest.ManifestValid | 01.product/skills/mso-agent-collaboration/v0.0.1/Skill/ai-collaborator/scripts/ai_collaborator/schemas.py:108-110 | every manifest from either producer carries the fields the run-manifest schema requires, so validation reports nothing |
| BatchManifest.TaskStatusOf | 01.product/skills/mso-agent-collaboration/v0.0.1/Skill/ai-collaborator/scripts/ai_collaborator/cli.py:51-56 | success wins over a timeout; timeout only for an unsuccessful timed-out result |
| BatchManifest.TaskExitCode | 01.product/skills/mso-agent-collaboration/v0.0.1/Skill/ai-collaborator/scripts/ai_collaborator/cli.py:59-64 | E-000 exactly on success, then X-001 or S-001 |
| BatchManifest.StatusAndExitCodeAgree | 01.product/skills/mso-agent-collaboration/v0.0.1/Skill/ai-collaborator/scripts/ai_collaborator/cli.py:51-64 | the exit code is determined by the status: timeout iff X-001, failure iff S-001 |
| BatchManifest.LastIndex | 01.product/skills/mso-agent-collaboration/v0.0.1/Skill/ai-collaborator/scripts/ai_collaborator/cli.py:68 | the position of the last result with the id, -1 exactly when none has it |
| BatchManifest.LastResult | 01.product/skills/mso-agent-collaboration/v0.0.1/Skill/ai-collaborator/scripts/ai_collaborator/cli.py:68-74 | the id map keeps the last result of every id |
| BatchManifest.RowTaskId | 01.product/skills/mso-agent-collaboration/v0.0.1/Skill/ai-collaborator/scripts/ai_collaborator/cli.py:73 | a row shows the request's id, else a `task-NNN` id |
| BatchManifest.BatchRows | 01.product/skills/mso-agent-collaboration/v0.0.1/Skill/ai-collaborator/scripts/ai_collaborator/cli.py:71-89 | one row per task in order, owned by its provider, with an exit code matching its status |
| BatchManifest.RowStatus | 01.product/skills/mso-agent-collaboration/v0.0.1/Skill/ai-collaborator/scripts/ai_collaborator/cli.py:74-81 | a row is blocked exactly when no result has its id; otherwise it shows the status of the last such result |
| BatchManifest.BatchRunStatus | 01.product/skills/mso-agent-collaboration/v0.0.1/Skill/ai-collaborator/scripts/ai_collaborator/cli.py:95-103 | completed iff every row succeeded; failed iff any row failed, timed out or is blocked; never pending |
| BatchManifest.SucceededCount | 01.product/skills/mso-agent-collaboration/v0.0.1/Skill/ai-collaborator/scripts/ai_collaborator/cli.py:91 | all results count iff all succeeded; none iff none did |
| BatchManifest.BuildRunManifest | 01.product/skills/mso-agent-collaboration/v0.0.1/Skill/ai-collaborator/scripts/ai_collaborator/cli.py:67-137 | rows and status as above, completed_at missing exactly while in progress, succeeded plus failed equals the results, duration never negative |
| BatchManifest.BatchInProgressOnlyWhenEmpty | 01.product/skills/mso-agent-collaboration/v0.0.1/Skill/ai-collaborator/scripts/ai_collaborator/cli.py:95-103 | every batch row is settled, so a run is in progress only with no tasks |
| BatchManifest.BatchCompletedIffAllSucceeded | 01.product/skills/mso-agent-collaboration/v0.0.1/Skill/ai-collaborator/scripts/ai_collaborator/cli.py:74-96 | the run is completed exactly when every task's last result succeeded |
| BatchManifest.MissingResultFailsRun | 01.product/skills/mso-agent-collaboration/v0.0.1/Skill/ai-collaborator/scripts/ai_collaborator/cli.py:76-99 | a task without a result makes the run fail |
| BatchManifest.ApplyResume | 01.product/skills/mso-agent-collaboration/v0.0.1/Skill/ai-collaborator/scripts/ai_collaborator/cli.py:249-253 | without resume the tasks stay; with it exactly the tasks whose id was not seen remain |
| BatchManifest.ApplyResumeIdempotent | 01.product/skills/mso-agent-collaboration/v0.0.1/Skill/ai-collaborator/scripts/ai_collaborator/cli.py:249-253 | filtering again with the same seen ids changes nothing |
| BatchManifest.PlanRun | 01.product/skills/mso-agent-collaboration/v0.0.1/Skill/ai-collaborator/scripts/ai_collaborator/cli.py:256-281 | refused with 2 exactly for no tasks, resume without progress, or nothing left after resume; otherwise runs the resumed tasks with the given positive concurrency or all at once |
| RunIdentity.ReplaceInvalid | skills/_shared/runtime_workspace.py:174 | every character outside `[a-z0-9-]` becomes a dash; valid text is unchanged |
| RunIdentity.CollapseDashes | skills/_shared/runtime_workspace.py:175 | no two dashes remain adjacent, nothing new is introduced, and text without double dashes is unchanged |
| RunIdentity.CutSlug | skills/_shared/runtime_workspace.py:176-178 | the slug is cut to its first 40 characters and keeps its shape |
| RunIdentity.SanitizeCaseSlug | skills/_shared/runtime_workspace.py:172-178 | the slug has 1 to 40 characters of `[a-z0-9-]` with no double dash |
| RunIdentity.SlugPipelineOnShape | skills/_shared/runtime_workspace.py:173-175 | on slug-shaped text the pipeline only strips the outer dashes; a clean slug comes through unchanged |
| RunIdentity.SanitizeClean | skills/_shared/runtime_workspace.py:172-178 | a clean slug is only cut to 40 characters |
| RunIdentity.SanitizeIdempotentIff | skills/_shared/runtime_workspace.py:172-178 | sanitising again changes nothing exactly when the result does not end with a dash, which the cut can leave |
| RunIdentity.SanitizeNotIdempotent | skills/_shared/runtime_workspace.py:172-178 | a concrete slug whose sanitised form changes when sanitised again |
| RunIdentity.SkillKeyMapping | skills/_shared/runtime_workspace.py:181-186 | the table holds every default name and every override |
| RunIdentity.NormalizeSkillKey | skills/_shared/runtime_workspace.py:181-192 | the result is an enum member; unknown keys fail exactly when strict and become `msowd` otherwise |
| RunIdentity.EnumMapsToItself | skills/_shared/runtime_workspace.py:181-192 | every enum member maps to itself |
| RunIdentity.DefaultNamesNormalise | skills/_shared/runtime_workspace.py:181-192 | without overrides every skill directory name and enum member normalises to its member |
| RunIdentity.NormalizeIdempotent | skills/_shared/runtime_workspace.py:181-192 | normalising a normalised key changes nothing |
| RunIdentity.MatchRunId | skills/_shared/runtime_workspace.py:202-213 | a match splits the id into an eight-digit date, a lower-case key and a slug of 1 to 40 characters |
| RunIdentity.ValidateRunId | skills/_shared/runtime_workspace.py:202-213 | the stripped id is accepted exactly when it matches the pattern and its key is in the enum |
| RunIdentity.GenerateRunId | skills/_shared/runtime_workspace.py:195-199 | fails exactly when the key does not normalise strictly; otherwise date, key and sanitised slug joined by dashes |
| RunIdentity.MatchRunIdOfParts | skills/_shared/runtime_workspace.py:202-213 | the pattern matches a well-shaped date, key and slug and gives them back as its groups |
| RunIdentity.GeneratedRunIdValidates | skills/_shared/runtime_workspace.py:195-213 | a generated run id validates unchanged |
| RunIdentity.ValidateRunIdIdempotent | skills/_shared/runtime_workspace.py:202-213 | a validated run id validates to itself |
| WorkspacePhases.PhaseTableValues | skills/_shared/runtime_workspace.py:25-37 | every phase code names a phase directory |
| WorkspacePhases.PhaseTablePrefixes | skills/_shared/runtime_workspace.py:25-37 | every phase directory begins with its two-character code |
| WorkspacePhases.PhaseDirsDistinct | skills/_shared/runtime_workspace.py:25-37 | the phase directories are distinct and longer than a code |
| WorkspacePhases.ResolvePhase | skills/_shared/runtime_workspace.py:783-788 | a phase resolves to a directory exactly when it is a code or a directory; a code maps through the table, a directory to itself |
| WorkspacePhases.CodeAndDirAgree | skills/_shared/runtime_workspace.py:783-788 | a code and the directory it names resolve to the same phase, which begins with the code |
| WorkspaceManifest.Default | skills/_shared/runtime_workspace.py:751-769 | `setdefault`: a present key keeps its value, a missing one takes the default |
| WorkspaceManifest.PhaseTemplate | skills/_shared/runtime_workspace.py:583-584 | every phase directory starts pending |
| WorkspaceManifest.RepairedSlot | skills/_shared/runtime_workspace.py:759-761 | a repaired phase entry keeps every stored field and has a status, `pending` when it had none |
| WorkspaceManifest.RepairedSlotStable | skills/_shared/runtime_workspace.py:759-761 | repairing a repaired entry changes nothing |
| WorkspaceManifest.RepairPhases | skills/_shared/runtime_workspace.py:757-762 | each phase directory gets its repaired entry and every other entry is left alone |
| WorkspaceManifest.WithLink | skills/_shared/runtime_workspace.py:763-766 | the run's observer link is present afterwards, existing links are kept, and a list already holding it is unchanged |
| WorkspaceManifest.FreshManifest | skills/_shared/runtime_workspace.py:736-749 | a new manifest is created with the run id, the normalised key, status created, null completion and error, every phase pending and the run's link |
| WorkspaceManifest.RepairedPhases | skills/_shared/runtime_workspace.py:757-762 | every phase directory has an entry with a status after the repair loop |
| WorkspaceManifest.RepairManifest | skills/_shared/runtime_workspace.py:750-769 | an existing manifest keeps every present key, gets a new `updated_at`, complete phases and the run's link |
| WorkspaceManifest.EnsureWithKey | skills/_shared/runtime_workspace.py:732-773 | after the ensure step every required key is present, every phase has a status and the run's link is listed |
| WorkspaceManifest.EnsureManifest | skills/_shared/runtime_workspace.py:736-752 | the ensure step fails exactly when the chosen skill key does not normalise strictly, even for a manifest that already holds a key |
| WorkspaceManifest.SetPhaseStatus | skills/_shared/runtime_workspace.py:790-794 | the phase's entry gets the new status and nothing else changes |
| WorkspaceManifest.PhaseUpdateAsWritten | skills/_shared/runtime_workspace.py:796-804 | as written: a present `completed_at` is never replaced by the failure branch |
| WorkspaceManifest.UpdateManifestPhaseAsWritten | skills/_shared/runtime_workspace.py:780-809 | as written: fails exactly for an unknown phase |
| WorkspaceManifest.CompletedAt | skills/_shared/runtime_workspace.py:800 | the completion time kept is a stored truthy one, else now |
| WorkspaceManifest.PhaseUpdate | skills/_shared/runtime_workspace.py:790-804 | the phase gets its status; a terminal run keeps its status; a failed phase fails the run and records its completion time; an activating status makes the run active; nothing else changes |
| WorkspaceManifest.UpdateManifestPhase | skills/_shared/runtime_workspace.py:780-809 | an unknown phase is an error; a known one updates its directory's entry |
| WorkspaceManifest.UpdateVersionsAgreeOtherwise | skills/_shared/runtime_workspace.py:796-804 | the code as written and the corrected update differ only when a failed phase fails the run |
| WorkspaceManifest.AsWrittenFailedPhase | skills/_shared/runtime_workspace.py:798-800 | as written, a failed phase keeps whatever completion time was stored |
| WorkspaceManifest.FreshRunHasNullCompletion | skills/_shared/runtime_workspace.py:736-749 | a freshly ensured run is created with a null completion time |
| WorkspaceManifest.FailedPhaseLeavesCompletedAtNull | skills/_shared/runtime_workspace.py:800 | a fresh run failed by a phase keeps a null completion time as written; the corrected update stores the time |
| WorkspaceManifest.Dedupe | skills/_shared/runtime_workspace.py:871 | the same items without repeats, each at its first occurrence |
| WorkspaceManifest.DedupeDistinct | skills/_shared/runtime_workspace.py:871 | a list without repeats is kept as it is |
| WorkspaceManifest.DedupePrefix | skills/_shared/runtime_workspace.py:870-872 | existing tags keep their order ahead of new ones |
| WorkspaceManifest.ErrorRecord | skills/_shared/runtime_workspace.py:874-886 | the error record has message, phase and timestamp; a non-dict error has phase unknown and the current time, and a falsy one message unknown |
| WorkspaceManifest.MergedTags | skills/_shared/runtime_workspace.py:869-872 | no tags leave the tags alone; otherwise every existing and new tag appears once, existing ones first |
| WorkspaceManifest.FinalizeEnsured | skills/_shared/runtime_workspace.py:863-888 | the final status and time are set, completion time kept or set unless archived, an error record exactly for failed runs, and nothing else changes |
| WorkspaceManifest.FinalizeManifest | skills/_shared/runtime_workspace.py:853-896 | an unknown final status fails first; otherwise the ensured manifest carries the final status, an error exactly when failed, and a completion time unless archived |
| WorkspaceManifest.FinalizeKeepsCompletedAt | skills/_shared/runtime_workspace.py:866-867 | finalising keeps a completion time already recorded |
| WorkspaceManifest.FinalizeIdempotent | skills/_shared/runtime_workspace.py:859-888 | finalising twice with the same arguments equals finalising once |
| WorkspaceIndex.RunIds | skills/_shared/runtime_workspace.py:816-828 | reading fails exactly when some line parses to a non-object; otherwise the ids are exactly the string run ids of the parsed lines |
| WorkspaceIndex.IndexRecord | skills/_shared/runtime_workspace.py:834-846 | the record carries seven fields, the stripped run id, the tags when they are a list and the archive path when it is a string |
| WorkspaceIndex.AppendManifestIndex | skills/_shared/runtime_workspace.py:812-850 | appends the record exactly when its run id is not yet listed, else leaves the index alone; afterwards the id is listed |
| WorkspaceIndex.AppendIndexOnce | skills/_shared/runtime_workspace.py:830-832 | appending the same run twice is appending it once |
| WorkspaceIndex.AppendIndexKeepsDistinct | skills/_shared/runtime_workspace.py:812-850 | appending keeps the run ids of the index distinct |
| WorkspaceSettings.MergeMissing | skills/_shared/runtime_workspace.py:162-169 | the merged dict has exactly the keys of both; a non-dict value of the target is kept and a dict stays a dict |
| WorkspaceSettings.MergeOne | skills/_shared/runtime_workspace.py:163-168 | one default key: added when missing, merged into a nested dict, otherwise nothing changes |
| WorkspaceSettings.DeepMergeMissing | skills/_shared/runtime_workspace.py:162-169 | the merged dict has exactly the keys of both, and no value of the target is overwritten |
| WorkspaceSettings.MergeKeepsOthers | skills/_shared/runtime_workspace.py:162-169 | the merge touches only the keys of the defaults |
| WorkspaceSettings.MergeAddsMissing | skills/_shared/runtime_workspace.py:164-165 | a key the target lacks ends up with the default's value |
| WorkspaceSettings.MergeDisjoint | skills/_shared/runtime_workspace.py:163-166 | defaults with keys the target lacks are appended as they are |
| WorkspaceSettings.MergeIntoEmpty | skills/_shared/runtime_workspace.py:162-169 | merging into an empty dict copies the defaults |
| WorkspaceSettings.MergeKeepsFlat | skills/_shared/runtime_workspace.py:162-169 | a target already holding every default key, none a dict, is left as it was |
| WorkspaceSettings.NormalizePeerPolicy | skills/_shared/runtime_workspace.py:376-380 | the result is always a known policy: None gives the default, a known stripped lower-case text is kept, anything else gives the default |
| WorkspaceSettings.PolicyNormalizesToItself | skills/_shared/runtime_workspace.py:376-380 | a policy name normalises to itself |
| WorkspaceSettings.NormalizePeerPolicyIdempotent | skills/_shared/runtime_workspace.py:376-380 | normalising a normalised policy changes nothing |
| WorkspaceSettings.PeerMissingEvent | skills/_shared/runtime_workspace.py:389-394 | the event records the mode, asks for manual input under the warning and blocking modes unless already set, is marked blocked under `block`, and keeps every other field |
| WorkspaceSettings.AppendPeerMissingEvent | skills/_shared/runtime_workspace.py:383-396 | exactly one event is appended and the result is blocked exactly under `block` |
| WorkspaceSettings.UnconfiguredPeerWarns | skills/_shared/runtime_workspace.py:376-396 | without a configured policy a missing peer warns, asks for manual input and does not block |
| CollabUtils.ParseTaskSpec | 01.product/skills/mso-agent-collaboration/v0.0.1/Skill/ai-collaborator/scripts/ai_collaborator/utils.py:40-52 | fails exactly when the spec has no ':' or its stripped provider is not allowed; a parsed request has an allowed provider and the default timeout |
| CollabUtils.TaskSpecRoundTrip | 01.product/skills/mso-agent-collaboration/v0.0.1/Skill/ai-collaborator/scripts/ai_collaborator/utils.py:40-52 | writing a request as `provider:prompt:id` and parsing it back gives the same provider, prompt and id, even when the id holds colons |
| CollabUtils.TaskFileEntries | 01.product/skills/mso-agent-collaboration/v0.0.1/Skill/ai-collaborator/scripts/ai_collaborator/utils.py:55-63 | a list document is the task list; a mapping gives its `tasks` entry or an empty list; anything else raises |
| CollabUtils.ContextText | 01.product/skills/mso-agent-collaboration/v0.0.1/Skill/ai-collaborator/scripts/ai_collaborator/utils.py:66-77 | no path gives no text; otherwise a prefix of the text, cut to a non-negative limit and whole without one |
| CollabUtils.ParseTemplate | 01.product/skills/mso-agent-collaboration/v0.0.1/Skill/ai-collaborator/scripts/ai_collaborator/utils.py:85 | a template `str.format` can read comes back as pieces whose text is the template itself; brace-free text always reads |
| CollabUtils.ParseUnparse | 01.product/skills/mso-agent-collaboration/v0.0.1/Skill/ai-collaborator/scripts/ai_collaborator/utils.py:85 | every piece sequence reads back from its own text: `{{`, `}}`, `{context}` and `{prompt}` are read exactly as written |
| CollabUtils.MergePrompt | 01.product/skills/mso-agent-collaboration/v0.0.1/Skill/ai-collaborator/scripts/ai_collaborator/utils.py:80-85 | a blank context leaves the prompt alone; the merge raises exactly when the context is not blank, the template holds both field texts and `str.format` cannot read it |
| CollabUtils.FormatDefault | 01.product/skills/mso-agent-collaboration/v0.0.1/Skill/ai-collaborator/scripts/ai_collaborator/utils.py:83-85 | with the default template the context comes first, then a rule, then the prompt |
| CollabUtils.MergeKeepsPrompt | 01.product/skills/mso-agent-collaboration/v0.0.1/Skill/ai-collaborator/scripts/ai_collaborator/utils.py:80-85 | the merge succeeds and contains the prompt when the context is blank, the default template is used, or the template has an unescaped `{prompt}` field |
| CollabUtils.RenderContainsPrompt | 01.product/skills/mso-agent-collaboration/v0.0.1/Skill/ai-collaborator/scripts/ai_collaborator/utils.py:85 | a template with an unescaped `{prompt}` field renders text containing the prompt |
| CollabUtils.EscapedPromptIsDropped | 01.product/skills/mso-agent-collaboration/v0.0.1/Skill/ai-collaborator/scripts/ai_collaborator/utils.py:83-85 | `{context}{{prompt}}` holds both field texts, so it is used as it is, and it yields the context followed by the literal `{prompt}` |
| CollabUtils.EscapedPromptLost | 01.product/skills/mso-agent-collaboration/v0.0.1/Skill/ai-collaborator/scripts/ai_collaborator/utils.py:83-85 | so the merged text can lack the prompt altogether |
| CollabUtils.SeenIds | 01.product/skills/mso-agent-collaboration/v0.0.1/Skill/ai-collaborator/scripts/ai_collaborator/utils.py:119-133 | reading fails exactly when a parsed line is not an object or records a truthy list or dict id; the ids kept are hashable and exactly those the parsed lines record |
| CollabUtils.SeenLastWins | 01.product/skills/mso-agent-collaboration/v0.0.1/Skill/ai-collaborator/scripts/ai_collaborator/utils.py:129-133 | the last line recording an id decides whether it counts as succeeded |
| CollabUtils.OnlySucceeded | 01.product/skills/mso-agent-collaboration/v0.0.1/Skill/ai-collaborator/scripts/ai_collaborator/utils.py:135-136 | keeps exactly the ids whose last record succeeded |
| CollabUtils.ResumeIds | 01.product/skills/mso-agent-collaboration/v0.0.1/Skill/ai-collaborator/scripts/ai_collaborator/utils.py:111-137 | fails exactly as reading the lines does; every id returned was seen; with resume_failed only succeeded ids remain, otherwise all seen ids |
| CollabUtils.ExitCodeForResults | 01.product/skills/mso-agent-collaboration/v0.0.1/Skill/ai-collaborator/scripts/ai_collaborator/utils.py:215-218 | 0 exactly when failures are tolerated or every result succeeded, else 1 |
| CollaborateHistory.ParseTaskSpec | 01.product/skills/mso-agent-collaboration/v0.0.1/Skill/ai-collaborator/history/ai-collaborator_v0.2/scripts/collaborate.py:234-251 | fails exactly when the spec has no ':' or names a provider outside the version's table |
| CollaborateHistory.HistoryAgreesWhenAccepted | 01.product/skills/mso-agent-collaboration/v0.0.1/Skill/ai-collaborator/history/ai-collaborator_v0.2/scripts/collaborate.py:234-251 | a spec the old parser accepts parses the same way with the current provider table |
| CollaborateHistory.HistoryRefusesOnlyAntigravity | 01.product/skills/mso-agent-collaboration/v0.0.1/Skill/ai-collaborator/history/ai-collaborator_v0.2/scripts/collaborate.py:248-249 | of the current providers only `antigravity` is refused by the old parser |
| CollaborateHistory.RunCommand | 01.product/skills/mso-agent-collaboration/v0.0.1/Skill/ai-collaborator/history/ai-collaborator_v0.2/scripts/collaborate.py:108-184 | succeeds exactly for a known provider with an executable whose process exits 0; an unknown provider gets its error text |
| CollaborateHistory.UnsupportedProviderNeverRuns | 01.product/skills/mso-agent-collaboration/v0.0.1/Skill/ai-collaborator/history/ai-collaborator_v0.2/scripts/collaborate.py:112-121 | an unsupported provider fails without depending on the executable search or the process |
| CollaborateHistory.RunBatch | 01.product/skills/mso-agent-collaboration/v0.0.1/Skill/ai-collaborator/history/ai-collaborator_v0.2/scripts/collaborate.py:187-207 | the result map holds exactly the ids of the tasks |
| CollaborateHistory.RunBatchLastWins | 01.product/skills/mso-agent-collaboration/v0.0.1/Skill/ai-collaborator/history/ai-collaborator_v0.2/scripts/collaborate.py:192-205 | the entry of an id is the one of its last task |
| CollaborateHistory.SingleTask | 01.product/skills/mso-agent-collaboration/v0.0.1/Skill/ai-collaborator/history/ai-collaborator_v0.2/scripts/collaborate.py:210-223 | the single task carries the arguments and the id `<provider>_0` |
| Providers.ProviderNames | skills/mso-agent-collaboration/v0.0.1/Skill/ai-collaborator/scripts/ai_collaborator/providers.py:55-56 | the provider names are the table's keys in order |
| Providers.Config | skills/mso-agent-collaboration/v0.0.1/Skill/ai-collaborator/scripts/ai_collaborator/providers.py:59-60 | a configuration exists exactly for the known names |
| Providers.TemplateEnvVar | skills/mso-agent-collaboration/v0.0.1/Skill/ai-collaborator/scripts/ai_collaborator/providers.py:142-146 | a template variable exists exactly for the known names |
| Providers.ProviderCommand | skills/mso-agent-collaboration/v0.0.1/Skill/ai-collaborator/scripts/ai_collaborator/providers.py:156-166 | an unknown provider raises; otherwise the executable followed by the stdin-mode or argument-mode arguments |
| Providers.ProviderNamesExact | skills/mso-agent-collaboration/v0.0.1/Skill/ai-collaborator/scripts/ai_collaborator/providers.py:7-52 | the provider list is exactly codex, claude, gemini, antigravity |
| Providers.TemplateRequiredOnlyAntigravity | skills/mso-agent-collaboration/v0.0.1/Skill/ai-collaborator/scripts/ai_collaborator/providers.py:149-153 | only antigravity needs a command template |
| Providers.StdinArguments | skills/mso-agent-collaboration/v0.0.1/Skill/ai-collaborator/scripts/ai_collaborator/providers.py:156-166 | claude and gemini need no argument in stdin mode; codex and antigravity pass the same arguments in both modes |
| Schemas.MissingFields | 01.product/skills/mso-agent-collaboration/v0.0.1/Skill/ai-collaborator/scripts/ai_collaborator/schemas.py:30-34 | exactly the required fields the payload lacks are reported, in list order |
| Schemas.FallbackRequiredCheck | 01.product/skills/mso-agent-collaboration/v0.0.1/Skill/ai-collaborator/scripts/ai_collaborator/schemas.py:26-34 | a non-object payload gets the single object error; an object gets its missing fields |
| Schemas.RequiredFields | 01.product/skills/mso-agent-collaboration/v0.0.1/Skill/ai-collaborator/scripts/ai_collaborator/schemas.py:38-71 | a required-field list exists exactly for the four known schemas |
| Schemas.Validate | 01.product/skills/mso-agent-collaboration/v0.0.1/Skill/ai-collaborator/scripts/ai_collaborator/schemas.py:37-71 | an unknown schema yields no errors; a known one reports exactly the object error for a non-object or one error per missing required field, and nothing exactly when the payload is an object with every required field |
| Schemas.ApplyMode | 01.product/skills/mso-agent-collaboration/v0.0.1/Skill/ai-collaborator/scripts/ai_collaborator/schemas.py:79-82 | raises exactly when strict and there are errors; otherwise the errors come back unchanged |
| Schemas.ValidatePayloadByType | 01.product/skills/mso-agent-collaboration/v0.0.1/Skill/ai-collaborator/scripts/ai_collaborator/schemas.py:85-105 | strict mode raises exactly when a request or result payload lacks a required field or is no object; otherwise the errors are exactly those its schema reports, and none for other types |
| Schemas.ValidateRunManifest | 01.product/skills/mso-agent-collaboration/v0.0.1/Skill/ai-collaborator/scripts/ai_collaborator/schemas.py:108-110 | strict mode raises exactly when the manifest is no object or lacks a required field; otherwise the errors are exactly those its schema reports |
| Schemas.WarnModeNeverRaises | 01.product/skills/mso-agent-collaboration/v0.0.1/Skill/ai-collaborator/scripts/ai_collaborator/schemas.py:79-110 | warn mode never raises, whatever the payload |
| Schemas.NonObjectSingleError | 01.product/skills/mso-agent-collaboration/v0.0.1/Skill/ai-collaborator/scripts/ai_collaborator/schemas.py:26-28 | a non-object payload of a checked type gets exactly the one object error |
| NormalizeResults.Objects | 01.product/skills/mso-agent-collaboration/v0.0.1/Skill/ai-collaborator/scripts/normalize_results.py:24 | exactly the objects of the list, in order |
| NormalizeResults.Normalize | 01.product/skills/mso-agent-collaboration/v0.0.1/Skill/ai-collaborator/scripts/normalize_results.py:22-29 | a mapping whose `type` is a list or dict raises; otherwise a list keeps its objects, a status or tokens report is wrapped, another mapping gives its object values, and anything else gives nothing |
| NormalizeResults.NormalizeIdempotent | 01.product/skills/mso-agent-collaboration/v0.0.1/Skill/ai-collaborator/scripts/normalize_results.py:22-29 | the list it writes normalises to itself |
| NormalizeResults.NormalizeListKeepsObjects | 01.product/skills/mso-agent-collaboration/v0.0.1/Skill/ai-collaborator/scripts/normalize_results.py:23-24 | every object of the input list survives, and nothing else comes out |
| FrontMatter.UntilFence | skills/mso-skill-governance/scripts/validate_cc_contracts.py:150-153 | the lines before the first fence, which end at a fence or at the end |
| FrontMatter.Block | skills/mso-skill-governance/scripts/validate_cc_contracts.py:145-153 | nothing unless the first line is a fence; then the lines after it up to the closing fence, none of them a fence |
| FrontMatter.ColonLines | skills/mso-skill-governance/scripts/validate_cc_contracts.py:156-158 | only the lines holding a ':' are read |
| FrontMatter.ToMap | skills/mso-skill-governance/scripts/validate_cc_contracts.py:155-161 | the dict holds exactly the keys of the pairs |
| FrontMatter.ToMapLastWins | skills/mso-skill-governance/scripts/validate_cc_contracts.py:161 | a key ends with the value of its last line |
| FrontMatter.Parse | skills/mso-skill-governance/scripts/validate_cc_contracts.py:144-162 | a file whose first line is not a fence has no front matter |
| FrontMatter.EntryKeys | skills/mso-skill-governance/scripts/validate_cc_contracts.py:156-161 | every key read comes from a line of the block that carries a ':' |
| FrontMatter.EntryOfLine | skills/mso-skill-governance/scripts/validate_cc_contracts.py:159-160 | a rendered `key: value` line reads back as its key and value |
| FrontMatter.ParseOfRendered | skills/mso-skill-governance/scripts/validate_cc_contracts.py:144-162 | plain pairs written between fences read back as the dict those pairs build |
| FrontMatter.RenderedFieldReadBack | skills/mso-skill-governance/scripts/validate_cc_contracts.py:144-162 | with distinct keys each rendered key reads back with its own value |
| Dispatch.FmOr | skills/mso-agent-collaboration/scripts/dispatch.py:142-143 | `fm.get(key) or default`: a non-empty default always gives a non-empty value |
| Dispatch.NonBlank | skills/mso-agent-collaboration/scripts/dispatch.py:109 | the non-empty texts, in order |
| Dispatch.ListItems | skills/mso-agent-collaboration/scripts/dispatch.py:109 | every item listed is non-empty and stripped |
| Dispatch.ListItemsMembers | skills/mso-agent-collaboration/scripts/dispatch.py:109 | an item is listed exactly when it is the non-blank stripped text of some item |
| Dispatch.TextItems | skills/mso-agent-collaboration/scripts/dispatch.py:110-117 | blank text gives nothing; unbracketed text is one stripped item |
| Dispatch.ParseList | skills/mso-agent-collaboration/scripts/dispatch.py:105-118 | None gives nothing; a list its stripped non-blank items; any other non-string one item |
| Dispatch.TextItemsBracketed | skills/mso-agent-collaboration/scripts/dispatch.py:114-116 | a bracketed text splits its inside at the commas |
| Dispatch.ParseListOfRendered | skills/mso-agent-collaboration/scripts/dispatch.py:105-118 | a list of plain items (nothing for `str` of the list to escape, no comma, no quote or whitespace at either end) written the way `str(list)` writes it reads back as the same list |
| Dispatch.ParseListIdempotent | skills/mso-agent-collaboration/scripts/dispatch.py:105-118 | reading a list again gives the same list |
| Dispatch.SingleItemForms | skills/mso-agent-collaboration/scripts/dispatch.py:110-117 | one plain item reads the same bare or as a one-item list |
| Dispatch.InferMode | skills/mso-agent-collaboration/scripts/dispatch.py:121-131 | a requested mode wins; otherwise one of batch, swarm or run |
| Dispatch.InferModeCases | skills/mso-agent-collaboration/scripts/dispatch.py:124-131 | each mode is chosen exactly in its own case: a batch tag beats a swarm or multi tag, which beats a high or critical priority |
| Dispatch.RenderedTagsChooseMode | skills/mso-agent-collaboration/scripts/dispatch.py:121-131 | a tag list written as a list literal reaches the mode choice intact |
| Dispatch.SafeTitle | skills/mso-agent-collaboration/scripts/dispatch.py:148 | the safe title is non-empty and holds no ':' or newline |
| Dispatch.SafeTitleKeepsSafe | skills/mso-agent-collaboration/scripts/dispatch.py:148 | a title that is already safe is kept |
| Dispatch.SafeTitleIdempotent | skills/mso-agent-collaboration/scripts/dispatch.py:148 | making a title safe twice is making it safe once |
| Dispatch.PayloadTaskId | skills/mso-agent-collaboration/scripts/dispatch.py:142 | the payload's task id is never empty |
| Dispatch.TaskSpec | skills/mso-agent-collaboration/scripts/dispatch.py:149 | the task spec splits at its first two colons into codex, the safe title and the id |
| Dispatch.BuildPayload | skills/mso-agent-collaboration/scripts/dispatch.py:141-172 | the payload carries the id, mode and artifact, a codex task spec whose third part is the id, the three required skills and manual_required |
| Dispatch.TaskSpecParses | skills/mso-agent-collaboration/scripts/dispatch.py:149 | the collaborator parses the task spec back into a codex request for the safe title under the payload's id |
| Dispatch.ArtifactReference | skills/mso-agent-collaboration/scripts/dispatch.py:134-138 | a non-blank artifact_uri is used stripped, otherwise the ticket path |
| Dispatch.Fallback | skills/mso-agent-collaboration/scripts/dispatch.py:218-246 | the fallback record asks for manual confirmation in run mode and records its reason as the only error |
| Dispatch.RunCliResult | skills/mso-agent-collaboration/scripts/dispatch.py:175-215 | a non-zero exit gives a failure naming the exit code; blank or unparsable output a success; parsed output as it is |
| Dispatch.Summary | skills/mso-agent-collaboration/scripts/dispatch.py:280-307 | manual confirmation exactly for a failure answer, with its error as the reason; non-object answers give no errors and no warnings |
| Dispatch.DispatchOne | skills/mso-agent-collaboration/scripts/dispatch.py:249-311 | skips exactly the tickets not todo, in_progress or queued; falls back exactly when the runtime is missing or the run raised; otherwise follows the answer |
| Dispatch.FailingExitNeedsManual | skills/mso-agent-collaboration/scripts/dispatch.py:280-291 | a collaborator exiting non-zero leaves the ticket in progress waiting for manual confirmation |
| Dispatch.SummaryAsWritten | skills/mso-agent-collaboration/scripts/dispatch.py:294-295 | as written, a non-object answer raises at the `warnings` lookup |
| Dispatch.DispatchOneAsWritten | skills/mso-agent-collaboration/scripts/dispatch.py:249-311 | as written, an exception happens only after the run completed |
| Dispatch.AsWrittenAgrees | skills/mso-agent-collaboration/scripts/dispatch.py:280-309 | the code as written agrees with the guarded version except that it raises exactly when the answer is not an object |
| Dispatch.ListAnswerCrashes | skills/mso-agent-collaboration/scripts/dispatch.py:294-295 | a collaborator printing only `[]` crashes the script as written, while the guarded version records a success |
| Dispatch.MissingStatusIsTodo | skills/mso-agent-collaboration/scripts/dispatch.py:251-252 | a ticket without a status counts as todo and is dispatched |
| CcContracts.Without | skills/mso-skill-governance/scripts/validate_cc_contracts.py:167 | the kept fields are exactly the required ones not present, never more than were listed |
| CcContracts.WithoutCount | skills/mso-skill-governance/scripts/validate_cc_contracts.py:167 | every absent field is reported as often as it was required, a present one never |
| CcContracts.WithoutPermutation | skills/mso-skill-governance/scripts/validate_cc_contracts.py:167 | reordering the required fields only reorders the missing ones |
| CcContracts.KeySet | skills/mso-skill-governance/scripts/validate_cc_contracts.py:167 | `f in fm` tests exactly the keys of the parsed dict |
| CcContracts.FieldsCheck | skills/mso-skill-governance/scripts/validate_cc_contracts.py:165-170 | passes iff every required field is present; otherwise a single problem listing exactly the absent fields (sorted when asked) |
| CcContracts.FieldsCheckOrderFree | skills/mso-skill-governance/scripts/validate_cc_contracts.py:167-169 | with sorting, the order the required fields are listed in cannot change the verdict or the message |
| CcContracts.CheckFrontmatterFields | skills/mso-skill-governance/scripts/validate_cc_contracts.py:165-170 | a ticket passes iff its front matter holds every required field; otherwise one "missing frontmatter fields" problem |
| CcContracts.FrontmatterCheckOrderFree | skills/mso-skill-governance/scripts/validate_cc_contracts.py:165-170 | the front-matter verdict does not depend on the order of the required fields |
| CcContracts.RenderedTicketPasses | skills/mso-skill-governance/scripts/validate_cc_contracts.py:165-170 | a ticket written with every required key as a plain `key: value` line passes the check (round trip with the front-matter parser) |
| CcContracts.Objects | skills/mso-skill-governance/scripts/validate_cc_contracts.py:201 | the dict entries of a list are kept, everything else dropped |
| CcContracts.ParseContracts | skills/mso-skill-governance/scripts/validate_cc_contracts.py:198-204 | `cc_contracts` as a `{contracts: [...]}` mapping or as a bare list yields its dict entries; any other shape yields nothing |
| CcContracts.ParseContractsShapesAgree | skills/mso-skill-governance/scripts/validate_cc_contracts.py:198-204 | both configuration shapes name the same contracts |
| CcContracts.CheckFileJsonFields | skills/mso-skill-governance/scripts/validate_cc_contracts.py:207-218 | a missing file, a non-object document and absent fields each fail with their own message; malformed JSON raises; a blank file counts as an empty dict |
| CcContracts.LastWithId | skills/mso-skill-governance/scripts/validate_cc_contracts.py:225-226 | once the index is built, looking up an id finds nothing iff no contract carries it, else the last contract with that id |
| CcContracts.TypeFails | skills/mso-skill-governance/scripts/validate_cc_contracts.py:263-270 | a fail for a non-string producer and for a non-string consumer, and none when both are strings |
| CcContracts.CheckOne | skills/mso-skill-governance/scripts/validate_cc_contracts.py:239-278 | a required contract draws a fail iff it is absent, incomplete or typed wrongly, and a warning iff its configured pair differs from the expected one |
| CcContracts.CheckOneLabels | skills/mso-skill-governance/scripts/validate_cc_contracts.py:242-278 | every finding names its contract and carries its list's level; an absent contract draws exactly the missing-id fail |
| CcContracts.CheckRows | skills/mso-skill-governance/scripts/validate_cc_contracts.py:239-280 | no fails iff every checked row finds a usable contract |
| CcContracts.CheckContractDefinitions | skills/mso-skill-governance/scripts/validate_cc_contracts.py:225-280 | raises exactly when a contract's id is a list or dict, which cannot be an index key; otherwise no fails iff every one of CC-01..CC-05 is configured usably |
| CcContracts.RowWarnings | skills/mso-skill-governance/scripts/validate_cc_contracts.py:272-278 | exactly the rows whose configured pair differs are warned about; warnings and fails carry their levels |
| CcContracts.Status | skills/mso-skill-governance/scripts/validate_cc_contracts.py:407 | fail iff any fail, warn iff no fail but some warning, ok otherwise |
| CcContracts.ExitCode | skills/mso-skill-governance/scripts/validate_cc_contracts.py:426 | exit 1 iff there is a fail |
| CcContracts.Validate | skills/mso-skill-governance/scripts/validate_cc_contracts.py:398-426 | raises exactly when building the contract index does; otherwise exit 1 exactly when the status is fail, which happens iff a required contract is unusable or the wiring failed; the skill ids are strictly sorted |
| CcContracts.Endpoints | skills/mso-skill-governance/scripts/validate_cc_contracts.py:412 | lists exactly the producers and consumers of the rows |
| CcContracts.SkillIds | skills/mso-skill-governance/scripts/validate_cc_contracts.py:412 | `required_skill_ids` is strictly sorted and holds exactly the expected producers and consumers |
| CcDefaults.ContractJson | skills/mso-skill-governance/scripts/_cc_defaults.py:11-83 | the dict form of a default carries every contract key in declaration order |
| CcDefaults.ContractJsonFields | skills/mso-skill-governance/scripts/_cc_defaults.py:11-83 | every key is present and `id`/`status` read back as the record's |
| CcDefaults.DefaultContracts | skills/mso-skill-governance/scripts/_cc_defaults.py:86-88 | one dict per default, in declaration order |
| CcDefaults.DefaultIds | skills/mso-skill-governance/scripts/_cc_defaults.py:11-83 | the ids of the defaults, in declaration order |
| CcDefaults.ContractIndex | skills/mso-skill-governance/scripts/_cc_defaults.py:91-93 | the index is keyed by exactly the default ids |
| CcDefaults.DefaultsOk | skills/mso-skill-governance/scripts/_cc_defaults.py:19 | every default is marked ok |
| CcDefaults.DefaultIdsAre | skills/mso-skill-governance/scripts/_cc_defaults.py:13-73 | the defaults are CC-01..CC-06 in order |
| CcDefaults.ContractIndexEntries | skills/mso-skill-governance/scripts/_cc_defaults.py:91-93 | each id maps to its own default, so the dict comprehension loses nothing |
| CcDefaults.DefaultIdsDistinct | skills/mso-skill-governance/scripts/_cc_defaults.py:11-83 | no two defaults share an id |
| CcDefaults.Skills | skills/mso-skill-governance/scripts/_cc_defaults.py:98-106 | exactly the producers and consumers of the given contracts |
| CcDefaults.RequiredSkillIds | skills/mso-skill-governance/scripts/_cc_defaults.py:96-107 | sorted without duplicates, exactly the producers and consumers of the defaults |
| GovValidate.HasFailConcat | skills/mso-skill-governance/scripts/validate_gov.py:215 | a joined list holds a fail iff one of its parts does |
| GovValidate.MissingFields | skills/mso-skill-governance/scripts/validate_gov.py:179-188 | exactly the required contract fields the entry lacks |
| GovValidate.FieldFindings | skills/mso-skill-governance/scripts/validate_gov.py:179-188 | one fail per absent field, naming it, in field order |
| GovValidate.EntryFindings | skills/mso-skill-governance/scripts/validate_gov.py:165-198 | a non-dict entry is one fail; a dict draws one fail per absent field and a warning iff its status is not ok/warn/fail |
| GovValidate.ScanCounts | skills/mso-skill-governance/scripts/validate_gov.py:165-198 | the entry loop emits exactly one error per absent field or non-dict entry and one warning per unexpected status, no warning a fail |
| GovValidate.ScanClean | skills/mso-skill-governance/scripts/validate_gov.py:165-198 | complete dict entries with a known status draw nothing |
| GovValidate.MissingIds | skills/mso-skill-governance/scripts/validate_gov.py:200 | sorted, exactly the required ids never seen |
| GovValidate.MissingIdFindings | skills/mso-skill-governance/scripts/validate_gov.py:201-209 | one fail per missing id, in order |
| GovValidate.ValidateContracts | skills/mso-skill-governance/scripts/validate_gov.py:146-158 | an empty table or a non-list each give one fail with its own message |
| GovValidate.ValidateList | skills/mso-skill-governance/scripts/validate_gov.py:160-211 | a non-empty list is checked entry by entry, then for missing ids |
| GovValidate.ListFindingsCounts | skills/mso-skill-governance/scripts/validate_gov.py:160-211 | the warnings are the unexpected statuses; the errors are the entry errors followed by one fail per absent required id, in sorted order |
| GovValidate.DefaultEntryClean | skills/mso-skill-governance/scripts/validate_gov.py:177-198 | a default contract in dict form lacks no field, has a known status and keeps its id |
| GovValidate.CleanTablePasses | skills/mso-skill-governance/scripts/validate_gov.py:146-211 | clean entries whose ids cover CC-01..CC-05 draw no finding |
| GovValidate.RecordsClean | skills/mso-skill-governance/scripts/validate_gov.py:177-198 | contract records marked ok under unpadded ids are clean entries that keep their ids |
| GovValidate.DefaultIdsFit | skills/mso-skill-governance/scripts/validate_gov.py:162 | the default ids are unpadded and cover the required ids |
| GovValidate.DefaultsPass | skills/mso-skill-governance/scripts/validate_gov.py:275 | the embedded defaults draw no finding at all |
| GovValidate.CollectSkills | skills/mso-skill-governance/scripts/validate_gov.py:47-56 | exactly the directory entries whose names start with neither '.' nor '_' |
| GovValidate.CoreFails | skills/mso-skill-governance/scripts/validate_gov.py:93-110 | a fail iff core.md or the modules index is missing |
| GovValidate.DirWarnings | skills/mso-skill-governance/scripts/validate_gov.py:111-120 | warn-severity findings, present iff the references or scripts directory is missing |
| GovValidate.LegacyFindings | skills/mso-skill-governance/scripts/validate_gov.py:122-131 | warn-severity findings, none iff no listed file holds a legacy string |
| GovValidate.SkillFindings | skills/mso-skill-governance/scripts/validate_gov.py:74-131 | a missing folder is one fail; otherwise a fail iff core.md or the modules index is missing, and nothing iff the folder is clean |
| GovValidate.StructureErrors | skills/mso-skill-governance/scripts/validate_gov.py:74-131 | a fail iff some required skill is broken; nothing iff all are clean |
| GovValidate.BrokenClean | skills/mso-skill-governance/scripts/validate_gov.py:74-131 | the recursive broken/clean predicates agree with their quantified forms |
| GovValidate.OverloadWarnings | skills/mso-skill-governance/scripts/validate_gov.py:133-141 | one warning iff more than eight skills are collected |
| GovValidate.ValidateSkillStructure | skills/mso-skill-governance/scripts/validate_gov.py:70-143 | warnings only for overload; the errors hold a fail iff some required skill is broken and are empty iff all are clean |
| GovValidate.ReportStatus | skills/mso-skill-governance/scripts/validate_gov.py:215 | the report says fail iff any warning or error is a fail |
| GovValidate.SummaryStatus | skills/mso-skill-governance/scripts/validate_gov.py:284 | the JSON summary fails iff an error is a fail, warns iff only warnings exist |
| GovValidate.GatherClean | skills/mso-skill-governance/scripts/validate_gov.py:273-278 | a contract table that draws nothing leaves the structure findings as they are |
| GovValidate.MainAsWritten | skills/mso-skill-governance/scripts/validate_gov.py:261-300 | exit 2 without a skills directory, else exit 1 iff the errors list is non-empty whatever the severities |
| GovValidate.Main | skills/mso-skill-governance/scripts/validate_gov.py:236-303 | exit 2 without a skills directory; otherwise exit 1 iff the report says fail and 0 iff it says ok |
| GovValidate.MainFailsOnBrokenSkill | skills/mso-skill-governance/scripts/validate_gov.py:236-303 | with clean defaults, the corrected run exits 1 iff some required skill lacks its folder, core.md or modules index |
| GovValidate.RequiredSkillsKept | skills/mso-skill-governance/scripts/validate_gov.py:15-24 | every required skill present as a directory is collected |
| GovValidate.CollectedFewer | skills/mso-skill-governance/scripts/validate_gov.py:47-56 | collecting never adds names |
| GovValidate.WarnOnlyStructure | skills/mso-skill-governance/scripts/validate_gov.py:111-120 | skills lacking only references and scripts give errors without a fail |
| GovValidate.WarnOnlyRunExitsOne | skills/mso-skill-governance/scripts/validate_gov.py:295-297 | such a run reports ok in both report and summary yet exits 1 as written, 0 when corrected |
| SchemaValidate.StringsOfMembers | skills/mso-skill-governance/scripts/validate_schemas.py:193 | exactly the strings of the list are kept, and nothing is lost iff every item is a string |
| SchemaValidate.StringsOfAppend | skills/mso-skill-governance/scripts/validate_schemas.py:193 | the filter keeps the order of the list |
| SchemaValidate.NormalizeSchemaTypes | skills/mso-skill-governance/scripts/validate_schemas.py:189-194 | a string becomes its own one-item list, a list keeps exactly its strings, anything else declares no type |
| SchemaValidate.AnyTypeMatchesIff | skills/mso-skill-governance/scripts/validate_schemas.py:201-211 | the loop accepts iff some listed type name is one the value is an instance of |
| SchemaValidate.FallbackTypeCheck | skills/mso-skill-governance/scripts/validate_schemas.py:197-211 | accepts iff no types are given or some given name fits the value (integer excludes booleans, null matches only None) |
| SchemaValidate.ValueFindings | skills/mso-skill-governance/scripts/validate_schemas.py:236-242 | a present field draws at most a type and an enum finding, each prefixed by its name |
| SchemaValidate.NameFindings | skills/mso-skill-governance/scripts/validate_schemas.py:227-242 | a missing field draws exactly the missing-field finding and skips its other checks; a present one draws none iff its type and enum checks pass; an unhashable name raises |
| SchemaValidate.NamesFindings | skills/mso-skill-governance/scripts/validate_schemas.py:227-244 | no findings iff every required field passes; raises iff some name is a list or dict |
| SchemaValidate.FallbackChecks | skills/mso-skill-governance/scripts/validate_schemas.py:214-244 | a non-dict payload gives the single not-an-object finding; otherwise the findings of the required names against the properties |
| SchemaValidate.ParseScalar | skills/mso-skill-governance/scripts/validate_schemas.py:99-115 | empty text is "", null is None and true/false in any case are booleans, all before literal evaluation; what cannot be evaluated stays a string |
| SchemaValidate.KeywordsBeforeEval | skills/mso-skill-governance/scripts/validate_schemas.py:101-106 | the keywords are read the same whatever the literal evaluator does |
| SchemaValidate.NonEmpty | skills/mso-skill-governance/scripts/validate_schemas.py:141 | keeps at most the lines it is given |
| SchemaValidate.NonEmptyLast | skills/mso-skill-governance/scripts/validate_schemas.py:141-146 | nothing is kept iff every line is empty, and the last kept line is the last non-empty one |
| SchemaValidate.StripAll | skills/mso-skill-governance/scripts/validate_schemas.py:141 | each line stripped, in order |
| SchemaValidate.LatestIndexRecord | skills/mso-skill-governance/scripts/validate_schemas.py:137-152 | missing iff the index is absent or has no non-blank line; otherwise ok iff the last non-blank line parses to an object, which is the record |
| SchemaValidate.Prefixed | skills/mso-skill-governance/scripts/validate_schemas.py:306 | every message gets the prefix, in order |
| SchemaValidate.ValidateTarget | skills/mso-skill-governance/scripts/validate_schemas.py:278-326 | a missing schema or artifact fails with one error; pass iff no errors; with the library, fail iff it reports errors; without it, fail in strict mode, warn when the fallback is off, and otherwise fail iff the fallback finds something |
| AuditPayload.VisibleClean | skills/mso-agent-audit-log/scripts/append_from_payload.py:53 | text that starts and ends with a visible character survives stripping unchanged |
| AuditPayload.PrintableClean | skills/mso-agent-audit-log/scripts/append_from_payload.py:53 | text that starts and ends with printable ASCII survives stripping unchanged |
| AuditPayload.SafeText | skills/mso-agent-audit-log/scripts/append_from_payload.py:50-54 | None gives the default; anything else gives its stripped text, or the default when that is blank |
| AuditPayload.SafeTextAgain | skills/mso-agent-audit-log/scripts/append_from_payload.py:50-54 | normalising a normalised text again changes nothing, for a stripped default |
| AuditPayload.ToBoolInt | skills/mso-agent-audit-log/scripts/append_from_payload.py:68-69 | 1 exactly for truthy values, else 0 |
| AuditPayload.CleanTexts | skills/mso-agent-audit-log/scripts/append_from_payload.py:61 | keeps at most the items given, each stripped and non-blank |
| AuditPayload.CleanTextsFrom | skills/mso-agent-audit-log/scripts/append_from_payload.py:61 | every kept text is the normalised text of some item |
| AuditPayload.CleanTextsKeep | skills/mso-agent-audit-log/scripts/append_from_payload.py:61 | every item with non-blank text is kept |
| AuditPayload.CleanTextsMembers | skills/mso-agent-audit-log/scripts/append_from_payload.py:61 | a text is kept iff it is non-blank and some item normalises to it |
| AuditPayload.OtherTextClean | skills/mso-agent-audit-log/scripts/append_from_payload.py:65 | the text of a bool, an int or a dict has no surrounding whitespace |
| AuditPayload.AsList | skills/mso-agent-audit-log/scripts/append_from_payload.py:57-65 | None is empty, a string is its stripped self unless blank, a scalar or dict is its text, a list its non-blank texts; every entry is clean |
| AuditPayload.CleanTextsOfClean | skills/mso-agent-audit-log/scripts/append_from_payload.py:61 | a list of clean texts reads back as itself |
| AuditPayload.AsListAgain | skills/mso-agent-audit-log/scripts/append_from_payload.py:57-65 | normalising a field twice is normalising it once |
| AuditPayload.TextsDefaults | skills/mso-agent-audit-log/scripts/append_from_payload.py:98-108 | every text field of the common record is either its default or clean text |
| AuditPayload.FilesAffected | skills/mso-agent-audit-log/scripts/append_from_payload.py:93-95 | a list is stored as its JSON text; anything else is stored as given |
| AuditPayload.MetadataLookup | skills/mso-agent-audit-log/scripts/append_from_payload.py:73-90 | payload metadata keys win; the three filled-in keys come from the payload or their defaults; no other key appears |
| AuditPayload.DefaultsClean | skills/mso-agent-audit-log/scripts/append_from_payload.py:100-108 | the built-in defaults are clean text |
| AuditPayload.FieldAgain | skills/mso-agent-audit-log/scripts/append_from_payload.py:98-108 | a field stored back as its normalised text normalises to the same text |
| AuditPayload.ArtifactAgain | skills/mso-agent-audit-log/scripts/append_from_payload.py:99 | the artifact field normalises to the same text when read back from the stored record |
| AuditPayload.SafeTextClean | skills/mso-agent-audit-log/scripts/append_from_payload.py:50-54 | with a clean default the result is clean |
| AuditPayload.CleanAgain | skills/mso-agent-audit-log/scripts/append_from_payload.py:50-54 | clean text comes back as itself whatever the default |
| AuditPayload.TaskNameAgain | skills/mso-agent-audit-log/scripts/append_from_payload.py:105 | a stored task name is never blank, so reading it back does not fall back to the source |
| AuditPayload.TextsAgain | skills/mso-agent-audit-log/scripts/append_from_payload.py:98-108 | the text fields of a stored common record rebuild to themselves |
| AuditPayload.ExtrasAgain | skills/mso-agent-audit-log/scripts/append_from_payload.py:110-117 | the pass-through fields rebuild to themselves |
| AuditPayload.MetadataAgain | skills/mso-agent-audit-log/scripts/append_from_payload.py:73-90 | filling in the metadata a second time adds nothing |
| AuditPayload.BuildCommonAgain | skills/mso-agent-audit-log/scripts/append_from_payload.py:72-118 | `build_common` is idempotent: a stored common record rebuilds to itself |
| AuditPayload.Group | skills/mso-agent-audit-log/scripts/append_from_payload.py:148-153 | one group for a non-empty list, none for an empty one |
| AuditPayload.Notes | skills/mso-agent-audit-log/scripts/append_from_payload.py:145-154 | no notes iff errors, warnings and next actions are all empty; notes start with the first non-empty group |
| AuditPayload.JoinStartsWith | skills/mso-agent-audit-log/scripts/append_from_payload.py:154 | the joined notes start with their first group |
| AuditPayload.PrefixOfPrefix | skills/mso-agent-audit-log/scripts/append_from_payload.py:149-154 | prefix facts carry over to the joined notes |
| AuditPayload.AuditRowOf | skills/mso-agent-audit-log/scripts/append_from_payload.py:143-195 | the row carries the task id, the artifact as input and output, the assembled notes, and 1 in each transition flag iff the metadata flag is truthy |
| AuditPayload.GeneratedDecisionIdsDistinct | skills/mso-agent-audit-log/scripts/append_from_payload.py:126 | two generated decision ids of one task are equal only for the same position |
| AuditPayload.RowForId | skills/mso-agent-audit-log/scripts/append_from_payload.py:125-131 | a decision without a usable id gets the generated one, else its own id stripped |
| AuditPayload.DecisionRowsOf | skills/mso-agent-audit-log/scripts/append_from_payload.py:121-140 | succeeds iff every decision is a dict, with one row per decision, each related to the task |
| AuditPayload.DecisionRows | skills/mso-agent-audit-log/scripts/append_from_payload.py:122-125 | an absent or falsy decisions value writes nothing; a list succeeds iff all entries are dicts |
| AuditPayload.SafeTextBlank | skills/mso-agent-audit-log/scripts/append_from_payload.py:126 | a blank id falls back to the given default |
| AuditPayload.DecisionIdsDistinct | skills/mso-agent-audit-log/scripts/append_from_payload.py:125-126 | two id-less decisions of one payload get different ids |
| AuditPayload.LastRow | skills/mso-agent-audit-log/scripts/append_from_payload.py:135 | finds the last row written with the id, or nothing iff no row has it |
| AuditPayload.UpsertSnoc | skills/mso-agent-audit-log/scripts/append_from_payload.py:133-140 | writing one more row replaces exactly its id |
| AuditPayload.UpsertLastWins | skills/mso-agent-audit-log/scripts/append_from_payload.py:133-140 | after `INSERT OR REPLACE` an id holds its last row written, and untouched ids keep their old row |
| AuditPayload.PayloadBindableExtras | skills/mso-agent-audit-log/scripts/append_from_payload.py:93-117 | the payload can be bound exactly when every extra field of the built audit row can: a `files_affected` list always can, since it is stored as its JSON text |
| AuditPayload.Append | skills/mso-agent-audit-log/scripts/append_from_payload.py:198-221 | succeeds iff the payload is a dict, the database exists, every payload value bound unchanged into the audit row is one sqlite3 accepts, and the decisions are insertable; every decision row points at the audit row, whose id is the payload's task id or the generated one |
| Observations.AnyToken | 01.product/skills/mso-observability/scripts/collect_observations.py:58 | holds iff some token occurs in the text |
| Observations.Lowered | 01.product/skills/mso-observability/scripts/collect_observations.py:57 | lower-casing keeps the length |
| Observations.LoweredIsLower | 01.product/skills/mso-observability/scripts/collect_observations.py:57 | the character-by-character lowering is `str.lower()` on ASCII |
| Observations.LoweredNoUpper | 01.product/skills/mso-observability/scripts/collect_observations.py:57 | text without upper-case letters lowers to itself |
| Observations.LoweredConcat | 01.product/skills/mso-observability/scripts/collect_observations.py:57 | lowering distributes over concatenation |
| Observations.ParseBoolMeans | 01.product/skills/mso-observability/scripts/collect_observations.py:54-58 | a value reads as a deferral iff some deferral token occurs in its lowered text |
| Observations.LoweredIdempotent | 01.product/skills/mso-observability/scripts/collect_observations.py:57 | lowering twice is lowering once |
| Observations.ParseBoolIgnoresCase | 01.product/skills/mso-observability/scripts/collect_observations.py:57-58 | case does not matter to the deferral test |
| Observations.ContainsBefore | 01.product/skills/mso-observability/scripts/collect_observations.py:58 | a token found in a text is found in any extension of it |
| Observations.ParseBoolInContext | 01.product/skills/mso-observability/scripts/collect_observations.py:57-58 | text that reads as a deferral still does with anything around it |
| Observations.NumFailed | 01.product/skills/mso-observability/scripts/collect_observations.py:102 | never more failed rows than rows |
| Observations.NumRetried | 01.product/skills/mso-observability/scripts/collect_observations.py:118 | never more repeated rows than rows |
| Observations.NumDeferred | 01.product/skills/mso-observability/scripts/collect_observations.py:150 | never more deferring rows than rows |
| Observations.TaskNames | 01.product/skills/mso-observability/scripts/collect_observations.py:103 | never more names than rows |
| Observations.TaskCount | 01.product/skills/mso-observability/scripts/collect_observations.py:103 | never more rows naming a task than rows |
| Observations.TaskNamesCount | 01.product/skills/mso-observability/scripts/collect_observations.py:103 | the counter holds, for every task, exactly the number of rows naming it |
| Observations.Keys | 01.product/skills/mso-observability/scripts/collect_observations.py:104 | never more keys than names |
| Observations.KeysMembers | 01.product/skills/mso-observability/scripts/collect_observations.py:104 | the counter's keys are the names, each once |
| Observations.MostCommon | 01.product/skills/mso-observability/scripts/collect_observations.py:136 | nothing exactly for an empty counter |
| Observations.MostCommonIsMax | 01.product/skills/mso-observability/scripts/collect_observations.py:136 | the chosen key has the highest count, and every key seen before it a strictly lower one |
| Observations.Clusters | 01.product/skills/mso-observability/scripts/collect_observations.py:104-116 | only failure clusters are produced |
| Observations.ClustersMembers | 01.product/skills/mso-observability/scripts/collect_observations.py:104-105 | a cluster is reported for exactly the tasks counted three or more times, with their count |
| Observations.FailureSignals | 01.product/skills/mso-observability/scripts/collect_observations.py:102-116 | only failure clusters are produced |
| Observations.RetrySignal | 01.product/skills/mso-observability/scripts/collect_observations.py:118-131 | at most one retry spike |
| Observations.BottleneckSignal | 01.product/skills/mso-observability/scripts/collect_observations.py:133-148 | at most one bottleneck |
| Observations.DeferralSignal | 01.product/skills/mso-observability/scripts/collect_observations.py:150-162 | at most one deferral loop |
| Observations.Signals | 01.product/skills/mso-observability/scripts/collect_observations.py:88-175 | an empty batch gives exactly the no-rows report; otherwise at least one signal and never the no-rows one |
| Observations.Found | 01.product/skills/mso-observability/scripts/collect_observations.py:102-162 | the rules never produce a report event |
| Observations.SignalsFrom | 01.product/skills/mso-observability/scripts/collect_observations.py:102-162 | a rule's signal appears iff the batch is non-empty and that rule produced it |
| Observations.SignalsAsWrittenCrashes | skills/mso-observability/scripts/collect_observations.py:163-167 | the older collector raises iff a non-empty batch under a bottleneck mode names no task; otherwise it agrees with the guarded one |
| Observations.UnnamedScheduledBatchCrashes | skills/mso-observability/scripts/collect_observations.py:163-166 | one scheduled row without a task name: the older collector raises where the guarded one reports a summary |
| Observations.NoTokenInEmpty | 01.product/skills/mso-observability/scripts/collect_observations.py:150 | an absent note never reads as a deferral |
| Observations.TaskNamesPresent | 01.product/skills/mso-observability/scripts/collect_observations.py:103 | a counted row puts its task name in the counter |
| Observations.NamedRowWitness | 01.product/skills/mso-observability/scripts/collect_observations.py:134-135 | a non-empty counter was fed by some row |
| Observations.TaskNamesMember | 01.product/skills/mso-observability/scripts/collect_observations.py:103 | a task is in the counter iff some counted row names it |
| Observations.FailureSignalsMembers | 01.product/skills/mso-observability/scripts/collect_observations.py:102-116 | the failure rule reports exactly the tasks named by three or more failed rows, each with its count |
| Observations.FailureClusterReported | 01.product/skills/mso-observability/scripts/collect_observations.py:102-116 | a failure cluster is reported iff its task names three or more failed rows and the count is theirs |
| Observations.RetrySpikeReported | 01.product/skills/mso-observability/scripts/collect_observations.py:118-131 | a retry spike is reported iff at least a fifth of a non-empty batch are repeats |
| Observations.DeferralReported | 01.product/skills/mso-observability/scripts/collect_observations.py:150-162 | a deferral loop is reported iff at least `max(1, int(n * 0.4))` rows of a non-empty batch defer |
| Observations.BottleneckSignalMeans | 01.product/skills/mso-observability/scripts/collect_observations.py:133-137 | the bottleneck rule fires iff the mode is scheduled, on-demand or event and one task dominates the batch |
| Observations.TopTaskCount | 01.product/skills/mso-observability/scripts/collect_observations.py:136 | no task is named by more rows than the most common one |
| Observations.BottleneckSignalTop | 01.product/skills/mso-observability/scripts/collect_observations.py:136-143 | the named bottleneck is a task with the highest row count |
| Observations.BottleneckReported | 01.product/skills/mso-observability/scripts/collect_observations.py:133-148 | a bottleneck is reported iff the mode calls for it and one task dominates a non-empty batch |
| Observations.BottleneckIsTopTask | 01.product/skills/mso-observability/scripts/collect_observations.py:136-143 | the reported bottleneck is a named task with its own row count over the whole batch |
| Observations.BottleneckIsMax | 01.product/skills/mso-observability/scripts/collect_observations.py:136-137 | no task is named by more rows than the reported bottleneck |
| Observations.FailureSignalsEmpty | 01.product/skills/mso-observability/scripts/collect_observations.py:104-105 | the failure rule finds nothing iff no task has three failed rows |
| Observations.SummaryWhenQuiet | 01.product/skills/mso-observability/scripts/collect_observations.py:164-175 | a non-empty batch gets the summary, and only it, iff no rule fires |
| Observations.CheckpointPrefix | 01.product/skills/mso-observability/scripts/collect_observations.py:109 | every checkpoint id starts with a three-character prefix |
| Observations.EmitEvent | 01.product/skills/mso-observability/scripts/collect_observations.py:61-81 | the event carries its checkpoint id and correlation; info exactly for reports, critical exactly for deferral loops and half-batch retry spikes; a HITL request exactly for deferral loops; reports never retry |
| Observations.EmitAll | 01.product/skills/mso-observability/scripts/collect_observations.py:84-177 | one event per signal, in order |
| Observations.BuildEvents | 01.product/skills/mso-observability/scripts/collect_observations.py:84-177 | at least one event, each correlated with the run and artifact; an empty batch gives one info report |
| Observations.BuildEventsAsWritten | skills/mso-observability/scripts/collect_observations.py:113-207 | when the older collector does not raise it emits the guarded collector's events |
| Observations.CriticalEvents | 01.product/skills/mso-observability/scripts/collect_observations.py:118-162 | a critical event appears iff at least half a non-empty batch are repeats or it shows a deferral loop |
| Observations.ApartParts | 01.product/skills/mso-observability/scripts/collect_observations.py:109-168 | signals of different rules differ in checkpoint prefix or suffix |
| Observations.IdsDiffer | 01.product/skills/mso-observability/scripts/collect_observations.py:109-168 | signals that are apart get different checkpoint ids under any day stamp |
| Observations.RetryTaskSharesId | 01.product/skills/mso-observability/scripts/collect_observations.py:109-124 | a task literally named "retry" failing three times yields a cluster and a retry spike with one checkpoint id |
| Observations.RetryIdClash | 01.product/skills/mso-observability/scripts/collect_observations.py:109-124 | the cluster of task "retry" and the retry spike share their checkpoint id |
| Observations.AppendDistinct | 01.product/skills/mso-observability/scripts/collect_observations.py:109-168 | distinct id lists with no id in common join to a distinct list |
| Observations.ClustersDistinct | 01.product/skills/mso-observability/scripts/collect_observations.py:104-109 | clusters over distinct counter keys carry distinct ids |
| Observations.ClusterApart | 01.product/skills/mso-observability/scripts/collect_observations.py:109-141 | a cluster is apart from every other rule's signal unless a task named "retry" or "bottleneck" fails three times |
| Observations.SignalIdsDistinct | 01.product/skills/mso-observability/scripts/collect_observations.py:102-175 | every signal of a run has its own checkpoint id, under that same condition |
| Observations.CheckpointIdsDistinct | 01.product/skills/mso-observability/scripts/collect_observations.py:84-177 | the events of a run have pairwise different checkpoint ids, under that same condition |
| Portfolio.TicketOf | skills/mso-observability/scripts/generate_portfolio_status.py:69-72 | a file yields a ticket only when its front matter has a non-empty id |
| Portfolio.CollectTickets | skills/mso-observability/scripts/generate_portfolio_status.py:63-73 | never more tickets than files |
| Portfolio.CollectedHaveIds | skills/mso-observability/scripts/generate_portfolio_status.py:70 | every collected ticket has a non-empty id |
| Portfolio.CollectTicketsKeeps | skills/mso-observability/scripts/generate_portfolio_status.py:68-72 | every file whose front matter has an id is collected, carrying its front matter and path |
| Portfolio.CollectTicketsSkipsUnfenced | skills/mso-observability/scripts/generate_portfolio_status.py:49-52 | a file without an opening fence yields no ticket |
| Portfolio.TableRow | skills/mso-observability/scripts/generate_portfolio_status.py:180 | a table row opens with a pipe |
| Portfolio.Padded | skills/mso-observability/scripts/generate_portfolio_status.py:180 | every cell is padded by one space on each side |
| Portfolio.ReadTableRow | skills/mso-observability/scripts/generate_portfolio_status.py:180 | a row whose cells hold no pipe reads back as its cells |
| Portfolio.Statuses | skills/mso-observability/scripts/generate_portfolio_status.py:159-161 | the status of every ticket, "unknown" when absent, in order |
| Portfolio.StatusCountsAgree | skills/mso-observability/scripts/generate_portfolio_status.py:158-161 | the dict holds a status iff some ticket has it, with the number of tickets that do |
| Portfolio.ReadCountLineBack | skills/mso-observability/scripts/generate_portfolio_status.py:164-167 | a count line reads back as its key and count |
| Portfolio.StatusLines | skills/mso-observability/scripts/generate_portfolio_status.py:165-167 | at most one line per known status |
| Portfolio.StatusLinesFor | skills/mso-observability/scripts/generate_portfolio_status.py:165-167 | the status lines list exactly the known statuses with a positive count, each with that count |
| Portfolio.SummaryPart | skills/mso-observability/scripts/generate_portfolio_status.py:163-167 | the heading, the total and at most five status lines |
| Portfolio.SummaryTotal | skills/mso-observability/scripts/generate_portfolio_status.py:164 | the total reads back as the number of tickets |
| Portfolio.SummaryListsStatus | skills/mso-observability/scripts/generate_portfolio_status.py:158-167 | the summary lists a known status iff some ticket has it, with the number of tickets that do |
| Portfolio.TicketCells | skills/mso-observability/scripts/generate_portfolio_status.py:174-180 | one cell per column |
| Portfolio.TicketRows | skills/mso-observability/scripts/generate_portfolio_status.py:173-180 | one row per ticket, in order |
| Portfolio.TablePart | skills/mso-observability/scripts/generate_portfolio_status.py:170-180 | heading, column row, rule row and one row per ticket |
| Portfolio.TicketRowReadsBack | skills/mso-observability/scripts/generate_portfolio_status.py:174-180 | a ticket's row reads back as its id, status, priority, owner, due date and tags, with the defaults for absent keys |
| Portfolio.TicketCellsPipeFree | skills/mso-observability/scripts/generate_portfolio_status.py:174-180 | pipe-free ticket values give pipe-free cells |
| Portfolio.TicketRowStatus | skills/mso-observability/scripts/generate_portfolio_status.py:175 | the status cell shows a known status iff the ticket is counted under it |
| Portfolio.SummaryMatchesTable | skills/mso-observability/scripts/generate_portfolio_status.py:158-180 | for each known status the summary's count is the number of table rows showing it |
| Portfolio.AuditValues | skills/mso-observability/scripts/generate_portfolio_status.py:188-189 | one value per metric |
| Portfolio.AuditRows | skills/mso-observability/scripts/generate_portfolio_status.py:188-189 | one row per metric |
| Portfolio.AuditPart | skills/mso-observability/scripts/generate_portfolio_status.py:183-189 | the audit section appears iff an audit summary was collected |
| Portfolio.AuditRowReadsBack | skills/mso-observability/scripts/generate_portfolio_status.py:188-189 | each audit row reads back as its metric and value; the last event shows N/A when the log is empty |
| Portfolio.AuditCountsParse | skills/mso-observability/scripts/generate_portfolio_status.py:102-112 | the four count cells parse back as the counts |
| Portfolio.CollectAssignments | skills/mso-observability/scripts/generate_portfolio_status.py:78-91 | only dict files are collected, never more than there are files |
| Portfolio.AssignmentCells | skills/mso-observability/scripts/generate_portfolio_status.py:197-202 | one cell per column |
| Portfolio.AssignmentRows | skills/mso-observability/scripts/generate_portfolio_status.py:196-202 | one table row per assignment |
| Portfolio.AssignmentPart | skills/mso-observability/scripts/generate_portfolio_status.py:192-202 | the section appears iff there are assignments, with one row each |
| Portfolio.CollectedTicketRef | skills/mso-observability/scripts/generate_portfolio_status.py:86-88 | a collected assignment names its ticket by task_id when present, else by the file name |
| Portfolio.CollectAssignmentsKeeps | skills/mso-observability/scripts/generate_portfolio_status.py:83-88 | every dict file is collected with its file name |
| Portfolio.DictItems | skills/mso-observability/scripts/generate_portfolio_status.py:125-133 | iterating succeeds on a list iff every entry is a dict |
| Portfolio.NodeLines | skills/mso-observability/scripts/generate_portfolio_status.py:125-130 | one line per node, in order |
| Portfolio.EdgeLines | skills/mso-observability/scripts/generate_portfolio_status.py:132-138 | one line per edge |
| Portfolio.Mermaid | skills/mso-observability/scripts/generate_portfolio_status.py:119-141 | succeeds iff nodes and edges are iterable dicts; the fence, the flowchart line, one line per node and edge, the closing fence |
| Portfolio.EdgeTextReadsBack | skills/mso-observability/scripts/generate_portfolio_status.py:135-138 | an edge line reads back as its ends and whether it is a HITL edge |
| Portfolio.NodeTextReadsBack | skills/mso-observability/scripts/generate_portfolio_status.py:129-130 | a node line reads back as its id |
| Portfolio.MermaidParts | skills/mso-observability/scripts/generate_portfolio_status.py:124-140 | the map is the opening lines, the node lines, the edge lines and the closing fence |
| Portfolio.MermaidNodeReadsBack | skills/mso-observability/scripts/generate_portfolio_status.py:125-130 | each node's id can be read back from its line |
| Portfolio.EdgeLineText | skills/mso-observability/scripts/generate_portfolio_status.py:132-138 | each edge line reads back as its edge unless an end holds a space |
| Portfolio.MermaidEdgeReadsBack | skills/mso-observability/scripts/generate_portfolio_status.py:132-138 | each edge line, after the nodes, reads back with its ends, dotted iff HITL |
| Portfolio.MapPart | skills/mso-observability/scripts/generate_portfolio_status.py:205-207 | the map appears iff the topology has truthy nodes; a truthy non-dict topology fails |
| Portfolio.Lines | skills/mso-observability/scripts/generate_portfolio_status.py:146-210 | the page fails exactly when the map section fails |
| Portfolio.Markdown | skills/mso-observability/scripts/generate_portfolio_status.py:146-210 | the page text fails exactly when its lines fail |
| Portfolio.Headings | skills/mso-observability/scripts/generate_portfolio_status.py:154-206 | the headings of a page come from its lines |
| Portfolio.HeaderHeadings | skills/mso-observability/scripts/generate_portfolio_status.py:154-155 | the page header contributes no section heading |
| Portfolio.StatusLinesNoHeadings | skills/mso-observability/scripts/generate_portfolio_status.py:165-167 | status lines are not headings |
| Portfolio.SummaryHeadings | skills/mso-observability/scripts/generate_portfolio_status.py:163-167 | the summary has exactly its own heading |
| Portfolio.TableHeadings | skills/mso-observability/scripts/generate_portfolio_status.py:170-180 | the ticket table has exactly its own heading |
| Portfolio.AuditHeadings | skills/mso-observability/scripts/generate_portfolio_status.py:183-189 | the audit section has its heading iff present |
| Portfolio.AssignmentHeadings | skills/mso-observability/scripts/generate_portfolio_status.py:192-202 | the assignments section has its heading iff present |
| Portfolio.MapHeadings | skills/mso-observability/scripts/generate_portfolio_status.py:205-207 | the map section has its heading iff shown |
| Portfolio.PageSections | skills/mso-observability/scripts/generate_portfolio_status.py:146-210 | the page's sections are summary and tickets, then audit, assignments and map exactly when their data is present |
| Portfolio.LinesParts | skills/mso-observability/scripts/generate_portfolio_status.py:153-210 | the page is header, summary, table, audit, assignments, map and the trailing empty line |
| ExecutionPlan.InferMode | skills/mso-execution-design/scripts/build_plan.py:45-50 | the mode is one of dontAsk, default or plan |
| ExecutionPlan.ModelFor | skills/mso-execution-design/scripts/build_plan.py:116 | a node runs on one of the two models |
| ExecutionPlan.ModeAndModel | skills/mso-execution-design/scripts/build_plan.py:45-50 | dontAsk exactly for the wide band, default exactly for the moderate one, and the wide model exactly with dontAsk |
| ExecutionPlan.EdgesAt | skills/mso-execution-design/scripts/build_plan.py:64-65 | never more edges than given |
| ExecutionPlan.Ends | skills/mso-execution-design/scripts/build_plan.py:64-65 | the chosen end of every edge, in order |
| ExecutionPlan.EdgesAtCount | skills/mso-execution-design/scripts/build_plan.py:64-65 | the filtered edges are as many as the node's occurrences among the ends |
| ExecutionPlan.NodeTypeByDegree | skills/mso-execution-design/scripts/build_plan.py:53-71 | merge iff two or more edges come in; branch iff fewer come in and two or more go out; commit otherwise |
| ExecutionPlan.ParentRefs | skills/mso-execution-design/scripts/build_plan.py:74-81 | never more parents than incoming edges |
| ExecutionPlan.ParentRefsMembers | skills/mso-execution-design/scripts/build_plan.py:74-81 | the parents are exactly the non-empty sources of the edges into the node |
| ExecutionPlan.ChartMap | skills/mso-execution-design/scripts/build_plan.py:89-91 | anything but a dict reads as the empty chart map |
| ExecutionPlan.TruthyStrs | skills/mso-execution-design/scripts/build_plan.py:105 | only non-empty texts are kept |
| ExecutionPlan.TruthyStrNonEmpty | skills/mso-execution-design/scripts/build_plan.py:105 | a truthy value never prints as the empty string |
| ExecutionPlan.ChartIds | skills/mso-execution-design/scripts/build_plan.py:99-105 | a node the bundle names no charts for gets `chart_<id>`; no chart id is empty |
| ExecutionPlan.GraphNodeFor | skills/mso-execution-design/scripts/build_plan.py:110-136 | a merge policy exactly for merge nodes, with a quorum of at least two and at least the number of parents |
| ExecutionPlan.NodesOf | skills/mso-execution-design/scripts/build_plan.py:85-87 | the nodes are a non-empty list or the build fails |
| ExecutionPlan.NodesProcessed | skills/mso-execution-design/scripts/build_plan.py:191 | the truthy node ids, none empty, never more than the nodes |
| ExecutionPlan.GraphPairs | skills/mso-execution-design/scripts/build_plan.py:95-138 | each node's id with its graph entry, in node order |
| ExecutionPlan.Build | skills/mso-execution-design/scripts/build_plan.py:84-193 | fails on empty nodes; succeeds iff the nodes and edges are dicts; the plan carries the run id and the four fallback rules |
| ExecutionPlan.Ids | skills/mso-execution-design/scripts/build_plan.py:96 | the id of every node, in order |
| ExecutionPlan.LastAt | skills/mso-execution-design/scripts/build_plan.py:138 | the position of the last node with the id |
| ExecutionPlan.FromPairsKeys | skills/mso-execution-design/scripts/build_plan.py:138 | the graph holds exactly the node ids |
| ExecutionPlan.FromPairsAtLast | skills/mso-execution-design/scripts/build_plan.py:138 | each id keeps the entry of its last node |
| ExecutionPlan.GraphAt | skills/mso-execution-design/scripts/build_plan.py:93-138 | one graph entry per distinct node id, built from the last node carrying it |
| ExecutionPlan.BuildGraph | skills/mso-execution-design/scripts/build_plan.py:84-143 | the plan's graph has one entry per distinct node id, built from the last node with that id |
| ExecutionPlan.ProcessedAreNodes | skills/mso-execution-design/scripts/build_plan.py:191 | every processed id has a graph entry |
| ExecutionPlan.GraphNodeMeans | skills/mso-execution-design/scripts/build_plan.py:107-136 | an entry's parents, merge policy, mode, model and charts follow its node's edges, band and chart map |
| ExecutionPlan.FallbackRulesMeans | skills/mso-execution-design/scripts/build_plan.py:144-182 | four rules with distinct error types, and only the HITL block needs a human |
| ExecutionPlan.WeightsSumToOne | skills/mso-execution-design/scripts/build_plan.py:129-133 | the merge weights add up to one |
| ExecutionPlan.Thetas | 01.product/skills/mso-execution-design/scripts/build_plan.py:65 | the band of every node, in order |
| ExecutionPlan.ChartPairs | 01.product/skills/mso-execution-design/scripts/build_plan.py:73-76 | each id with its charts and checkpoint |
| ExecutionPlan.TaskPairs | 01.product/skills/mso-execution-design/scripts/build_plan.py:78 | each id with its chart ids |
| ExecutionPlan.ModePairs | 01.product/skills/mso-execution-design/scripts/build_plan.py:79 | each id with its mode |
| ExecutionPlan.ModelPairs | 01.product/skills/mso-execution-design/scripts/build_plan.py:80 | each id with its model |
| ExecutionPlan.BuildFlat | 01.product/skills/mso-execution-design/scripts/build_plan.py:48-105 | fails on empty nodes; succeeds iff the nodes are dicts; carries the run id |
| ExecutionPlan.FlatFields | 01.product/skills/mso-execution-design/scripts/build_plan.py:58-88 | each of the four maps is filled from its own pair list |
| ExecutionPlan.PairsAgreeAt | 01.product/skills/mso-execution-design/scripts/build_plan.py:63-80 | the four maps agree on each id's last node |
| ExecutionPlan.FlatMapsAgree | 01.product/skills/mso-execution-design/scripts/build_plan.py:63-88 | for each node id the task map repeats the chart ids and the wide model goes with dontAsk |
| ExecutionPlan.FlatMapKeys | 01.product/skills/mso-execution-design/scripts/build_plan.py:73 | the maps hold exactly the node ids |
| ExecutionPlan.ChartKeys | 01.product/skills/mso-execution-design/scripts/build_plan.py:73 | the chart map holds exactly the given ids |
| ExecutionPlan.MissingInput | skills/mso-execution-design/scripts/build_plan.py:217-223 | nothing is missing iff the topology has nodes and a type and the bundle has a reference and local charts |
| ExecutionPlan.RunIdFor | skills/mso-execution-design/scripts/build_plan.py:225 | the topology's run id when truthy, else the bundle's, else the workspace's |
| ExecutionPlan.Main | skills/mso-execution-design/scripts/build_plan.py:212-232 | the phase ends completed iff the run succeeds, failed otherwise; it succeeds iff no key is missing and the build succeeds |
| ExecutionPlan.MainFlat | 01.product/skills/mso-execution-design/scripts/build_plan.py:124-144 | the same for the flat edition |
| ExecutionPlan.MainAsWrittenActive | skills/mso-execution-design/scripts/build_plan.py:212-232 | as written the phase stays active exactly when an input lacks a required key; otherwise it agrees with the corrected run |
| ExecutionPlan.UntypedTopologyLeavesPhaseActive | skills/mso-execution-design/scripts/build_plan.py:217-219 | a topology without a type stops the run with the phase active, where the corrected run marks it failed |
| Topology.ChooseTopology | 01.product/skills/mso-workflow-topology-design/scripts/generate_topology.py:127-137 | the type is one of loop, fan_out, fan_in, dag or linear |
| Topology.StartsWithLower | 01.product/skills/mso-workflow-topology-design/scripts/generate_topology.py:128 | lower-casing never changes whether text starts with a caseless word |
| Topology.ContainsLower | 01.product/skills/mso-workflow-topology-design/scripts/generate_topology.py:128-135 | lower-casing never changes whether a caseless word occurs |
| Topology.MentionsLower | 01.product/skills/mso-workflow-topology-design/scripts/generate_topology.py:128-135 | a list of caseless words is mentioned in the lowered goal iff in the goal |
| Topology.KeywordsCaseless | 01.product/skills/mso-workflow-topology-design/scripts/generate_topology.py:129-135 | every keyword is caseless |
| Topology.ChooseTopologyPriority | 01.product/skills/mso-workflow-topology-design/scripts/generate_topology.py:127-137 | loop iff a loop word occurs; otherwise fan_out iff a branching word; then fan_in, then dag; linear iff none occurs |
| Topology.LegacyLoopWordsSame | skills/mso-workflow-topology-design/scripts/generate_topology.py:36 | the older edition's repeated loop word changes nothing |
| Topology.SepAt | 01.product/skills/mso-workflow-topology-design/scripts/generate_topology.py:142 | a separator match never runs past the text |
| Topology.SepAtIsSeparator | 01.product/skills/mso-workflow-topology-design/scripts/generate_topology.py:142 | what is matched is one of the pattern's alternatives |
| Topology.SepAtPrefix | 01.product/skills/mso-workflow-topology-design/scripts/generate_topology.py:142 | a match at the start of a prefix is a match at the start of the whole |
| Topology.FirstSep | 01.product/skills/mso-workflow-topology-design/scripts/generate_topology.py:142 | the leftmost match starts inside the text and matches there |
| Topology.FirstSepLeftmost | 01.product/skills/mso-workflow-topology-design/scripts/generate_topology.py:142 | no match starts before the first one |
| Topology.Pieces | 01.product/skills/mso-workflow-topology-design/scripts/generate_topology.py:142 | the last text is followed by no separator |
| Topology.Parts | 01.product/skills/mso-workflow-topology-design/scripts/generate_topology.py:142 | splitting gives at least one part |
| Topology.PiecesRejoin | 01.product/skills/mso-workflow-topology-design/scripts/generate_topology.py:142 | the parts and separators make up the goal again |
| Topology.SepAtOwnMatch | 01.product/skills/mso-workflow-topology-design/scripts/generate_topology.py:142 | the text a match covers is itself a whole match |
| Topology.PiecesMatches | 01.product/skills/mso-workflow-topology-design/scripts/generate_topology.py:142 | every separator between two parts is a whole match of the pattern |
| Topology.PiecesSeparators | 01.product/skills/mso-workflow-topology-design/scripts/generate_topology.py:142 | every separator between two parts is one of the alternatives |
| Topology.PartsSeparatorFree | 01.product/skills/mso-workflow-topology-design/scripts/generate_topology.py:142 | no part holds the start of a match |
| Topology.Fragments | 01.product/skills/mso-workflow-topology-design/scripts/generate_topology.py:143 | only stripped parts longer than two characters are kept |
| Topology.FragmentsMembers | 01.product/skills/mso-workflow-topology-design/scripts/generate_topology.py:143 | the fragments are exactly the stripped parts longer than two characters |
| Topology.Questions | 01.product/skills/mso-workflow-topology-design/scripts/generate_topology.py:142-146 | between one and six questions |
| Topology.QuestionsFromGoal | 01.product/skills/mso-workflow-topology-design/scripts/generate_topology.py:142-146 | each question is a stripped part of the goal, or the stripped goal itself when no part is long enough |
| Topology.WeightHundredths | 01.product/skills/mso-workflow-topology-design/scripts/generate_topology.py:148 | the rounded weight is within half a hundredth of one over the count |
| Topology.TokenizeDqs | 01.product/skills/mso-workflow-topology-design/scripts/generate_topology.py:140-152 | one decision question per question, numbered from DQ1 |
| Topology.WeightsNearOne | 01.product/skills/mso-workflow-topology-design/scripts/generate_topology.py:147-151 | the equal weights add up to one, give or take the rounding of each |
| Topology.Band | 01.product/skills/mso-workflow-topology-design/scripts/generate_topology.py:170-175 | every band is wide, moderate or narrow |
| Topology.RsvTarget | 01.product/skills/mso-workflow-topology-design/scripts/generate_topology.py:168-183 | the target lies between 0.05 and 1 |
| Topology.LegacyNodes | skills/mso-workflow-topology-design/scripts/generate_topology.py:55-73 | one node per question, numbered from T1, labelled by the first 60 characters, with its band, DQ and target |
| Topology.ThetaRange | 01.product/skills/mso-workflow-topology-design/scripts/generate_topology.py:29-33 | each band's range is non-empty and within 0..1 |
| Topology.OutputType | 01.product/skills/mso-workflow-topology-design/scripts/generate_topology.py:155-160 | the output type is memo, decision or table |
| Topology.ProductNodes | 01.product/skills/mso-workflow-topology-design/scripts/generate_topology.py:163-196 | one node per decision question |
| Topology.Cores | 01.product/skills/mso-workflow-topology-design/scripts/generate_topology.py:163-196 | the shared node fields, in order |
| Topology.EditionsAgreeOnNodes | 01.product/skills/mso-workflow-topology-design/scripts/generate_topology.py:163-196 | both editions give the same goal the same nodes as far as the older one goes |
| Topology.ProductNodeMeans | 01.product/skills/mso-workflow-topology-design/scripts/generate_topology.py:163-196 | node i is T(i+1) for DQ(i+1), labelled by a prefix of its question, a memo first, a decision last, tables between, its entropy inside its band's range |
| Topology.TaskIdsDistinct | 01.product/skills/mso-workflow-topology-design/scripts/generate_topology.py:179 | different positions carry different task ids |
| Topology.BuildEdges | 01.product/skills/mso-workflow-topology-design/scripts/generate_topology.py:199-205 | one data edge from each node to the next |
| Topology.ChainEdgesIn | 01.product/skills/mso-workflow-topology-design/scripts/generate_topology.py:199-205 | with distinct ids, edge i comes into exactly the node at i+1, from the node before |
| Topology.ChainEdgesOut | 01.product/skills/mso-workflow-topology-design/scripts/generate_topology.py:199-205 | with distinct ids, edge i leaves exactly the node at i, going to the node after |
| Topology.NodeIdsDistinct | 01.product/skills/mso-workflow-topology-design/scripts/generate_topology.py:179 | generated nodes carry distinct ids |
| Topology.ExecutionPolicy | 01.product/skills/mso-workflow-topology-design/scripts/generate_topology.py:208-231 | three base rules plus the gate rule exactly under high risk, which also gates the last node |
| Topology.NarrowIds | 01.product/skills/mso-workflow-topology-design/scripts/generate_topology.py:245 | the narrow node ids, never more than the nodes |
| Topology.HandoffStrategy | 01.product/skills/mso-workflow-topology-design/scripts/generate_topology.py:234-253 | a handoff strategy exactly for fan_out, fan_in and dag |
| Topology.NarrowIdsOfBands | 01.product/skills/mso-workflow-topology-design/scripts/generate_topology.py:170-175 | only the last of two or more generated nodes is narrow |
| Topology.LoopRisks | 01.product/skills/mso-workflow-topology-design/scripts/generate_topology.py:38-103 | every risk level is low, med or high |
| Topology.BuildSpec | 01.product/skills/mso-workflow-topology-design/scripts/generate_topology.py:256-285 | the spec carries the run id, gates exactly under high risk, has one to six nodes and one decision question per node |
| Topology.SpecFields | 01.product/skills/mso-workflow-topology-design/scripts/generate_topology.py:256-285 | each part of the spec comes from its builder |
| Topology.HighRiskGates | 01.product/skills/mso-workflow-topology-design/scripts/generate_topology.py:211-231 | under high risk the gate rule is added and the last node gated; no other risk does either |
| Topology.LoopRisksPresent | 01.product/skills/mso-workflow-topology-design/scripts/generate_topology.py:38-103 | every chosen type has a risk profile of one, two or three entries |
| Topology.HandoffPoints | 01.product/skills/mso-workflow-topology-design/scripts/generate_topology.py:234-253 | fan_out hands off at the first node, fan_in at the last, dag at the only narrow node, none with a single node |
| Topology.NodesChain | 01.product/skills/mso-workflow-topology-design/scripts/generate_topology.py:199-205 | the generated nodes form a chain of data edges |
| Topology.BuildLegacySpec | skills/mso-workflow-topology-design/scripts/generate_topology.py:85-101 | the older spec gates exactly under high risk |
| Topology.EditionsAgreeOnSpec | 01.product/skills/mso-workflow-topology-design/scripts/generate_topology.py:256-285 | the newer spec extends the older one with the same nodes, edges, type, target total and gate |
| Topology.Generate | 01.product/skills/mso-workflow-topology-design/scripts/generate_topology.py:292-321 | a blank goal is refused; otherwise the spec carries the run id and at least one node |
| Bundle.ChartOf | 01.product/skills/mso-mental-model-design/scripts/build_bundle.py:52-61 | a node's chart is `chart_<id>`, a validation chart owned by mental-model-design |
| Bundle.Ids | 01.product/skills/mso-mental-model-design/scripts/build_bundle.py:51-52 | the id of every node, a missing one numbered T1, T2, ... by position |
| Bundle.FailureIff | 01.product/skills/mso-mental-model-design/scripts/build_bundle.py:51-62 | the loop runs through iff every node is a dict with a hashable id |
| Bundle.FailureFirst | 01.product/skills/mso-mental-model-design/scripts/build_bundle.py:51-62 | the error the loop stops with is decided by the first offending node |
| Bundle.FailureSkip | 01.product/skills/mso-mental-model-design/scripts/build_bundle.py:51-62 | nodes that pass do not change where the loop stops |
| Bundle.Charts | 01.product/skills/mso-mental-model-design/scripts/build_bundle.py:54-61 | one chart per node, in order |
| Bundle.MapPairs | 01.product/skills/mso-mental-model-design/scripts/build_bundle.py:62 | each node id with its one chart |
| Bundle.Assemble | 01.product/skills/mso-mental-model-design/scripts/build_bundle.py:48-85 | succeeds iff no node offends, with one chart per node, the run, domain and reference given, the fixed contract fields, and a map made from the node ids |
| Bundle.Build | 01.product/skills/mso-mental-model-design/scripts/build_bundle.py:43-85 | an empty or non-list node list fails; otherwise the loop over the nodes |
| Bundle.AssembleOk | 01.product/skills/mso-mental-model-design/scripts/build_bundle.py:51-62 | the loop succeeds iff every node is a dict with a usable id |
| Bundle.BuildOk | 01.product/skills/mso-mental-model-design/scripts/build_bundle.py:43-62 | `build` succeeds iff the topology has a non-empty list of such nodes |
| Bundle.FromPairsFunctional | 01.product/skills/mso-mental-model-design/scripts/build_bundle.py:62 | when every value is a function of its key, duplicate ids lose nothing |
| Bundle.MapOfIds | 01.product/skills/mso-mental-model-design/scripts/build_bundle.py:62 | the map lists each id's chart under it and has exactly the node ids as keys |
| Bundle.MapMatchesCharts | 01.product/skills/mso-mental-model-design/scripts/build_bundle.py:51-62 | every node's chart is `chart_<id>`, its map entry lists exactly that chart, and the map has exactly the node ids as keys |
| Bundle.LegacyRunId | skills/mso-mental-model-design/scripts/build_bundle.py:51 | the older edition keeps any present run id, even an empty one, and falls back to the clock only when absent |
| Bundle.ProductRunId | 01.product/skills/mso-mental-model-design/scripts/build_bundle.py:107 | the newer edition uses a truthy run id and otherwise the workspace's |
| Bundle.RunIdsAgree | 01.product/skills/mso-mental-model-design/scripts/build_bundle.py:107 | a non-empty run id is used by both editions; an empty one is kept by the older and replaced by the newer |
| Bundle.Main | 01.product/skills/mso-mental-model-design/scripts/build_bundle.py:104-115 | phase 20 ends completed iff the build succeeds, failed otherwise; the bundle carries the newer edition's run id |
| Bundle.LegacyBuild | skills/mso-mental-model-design/scripts/build_bundle.py:29-71 | the older bundle carries the older edition's run id |
| Bundle.EditionsAgree | skills/mso-mental-model-design/scripts/build_bundle.py:29-71 | for a topology naming its run, both editions write the same bundle and fail the same way |
| Bundle.ChartValues | 01.product/skills/mso-mental-model-design/scripts/build_bundle.py:54-61 | one dict per chart, in order |
| Bundle.MapFields | 01.product/skills/mso-mental-model-design/scripts/build_bundle.py:62 | one field per map key, in insertion order |
| Bundle.ToValue | 01.product/skills/mso-mental-model-design/scripts/build_bundle.py:64-85 | the bundle is written as a JSON object |
| Bundle.ToValueFields | 01.product/skills/mso-mental-model-design/scripts/build_bundle.py:64-85 | the written document holds the reference, the charts and the map where the planner reads them |
| Bundle.MinFieldsPresent | 01.product/skills/mso-mental-model-design/scripts/build_bundle.py:77-80 | the written bundle holds every field its output contract names, so the planner's input check accepts it |
| Bundle.ChartMapOf | 01.product/skills/mso-mental-model-design/scripts/build_bundle.py:71 | the planner reads the chart map back as written |
| Bundle.ChartIdsOfEntry | 01.product/skills/mso-mental-model-design/scripts/build_bundle.py:62 | a map entry holding one chart reads back as that chart |
| Bundle.MapFieldsLookup | 01.product/skills/mso-mental-model-design/scripts/build_bundle.py:62 | with string ids, a key finds the list written for it |
| Bundle.PlannerReadsKey | 01.product/skills/mso-mental-model-design/scripts/build_bundle.py:62 | with string ids, the planner finds each node's chart under its id |
| Bundle.PlannerMissesKey | 01.product/skills/mso-mental-model-design/scripts/build_bundle.py:62 | a text no key is written as makes the planner fall back to `chart_<text>` |
| Bundle.PlannerSeesNodeChart | 01.product/skills/mso-mental-model-design/scripts/build_bundle.py:51-62 | for a node with a string id the planner assigns exactly the chart the bundle made for it |
| Bundle.IdlessNodeGetsUnknownChart | 01.product/skills/mso-mental-model-design/scripts/build_bundle.py:52 | a node without an id gets `chart_T<k>` in the bundle but `chart_None` from the planner |
| Bundle.IdlessChart | 01.product/skills/mso-mental-model-design/scripts/build_bundle.py:52-53 | the chart made for a node without an id is `chart_T<k>`, not `chart_None` |
| Bundle.KeysAvoidText | 01.product/skills/mso-mental-model-design/scripts/build_bundle.py:62 | a text no node id is written as is no key's text |
| Estimator.Jaccard | 01.product/skills/mso-workflow-topology-design/scripts/estimator.py:97-104 | similarity lies in [0, 1]; two empty sets are fully similar and exactly one empty set gives 0 |
| Estimator.JaccardSymmetric | 01.product/skills/mso-workflow-topology-design/scripts/estimator.py:97-104 | similarity does not depend on the order of the two token sets |
| Estimator.JaccardOneIff | 01.product/skills/mso-workflow-topology-design/scripts/estimator.py:97-104 | similarity is 1 exactly when the two token sets are equal |
| Estimator.JaccardDisjoint | 01.product/skills/mso-workflow-topology-design/scripts/estimator.py:97-104 | disjoint token sets, not both empty, have similarity 0 |
| Estimator.Filter | 01.product/skills/mso-workflow-topology-design/scripts/estimator.py:82-87 | the normalizer keeps only word characters (a-z, 0-9, Hangul) and the separators, never lengthening the text |
| Estimator.TokensAreWords | 01.product/skills/mso-workflow-topology-design/scripts/estimator.py:90-94 | every token is a non-empty run of word characters with no separator in it |
| Estimator.TokenOfToken | 01.product/skills/mso-workflow-topology-design/scripts/estimator.py:90-94 | re-tokenizing a token gives exactly that one token back |
| Estimator.FilterKeepsWord | 01.product/skills/mso-workflow-topology-design/scripts/estimator.py:82-87 | text made only of word characters survives the normalizer's character filter unchanged |
| Estimator.SafeStr | 01.product/skills/mso-workflow-topology-design/scripts/estimator.py:74-79 | None becomes the empty string and a string stays as it is |
| Estimator.FirstNonBlankSpec | 01.product/skills/mso-workflow-topology-design/scripts/estimator.py:114-129 | the key scan returns a non-blank value of one of the listed keys, and finds nothing exactly when every listed key present is blank |
| Estimator.ItemId | 01.product/skills/mso-workflow-topology-design/scripts/estimator.py:114-119 | an item's id is never empty |
| Estimator.ItemIdChoice | 01.product/skills/mso-workflow-topology-design/scripts/estimator.py:114-119 | a non-blank string id is used stripped; an item without id, key and code is named by prefix and position |
| Estimator.ItemTextOf | 01.product/skills/mso-workflow-topology-design/scripts/estimator.py:122-129 | a dict without a non-blank text-like field is dumped whole; a dict's chosen text is never blank |
| Estimator.ItemType | 01.product/skills/mso-workflow-topology-design/scripts/estimator.py:132-136 | a dict without a type takes the section default, and a non-empty default gives a non-empty type |
| Estimator.DqStatus | 01.product/skills/mso-workflow-topology-design/scripts/estimator.py:139-147 | anything that is not a dict counts as an open question |
| Estimator.Classify | 01.product/skills/mso-workflow-topology-design/scripts/estimator.py:142-147 | open, partial and closed stand for themselves; done and resolved are closed; anything else is open |
| Estimator.DqStatusRoundTrip | 01.product/skills/mso-workflow-topology-design/scripts/estimator.py:139-147 | a status written back into an item's status field reads back as the same status |
| Estimator.NormalizedSingle | 01.product/skills/mso-workflow-topology-design/scripts/estimator.py:141 | a lower-case status word in a one-field dict reads back unchanged after lower-casing and stripping |
| Estimator.LowerWordFixed | 01.product/skills/mso-workflow-topology-design/scripts/estimator.py:141 | lower-case ASCII words are fixed points of lower-casing and stripping |
| Estimator.DqStrength | 01.product/skills/mso-workflow-topology-design/scripts/estimator.py:150-163 | a closure earns between a quarter and a full point; non-dicts earn the full point |
| Estimator.SectionPairs | 01.product/skills/mso-workflow-topology-design/scripts/estimator.py:186-195 | each section contributes one unit per list item, in order |
| Estimator.StatusPairs | 01.product/skills/mso-workflow-topology-design/scripts/estimator.py:194-195 | each decision question contributes its canonical id and its status, in item order |
| Estimator.ItemPairs | 01.product/skills/mso-workflow-topology-design/scripts/estimator.py:340-343 | each decision question contributes its canonical id and the item itself, in item order |
| Estimator.PairKeys | 01.product/skills/mso-workflow-topology-design/scripts/estimator.py:186-195 | the keys the index ends up with are exactly the ids assigned to it |
| Estimator.BuildIndex | 01.product/skills/mso-workflow-topology-design/scripts/estimator.py:173-197 | the questions with a status are exactly the canonical ids of the decision questions |
| Estimator.DqKeysAreUnits | 01.product/skills/mso-workflow-topology-design/scripts/estimator.py:186-195 | every decision question with a status is also an indexed unit |
| Estimator.DqStatusOfLast | 01.product/skills/mso-workflow-topology-design/scripts/estimator.py:189-195 | when an id repeats, the status of its last occurrence is the one kept |
| Estimator.ItemByCid | 01.product/skills/mso-workflow-topology-design/scripts/estimator.py:340-343 | the item lookup has exactly the decision questions' canonical ids as keys |
| Estimator.DqItemOfLast | 01.product/skills/mso-workflow-topology-design/scripts/estimator.py:340-343 | when an id repeats, the lookup keeps the item of its last occurrence |
| Estimator.ExtractNormalized | 01.product/skills/mso-workflow-topology-design/scripts/estimator.py:107-111 | a wrapped normalized_output object is unwrapped, and a payload without one is used as it is |
| Estimator.TokenList | 01.product/skills/mso-workflow-topology-design/scripts/estimator.py:207 | iterating the units yields one pair per unit, in key order |
| Estimator.BestIsMax | 01.product/skills/mso-workflow-topology-design/scripts/estimator.py:200-212 | the best score is at least the starting score and every candidate's score, and it belongs to the start or to a real candidate |
| Estimator.RephraseIff | 01.product/skills/mso-workflow-topology-design/scripts/estimator.py:258-268 | a unit is a rephrase exactly when some previous unit is at least 0.62 similar to it |
| Estimator.NewIds | 01.product/skills/mso-workflow-topology-design/scripts/estimator.py:260-268 | no more new ids than current units |
| Estimator.NewIdsIff | 01.product/skills/mso-workflow-topology-design/scripts/estimator.py:260-268 | an id is reported new exactly when some current unit under that id is new |
| Estimator.NothingBeforeAllNew | 01.product/skills/mso-workflow-topology-design/scripts/estimator.py:260-263 | with no previous units every current unit is new, in iteration order |
| Estimator.KnownUnitNotNew | 01.product/skills/mso-workflow-topology-design/scripts/estimator.py:258-268 | a unit whose token set occurred before is a rephrase, never new |
| Estimator.Transition | 01.product/skills/mso-workflow-topology-design/scripts/estimator.py:345-353 | closed now and not before is a new closure; partial now and open before is a new partial; nothing else earns |
| Estimator.Changes | 01.product/skills/mso-workflow-topology-design/scripts/estimator.py:345-353 | one change per current question, a new closure earning one to four quarters |
| Estimator.NoRsvIff | 01.product/skills/mso-workflow-topology-design/scripts/estimator.py:330-355 | the RSV increment is zero exactly when no question closed or became partial |
| Estimator.RsvBound | 01.product/skills/mso-workflow-topology-design/scripts/estimator.py:330-355 | each question adds at most one full point of RSV |
| Estimator.SelfComparisonUnchanged | 01.product/skills/mso-workflow-topology-design/scripts/estimator.py:345-353 | a snapshot compared with itself has no question that changed |
| Estimator.StatusCountsCover | 01.product/skills/mso-workflow-topology-design/scripts/estimator.py:277-280 | the open, partial and closed counts add up to all decision questions |
| Estimator.RedundancyRatio | 01.product/skills/mso-workflow-topology-design/scripts/estimator.py:270-273 | no rephrases give ratio 0, and the ratio stays in [0, 1] while rephrases do not exceed units |
| Estimator.Compare | 01.product/skills/mso-workflow-topology-design/scripts/estimator.py:224-409 | RSV is at most one point per question; status counts cover all questions; new units plus rephrases are all current units; enough new units rule redundancy out |
| Estimator.FirstSnapshot | 01.product/skills/mso-workflow-topology-design/scripts/estimator.py:260-273 | against an empty previous snapshot all units are new, none is a rephrase, and a positive threshold rules redundancy out |
| Estimator.SameSnapshotNoRsv | 01.product/skills/mso-workflow-topology-design/scripts/estimator.py:330-355 | comparing a snapshot with itself earns no RSV |
| Estimator.SameSnapshotNothingNew | 01.product/skills/mso-workflow-topology-design/scripts/estimator.py:256-268 | comparing a snapshot with itself finds no new unit |
| Estimator.RsvIffProgress | 01.product/skills/mso-workflow-topology-design/scripts/estimator.py:330-355 | RSV is earned exactly when some question closed or became partial since the previous snapshot |
| CheckDeps.BracketedIff | skills/mso-skill-governance/scripts/check_deps.py:61 | a value counts as a list exactly when it starts with an opening and ends with a closing bracket |
| CheckDeps.Items | skills/mso-skill-governance/scripts/check_deps.py:62 | a list value gives at most one string item per comma-separated piece, blank pieces dropped |
| CheckDeps.Scalar | skills/mso-skill-governance/scripts/check_deps.py:61-69 | a value becomes a list of strings, a boolean, an integer or a string, and nothing else |
| CheckDeps.ScalarOfNumber | skills/mso-skill-governance/scripts/check_deps.py:66-67 | a number written in decimal reads back as that integer |
| CheckDeps.ScalarOfBool | skills/mso-skill-governance/scripts/check_deps.py:64-65 | True and False, written as Python prints them, read back as the same boolean |
| CheckDeps.ConfigLine | skills/mso-skill-governance/scripts/check_deps.py:53-60 | only a line with a colon yields a pair, and its key holds no colon |
| CheckDeps.KeyBeforeColon | skills/mso-skill-governance/scripts/check_deps.py:58-59 | the key is cut at the first colon, so it never contains one |
| CheckDeps.ConfigLineOfEntry | skills/mso-skill-governance/scripts/check_deps.py:52-69 | a written key: value line reads back as that key and the value's reading |
| CheckDeps.ConfigPairs | skills/mso-skill-governance/scripts/check_deps.py:52-69 | at most one pair per line, every value a list, boolean, integer or string |
| CheckDeps.SkippedLine | skills/mso-skill-governance/scripts/check_deps.py:54-57 | blank, comment and colon-less lines change nothing wherever they stand |
| CheckDeps.DictValue | skills/mso-skill-governance/scripts/check_deps.py:51-70 | the mapping built has exactly the entries of the pairs read |
| CheckDeps.FallbackParse | skills/mso-skill-governance/scripts/check_deps.py:51-70 | the fallback parser always returns a mapping |
| CheckDeps.LastLineWins | skills/mso-skill-governance/scripts/check_deps.py:63-69 | a key repeated on several lines keeps the value of its last line |
| CheckDeps.FallbackIsFlat | skills/mso-skill-governance/scripts/check_deps.py:61-69 | no value the fallback parser produces is a mapping |
| CheckDeps.ParseConfig | skills/mso-skill-governance/scripts/check_deps.py:37-74 | a missing or blank file and a non-mapping document give an empty mapping; JSON-invalid text without PyYAML goes to the fallback parser |
| CheckDeps.MainExit | skills/mso-skill-governance/scripts/check_deps.py:155-191 | the exit code is 0 or 2 |
| CheckDeps.OptionalDependency | skills/mso-skill-governance/scripts/check_deps.py:163-191 | the probe's outcome never changes the exit code, and the code is 0 exactly when external_dependencies.ai-collaborator is a mapping |
| CheckDeps.FallbackConfigExitsTwo | skills/mso-skill-governance/scripts/check_deps.py:51-70 | a configuration read by the fallback parser always exits with 2, since it cannot hold the nested section |

## Left out

- SQLite mechanics are not modelled: connections, transactions, WAL pragmas and row decoding. The bus is a sequence of messages, and each bus call is one atomic step. Two workers racing for a message are two calls in sequence. The audit writer is modelled by the rows it would write.
- Processes, terminals and async concurrency are not modelled. This covers the tmux session commands (start, stop, inspect), the async executor, the batch semaphores and the provider run itself. The executor's outcome is an input of `Swarm.WorkerStep` and `CollaborateHistory.RunCommand`.
- File-system and environment plumbing is not modelled:
  - the runtime workspace's scaffolding, anchors, relocation, peer search, archiving, observation sync and readme writing;
  - the `resolve_*` path helpers;
  - `find_executable`, `check_provider_status` and `check_token_usage`;
  - the sample pipeline and `validate_all` runners;
  - the dependency probe of `check_deps.py`;
  - the 01.product `check_deps.py`, `bootstrap_node.py`, `archive_tasks.py`, `embed_prd_to_tasks.py` and `select_llm_model.py` scripts.
  
  Files arrive as their parsed content or their text. Directory listings arrive as sequences of names.
- Nondeterminism enters as parameters: uuid message ids, sha256 digests, Python's `hash()` and wall-clock timestamps. Timestamps are integers on the bus and ISO strings elsewhere.
- Floating point is not modelled:
  - **Estimator.** Similarities are exact rationals, and the 0.62 threshold is compared exactly. The entropy proxy `theta`, its `sat` transform, the weights and `delta_entropy` are left out. Their only use, the test `abs(delta_entropy) < epsilon`, is the boolean parameter `entropyNegligible` of `Estimator.Compare`. RSV is counted in quarters.
  - **Topology.** Theta bands and fractions are kept in hundredths.
  - **Observability.** Ratios are restated in integers: `int(0.6 n)` is `6n div 10`.
- Foreign libraries are not modelled: jsonschema, PyYAML, `ast.literal_eval`, JSON encoding and decoding, and the regex engine. Only the hand-written fallback paths are modelled, and a loader's result is an input. Where a script decodes text itself, as `send_message` does with a string payload, the decoder's result is a parameter whose `None` stands for JSONDecodeError. Regex effects are stated as character-class predicates.
- Case mapping is ASCII-only. Hangul has no case, and other non-ASCII letters are not mapped. `isdigit` means the ASCII digits.
- Python merges the dict keys `True` and `1`. JSON values here keep them apart.
- `validate_schemas.py`: `ticket_frontmatter`, `_latest_ticket_payload`, `load_artifact` and `main` read files and are not modelled. Their parsing steps are modelled as `SchemaValidate.ParseScalar` and `SchemaValidate.LatestIndexRecord`.
- Estimator.ItemTextOf: returns a marker for "dump this dict as JSON" instead of the text of `json.dumps(item, sort_keys=True)`. Escaping and key sorting are not modelled, so token sets of such items are approximations.
- AuditPayload.BuildCommon: JSON dumps of lists and objects use `Json.Dumps`, which does not escape quotes or non-ASCII characters.
- Json.Repr: a string is always written in single quotes and nothing in it is escaped. Python's `repr` double-quotes a string holding a single quote but no double quote; it escapes backslashes, non-printable characters and, in a string holding both kinds, the single quotes. `Json.ReprUnescaped` names the strings with nothing to escape. The difference reaches every text made by `str` of a list or dict that holds other strings: a new ticket's `dependencies:` and `tags:` lines, `AuditPayload.SafeText` and `Dispatch.ParseList` of a list value, and ids or cells that the plan, bundle and portfolio builders take from a container with `str`. The round trips through such text (`TicketValidate.CreatedDepsReadBack`, `Dispatch.ParseListOfRendered`, `Dispatch.SingleItemForms`, `Dispatch.RenderedTagsChooseMode`) are stated only for items in `ReprUnescaped`. On those items the readers strip either quote, so they read Python's text back the same as the model's.
- TicketValidate.CreatedDepsReadBack: stated only for dependencies of printable ASCII characters. Python's `repr` keeps most non-ASCII letters unescaped too, but which ones depends on the Unicode tables behind `str.isprintable`, which the model does not hold. A dependency with a backslash really does read back changed: `a\b` is written as `'a\\b'` and read as `a\\b`.
- Dispatch.ParseListOfRendered: the same printable-ASCII domain as `TicketValidate.CreatedDepsReadBack`, for the same reason; `Dispatch.SingleItemForms` and `Dispatch.RenderedTagsChooseMode` inherit it.
- CollabUtils.ParseTemplate: knows only the doubled braces and the two plain fields `{context}` and `{prompt}`. A field with a conversion, a format spec or an index, such as `{prompt!r}`, `{context:>20}` or `{context[0]}`, is accepted by `str.format` but is read here as an error.
- ExecutionPlan.Main: requires the topology and bundle documents to be JSON objects. A top-level JSON list or scalar makes the script raise before planning, and that path is not modelled.
- ExecutionPlan.MainFlat: the same restriction as `ExecutionPlan.Main`.
- ExecutionPlan.MainAsWritten: the same restriction as `ExecutionPlan.Main`.
- CcContracts.Validate: the runtime-wiring pass (`check_runtime_wiring`) inspects files on disk. Its findings are parameters.
- Dispatch: a payload built by `build_payload` defaults its task id to `TASK-UNKNOWN` (after falling back to `task_context_id`), while `dispatch_one` uses `TKT-UNKNOWN`. Both defaults are modelled as written.
- Bundle and ExecutionPlan: a topology node without an id gets chart `chart_T<k>` in the bundle, but the planner looks up `chart_None`. `Bundle.IdlessNodeGetsUnknownChart` states this. It is not treated as a finding, since the two scripts disagree and neither is evidently the one to fix.
- Observations.RetryTaskSharesId: a task literally named `retry` gets the same checkpoint id as the retry-spike event. This is a quirk of the id scheme, stated as a lemma.
- Messages, timestamps and the exact wording of printed lines are modelled only where a property depends on them.

## Findings

| source | as written | input that shows it | evidently intended | confidence | as-written member | corrected member |
|---|---|---|---|---|---|---|
| skills/_shared/runtime_workspace.py:797-800 | a failed phase sets `completed_at` with `setdefault`, but a fresh manifest already holds `completed_at: null`, so the timestamp is never written | a run scaffolded by `ensure_run_scaffold_and_manifest`, then `update_manifest_phase(paths, "30", "failed")` | a failed run records when it ended | not executed | WorkspaceManifest.FailedPhaseLeavesCompletedAtNull | WorkspaceManifest.PhaseUpdate |
| 01.product/skills/mso-task-context-management/scripts/update_status.py:37 | a final newline is added only when the input lacked one, so a ticket ending in a newline loses it | the text `status: todo` followed by a newline, rewritten to `done` | every rewritten ticket ends with a newline | not executed | Tickets.UpdateStatusDropsNewline | Tickets.UpdateStatusCorrected |
| skills/mso-agent-collaboration/scripts/dispatch.py:294-295 | `warnings` is read with `cli_result.get` without the dict check the `errors` line has | a collaborator whose stdout is exactly `[]` | a non-dict answer gives no warnings, as it gives no errors | not executed | Dispatch.ListAnswerCrashes | Dispatch.DispatchOne |
| skills/mso-skill-governance/scripts/validate_gov.py:295-297 | any entry in `errors` fails the run, warn-severity entries included, while the JSON status only fails on fail-severity ones | a pack whose required skills lack only `references/` and `scripts/` folders | only fail-severity findings fail the run | not executed | GovValidate.WarnOnlyRunExitsOne | GovValidate.Main |
| skills/mso-observability/scripts/collect_observations.py:163-166 | `tasks.most_common(1)[0]` is read whenever there are rows, even when no row names a task | a scheduled batch of one row with an empty `task_name` | the bottleneck rule is skipped when no task is named, as the 01.product edition does | not executed | Observations.UnnamedScheduledBatchCrashes | Observations.Signals |
| skills/mso-execution-design/scripts/build_plan.py:217-219 | a missing topology or bundle key raises `SystemExit`, which `except Exception` does not catch, so phase 30 stays active | a topology without `topology_type` | an invalid input marks phase 30 failed | not executed | ExecutionPlan.UntypedTopologyLeavesPhaseActive | ExecutionPlan.Main |

# Bug Exorcist core, modelled in Dafny

Bug Exorcist takes a failing piece of code and its error message. It asks a
language model for a fix, runs the fix in a locked-down Docker container, and
retries with the history of failed attempts until a fix passes or the attempts
run out. It can then commit the fix to a branch of the project's git
repository. A retrieval index over the project's files supplies related code
as extra context.

This project models the deterministic core of that system and proves what it
promises:

- `RetryController` (`retry_controller.dfy`) models the fix-verify-retry loop of
  `core/agent.py`. It covers `analyze_and_fix_with_retry`, the `verify_fix`
  classifier, the attempt numbering of `analyze_error` and its error result when
  the fallback is disabled. The language model and the sandbox are oracle
  functions passed in. The loop is a method with a `while` loop, proved equal
  to a recursive specification (`Retry`). The lemmas then prove bounds, order,
  stop conditions and exits for that specification.
- `ResponseParser` (`response_parser.dfy`) models `_parse_ai_response`. It is a
  line scanner with a code-fence toggle, three section captures, a fallback to
  the original code and a two-valued confidence. The method's loop is proved
  equal to a left fold. That fold is then related to a description that does
  not scan: code lines are those after an odd number of fences, and each
  section is taken from its last opening line.
- `Sandbox` (`sandbox.dfy`) models `Sandbox.run_code`. It covers the command
  table, the launch restrictions, the mapping from the daemon's answers to the
  result string, and the forced removal of the container. The Docker daemon is
  a class with ghost state: live containers, launches, stdin contents, kills
  and removal attempts.
- `RagEngine` (`rag_engine.dfy`) models `CodebaseRAG`. It covers the file filter
  and change detection of `index_project`, loading and saving the hash file,
  de-duplication in `search`, and the assembly of `get_context_summary`.
- `GitOps` (`git_ops.dfy`) models `apply_fix_to_repo`. It covers lexical path
  resolution, the containment check, the branch name, creating or reusing the
  branch, and the write, stage and commit sequence. Faults can occur at each
  of these steps.
- `Text` (`text.dfy`) holds the Python string operations the others rely on:
  `in`, `lower`, `strip`, `split('\n')`, `'\n'.join` and `str(int)`.

The comment at core/agent.py:317 says confidence is estimated from the quality
of the response. The code at core/agent.py:314-318 computes it after the
original code has been substituted for a missing code block. So a response
with a root cause but no code block still gets the high confidence 0.8
whenever the original code is not blank. The model follows the code, and
`ResponseParser.FallbackKeepsHighConfidence` proves this behaviour.

## Model

| member | source | states |
|---|---|---|
| Text.SplitJoinRoundTrip | core/agent.py:289 | Splitting a response at newlines and joining the pieces again gives the text back, and no line holds a newline. |
| Text.JoinSplitRoundTrip | core/agent.py:289 | Joining newline-free lines and splitting again gives the same lines back. |
| Sandbox.CommandTable | backend/app/sandbox.py:25-37 | The lookup lower-cases the language. Each table key gets its own command, and any other language gets the python command. The result does not depend on letter case. |
| Sandbox.CommandExamples | backend/app/sandbox.py:25-37 | Each of the nine keys maps to its fixed command. "JavaScript" maps like "javascript", and an unknown language falls back to python. |
| Sandbox.FailureResultsMentionError | backend/app/sandbox.py:59-76 | Every result except a clean exit's logs contains "Error". A clean exit returns the logs unchanged. |
| Sandbox.Docker.Run | backend/app/sandbox.py:40-51 | A launch is recorded. On success a fresh container id becomes live and the id counter advances; a raised error creates nothing. |
| Sandbox.Docker.SendStdin | backend/app/sandbox.py:54-56 | On success the code is recorded as that container's stdin; on failure nothing changes. |
| Sandbox.Docker.Kill | backend/app/sandbox.py:64 | On success the container is marked killed; on failure nothing changes. |
| Sandbox.Docker.Remove | backend/app/sandbox.py:78-82 | The forced removal is recorded. The container stops being live unless removal raised. |
| Sandbox.Sandbox.RunCode | backend/app/sandbox.py:12-82 | The result is the string the branch order of `run_code` gives. There is exactly one launch, with the table's command, no network, 512m memory, 500000000 nano-CPUs and all capabilities dropped. The code goes to stdin. A failed wait kills the container. A created container gets exactly one forced removal and stays live only if that removal raised. Its id is fresh, and the id counter advances exactly when a container was created. When `containers.run` raises, nothing but the launch record changes. |
| Sandbox.SuccessiveRunsUseDistinctContainers | backend/app/sandbox.py:40-82 | Two `run_code` calls on one client that both create a container use different containers, and each one gets its own forced removal. |
| ResponseParser.FenceIsTripleBacktick | core/agent.py:299-301 | A line toggles code mode exactly when it contains three backticks; the "```python" test adds nothing. |
| ResponseParser.ScanTracksCode | core/agent.py:298-305 | After any prefix, the code flag is the parity of the fences seen. The collected code is every non-fence line after an odd number of fences, each followed by a newline. |
| ResponseParser.ScanTracksSection | core/agent.py:306-312 | After any prefix, each of root cause, explanation and retry analysis is the capture of the last line that opened that section outside code, or empty if none did. |
| ResponseParser.ParseCharacterized | core/agent.py:297-325 | The stripped code, or the stripped original code if the code is blank. Confidence is High exactly when that is non-blank and a root cause was captured, else Low. The defaults apply for an empty root cause and explanation. |
| ResponseParser.NoFenceNoCode | core/agent.py:313-315 | A response without fences collects no code, so the original code is used. |
| ResponseParser.FallbackKeepsHighConfidence | core/agent.py:313-318 | With no fence, a non-blank original and a captured root cause, the result is the stripped original code with confidence High. |
| ResponseParser.ParseAiResponse | core/agent.py:282-326 | The scanning loop computes `Parse`. Its result satisfies the code and confidence characterisation above. |
| RetryController.EffectiveMaxAttempts | core/agent.py:410 | None and 0 become 3 (`MAX_RETRY_ATTEMPTS`); any other value, even a negative one, is kept. |
| RetryController.VerifyFix | core/agent.py:356-375 | Verified exactly when the output contains neither "Error" nor "Traceback". The exit code is 0 exactly when verified. The new error is the output exactly when not verified. A raised sandbox error is never verified and gives "Verification error: " output. |
| RetryController.SandboxVerdict | core/agent.py:359 | Any `run_code` result other than a clean exit is rejected. An accepted run was a clean exit whose logs mention neither marker. |
| RetryController.AttemptNumber | core/agent.py:184 | The attempt number is one more than the number of previous attempts, or 1 when there are none. |
| RetryController.Analyze | core/agent.py:244-280 | A reply is parsed and numbered as attempt len(history)+1. A failed call becomes guidance (status api_connection_failed) exactly when the fallback is enabled. Otherwise it gives a zero-confidence result that keeps the original code. |
| RetryController.AnalyzeAndFixWithRetry | core/agent.py:377-538 | The loop's outcome equals the recursive specification `Retry`. |
| RetryController.RetryHalts | core/agent.py:413-529 | The loop stops at a history of failed attempts, each built from the records before it. With at least one attempt allowed, that history is shorter than the limit and its last pass returns. |
| RetryController.RetryRecordsAttemptsInOrder | core/agent.py:413-457 | At most max_attempts records (none for a negative limit). Record i has number i+1 and is what attempt i+1 built from the records before it, so the history is only appended to. |
| RetryController.RetryStopsAtFirstSuccess | core/agent.py:457-469 | All records but the last failed. Success holds exactly when the last record passed. A success reports that record's fix and verification, with total equal to the record count. |
| RetryController.RetryExhaustion | core/agent.py:474-529 | When attempt max_attempts fails, there is no success and every attempt is recorded. With the fallback enabled the result carries the exhaustion guidance built from all records. If building that report raises, the handler at :509 returns its guidance for the exception instead, and the attempt stays recorded. With the fallback disabled there is no guidance and last_error is the last record's new error. |
| RetryController.RetryAbortsWithoutRecord | core/agent.py:417-529 | Only an api_connection_failed status or an exception raised before the record is appended makes total one more than the record count. Such a result has no success and carries guidance. An api_connection_failed result names no record for its attempt and carries the api-failure guidance for the failed call. At the attempt where the loop stops, a failed call under an enabled fallback gives exactly that report. An exception there propagates when the fallback is disabled. When it is enabled, the result keeps the earlier records, names one attempt more, and carries the api-failure guidance and "Unexpected error" message for that exception. |
| RetryController.RetryLoopEnd | core/agent.py:531-538 | The statement after the loop is reached exactly when the limit is negative. It then reports no attempts. |
| RetryController.FailThenPass | tests/test_ollama_integration.py:76-78 | A first attempt that fails and a second that passes give success with total 2 and the second fix as the final fix. |
| RetryController.SingleAttemptNoFallback | core/agent.py:495-504 | With one attempt allowed and no fallback, a failure returns that attempt's new error as last_error and no guidance. |
| RagEngine.Suffix | core/rag_engine.py:112 | The suffix is empty, or starts with the name's last dot, is a proper tail of the name of length at least 2, and contains no other dot. |
| RagEngine.SuffixIsLastDotTail | core/rag_engine.py:112 | The suffix is the tail from the last dot exactly when that dot neither starts nor ends the name, and is empty otherwise. So "main.py" has ".py", "app.test.ts" has ".ts", and ".md", "notes." and "Makefile" have none. |
| RagEngine.IgnoreMatchesSubstrings | core/rag_engine.py:113-114 | Ignored names match anywhere in the path string: any path containing "env" is skipped. |
| RagEngine.HashedMembers | core/rag_engine.py:111-119 | The hashed entries are exactly the eligible files whose hashing succeeded, and they keep distinct paths. |
| RagEngine.NewHashesKeys | core/rag_engine.py:107-119 | The keys of new_hashes are exactly the relative paths of eligible, hashed files, so deleted files drop out. |
| RagEngine.NewHashesValues | core/rag_engine.py:116-119 | Each eligible, hashed file's path maps to its current digest. |
| RagEngine.SelectionIsChangeDetection | core/rag_engine.py:121-122 | A file is selected exactly when it is eligible and hashed, and force is set, its path is new, or its digest changed. |
| RagEngine.ForceSelectsAll | core/rag_engine.py:121 | A forced run selects every hashed file, in scan order. |
| RagEngine.UnchangedSelectsNothing | core/rag_engine.py:121-128 | Without force, if every digest matches the stored one, nothing is selected. |
| RagEngine.DocsMembers | core/rag_engine.py:130-149 | The documents are exactly those of the readable files whose text is not blank. |
| RagEngine.DocsDistinctSources | core/rag_engine.py:176-187 | Documents built from entries with distinct paths have distinct sources: one document per key of new_hashes. |
| RagEngine.LoadedHashes | core/rag_engine.py:58-66 | A stored map is returned as is; a missing or unreadable file gives an empty map. |
| RagEngine.SaveLoadRoundTrip | core/rag_engine.py:58-74 | A successful save is loaded back unchanged. A save that breaks the file makes the next load start empty. A save that cannot open the file changes nothing. The JSON file is modelled as the map it holds (`AfterSave`), so this holds by that definition. |
| RagEngine.Preview | core/rag_engine.py:244 | Content of at most 500 characters is shown whole. Longer content shows its first 500 characters plus "...", 503 in all. |
| RagEngine.OneBlockPerSource | core/rag_engine.py:238-246 | The blocks' sources are distinct and cover every result's source. Every block is a hit's, and the first hit of each source gets the block. |
| RagEngine.SummaryShowsEverySource | core/rag_engine.py:237-246 | A non-empty summary starts with the header. Every source has an entry, and each entry's block occurs in the summary. |
| RagEngine.ListOfSet | core/rag_engine.py:219 | The list holds the set's elements, each once. |
| RagEngine.CodebaseRag.LoadHashes | core/rag_engine.py:58-66 | Returns `LoadedHashes` of the current hash file. |
| RagEngine.CodebaseRag.SaveHashes | core/rag_engine.py:68-74 | The hash file becomes the hashes, stays as it was, or becomes unreadable, depending on the failure. The store is untouched. |
| RagEngine.CodebaseRag.ScanProject | core/rag_engine.py:103-124 | The scan loop yields the hashed entries, new_hashes and files_to_index as specified. |
| RagEngine.CodebaseRag.ReadDocuments | core/rag_engine.py:130-149 | One document per readable, non-blank entry, in order. |
| RagEngine.CodebaseRag.IndexProject | core/rag_engine.py:95-193 | Nothing changes when the project is missing, no selected file has text, or there is no store. Otherwise, forced or not, the store holds the documents of every hashed file with text, one per source, and new_hashes is saved. |
| RagEngine.CodebaseRag.Search | core/rag_engine.py:195-220 | Without a store the results and files are empty. With a store the hits are returned in order, and the referenced files are the truthy sources, each once. |
| RagEngine.CodebaseRag.AssembleSummary | core/rag_engine.py:237-246 | The loop produces the header followed by the block of each first-occurring source. |
| RagEngine.CodebaseRag.GetContextSummary | core/rag_engine.py:222-251 | With no results: "No related codebase context found." and no files. Otherwise the summary text and the truthy sources. |
| GitOps.ResolveNormal | backend/app/git_ops.py:14-18 | A resolved path has no empty, "." or ".." component. |
| GitOps.InsideIsPrefix | backend/app/git_ops.py:19 | The "in parents, or equal" test holds exactly when the repository path is a component-wise prefix of the target. |
| GitOps.RelativeWithoutParentStaysInside | backend/app/git_ops.py:18-20 | A relative file path that never mentions ".." always passes the containment test. |
| GitOps.ParentEscapes | backend/app/git_ops.py:18-20 | ".." from a non-root repository resolves to its parent and is rejected as traversal. |
| GitOps.AbsoluteIgnoresBase | backend/app/git_ops.py:18 | An absolute file path resolves the same whatever the repository directory. |
| GitOps.BranchName | backend/app/git_ops.py:26 | The branch name is "fix/bug-" followed by the bug id. |
| GitOps.BranchNameInjective | backend/app/git_ops.py:26 | Different bug ids get different branches. |
| GitOps.ErrorPrefixSeparatesOutcomes | backend/app/git_ops.py:16-53 | The not-a-directory, traversal and exception results start with "Error" for every argument, and the success result never does. |
| GitOps.Repository.ApplyFixToRepo | backend/app/git_ops.py:6-53 | An invalid directory or a target outside the repository returns its error and changes nothing. An existing branch is reused; otherwise a new one is created at the current head, and other heads are unchanged. Once checkout succeeds, that branch is active. On success the target holds the fixed code, is staged, one commit "fix: applied fix for bug {id}" is added on the branch, and the result names the branch. A fault at any step returns "Error applying fix: …" and leaves exactly the earlier steps' effects. The result starts with "Error" exactly when no commit was made, and otherwise it is the success message. |

## Left out

- The language model call, the prompt text and the system prompt are left out. The model's answer for each attempt is an oracle function of the attempt history.
- The fallback handler (core.fallback) is not part of this model. Its responses are represented by the arguments they are built from (`Guidance`). The response for an unreachable model is taken to carry the status "api_connection_failed". `generate_fallback_response` raising is the `fallbackReportError` fault. The api-failure response generator raising is not modelled.
- RetryController.FixResult: the `bug_id` and `timestamp` keys are dropped. The bug id is fixed per agent, and clocks are not modelled.
- RetryController.AttemptRecord: the `timestamp` key is dropped, for the same reason.
- Confidence values 0.0, 0.5 and 0.8 are the symbols `Zero`, `Low` and `High`. There is no floating point.
- Text.Lower: only ASCII letters are lower-cased. Python's Unicode case mapping is not modelled.
- Docker SDK internals (`containers.run`, `attach_socket`, `wait`, `logs`, `kill`, `remove`) are abstract effects on the `Docker` class. Their answers come from a `Script`. The model assumes a container is created only when `containers.run` returns.
- Sandbox.Sandbox.RunCode: the socket is not modelled beyond recording what was sent. The 30-second timeout is represented only by the wait raising.
- `stream_logs`, `execute_full_workflow`, the module-level helpers `quick_fix` and `fix_with_retry`, the print logging and all timestamps are left out: they are demo or event-relay code.
- RagEngine: Chroma, the OpenAI embeddings, the text splitter, SHA-256 and `rglob` are not modelled. The scan is a sequence of file entries with their digest and text. The store holds whole documents rather than chunks.
- RagEngine.CodebaseRag.IndexProject: requires distinct relative paths, which is what a directory scan produces. With them the rebuilt store holds one document per key of `new_hashes`. It assumes the collection re-initialises after `delete_collection`. A file is read once, so a file that changes between the two reads of an incremental run is not modelled. The `indexed_at` metadata is dropped.
- `start_background_indexing` (an asyncio loop with sleeps) and `_initialize_db` (directory creation and Chroma setup) are left out. Only whether a store exists is modelled.
- RagEngine.CodebaseRag.Search: the similarity search is an oracle, so its hits are an argument and `limit` is not used. The order of `referenced_files` is stated only as "each truthy source once", since Python gives a set's list no order.
- GitOps: `Path.resolve` is lexical normalisation, so symbolic links are not followed. Checking out an existing branch does not change the modelled working-tree files. A repository without commits is outside the model: the constructor creates one initial commit.
- GitOps.Repository.ApplyFixToRepo: a write that fails part-way is modelled as leaving the file unchanged.

## Findings

None.

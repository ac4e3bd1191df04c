# AICodeBot core in Dafny

This project models the decision logic of AICodeBot's `Coder` class and of its
`sidekick` commands. It covers four parts:

- **Directory tree.** `generate_directory_structure` renders a directory tree as
  indented `- [Directory]` / `- [File]` lines. It prunes every entry whose name
  matches an ignore pattern, and it picks up `.gitignore` patterns on the way down
  (module `DirectoryTree`).
- **Model tier.** `get_llm_model_name` applies a 5% buffer to the token count and
  takes the first model of an ordered table that the credential may use and that
  is large enough (module `ModelTiers`).
- **Git diff context.** `git_diff_context` and `git_staged_files` build the text
  that describes a pending change from `git diff --name-status` rows (module
  `GitContext`).
- **The `sidekick` commands.** This covers the initial choice of context files,
  the per-turn loop, the session record, the model switch and the one-shot
  `--request` mode of `sidekick` (module `Sidekick`). It also covers the
  line handling of `sidekick_agent`: strip, skip blanks, `\e` to edit, and the
  answer cut at `Action:` (module `SidekickAgent`).

Supporting modules:

- `Wrappers` holds `Option` and `Result`.
- `Text` states the Python `str` operations that the code relies on over
  `seq<char>`: `strip()`, `split(sep)`, `splitlines()`, `sep.join(...)`, `s * n`
  and the first-occurrence search.

Everything the code asks of the outside world is an input of the model:

| Outside-world input | How the model takes it |
|---|---|
| The file system snapshot | An `Entry` tree |
| Outputs of `git` | Fields of `GitContext.Repo` |
| Reads of added files | Fields of `GitContext.Repo` |
| Contents of `.gitignore` files | The `gitignore` field of a directory `Entry` |
| The chat parser, token counter, model chooser, file-context generator and automatic file choice of `sidekick` | Fields of `Sidekick.Env` |
| The editor and the agent of `sidekick_agent` | Fields of `SidekickAgent.AgentEnv` |
| The engine list of the OpenAI key | A parameter |
| Whether an Open Router key is configured | A parameter |

Four behaviours of the code are worth stating plainly:

- **Direct-provider model order.** The direct-provider table is `gpt-4`,
  `gpt-4-32k`, `gpt-3.5-turbo`, `gpt-3.5-turbo-16k`, and it is searched in
  that order. So with every engine available, `gpt-4` is tried before
  `gpt-3.5-turbo`, and a small request gets `gpt-4`.
  `ModelTiers.DirectOrderKept` states this.
- **Session writes.** The model treats the chat's and the completer's file
  sets as values. In the model the session record is rewritten on every turn
  whose parse leaves the chat's file set different from the completer's, so
  two edits that end at the same set write it twice. The source behaves this
  way only when `Chat.parse_human_input` replaces `chat.files` with a new set;
  see "Chat parser and file-set aliasing" under Left out.
  `Sidekick.SessionWrittenIffChanged` states the model's rule.
- **Per-turn errors.** Only `KeyboardInterrupt` is caught around
  `chain.run`. In `git_diff_context`, errors from reading the status rows
  or an added file are modelled as `Result` values
  (`GitContext.ContextError`); any other exception of the loop is left out
  (see `Sidekick.Step` under Left out).
- **One-shot `CONTINUE`.** With `--request`, the same request text is read
  on every turn. If it parses to `CONTINUE` for every file set, the loop
  never ends and never calls the model. `Sidekick.OneShotContinueNeverEnds`
  states this.

## Model

| member | source | states |
|---|---|---|
| Text.StripSlice | aicodebot/coder.py:31 | `strip()` keeps a contiguous slice of the line; only whitespace lies before and after that slice |
| Text.StripEmpty | aicodebot/commands/sidekick.py:162-166 | `strip()` gives the empty string exactly when every character of the line is whitespace |
| Text.SplitJoin | aicodebot/coder.py:169 | joining the fields of `split("\t")` back with the separator gives the row back |
| Text.JoinSplit | aicodebot/coder.py:169 | splitting separator-free fields joined by the separator gives back exactly those fields |
| Text.SplitLinesTerminated | aicodebot/coder.py:194-196 | `splitlines()` recovers the names git prints one per `\n`-terminated line |
| Text.Strip | aicodebot/coder.py:31 | `strip()` gives a string with no whitespace at either end and never longer than the input |
| Text.Split | aicodebot/coder.py:169 | `split(sep)` gives at least one field, and no field holds the separator |
| Text.SplitLines | aicodebot/coder.py:163-165 | `splitlines()` gives no lines exactly for the empty string, and no line holds a line break |
| DirectoryTree.StarMatchesAll | aicodebot/coder.py:35 | the pattern `*` matches every name, the empty one included |
| DirectoryTree.LiteralMatchesItself | aicodebot/coder.py:35 | a pattern without `*` or `?` matches exactly the name spelled the same way |
| DirectoryTree.Glob | aicodebot/coder.py:35 | a matched name is at least as long as the pattern's characters other than `*`; a pattern without `*` matches only names of its own length |
| DirectoryTree.IgnoredIff | aicodebot/coder.py:35 | the `any(fnmatch(...))` test holds exactly when some pattern of the list matches the name |
| DirectoryTree.IgnoreLinesMembers | aicodebot/coder.py:31 | a pattern comes out of a `.gitignore` exactly when some line that is non-blank and does not start with `#` strips to it |
| DirectoryTree.IgnoreLinesClean | aicodebot/coder.py:31 | every pattern taken from a `.gitignore` is non-empty and has no whitespace at either end |
| DirectoryTree.Effective | aicodebot/coder.py:22-31 | the inherited patterns are a prefix of those in force; with `use_gitignore` off, or for a file, nothing is added |
| DirectoryTree.Render | aicodebot/coder.py:20-42 | an entry renders as the empty string exactly when its name matches a pattern in force; otherwise its text opens with its own line |
| DirectoryTree.Listing | aicodebot/coder.py:34-40 | reference listing: it is empty exactly when the entry is pruned; its first line is the entry at its depth; every later line is deeper; a file gives at most one line |
| DirectoryTree.ListingAll | aicodebot/coder.py:37-38 | every listed line of a directory's children is at least at the children's depth |
| DirectoryTree.RenderIsListing | aicodebot/coder.py:36-40 | the rendered text is exactly the listing with each line formatted as `"  " * depth + "- [Directory] name\n"` or `"- [File] name\n"` |
| DirectoryTree.RenderAllIsListing | aicodebot/coder.py:37-38 | the text of a directory's children is exactly their formatted listing |
| DirectoryTree.RenderAllAppend | aicodebot/coder.py:37-38 | the children's text is additive: children `a + b` render as the text of `a` followed by that of `b` |
| DirectoryTree.RenderDirectory | aicodebot/coder.py:34-38 | a directory that is not pruned renders as its own line, then its children with its patterns at one level deeper |
| DirectoryTree.SiblingIsolation | aicodebot/coder.py:22-38 | inside a directory that is not pruned, child `i` is rendered with exactly the directory's patterns, whatever its siblings' `.gitignore` files say, and its text sits between that of the earlier and the later siblings |
| DirectoryTree.StarPrunes | aicodebot/coder.py:34-40 | a `*` among the patterns in force prunes the entry and its whole subtree |
| DirectoryTree.SelfIgnoringDirectory | aicodebot/coder.py:26-36 | a directory whose own `.gitignore` has a kept line that strips to `*` (such as `*`, `*\n` or ` * `) renders as nothing: its patterns already apply to its own name |
| DirectoryTree.NoGitignoreAddsNothing | aicodebot/coder.py:26-31 | with `use_gitignore=False` the text is that of the same tree with no `.gitignore` read (the `.gitignore` files themselves are still listed) |
| DirectoryTree.NoGitignoreAddsNothingAll | aicodebot/coder.py:37-38 | the same holds for a directory's children under one pattern list |
| ModelTiers.Buffered | aicodebot/coder.py:119 | the buffered size is the largest whole number not above 105% of the request |
| ModelTiers.FirstFit | aicodebot/coder.py:121-130 | `None` exactly when no tier is supported and large enough; otherwise the name of the first such tier in table order |
| ModelTiers.ModelName | aicodebot/coder.py:98-130 | a returned name belongs to a tier of the configured table whose capacity covers the buffered size; in direct mode it is one of the key's engines |
| ModelTiers.SelectTier | aicodebot/coder.py:121-130 | the early-returning loop over the table returns the first-fit choice |
| ModelTiers.RouterChoice | aicodebot/coder.py:101-124 | in router mode, up to 8192 buffered tokens give `openai/gpt-4`, up to 32768 give `openai/gpt-4-32k`, and more give `None`, whatever the engine list |
| ModelTiers.DirectOrderKept | aicodebot/coder.py:109-124 | with every direct engine available, up to 8192 buffered tokens give `gpt-4`, up to 32768 give `gpt-4-32k`, and more give `None`: the table order is kept |
| ModelTiers.DirectTurboOnly | aicodebot/coder.py:109-124 | a key limited to `gpt-3.5-turbo` gets it for up to 4096 buffered tokens and nothing above that |
| ModelTiers.BufferScenarios | aicodebot/coder.py:119-124 | 7800 tokens buffer to 8190 and still fit `openai/gpt-4`; 8000 tokens buffer to 8400 and need `openai/gpt-4-32k` |
| GitContext.StagedFiles | aicodebot/coder.py:194-196 | the staged list is empty exactly when git printed nothing, and no name holds a line break |
| GitContext.BaseIsCachedIffStaged | aicodebot/coder.py:156-161 | the diff base is `--cached` exactly when something is staged, and `HEAD` otherwise |
| GitContext.ParseStatus | aicodebot/coder.py:168-188 | a row fails exactly when its status field is empty or it has fewer tab fields than its status needs (3 for `R`, 2 otherwise); a parsed change is one git could print |
| GitContext.ParseFormat | aicodebot/coder.py:168-188 | reading back any row git prints for a change gives that change, whatever the rename score |
| GitContext.Pieces | aicodebot/coder.py:171-190 | a change fails exactly when it is an addition whose file cannot be read; otherwise it contributes a header and at most one body, and the header alone exactly for a deletion |
| GitContext.PiecesDependOnlyOn | aicodebot/coder.py:171-190 | a deletion reads and diffs nothing; an addition reads only its file; a rename or change diffs only the path it is reported under, which for a rename is the new path |
| GitContext.RowPieces | aicodebot/coder.py:168-190 | a status row fails exactly when it cannot be parsed or names an added file that cannot be read; a parse failure is passed on unchanged |
| GitContext.AllPieces | aicodebot/coder.py:167-190 | when every row succeeds, there are between one and two pieces per row |
| GitContext.AllPiecesFails | aicodebot/coder.py:167-190 | building the pieces fails exactly when some row fails: it cannot be parsed, or it names an added file that cannot be read |
| GitContext.DiffContext | aicodebot/coder.py:143-192 | a non-empty commit gives exactly the `git show` text and cannot fail; only the status-row path can fail |
| GitContext.CommitShowsOnly | aicodebot/coder.py:147-153 | with a commit, the result is the `git show --format=%B` text alone, whatever the staged state, file filter or working tree |
| GitContext.EmptyCommitIsNoCommit | aicodebot/coder.py:147-161 | an empty commit string behaves like no commit |
| GitContext.DiffContextFails | aicodebot/coder.py:154-192 | without a commit, the context fails exactly when some status row cannot be parsed or names an added file that cannot be read; the rows are `StatusRows`, the `splitlines()` of `git diff <base> --name-status` (lines 163-165) |
| GitContext.BuildContext | aicodebot/coder.py:142-192 | the append-then-join loop of `git_diff_context` computes the same result as the piecewise definition |
| GitContext.ModifiedThenAddedScenario | aicodebot/coder.py:156-192 | a staged modified file `a` and a readable new file `b` give a changed-file header with the staged diff of `a`, then a new-file header with all of `b`, joined by newlines |
| GitContext.RemovedAddedFileFails | aicodebot/coder.py:171-176 | if the new file `b` of the same staged change cannot be read, the whole context fails with `Unreadable(b)` |
| Sidekick.InitialFiles | aicodebot/commands/sidekick.py:34-48 | the initial files are the explicit ones, the automatic choice or the session's list; `--no-files` gives the explicit ones; the result is empty only when no files were given and, unless `--no-files`, the automatic choice was empty too |
| Sidekick.InitialFilesPrecedence | aicodebot/commands/sidekick.py:34-48 | explicit files win; otherwise, unless `--no-files`, the last session's non-empty file list; otherwise the automatic choice; with `--no-files`, none |
| Sidekick.Init | aicodebot/commands/sidekick.py:34-82 | the first state holds the deduplicated initial files for both chat and completer, the context built from them, and the model chosen for the resulting request size |
| Sidekick.InitEstablishesInv | aicodebot/commands/sidekick.py:62-82 | at the start the completer shows the chat's files, and the chain belongs to the chosen model and the one memory created for it |
| Sidekick.Refresh | aicodebot/commands/sidekick.py:93-100 | after a non-breaking parse the context is rebuilt from the new file set; the session's `files` entry is rewritten exactly when the completer's set differed; the model is untouched |
| Sidekick.Rechoose | aicodebot/commands/sidekick.py:113-123 | the model is re-chosen from the request size; nothing changes when the name is the same; otherwise the handle and chain are rebuilt around the same memory |
| Sidekick.Step | aicodebot/commands/sidekick.py:83-138 | every turn keeps the memory object, and a turn exits exactly when it terminates the loop without dispatching a request |
| Sidekick.StepPreservesInv | aicodebot/commands/sidekick.py:93-123 | every non-breaking turn keeps the completer equal to the chat's files and the chain tied to the current model and memory |
| Sidekick.BreakExits | aicodebot/commands/sidekick.py:89-91 | a `BREAK` ends the loop before any context refresh, session write or model call |
| Sidekick.SessionWrittenIffChanged | aicodebot/commands/sidekick.py:96-100 | the session record changes only when the file set changed; it then holds `order(files)` under `files`, which lists exactly the new set, each name once, whenever `order` lists its set as `list(...)` does; every other key is kept |
| Sidekick.RepeatedTurnWritesNothing | aicodebot/commands/sidekick.py:96-100 | a turn that leaves the file set as it was writes nothing |
| Sidekick.ContinueCallsNoModel | aicodebot/commands/sidekick.py:93-103 | a `CONTINUE` refreshes the context but makes no model call and no model switch |
| Sidekick.RequestRechoosesModel | aicodebot/commands/sidekick.py:113-123 | a request is sized by `RequestSize` from the refreshed context (template, context and memory allowance, as `calculate_request_token_size` at lines 59-60 sums them); the handle is rebuilt with the same memory exactly when the chosen name differs; the chosen name becomes current |
| Sidekick.RunOutcome | aicodebot/commands/sidekick.py:125-138 | an interrupted run returns to the prompt; a completed run ends the session exactly when a `--request` was given |
| Sidekick.OneShotContinueRepeats | aicodebot/commands/sidekick.py:84-103 | one turn: a `--request` that parses to `CONTINUE` leaves the loop waiting for input, and `TurnInput` (the `--request` text when given, else the typed line, lines 84-87) reads the same request again on the next turn |
| Sidekick.Run | aicodebot/commands/sidekick.py:83-138 | once the loop has ended, any further input leaves it as it is; the memory object is the same after any number of turns |
| Sidekick.Trace | aicodebot/commands/sidekick.py:83-138 | at most one event per input turn, and none once the loop has ended |
| Sidekick.OneShotContinueNeverEnds | aicodebot/commands/sidekick.py:84-103 | a `--request` that parses to `CONTINUE` for every file set keeps the loop waiting for input over any number of turns; every turn only refreshes the context, and the model, chain and handle are never rebuilt or called |
| Sidekick.RunKeepsMemory | aicodebot/commands/sidekick.py:83-138 | over any sequence of turns the memory object stays the same, and the standing facts hold while the loop waits for input |
| Sidekick.SessionMemory | aicodebot/commands/sidekick.py:62-138 | a whole session keeps the memory created for its first model |
| SidekickAgent.LowerChar | aicodebot/commands/sidekick.py:168 | lower-casing yields `e` exactly from `e` or `E`, and a backslash exactly from a backslash |
| SidekickAgent.Lower | aicodebot/commands/sidekick.py:168 | ASCII lower-casing keeps the length and lower-cases each character in place |
| SidekickAgent.AsksForEditChars | aicodebot/commands/sidekick.py:168 | a line asks for the editor exactly when it ends in a backslash followed by `e` or `E` |
| SidekickAgent.CutAtAction | aicodebot/commands/sidekick.py:179 | the shown answer is the prefix of the response before its first `Action:`: it contains no `Action:`, and when the response has one it ends exactly where the first `Action:` begins |
| SidekickAgent.CutIdempotent | aicodebot/commands/sidekick.py:179 | cutting an already cut answer changes nothing |
| SidekickAgent.AgentStep | aicodebot/commands/sidekick.py:159-180 | a blank line is skipped and changes nothing; an answer is the cut response of the agent; the remembered edit is echoed exactly when it is truthy |
| SidekickAgent.EditPersists | aicodebot/commands/sidekick.py:159-177 | a plain line is sent stripped and keeps the remembered edit, which is echoed again when truthy |
| SidekickAgent.EditReplacesInput | aicodebot/commands/sidekick.py:168-177 | an edit request sends what the editor returns for the line minus its last two characters and remembers it; an editor closed without saving sends `None` and forgets the earlier edit |
| SidekickAgent.BlankSkipped | aicodebot/commands/sidekick.py:161-166 | a line made only of whitespace is skipped and leaves the remembered edit as it was |

## Left out

- **fnmatch.** `fnmatch` bracket classes (`[abc]`, `[!abc]`) are not modelled. `DirectoryTree.Glob` knows `*` and `?` only and compares every other character literally, case-sensitively, as on POSIX.
- **Consistent snapshots.** An `Entry` tree is taken to be a consistent snapshot: a directory's `gitignore` field is `Some` exactly when its children include the file `.gitignore`. The model does not enforce this, and nothing it proves depends on it.
- Sidekick.Step: has no outcome for an exception other than `KeyboardInterrupt`. Such an exception ends the program. Examples are `chain.run` failing at aicodebot/commands/sidekick.py:130 for a network or API error, or a collaborator such as `generate_files_context` raising.
- SidekickAgent.AgentStep: likewise has no outcome for an exception raised by `agent.run` (aicodebot/commands/sidekick.py:177), which ends the program.
- **Iteration order.** The order of `Path.iterdir()` is the order of an `Entry`'s children. The iteration order of a Python `set` is the `order` field of `Sidekick.Env`.
- **File-system edge cases.** Whether a path exists or is a directory is given by the shape of the `Entry` tree. Errors from reading a `.gitignore` are not modelled.
- DirectoryTree.Render: always returns text. The source raises in two cases the model cannot express:
  - `base_path.iterdir()` (aicodebot/coder.py:37) raises on a directory whose listing is not permitted;
  - `is_dir()` (aicodebot/coder.py:34) follows symbolic links, so a link back to an ancestor makes the walk recurse until it raises. An `Entry` tree is finite and has no links.
- ModelTiers.Buffered: computes `int(token_size * 1.05)` in exact arithmetic. It does not model the double-precision product, which loses whole units only for token counts far beyond any model's capacity.
- **Logging.** The `logger` messages of `get_llm_model_name` and `git_diff_context` are not modelled.
- **Engines and configuration.** `get_openai_supported_engines` (a cached network call) becomes the `engines` parameter. `read_config` becomes the `routerMode` flag.
- **LLM client construction.** `get_llm` and `get_llm_headers` construct a LangChain client and set global API keys. They hold no decision logic that the core relies on.
- **Token counting.** `get_token_length` (tiktoken) is not modelled. In `sidekick`, token counting is the uninterpreted `tokenSize` field.
- **Unstaged files.** `git_unstaged_files` is not used by the modelled operations.
- **Command failures.** `exec_and_get_output` failures (a git command exiting non-zero) are not modelled: every command's output is taken as given.
- **Why a read fails.** `read_text` on an added file fails when the path is missing, is a directory or cannot be decoded. The model does not tell these apart: `Repo.readText` gives `None`, and the context fails with `Unreadable(path)`.
- **Chat parser and file-set aliasing.** `aicodebot/input.py` is not part of this model.
  - `Chat.parse_human_input` is an uninterpreted function from the chat's file set and the line to a parse result and a new file set.
  - The chat's and the completer's file sets are separate values in the model. `Refresh` copies the chat's set into the completer. In Python, `completer.files = chat.files` (aicodebot/commands/sidekick.py:97) makes both names refer to one set object from the first write on.
  - Whether they already share one object at the start (aicodebot/commands/sidekick.py:70 and 80) depends on whether `Chat.__init__` copies its argument, and that code is not part of this model.
  - If `Chat` changes `chat.files` in place rather than replacing it, the session is written at most once: never when the two names already share the object, and otherwise only on the first change. After that the sets cannot differ again. The model's rule, a write on every turn that changes the set, holds only when the parser replaces `chat.files` with a new set.
- **Other `sidekick` collaborators.** `Session.read`/`Session.write` become an in-memory record. `LanguageModelManager`, `generate_files_context`, `get_prompt`, `Coder.auto_file_context` and `identify_languages` are not part of this model; the first four are uninterpreted fields of `Env`. The `languages` string is not modelled.
- **Terminal and streaming I/O.** Console output, the `Live` markdown rendering, callback handlers, prompt history and `click` option parsing are left out. The echo of an edited request is kept as a flag of the turn's event.
- **Ctrl-C at the prompt.** A `KeyboardInterrupt` while waiting at the prompt (outside the model run) ends the program. This is not modelled.
- **Agent executor.** `SidekickAgent.get_agent_executor` and the `--learned-repos` option are not part of this model. The agent is the `run` field of `AgentEnv`.
- SidekickAgent.LowerChar: lower-cases ASCII letters only. Python's `lower()` is Unicode-aware, but no other character lower-cases to `e` or to a backslash, so the edit test is unaffected.
- **Repository checks.** The `is_inside_git_repo` check and its exit are not modelled.

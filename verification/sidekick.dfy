/**
 * The `sidekick` command: the initial choice of context files and the
 * per-turn loop that refreshes the context, keeps the session record in step
 * with the file set, re-chooses the model and dispatches the request.  Every
 * collaborator whose code is not part of this model is a field of `Env`;
 * the loop itself is a step function over `Loop`.
 */
module Sidekick {
  import opened Wrappers

  /** What `Chat.parse_human_input` makes of one line: stop, nothing for the model, or a request. */
  datatype Parsed = Break | Continue | Request(text: string)

  /** The session record as `Session.read` returns it and `Session.write` stores it. */
  type SessionRecord = map<string, seq<string>>

  const FilesKey := "files"

  datatype Env = Env(
    parse: (set<string>, string) -> (Parsed, set<string>),  // parse_human_input: chat.files before -> (result, chat.files after)
    filesContext: seq<string> -> string,                    // generate_files_context
    order: set<string> -> seq<string>,                      // the iteration order of a Python set
    tokenSize: string -> nat,                               // get_token_size
    template: string,                                       // prompt.template of the sidekick prompt
    memoryTokens: nat,                                      // DEFAULT_MEMORY_TOKENS
    chooseModel: nat -> string,                             // LanguageModelManager.choose_model
    autoFiles: nat -> seq<string>                           // Coder.auto_file_context(DEFAULT_CONTEXT_TOKENS, max_file_tokens)
  )

  /** The command line: `--request`, `--no-files`, `--max-file-tokens` and the FILES arguments. */
  datatype Options = Options(request: Option<string>, noFiles: bool, maxFileTokens: nat, files: seq<string>)

  /** `xs` lists every member of `fs` exactly once, as `list(fs)` does in some order. */
  predicate Lists(xs: seq<string>, fs: set<string>) {
    && |xs| == |fs|
    && (forall f :: f in xs ==> f in fs)
    && (forall f :: f in fs ==> f in xs)
  }

  /** The set-iteration collaborator behaves like `list(...)` on every set. */
  ghost predicate OrderListsSets(env: Env) {
    forall fs :: Lists(env.order(fs), fs)
  }

  /** A `--request` was given and is not empty: the session answers it once. */
  predicate OneShot(opts: Options) {
    opts.request.Some? && opts.request.value != ""
  }

  // ---------------------------------------------------------------------
  // Initial file set
  // ---------------------------------------------------------------------

  /** The session's `files` entry is present and not empty. */
  predicate HasSessionFiles(session: SessionRecord) {
    FilesKey in session && session[FilesKey] != []
  }

  /**
   * The file list the first context is built from: the explicit FILES, else
   * (unless `--no-files`) the files of the last session, else the
   * automatically chosen ones; with `--no-files` and no FILES, none.
   */
  function InitialFiles(env: Env, opts: Options, session: SessionRecord): (files: seq<string>)
    ensures files == opts.files || files == env.autoFiles(opts.maxFileTokens)
            || (HasSessionFiles(session) && files == session[FilesKey])
    ensures opts.noFiles ==> files == opts.files
    ensures files == [] ==> opts.files == [] && (!opts.noFiles ==> env.autoFiles(opts.maxFileTokens) == [])
  {
    if opts.files != [] then opts.files
    else if !opts.noFiles then
      if HasSessionFiles(session) then session[FilesKey] else env.autoFiles(opts.maxFileTokens)
    else []
  }

  /** The precedence of the four sources of the initial file list. */
  lemma InitialFilesPrecedence(env: Env, opts: Options, session: SessionRecord)
    ensures opts.files != [] ==> InitialFiles(env, opts, session) == opts.files
    ensures opts.files == [] && !opts.noFiles && HasSessionFiles(session)
            ==> InitialFiles(env, opts, session) == session[FilesKey]
    ensures opts.files == [] && !opts.noFiles && !HasSessionFiles(session)
            ==> InitialFiles(env, opts, session) == env.autoFiles(opts.maxFileTokens)
    ensures opts.files == [] && opts.noFiles ==> InitialFiles(env, opts, session) == []
  {
  }

  // ---------------------------------------------------------------------
  // Loop state
  // ---------------------------------------------------------------------

  datatype Phase = AwaitingInput | Terminated

  /** The conversation memory, created once for the first model and never replaced. */
  datatype Memory = Memory(createdFor: string)

  /** A chain built from a model handle and a memory object. */
  datatype Chain = Chain(model: string, memory: Memory)

  datatype Loop = Loop(
    phase: Phase,
    chatFiles: set<string>,        // chat.files
    completerFiles: set<string>,   // completer.files
    context: string,               // the current files context
    currentModel: string,          // current_model_name
    handle: string,                // the model the langchain handle was built for
    chain: Chain,
    memory: Memory,
    session: SessionRecord,        // the persisted session record
    builds: nat                    // how many model handles have been built
  )

  /** The request size: prompt template, context and the fixed memory allowance. */
  function RequestSize(env: Env, context: string): nat {
    env.tokenSize(env.template) + env.tokenSize(context) + env.memoryTokens
  }

  /** The state before the first turn. */
  function Init(env: Env, opts: Options, session: SessionRecord): (st: Loop)
    ensures st.phase == AwaitingInput
    ensures st.chatFiles == st.completerFiles
    ensures forall f :: f in st.chatFiles <==> f in InitialFiles(env, opts, session)
    ensures st.context == env.filesContext(InitialFiles(env, opts, session))
    ensures st.currentModel == env.chooseModel(RequestSize(env, st.context))
    ensures st.session == session && st.builds == 1
  {
    var list := InitialFiles(env, opts, session);
    var files := set f | f in list;
    var context := env.filesContext(list);
    var name := env.chooseModel(RequestSize(env, context));
    var memory := Memory(name);
    Loop(AwaitingInput, files, files, context, name, name, Chain(name, memory), memory, session, 1)
  }

  /**
   * The loop's standing facts: the completer shows the chat's file set, and
   * the model handle and chain belong to the current model and the one
   * memory object.
   */
  predicate Inv(st: Loop) {
    && st.completerFiles == st.chatFiles
    && st.handle == st.currentModel
    && st.chain == Chain(st.currentModel, st.memory)
  }

  lemma InitEstablishesInv(env: Env, opts: Options, session: SessionRecord)
    ensures Inv(Init(env, opts, session))
    ensures Init(env, opts, session).memory == Memory(Init(env, opts, session).currentModel)
  {
  }

  // ---------------------------------------------------------------------
  // One turn
  // ---------------------------------------------------------------------

  /** What one turn did. */
  datatype Event =
    | Exited
    | Refreshed
    | Dispatched(task: string, context: string, model: string, requestSize: nat,
                 echoed: bool, switched: bool, completed: bool)

  datatype Turn = Turn(state: Loop, event: Event)

  /** The line the turn works on: the `--request` text when there is one, else what was typed. */
  function TurnInput(opts: Options, typed: string): string {
    if OneShot(opts) then opts.request.value else typed
  }

  /**
   * After a non-breaking parse: the context rebuilt for the chat's files and,
   * when the completer's set differs from the chat's, the completer updated
   * and the session's `files` entry rewritten.
   */
  function Refresh(env: Env, st: Loop, files: set<string>): (s: Loop)
    ensures s.chatFiles == files && s.completerFiles == files
    ensures s.context == env.filesContext(env.order(files))
    ensures st.completerFiles == files ==> s.session == st.session
    ensures st.completerFiles != files ==> s.session == st.session[FilesKey := env.order(files)]
    ensures s.currentModel == st.currentModel && s.handle == st.handle && s.chain == st.chain
    ensures s.memory == st.memory && s.builds == st.builds && s.phase == st.phase
  {
    var s := st.(chatFiles := files, context := env.filesContext(env.order(files)));
    if st.completerFiles != files then
      s.(completerFiles := files, session := st.session[FilesKey := env.order(files)])
    else s
  }

  /**
   * The model for a request: re-chosen from the request size, and the handle
   * and chain rebuilt, keeping the memory, only when the choice differs from
   * the current model.
   */
  function Rechoose(env: Env, st: Loop): (s: Loop)
    ensures s.currentModel == env.chooseModel(RequestSize(env, st.context))
    ensures s.currentModel == st.currentModel ==> s == st
    ensures s.currentModel != st.currentModel ==>
              s == st.(currentModel := s.currentModel, handle := s.currentModel,
                       chain := Chain(s.currentModel, st.memory), builds := st.builds + 1)
  {
    var name := env.chooseModel(RequestSize(env, st.context));
    if name != st.currentModel then
      st.(currentModel := name, handle := name, chain := Chain(name, st.memory), builds := st.builds + 1)
    else st
  }

  /**
   * One pass through the `while True` loop.  `typed` is the line read from
   * the prompt (ignored when a `--request` is given) and `interrupted` says
   * whether the run was cut short by Ctrl-C.
   */
  function Step(env: Env, opts: Options, st: Loop, typed: string, interrupted: bool): (t: Turn)
    requires st.phase == AwaitingInput
    ensures t.state.memory == st.memory
    ensures t.event.Exited? <==> t.state.phase == Terminated && !t.event.Dispatched?
  {
    var input := TurnInput(opts, typed);
    var (parsed, files) := env.parse(st.chatFiles, input);
    if parsed.Break? then Turn(st.(chatFiles := files, phase := Terminated), Exited)
    else
      var refreshed := Refresh(env, st, files);
      if parsed.Continue? then Turn(refreshed, Refreshed)
      else
        var size := RequestSize(env, refreshed.context);
        var chosen := Rechoose(env, refreshed);
        var done := !interrupted && OneShot(opts);
        var next := chosen.(phase := if done then Terminated else AwaitingInput);
        Turn(next, Dispatched(parsed.text, refreshed.context, chosen.currentModel, size,
                              parsed.text != input, chosen.currentModel != st.currentModel, !interrupted))
  }

  /** The parse the turn sees. */
  function ParseOf(env: Env, opts: Options, st: Loop, typed: string): (Parsed, set<string>) {
    env.parse(st.chatFiles, TurnInput(opts, typed))
  }

  /** Every turn keeps the loop's standing facts. */
  lemma StepPreservesInv(env: Env, opts: Options, st: Loop, typed: string, interrupted: bool)
    requires st.phase == AwaitingInput && Inv(st)
    requires !ParseOf(env, opts, st, typed).0.Break?
    ensures Inv(Step(env, opts, st, typed, interrupted).state)
  {
  }

  /** A `BREAK` ends the loop before any context refresh, session write or model call. */
  lemma BreakExits(env: Env, opts: Options, st: Loop, typed: string, interrupted: bool)
    requires st.phase == AwaitingInput
    requires ParseOf(env, opts, st, typed).0.Break?
    ensures var t := Step(env, opts, st, typed, interrupted);
            && t.event == Exited && t.state.phase == Terminated
            && t.state.session == st.session && t.state.context == st.context
            && t.state.currentModel == st.currentModel && t.state.builds == st.builds
  {
  }

  /**
   * The session record is rewritten exactly when the parse changed the file
   * set, only its `files` entry changes, and that entry then lists the new
   * set.
   */
  lemma SessionWrittenIffChanged(env: Env, opts: Options, st: Loop, typed: string, interrupted: bool)
    requires st.phase == AwaitingInput && Inv(st)
    requires !ParseOf(env, opts, st, typed).0.Break?
    ensures var files := ParseOf(env, opts, st, typed).1;
            var s := Step(env, opts, st, typed, interrupted).state;
            && (s.session != st.session ==> files != st.chatFiles)
            && (files != st.chatFiles ==> s.session == st.session[FilesKey := env.order(files)])
            && (forall k :: k in st.session && k != FilesKey ==> k in s.session && s.session[k] == st.session[k])
            && (OrderListsSets(env) && files != st.chatFiles ==> FilesKey in s.session && Lists(s.session[FilesKey], files))
  {
  }

  /**
   * Repeating a turn that leaves the file set as it is writes nothing: once
   * the completer has caught up with the chat, the record stays put.
   */
  lemma RepeatedTurnWritesNothing(env: Env, opts: Options, st: Loop, typed: string, interrupted: bool)
    requires st.phase == AwaitingInput && Inv(st)
    requires ParseOf(env, opts, st, typed) == (ParseOf(env, opts, st, typed).0, st.chatFiles)
    ensures Step(env, opts, st, typed, interrupted).state.session == st.session
  {
  }

  /**
   * A `CONTINUE` refreshes the context (and possibly the session) but calls
   * no model and switches none.
   */
  lemma ContinueCallsNoModel(env: Env, opts: Options, st: Loop, typed: string, interrupted: bool)
    requires st.phase == AwaitingInput
    requires ParseOf(env, opts, st, typed).0.Continue?
    ensures var files := ParseOf(env, opts, st, typed).1;
            var t := Step(env, opts, st, typed, interrupted);
            && t.event == Refreshed && t.state.phase == AwaitingInput
            && t.state.context == env.filesContext(env.order(files))
            && t.state.currentModel == st.currentModel && t.state.chain == st.chain
            && t.state.builds == st.builds
  {
  }

  /**
   * A request is sized from the refreshed context; the model handle and
   * chain are rebuilt, with the same memory, exactly when the chosen name
   * differs from the current one, which then becomes current.
   */
  lemma RequestRechoosesModel(env: Env, opts: Options, st: Loop, typed: string, interrupted: bool)
    requires st.phase == AwaitingInput && Inv(st)
    requires ParseOf(env, opts, st, typed).0.Request?
    ensures var files := ParseOf(env, opts, st, typed).1;
            var size := RequestSize(env, env.filesContext(env.order(files)));
            var name := env.chooseModel(size);
            var t := Step(env, opts, st, typed, interrupted);
            && t.event.Dispatched? && t.event.requestSize == size && t.event.model == name
            && t.event.context == env.filesContext(env.order(files))
            && t.state.currentModel == name && t.state.chain == Chain(name, st.memory)
            && (t.event.switched <==> name != st.currentModel)
            && t.state.builds == (if name != st.currentModel then st.builds + 1 else st.builds)
  {
  }

  /**
   * An interrupted run goes back to the prompt; a completed one ends the
   * session exactly when a `--request` was given.
   */
  lemma RunOutcome(env: Env, opts: Options, st: Loop, typed: string, interrupted: bool)
    requires st.phase == AwaitingInput
    requires ParseOf(env, opts, st, typed).0.Request?
    ensures var t := Step(env, opts, st, typed, interrupted);
            && (interrupted ==> t.state.phase == AwaitingInput && !t.event.completed)
            && (!interrupted ==> (t.state.phase == Terminated <==> OneShot(opts)))
  {
  }

  /**
   * A `--request` that parses to `CONTINUE` is read again on the next turn,
   * and again: the loop never reaches the model and never ends by itself.
   */
  lemma OneShotContinueRepeats(env: Env, opts: Options, st: Loop, typed1: string, typed2: string, interrupted: bool)
    requires st.phase == AwaitingInput && OneShot(opts)
    requires ParseOf(env, opts, st, typed1).0.Continue?
    ensures var t := Step(env, opts, st, typed1, interrupted);
            && t.state.phase == AwaitingInput
            && TurnInput(opts, typed2) == TurnInput(opts, typed1)
  {
  }

  // ---------------------------------------------------------------------
  // A whole session
  // ---------------------------------------------------------------------

  /** One line read from the prompt and whether its run was interrupted. */
  datatype Input = Input(typed: string, interrupted: bool)

  /**
   * The `while True` loop: the state after feeding `inputs` to it, stopping
   * once it has terminated.
   */
  function Run(env: Env, opts: Options, st: Loop, inputs: seq<Input>): (r: Loop)
    ensures st.phase == Terminated ==> r == st
    ensures r.memory == st.memory
    decreases |inputs|
  {
    if inputs == [] || st.phase == Terminated then st
    else Run(env, opts, Step(env, opts, st, inputs[0].typed, inputs[0].interrupted).state, inputs[1..])
  }

  /**
   * Over a whole session the memory object is the one created for the first
   * model, and whenever the loop is still waiting for input its standing
   * facts hold.
   */
  lemma {:induction false} RunKeepsMemory(env: Env, opts: Options, st: Loop, inputs: seq<Input>)
    requires Inv(st)
    ensures var s := Run(env, opts, st, inputs);
            s.memory == st.memory && (s.phase == AwaitingInput ==> Inv(s))
    decreases |inputs|
  {
    if inputs != [] && st.phase == AwaitingInput {
      var t := Step(env, opts, st, inputs[0].typed, inputs[0].interrupted);
      if ParseOf(env, opts, st, inputs[0].typed).0.Break? {
        assert t.state.phase == Terminated;
        assert Run(env, opts, t.state, inputs[1..]) == t.state;
      } else {
        StepPreservesInv(env, opts, st, inputs[0].typed, inputs[0].interrupted);
        RunKeepsMemory(env, opts, t.state, inputs[1..]);
      }
    }
  }

  /** A fresh session keeps the memory created for its first model to the end. */
  lemma SessionMemory(env: Env, opts: Options, session: SessionRecord, inputs: seq<Input>)
    ensures var st := Init(env, opts, session);
            Run(env, opts, st, inputs).memory == Memory(st.currentModel)
  {
    InitEstablishesInv(env, opts, session);
    RunKeepsMemory(env, opts, Init(env, opts, session), inputs);
  }

  /** What each turn of `Run` did, in order. */
  function Trace(env: Env, opts: Options, st: Loop, inputs: seq<Input>): (events: seq<Event>)
    ensures |events| <= |inputs|
    ensures st.phase == Terminated ==> events == []
    decreases |inputs|
  {
    if inputs == [] || st.phase == Terminated then []
    else
      var t := Step(env, opts, st, inputs[0].typed, inputs[0].interrupted);
      [t.event] + Trace(env, opts, t.state, inputs[1..])
  }

  /** Whatever the chat's file set, the parser answers `CONTINUE` to `text`. */
  ghost predicate AlwaysContinues(env: Env, text: string) {
    forall fs :: env.parse(fs, text).0.Continue?
  }

  /**
   * A `--request` that always parses to `CONTINUE` is re-read on every turn:
   * however many turns run, the loop is still waiting, every turn only
   * refreshed the context, and no model was called or switched.
   */
  lemma {:induction false} OneShotContinueNeverEnds(env: Env, opts: Options, st: Loop, inputs: seq<Input>)
    requires OneShot(opts) && AlwaysContinues(env, opts.request.value)
    requires st.phase == AwaitingInput
    ensures var s := Run(env, opts, st, inputs);
            && s.phase == AwaitingInput
            && s.currentModel == st.currentModel && s.chain == st.chain && s.builds == st.builds
    ensures var events := Trace(env, opts, st, inputs);
            |events| == |inputs| && forall k :: 0 <= k < |events| ==> events[k] == Refreshed
    decreases |inputs|
  {
    if inputs != [] {
      var t := Step(env, opts, st, inputs[0].typed, inputs[0].interrupted);
      assert ParseOf(env, opts, st, inputs[0].typed).0.Continue?;
      ContinueCallsNoModel(env, opts, st, inputs[0].typed, inputs[0].interrupted);
      OneShotContinueNeverEnds(env, opts, t.state, inputs[1..]);
      var rest := Trace(env, opts, t.state, inputs[1..]);
      assert Trace(env, opts, st, inputs) == [Refreshed] + rest;
    }
  }
}

// The language server of `mux-compiler/src/lsp.rs` as a state machine.
//
// Two threads share three locked cells and two FIFO channels.  Every access to
// a shared cell or channel is a step of its own, so a run is any interleaving of
// the event loop and the analysis worker.  What analysis and the request
// handlers compute is a parameter (`Analyzer`), a function of the snapshot.
module LspModel {
  import opened Options

  // ---------------------------------------------------------------- values

  datatype RequestId = NumberId(number: int) | StringId(text: string)

  datatype Document = Document(source: string, version: int, revision: nat)

  type Documents = map<string, Document>

  type Revisions = map<string, nat>

  /** Diagnostics by URI. */
  type Report = map<string, seq<string>>

  /** The `method` of a request: `shutdown`, one of the twelve supported ones, or anything else. */
  datatype Command =
    | Shutdown
    | Formatting | DocumentSymbol | Definition | References | Rename | Hover
    | Completion | SemanticTokensFull | SignatureHelp | CodeAction | InlayHint | FoldingRange
    | Unknown(name: string)

  datatype Request = Request(id: RequestId, command: Command, params: string)

  datatype RequestTask = RequestTask(request: Request, documents: Documents, folders: set<string>)

  datatype DiagnosticTask = DiagnosticTask(documents: Documents, revisions: Revisions, publishedUris: set<string>)

  datatype WorkerTask = RequestWork(task: RequestTask) | DiagnosticsSignal

  /** One `textDocument/publishDiagnostics` notification. */
  datatype Publication = Publication(uri: string, diagnostics: seq<string>, version: Option<int>)

  datatype WorkerResult =
    | RequestDone(id: RequestId, reply: string)
    | DiagnosticsDone(revisions: Revisions, messages: seq<Publication>, publishedUris: set<string>)

  /** `Handled` is whatever a request handler answered, its own errors included. */
  datatype Response = Handled(reply: string) | Acknowledged | Error(code: int)

  datatype ClientMessage =
    | Ask(request: Request)
    | Exit
    | Cancel(target: Option<RequestId>)
    | ChangeFolders(folders: set<string>)
    | WatchedFilesChanged(anyMux: bool)
    | DidOpen(uri: string, hasPath: bool, text: string, version: int)
    | DidChange(uri: string, version: int, changes: seq<string>)
    | DidClose(uri: string)
    | Unrecognised

  datatype Analyzer = Analyzer(
    findings: Documents -> Report,
    answer: RequestTask -> string)

  const REQUEST_CANCELLED := -32800
  const CONTENT_MODIFIED := -32801
  const METHOD_NOT_FOUND := -32601
  const REVISION_LIMIT: nat := 0x1_0000_0000_0000_0000

  predicate SupportedRequest(command: Command) {
    !command.Shutdown? && !command.Unknown?
  }

  function DocumentRevisions(documents: Documents): Revisions {
    map uri | uri in documents :: documents[uri].revision
  }

  // ------------------------------------------------------------ publishing

  // What `publish_all_diagnostics` collects: an entry for every open document and for every other
  // URI with findings; nothing is analysed when no document is open.
  function ByUri(analyzer: Analyzer, documents: Documents): Report {
    if documents == map[] then map[]
    else
      var found := analyzer.findings(documents);
      map uri | uri in documents.Keys + found.Keys :: if uri in found then found[uri] else []
  }

  function Touched(messages: seq<Publication>): set<string> {
    set message | message in messages :: message.uri
  }

  /** `messages` holds, in some order, one message for each URI of `uris`. */
  ghost predicate OnePerUri(messages: seq<Publication>, uris: set<string>) {
    && Touched(messages) == uris
    && forall i, j :: 0 <= i < j < |messages| ==> messages[i].uri != messages[j].uri
  }

  // Before `split` one clearing message for each URI that lost its diagnostics, from there one for
  // each current URI, each group in any order.
  ghost predicate PublishesAt(messages: seq<Publication>, analyzer: Analyzer, task: DiagnosticTask, split: nat) {
    var current := ByUri(analyzer, task.documents);
    && split <= |messages|
    && OnePerUri(messages[..split], task.publishedUris - current.Keys)
    && OnePerUri(messages[split..], current.Keys)
    && (forall message :: message in messages[..split] ==> message.diagnostics == [] && message.version == None)
    && (forall message :: message in messages[split..] ==>
          && message.uri in current
          && message.diagnostics == current[message.uri]
          && message.version ==
             if message.uri in task.documents then Some(task.documents[message.uri].version) else None)
  }

  /** The notifications the worker queues. */
  ghost predicate Publishes(messages: seq<Publication>, analyzer: Analyzer, task: DiagnosticTask) {
    exists split: nat :: PublishesAt(messages, analyzer, task, split)
  }

  /** The client shows the latest diagnostics it received for each URI. */
  function Deliver(shown: Report, messages: seq<Publication>): Report
    decreases |messages|
  {
    if messages == [] then shown
    else Deliver(shown[messages[0].uri := messages[0].diagnostics], messages[1..])
  }

  function Visible(shown: Report, uri: string): seq<string> {
    if uri in shown then shown[uri] else []
  }

  // ----------------------------------------------------------------- state

  /** The event loop's own fields (`ServerState`). */
  datatype Server = Server(
    documents: Documents,
    publishedUris: set<string>,
    shutdownRequested: bool,
    outstanding: map<RequestId, Revisions>,
    nextRevision: nat,
    exiting: bool,
    folders: set<string>)

  /** The channels and the locked cells. */
  datatype Shared = Shared(
    tasks: seq<WorkerTask>,
    results: seq<WorkerResult>,
    cancelled: set<RequestId>,
    currentRevisions: Revisions,
    latest: Option<DiagnosticTask>,
    signalQueued: bool)

  /** Where the event loop is. */
  datatype MainPc =
    | Polling
    | StoringRevisions
    | StoringLatest
    | SendingSignal
    | Draining
    | Forgetting(id: RequestId)
    | Stopped

  /** Where the worker is. */
  datatype WorkerPc =
    | Idle
    | CheckingCancelled(request: RequestTask)
    | Answering(request: RequestTask)
    | TakingLatest
    | CheckingFresh(task: DiagnosticTask)
    | Publishing(task: DiagnosticTask)

  datatype Client = Client(responses: seq<(RequestId, Response)>, shown: Report)

  // Bookkeeping the program does not keep: every document version by (URI, revision), every
  // request by id, the number of edits, and the revisions behind what the client shows.
  datatype History = History(
    ledger: map<(string, nat), Document>,
    requested: set<RequestId>,
    accepted: map<RequestId, RequestTask>,
    edits: nat,
    scheduled: bool,
    lastPublished: Option<Revisions>)

  datatype System = System(
    main: MainPc,
    worker: WorkerPc,
    server: Server,
    shared: Shared,
    client: Client,
    history: History)

  const INITIAL: System := System(
    Polling,
    Idle,
    Server(map[], {}, false, map[], 0, false, {}),
    Shared([], [], {}, map[], None, false),
    Client([], map[]),
    History(map[], {}, map[], 0, false, None))

  // ----------------------------------------------------------------- steps

  /** The three shared accesses of `schedule_diagnostics`. */
  datatype ScheduleStep = StoreRevisions | StoreLatest | SendSignal

  /** The shared accesses of `analysis_worker` and `run_request_task`. */
  datatype WorkerStep =
    | TakeTask
    | CheckCancelled
    | Answer
    | TakeLatest
    | CheckFresh
    | Publish(messages: seq<Publication>)

  datatype Action =
    | Receive(message: ClientMessage)
    | PollTimeout
    | Schedule(schedule: ScheduleStep)
    | AcceptResult
    | ResultsEmpty
    | ForgetCancelled
    | Work(work: WorkerStep)

  ghost predicate ScheduleEnabled(main: MainPc, step: ScheduleStep) {
    match step
    case StoreRevisions => main.StoringRevisions?
    case StoreLatest => main.StoringLatest?
    case SendSignal => main.SendingSignal?
  }

  ghost predicate WorkEnabled(analyzer: Analyzer, worker: WorkerPc, shared: Shared, step: WorkerStep) {
    match step
    case TakeTask => worker.Idle? && shared.tasks != []
    case CheckCancelled => worker.CheckingCancelled?
    case Answer => worker.Answering?
    case TakeLatest => worker.TakingLatest?
    case CheckFresh => worker.CheckingFresh?
    case Publish(messages) => worker.Publishing? && Publishes(messages, analyzer, worker.task)
  }

  /** Whether `action` can happen next.  A client never uses a request id twice (JSON-RPC 2.0, section 4). */
  ghost predicate Enabled(analyzer: Analyzer, s: System, action: Action) {
    match action
    case Receive(message) => s.main.Polling? && (message.Ask? ==> message.request.id !in s.history.requested)
    case PollTimeout => s.main.Polling?
    case Schedule(step) => ScheduleEnabled(s.main, step)
    case AcceptResult => s.main.Draining? && s.shared.results != []
    case ResultsEmpty => s.main.Draining? && s.shared.results == []
    case ForgetCancelled => s.main.Forgetting?
    case Work(step) => WorkEnabled(analyzer, s.worker, s.shared, step)
  }

  function Respond(s: System, id: RequestId, response: Response): System {
    s.(client := s.client.(responses := s.client.responses + [(id, response)]))
  }

  /** `handle_request` */
  function ReceiveRequest(s: System, request: Request): System {
    var t := s.(main := Draining, history := s.history.(requested := s.history.requested + {request.id}));
    if request.command.Shutdown? then
      Respond(t.(server := t.server.(shutdownRequested := true)), request.id, Acknowledged)
    else if !SupportedRequest(request.command) then
      Respond(t, request.id, Error(METHOD_NOT_FOUND))
    else
      var task := RequestTask(request, s.server.documents, s.server.folders);
      t.(server := t.server.(outstanding := t.server.outstanding[request.id := DocumentRevisions(s.server.documents)]),
         shared := t.shared.(tasks := t.shared.tasks + [RequestWork(task)]),
         history := t.history.(accepted := t.history.accepted[request.id := task]))
  }

  /** `handle_cancellation` */
  function ReceiveCancel(s: System, id: RequestId): System {
    var t := s.(main := Draining);
    if id in s.server.outstanding then
      Respond(t.(server := t.server.(outstanding := t.server.outstanding - {id}),
                 shared := t.shared.(cancelled := t.shared.cancelled + {id})),
              id, Error(REQUEST_CANCELLED))
    else t
  }

  function NextRevision(revision: nat): nat {
    (revision + 1) % REVISION_LIMIT
  }

  /** The document map after an edit; entries of the new map are entered in the ledger. */
  function Edit(s: System, documents: Documents, revision: nat, edits: nat): System {
    s.(main := StoringRevisions,
       server := s.server.(documents := documents, nextRevision := revision),
       history := s.history.(
         ledger := s.history.ledger
           + (map uri, r | uri in documents && r == documents[uri].revision :: (uri, r) := documents[uri]),
         edits := edits,
         scheduled := true))
  }

  function Bumped(documents: Documents, revision: nat): Documents {
    map uri | uri in documents :: documents[uri].(revision := revision)
  }

  /** The document map a notification leaves behind, or `None` when it schedules no diagnostics. */
  function EditedDocuments(documents: Documents, message: ClientMessage, revision: nat): Option<Documents> {
    match message
    case WatchedFilesChanged(anyMux) => if anyMux then Some(Bumped(documents, revision)) else None
    case DidOpen(uri, hasPath, text, version) =>
      if hasPath then Some(documents[uri := Document(text, version, revision)]) else None
    case DidChange(uri, version, changes) =>
      if changes != [] && uri in documents && version > documents[uri].version then
        Some(documents[uri := Document(changes[|changes| - 1], version, revision)])
      else None
    case DidClose(uri) => Some(documents - {uri})
    case _ => None
  }

  /** `didClose` is the only edit that mints no revision. */
  function MintedRevision(message: ClientMessage, revision: nat): nat {
    if message.DidClose? then revision else NextRevision(revision)
  }

  /** `handle_notification` and `handle_protocol_message`, up to the first shared access. */
  function ReceiveMessage(s: System, message: ClientMessage): System {
    var minted := MintedRevision(message, s.server.nextRevision);
    var edited := EditedDocuments(s.server.documents, message, minted);
    if edited.Some? then
      Edit(s, edited.value, minted, if message.DidClose? then s.history.edits else s.history.edits + 1)
    else
      match message
      case Ask(request) => ReceiveRequest(s, request)
      case Exit => s.(main := Draining, server := s.server.(exiting := true))
      case Cancel(Some(id)) => ReceiveCancel(s, id)
      case ChangeFolders(folders) => s.(main := Draining, server := s.server.(folders := folders))
      case _ => s.(main := Draining)
  }

  /** A request result reaches the event loop. */
  function AcceptReply(s: System, id: RequestId, reply: string): System {
    if id !in s.server.outstanding then s.(main := Forgetting(id))
    else
      var expected := s.server.outstanding[id];
      var response :=
        if expected != DocumentRevisions(s.server.documents) then Error(CONTENT_MODIFIED) else Handled(reply);
      Respond(s.(server := s.server.(outstanding := s.server.outstanding - {id})), id, response)
  }

  /** A diagnostics result reaches the event loop. */
  function AcceptDiagnostics(s: System, revisions: Revisions, messages: seq<Publication>,
                             publishedUris: set<string>): System {
    if revisions == DocumentRevisions(s.server.documents) then
      s.(server := s.server.(publishedUris := publishedUris),
         client := s.client.(shown := Deliver(s.client.shown, messages)),
         history := s.history.(lastPublished := Some(revisions)))
    else s
  }

  function Popped(s: System): System
    requires s.shared.results != []
  {
    s.(shared := s.shared.(results := s.shared.results[1..]))
  }

  /** One turn of the loop in `send_worker_results`. */
  function AcceptOne(s: System, result: WorkerResult): System {
    match result
    case RequestDone(id, reply) => AcceptReply(s, id, reply)
    case DiagnosticsDone(revisions, messages, publishedUris) => AcceptDiagnostics(s, revisions, messages, publishedUris)
  }

  function AfterSchedule(server: Server, shared: Shared, step: ScheduleStep): (MainPc, Shared) {
    match step
    case StoreRevisions => (StoringLatest, shared.(currentRevisions := DocumentRevisions(server.documents)))
    case StoreLatest =>
      var task := DiagnosticTask(server.documents, DocumentRevisions(server.documents), server.publishedUris);
      (if shared.signalQueued then Draining else SendingSignal, shared.(latest := Some(task), signalQueued := true))
    case SendSignal => (Draining, shared.(tasks := shared.tasks + [DiagnosticsSignal]))
  }

  function AfterWork(analyzer: Analyzer, worker: WorkerPc, shared: Shared, step: WorkerStep): (WorkerPc, Shared)
    requires WorkEnabled(analyzer, worker, shared, step)
  {
    match step
    case TakeTask =>
      (if shared.tasks[0].DiagnosticsSignal? then TakingLatest else CheckingCancelled(shared.tasks[0].task),
       shared.(tasks := shared.tasks[1..]))
    case CheckCancelled =>
      var id := worker.request.request.id;
      if id in shared.cancelled then (Idle, shared.(cancelled := shared.cancelled - {id}))
      else (Answering(worker.request), shared)
    case Answer =>
      var done := RequestDone(worker.request.request.id, analyzer.answer(worker.request));
      (Idle, shared.(results := shared.results + [done]))
    case TakeLatest =>
      (if shared.latest.Some? then CheckingFresh(shared.latest.value) else Idle,
       shared.(latest := None, signalQueued := false))
    case CheckFresh =>
      (if worker.task.revisions == shared.currentRevisions then Publishing(worker.task) else Idle, shared)
    case Publish(messages) =>
      var done := DiagnosticsDone(worker.task.revisions, messages, ByUri(analyzer, worker.task.documents).Keys);
      (Idle, shared.(results := shared.results + [done]))
  }

  function Apply(analyzer: Analyzer, s: System, action: Action): System
    requires Enabled(analyzer, s, action)
  {
    match action
    case Receive(message) => ReceiveMessage(s, message)
    case PollTimeout => s.(main := Draining)
    case Schedule(step) =>
      var (main, shared) := AfterSchedule(s.server, s.shared, step);
      s.(main := main, shared := shared)
    case AcceptResult => AcceptOne(Popped(s), s.shared.results[0])
    case ResultsEmpty => s.(main := if s.server.exiting then Stopped else Polling)
    case ForgetCancelled =>
      s.(main := Draining, shared := s.shared.(cancelled := s.shared.cancelled - {s.main.id}))
    case Work(step) =>
      var (worker, shared) := AfterWork(analyzer, s.worker, s.shared, step);
      s.(worker := worker, shared := shared)
  }

  // ------------------------------------------------------------------ runs

  /** Each state follows from the one before by the action between them. */
  ghost predicate Follows(analyzer: Analyzer, states: seq<System>, actions: seq<Action>) {
    && |states| == |actions| + 1
    && forall i {:trigger actions[i]} :: 0 <= i < |actions| ==>
         && Enabled(analyzer, states[i], actions[i])
         && states[i + 1] == Apply(analyzer, states[i], actions[i])
  }

  /** A run of the server: any interleaving of the two threads, with any messages from the client. */
  ghost predicate IsRun(analyzer: Analyzer, states: seq<System>, actions: seq<Action>) {
    Follows(analyzer, states, actions) && states[0] == INITIAL
  }

  function Last(states: seq<System>): System
    requires states != []
  {
    states[|states| - 1]
  }

  /** One more action in front. */
  lemma {:induction false} FollowsFrom(analyzer: Analyzer, s: System, action: Action, states: seq<System>,
                                       actions: seq<Action>)
    requires Enabled(analyzer, s, action) && Follows(analyzer, states, actions)
    requires states[0] == Apply(analyzer, s, action)
    ensures Follows(analyzer, [s] + states, [action] + actions) && Last([s] + states) == Last(states)
    ensures forall other :: other in [action] + actions <==> other == action || other in actions
  {
  }

  /** Both queues empty, the worker waiting, the event loop between two iterations. */
  predicate Quiescent(s: System) {
    && s.shared.tasks == [] && s.shared.results == []
    && s.worker.Idle? && (s.main.Polling? || s.main.Stopped?)
  }
}

/** The invariant of the language server's state machine and its preservation by every step. */
module LspInvariants {
  import opened Options
  import opened LspModel
  import opened LspDelivery

  // ----------------------------------------------------- documents and ledger

  ghost predicate LedgerBounded(ledger: map<(string, nat), Document>, bound: nat) {
    forall entry :: entry in ledger ==> entry.1 <= bound
  }

  ghost predicate LedgerInv(s: System) {
    && s.server.nextRevision == s.history.edits
    && LedgerBounded(s.history.ledger, s.server.nextRevision)
    && Recorded(s.history.ledger, s.server.documents)
    && (!s.main.StoringRevisions? ==> s.shared.currentRevisions == DocumentRevisions(s.server.documents))
  }

  ghost predicate Extends(larger: map<(string, nat), Document>, smaller: map<(string, nat), Document>) {
    forall entry :: entry in smaller ==> entry in larger && larger[entry] == smaller[entry]
  }

  /** Each entry of `after` is an entry of `before` or carries the minted revision. */
  ghost predicate EditOf(before: Documents, after: Documents, bound: nat, minted: nat) {
    && bound <= minted
    && forall uri :: uri in after ==>
         || (uri in before && before[uri] == after[uri])
         || (bound < minted && after[uri].revision == minted)
  }

  /** An edit only adds to the ledger, and no revision entry that was lost before it comes back. */
  lemma {:induction false} EditExtends(s: System, documents: Documents, minted: nat, edits: nat)
    requires LedgerBounded(s.history.ledger, s.server.nextRevision) && Recorded(s.history.ledger, s.server.documents)
    requires EditOf(s.server.documents, documents, s.server.nextRevision, minted)
    ensures var t := Edit(s, documents, minted, edits);
            && Extends(t.history.ledger, s.history.ledger)
            && LedgerBounded(t.history.ledger, minted)
            && Recorded(t.history.ledger, documents)
    ensures forall revisions: Revisions {:trigger Known(s.history.ledger, revisions)} ::
              Known(s.history.ledger, revisions) && Within(revisions, DocumentRevisions(documents)) ==>
                Within(revisions, DocumentRevisions(s.server.documents))
  {
    var t := Edit(s, documents, minted, edits);
    forall entry | entry in s.history.ledger
      ensures entry in t.history.ledger && t.history.ledger[entry] == s.history.ledger[entry]
    {
      var uri := entry.0;
      if uri in documents && documents[uri].revision == entry.1 {
        assert s.server.documents[uri] == documents[uri];
      }
    }
    forall revisions: Revisions | Known(s.history.ledger, revisions) && Within(revisions, DocumentRevisions(documents))
      ensures Within(revisions, DocumentRevisions(s.server.documents))
    {
      forall uri | uri in revisions
        ensures uri in s.server.documents && s.server.documents[uri].revision == revisions[uri]
      {
        assert (uri, revisions[uri]) in s.history.ledger;
      }
    }
  }

  lemma {:induction false} RestoreExtends(larger: map<(string, nat), Document>, smaller: map<(string, nat), Document>,
                                          revisions: Revisions)
    requires Extends(larger, smaller) && Known(smaller, revisions)
    ensures Known(larger, revisions) && Restore(larger, revisions) == Restore(smaller, revisions)
  {
  }

  // ------------------------------------------------------------------ requests

  function One(condition: bool): nat {
    if condition then 1 else 0
  }

  function Asks(task: WorkerTask, id: RequestId): bool {
    task.RequestWork? && task.task.request.id == id
  }

  function Answers(result: WorkerResult, id: RequestId): bool {
    result.RequestDone? && result.id == id
  }

  function TaskCount(tasks: seq<WorkerTask>, id: RequestId): nat
    decreases |tasks|
  {
    if tasks == [] then 0 else One(Asks(tasks[0], id)) + TaskCount(tasks[1..], id)
  }

  function ResultCount(results: seq<WorkerResult>, id: RequestId): nat
    decreases |results|
  {
    if results == [] then 0 else One(Answers(results[0], id)) + ResultCount(results[1..], id)
  }

  function WorkerCount(worker: WorkerPc, id: RequestId): nat {
    One((worker.CheckingCancelled? || worker.Answering?) && worker.request.request.id == id)
  }

  function ForgettingCount(main: MainPc, id: RequestId): nat {
    One(main == Forgetting(id))
  }

  /** How often request `id` is travelling through the queues and the two threads. */
  function InFlight(s: System, id: RequestId): nat {
    TaskCount(s.shared.tasks, id) + WorkerCount(s.worker, id)
    + ResultCount(s.shared.results, id) + ForgettingCount(s.main, id)
  }

  function ResponseCount(responses: seq<(RequestId, Response)>, id: RequestId): nat
    decreases |responses|
  {
    if responses == [] then 0
    else ResponseCount(responses[..|responses| - 1], id) + One(responses[|responses| - 1].0 == id)
  }

  lemma {:induction false} TaskCountAppend(tasks: seq<WorkerTask>, task: WorkerTask, id: RequestId)
    ensures TaskCount(tasks + [task], id) == TaskCount(tasks, id) + One(Asks(task, id))
    decreases |tasks|
  {
    if tasks == [] {
      assert tasks + [task] == [task];
    } else {
      assert (tasks + [task])[1..] == tasks[1..] + [task];
      TaskCountAppend(tasks[1..], task, id);
    }
  }

  lemma {:induction false} ResultCountAppend(results: seq<WorkerResult>, result: WorkerResult, id: RequestId)
    ensures ResultCount(results + [result], id) == ResultCount(results, id) + One(Answers(result, id))
    decreases |results|
  {
    if results == [] {
      assert results + [result] == [result];
    } else {
      assert (results + [result])[1..] == results[1..] + [result];
      ResultCountAppend(results[1..], result, id);
    }
  }

  lemma {:induction false} ResponseCountAppend(responses: seq<(RequestId, Response)>, answer: (RequestId, Response),
                                               id: RequestId)
    ensures ResponseCount(responses + [answer], id) == ResponseCount(responses, id) + One(answer.0 == id)
  {
    assert (responses + [answer])[..|responses|] == responses;
  }

  // A request travels exactly while it is unanswered or marked cancelled, and never both; it has
  // one response unless it is outstanding.
  ghost predicate RequestOk(s: System, id: RequestId) {
    RequestOkWith(s, id, 0)
  }

  /** The same while `held` more results for `id` are in the event loop's hands. */
  ghost predicate RequestOkWith(s: System, id: RequestId, held: nat) {
    && InFlight(s, id) + held == One(id in s.server.outstanding || id in s.shared.cancelled)
    && !(id in s.server.outstanding && (id in s.shared.cancelled || s.main == Forgetting(id)))
    && (id in s.server.outstanding ==> id in s.history.accepted)
    && (id in s.server.outstanding || id in s.shared.cancelled ==> id in s.history.requested)
    && ResponseCount(s.client.responses, id) == One(id in s.history.requested && id !in s.server.outstanding)
  }

  ghost predicate RequestInv(s: System) {
    forall id :: RequestOk(s, id)
  }

  ghost predicate TaskIs(accepted: map<RequestId, RequestTask>, task: RequestTask) {
    task.request.id in accepted && accepted[task.request.id] == task
  }

  /** Tasks and results in flight belong to the request they name. */
  ghost predicate WorkInv(analyzer: Analyzer, s: System) {
    && s.history.accepted.Keys <= s.history.requested
    && (forall task :: RequestWork(task) in s.shared.tasks ==> TaskIs(s.history.accepted, task))
    && (s.worker.CheckingCancelled? || s.worker.Answering? ==> TaskIs(s.history.accepted, s.worker.request))
    && (forall id, reply :: RequestDone(id, reply) in s.shared.results ==>
          id in s.history.accepted && reply == analyzer.answer(s.history.accepted[id]))
  }

  /** An outstanding request remembers the revisions of the documents it was asked about. */
  ghost predicate OutstandingInv(s: System) {
    forall id :: OutstandingOk(s, id)
  }

  ghost predicate OutstandingOk(s: System, id: RequestId) {
    id in s.server.outstanding ==>
      && id in s.history.accepted
      && Recorded(s.history.ledger, s.history.accepted[id].documents)
      && s.server.outstanding[id] == DocumentRevisions(s.history.accepted[id].documents)
  }

  // --------------------------------------------------------------- the signal

  function SignalsIn(tasks: seq<WorkerTask>): nat
    decreases |tasks|
  {
    if tasks == [] then 0 else (if tasks[0].DiagnosticsSignal? then 1 else 0) + SignalsIn(tasks[1..])
  }

  lemma {:induction false} SignalsInAppend(tasks: seq<WorkerTask>, task: WorkerTask)
    ensures SignalsIn(tasks + [task]) == SignalsIn(tasks) + SignalsIn([task])
    decreases |tasks|
  {
    if tasks == [] {
      assert tasks + [task] == [task];
    } else {
      assert (tasks + [task])[1..] == tasks[1..] + [task];
      SignalsInAppend(tasks[1..], task);
    }
  }

  /** Diagnostics signals about to be sent, queued, or received and not yet acted on. */
  function Signals(s: System): nat {
    SignalsIn(s.shared.tasks) + (if s.main.SendingSignal? then 1 else 0) + (if s.worker.TakingLatest? then 1 else 0)
  }

  ghost predicate SignalInv(s: System) {
    && Signals(s) == (if s.shared.signalQueued then 1 else 0)
    && (s.shared.latest.Some? ==> s.shared.signalQueued)
  }

  // -------------------------------------------------------------- diagnostics

  /** What the diagnostics invariants look at: the ledger, the current revisions, and what the client shows. */
  datatype Scene = Scene(ledger: map<(string, nat), Document>, current: Revisions, shown: Report)

  function SceneOf(s: System): Scene {
    Scene(s.history.ledger, DocumentRevisions(s.server.documents), s.client.shown)
  }

  /** What is left of a scheduled analysis on its way to the client: its revisions and the URIs its messages cover. */
  datatype Draft = Draft(revisions: Revisions, scope: set<string>)

  function TaskDraft(analyzer: Analyzer, task: Option<DiagnosticTask>): Option<Draft> {
    if task.None? then None
    else Some(Draft(task.value.revisions, task.value.publishedUris + ByUri(analyzer, task.value.documents).Keys))
  }

  function ResultDraft(result: WorkerResult): Option<Draft> {
    if result.RequestDone? then None else Some(Draft(result.revisions, Touched(result.messages)))
  }

  function TaskOf(worker: WorkerPc): Option<DiagnosticTask> {
    match worker
    case CheckingFresh(task) => Some(task)
    case Publishing(task) => Some(task)
    case _ => None
  }

  ghost function ReportOf(analyzer: Analyzer, ledger: map<(string, nat), Document>, revisions: Revisions): Report
    requires Known(ledger, revisions)
  {
    ByUri(analyzer, Restore(ledger, revisions))
  }

  /** A draft that may still be accepted covers all that the client shows now. */
  ghost predicate DraftOk(analyzer: Analyzer, scene: Scene, draft: Option<Draft>) {
    draft.Some? ==>
      && Known(scene.ledger, draft.value.revisions)
      && ReportOf(analyzer, scene.ledger, draft.value.revisions).Keys <= draft.value.scope
      && (Within(draft.value.revisions, scene.current) ==> ShownWithin(scene.shown, draft.value.scope))
  }

  /** If the earlier draft can still become current, the later one has all its entries. */
  ghost predicate Ordered(current: Revisions, earlier: Option<Draft>, later: Option<Draft>) {
    earlier.Some? && later.Some? && Within(earlier.value.revisions, current) ==>
      Within(earlier.value.revisions, later.value.revisions)
  }

  ghost predicate TaskOk(analyzer: Analyzer, scene: Scene, task: Option<DiagnosticTask>) {
    && DraftOk(analyzer, scene, TaskDraft(analyzer, task))
    && (task.Some? ==>
          && Recorded(scene.ledger, task.value.documents)
          && task.value.revisions == DocumentRevisions(task.value.documents))
  }

  ghost predicate ResultOk(analyzer: Analyzer, scene: Scene, result: WorkerResult) {
    && DraftOk(analyzer, scene, ResultDraft(result))
    && (result.DiagnosticsDone? ==>
          && Renders(result.messages, ReportOf(analyzer, scene.ledger, result.revisions))
          && result.publishedUris == ReportOf(analyzer, scene.ledger, result.revisions).Keys)
  }

  ghost predicate ResultsOk(analyzer: Analyzer, scene: Scene, results: seq<WorkerResult>) {
    forall i :: 0 <= i < |results| ==> ResultOk(analyzer, scene, results[i])
  }

  ghost predicate ResultsOrdered(current: Revisions, results: seq<WorkerResult>) {
    forall i, j :: 0 <= i < j < |results| ==> Ordered(current, ResultDraft(results[i]), ResultDraft(results[j]))
  }

  ghost predicate AllBefore(current: Revisions, results: seq<WorkerResult>, later: Option<Draft>) {
    forall i :: 0 <= i < |results| ==> Ordered(current, ResultDraft(results[i]), later)
  }

  /** The analyses under way, oldest first: finished results, the worker's task, the latest request for one. */
  ghost predicate PipelineOk(analyzer: Analyzer, scene: Scene, results: seq<WorkerResult>,
                             working: Option<DiagnosticTask>, latest: Option<DiagnosticTask>)
  {
    && ResultsOk(analyzer, scene, results) && ResultsOrdered(scene.current, results)
    && TaskOk(analyzer, scene, working) && AllBefore(scene.current, results, TaskDraft(analyzer, working))
    && TaskOk(analyzer, scene, latest) && AllBefore(scene.current, results, TaskDraft(analyzer, latest))
    && Ordered(scene.current, TaskDraft(analyzer, working), TaskDraft(analyzer, latest))
  }

  ghost predicate PipelineInv(analyzer: Analyzer, s: System) {
    PipelineOk(analyzer, SceneOf(s), s.shared.results, TaskOf(s.worker), s.shared.latest)
  }

  ghost predicate ShowsReport(shown: Report, report: Report) {
    forall uri :: Visible(shown, uri) == Visible(report, uri)
  }

  /** The client shows exactly the analysis last accepted, or nothing. */
  ghost predicate ShownOk(analyzer: Analyzer, scene: Scene, publishedUris: set<string>, last: Option<Revisions>) {
    match last
    case None => publishedUris == {} && ShowsReport(scene.shown, map[])
    case Some(revisions) =>
      && Known(scene.ledger, revisions)
      && publishedUris == ReportOf(analyzer, scene.ledger, revisions).Keys
      && ShowsReport(scene.shown, ReportOf(analyzer, scene.ledger, revisions))
  }

  ghost predicate ShownInv(analyzer: Analyzer, s: System) {
    ShownOk(analyzer, SceneOf(s), s.server.publishedUris, s.history.lastPublished)
  }

  predicate IsFor(task: Option<DiagnosticTask>, revisions: Revisions) {
    task.Some? && task.value.revisions == revisions
  }

  predicate ResultIsFor(result: WorkerResult, revisions: Revisions) {
    result.DiagnosticsDone? && result.revisions == revisions
  }

  /** An analysis of the current documents has been accepted or is on its way. */
  ghost predicate CurrentOnItsWay(s: System) {
    var current := DocumentRevisions(s.server.documents);
    || s.history.lastPublished == Some(current)
    || (exists i :: 0 <= i < |s.shared.results| && ResultIsFor(s.shared.results[i], current))
    || IsFor(TaskOf(s.worker), current)
    || IsFor(s.shared.latest, current)
  }

  /** Before the first edit no document is open and no analysis exists anywhere. */
  ghost predicate NothingScheduled(s: System) {
    && s.server.documents == map[] && s.history.lastPublished.None?
    && s.shared.latest.None? && TaskOf(s.worker).None?
    && !s.main.StoringRevisions? && !s.main.StoringLatest?
    && forall i :: 0 <= i < |s.shared.results| ==> s.shared.results[i].RequestDone?
  }

  ghost predicate ProgressInv(s: System) {
    if s.history.scheduled then
      !s.main.StoringRevisions? && !s.main.StoringLatest? ==> CurrentOnItsWay(s)
    else NothingScheduled(s)
  }

  // ------------------------------------------------------------ the invariant

  ghost predicate Inv(analyzer: Analyzer, s: System) {
    && LedgerInv(s) && RequestInv(s) && WorkInv(analyzer, s) && OutstandingInv(s) && SignalInv(s)
    && PipelineInv(analyzer, s) && ShownInv(analyzer, s) && ProgressInv(s)
  }

  lemma {:induction false} InitialInv(analyzer: Analyzer)
    ensures Inv(analyzer, INITIAL)
  {
  }

  // ------------------------------------------------------------- preservation

  lemma {:induction false} NextRevisionBelowLimit(revision: nat)
    requires revision + 1 < REVISION_LIMIT
    ensures NextRevision(revision) == revision + 1
  {
  }

  /** A received edit only replaces entries by entries with a newly minted revision. */
  lemma {:induction false} MessageEdits(documents: Documents, message: ClientMessage, revision: nat)
    requires EditedDocuments(documents, message, MintedRevision(message, revision)).Some?
    requires !message.DidClose? ==> revision + 1 < REVISION_LIMIT
    ensures EditOf(documents, EditedDocuments(documents, message, MintedRevision(message, revision)).value,
                   revision, MintedRevision(message, revision))
    ensures MintedRevision(message, revision) == if message.DidClose? then revision else revision + 1
  {
    if !message.DidClose? {
      NextRevisionBelowLimit(revision);
    }
  }

  predicate IsEdit(s: System, action: Action) {
    action.Receive? &&
    EditedDocuments(s.server.documents, action.message, MintedRevision(action.message, s.server.nextRevision)).Some?
  }

  lemma {:induction false} EditKeepsLedger(analyzer: Analyzer, s: System, action: Action)
    requires LedgerInv(s) && Enabled(analyzer, s, action) && IsEdit(s, action)
    requires Apply(analyzer, s, action).history.edits < REVISION_LIMIT
    ensures LedgerInv(Apply(analyzer, s, action))
    ensures Extends(Apply(analyzer, s, action).history.ledger, s.history.ledger)
  {
    var t := Apply(analyzer, s, action);
    MessageEdits(s.server.documents, action.message, s.server.nextRevision);
    EditExtends(s, t.server.documents, t.server.nextRevision, t.history.edits);
  }

  /** Only edits touch the documents, the revision counter and the ledger. */
  lemma {:induction false} NonEditSteps(analyzer: Analyzer, s: System, action: Action)
    requires Enabled(analyzer, s, action) && !IsEdit(s, action)
    ensures var t := Apply(analyzer, s, action);
            && t.history.ledger == s.history.ledger && t.history.edits == s.history.edits
            && t.history.scheduled == s.history.scheduled
            && t.server.documents == s.server.documents && t.server.nextRevision == s.server.nextRevision
            && (t.main.StoringRevisions? ==> s.main.StoringRevisions?)
  {
    if action.Receive? {
      match action.message {
        case Ask(_) =>
        case Cancel(Some(_)) =>
        case _ =>
      }
    }
  }

  lemma {:induction false} LedgerKept(analyzer: Analyzer, s: System, action: Action)
    requires LedgerInv(s) && Enabled(analyzer, s, action)
    requires Apply(analyzer, s, action).history.edits < REVISION_LIMIT
    ensures LedgerInv(Apply(analyzer, s, action))
    ensures Extends(Apply(analyzer, s, action).history.ledger, s.history.ledger)
  {
    if IsEdit(s, action) {
      EditKeepsLedger(analyzer, s, action);
    } else {
      NonEditSteps(analyzer, s, action);
      CellSteps(analyzer, s, action);
    }
  }

  /** Only `StoreRevisions` writes the shared revision map. */
  lemma {:induction false} CellSteps(analyzer: Analyzer, s: System, action: Action)
    requires Enabled(analyzer, s, action)
    ensures var t := Apply(analyzer, s, action);
            if action == Schedule(StoreRevisions) then
              t.shared.currentRevisions == DocumentRevisions(s.server.documents)
            else t.shared.currentRevisions == s.shared.currentRevisions &&
                 (s.main.StoringRevisions? ==> t.main.StoringRevisions?)
  {
    if action.Receive? {
      match action.message {
        case Ask(_) =>
        case Cancel(Some(_)) =>
        case _ =>
      }
    }
  }

  lemma {:induction false} RequestKeptByAsk(s: System, request: Request, id: RequestId)
    requires RequestOk(s, id) && RequestOk(s, request.id)
    requires s.main.Polling? && request.id !in s.history.requested && s.history.accepted.Keys <= s.history.requested
    ensures RequestOk(ReceiveRequest(s, request), id)
  {
    if request.command.Shutdown? {
      ResponseCountAppend(s.client.responses, (request.id, Acknowledged), id);
    } else if !SupportedRequest(request.command) {
      ResponseCountAppend(s.client.responses, (request.id, Error(METHOD_NOT_FOUND)), id);
    } else {
      TaskCountAppend(s.shared.tasks, RequestWork(RequestTask(request, s.server.documents, s.server.folders)), id);
    }
  }

  lemma {:induction false} RequestKeptByCancel(s: System, target: RequestId, id: RequestId)
    requires RequestOk(s, id) && RequestOk(s, target)
    requires s.main.Polling? && s.history.accepted.Keys <= s.history.requested
    ensures RequestOk(ReceiveCancel(s, target), id)
  {
    if target in s.server.outstanding {
      ResponseCountAppend(s.client.responses, (target, Error(REQUEST_CANCELLED)), id);
    }
  }

  lemma {:induction false} RequestKeptByReceive(analyzer: Analyzer, s: System, message: ClientMessage, id: RequestId)
    requires RequestInv(s) && Enabled(analyzer, s, Receive(message)) && s.history.accepted.Keys <= s.history.requested
    ensures RequestOk(ReceiveMessage(s, message), id)
  {
    assert RequestOk(s, id);
    match message {
      case Ask(request) =>
        assert RequestOk(s, request.id);
        RequestKeptByAsk(s, request, id);
      case Cancel(Some(target)) =>
        assert RequestOk(s, target);
        RequestKeptByCancel(s, target, id);
      case _ =>
    }
  }

  lemma {:induction false} RequestKeptByReply(s: System, done: RequestId, reply: string, id: RequestId)
    requires s.main.Draining?
    requires RequestOkWith(s, id, One(done == id)) && RequestOkWith(s, done, 1)
    ensures RequestOk(AcceptReply(s, done, reply), id)
  {
    var t := AcceptReply(s, done, reply);
    if done in s.server.outstanding {
      ResponseCountAppend(s.client.responses, t.client.responses[|s.client.responses|], id);
    }
  }

  /** Taking a result off the queue puts it into the event loop's hands. */
  lemma {:induction false} RequestPopped(s: System, id: RequestId)
    requires RequestOk(s, id) && s.main.Draining? && s.shared.results != []
    ensures RequestOkWith(Popped(s), id, One(Answers(s.shared.results[0], id)))
  {
  }

  lemma {:induction false} RequestKeptByAccept(analyzer: Analyzer, s: System, id: RequestId)
    requires RequestInv(s) && Enabled(analyzer, s, AcceptResult)
    ensures RequestOk(Apply(analyzer, s, AcceptResult), id)
  {
    var result := s.shared.results[0];
    assert RequestOk(s, id);
    RequestPopped(s, id);
    if result.RequestDone? {
      assert RequestOk(s, result.id);
      RequestPopped(s, result.id);
      RequestKeptByReply(Popped(s), result.id, result.reply, id);
    }
  }

  lemma {:induction false} RequestKeptByAnswer(s: System, task: RequestTask, reply: string, id: RequestId)
    requires RequestOk(s, id) && s.worker == Answering(task)
    ensures RequestOk(s.(worker := Idle,
                         shared := s.shared.(results := s.shared.results + [RequestDone(task.request.id, reply)])), id)
  {
    ResultCountAppend(s.shared.results, RequestDone(task.request.id, reply), id);
  }

  lemma {:induction false} RequestKeptByWork(analyzer: Analyzer, s: System, step: WorkerStep, id: RequestId)
    requires RequestOk(s, id) && Enabled(analyzer, s, Work(step))
    ensures RequestOk(Apply(analyzer, s, Work(step)), id)
  {
    match step {
      case Answer => RequestKeptByAnswer(s, s.worker.request, analyzer.answer(s.worker.request), id);
      case Publish(messages) =>
        var task := s.worker.task;
        var done := DiagnosticsDone(task.revisions, messages, ByUri(analyzer, task.documents).Keys);
        ResultCountAppend(s.shared.results, done, id);
      case _ =>
    }
  }

  lemma {:induction false} RequestKept(analyzer: Analyzer, s: System, action: Action)
    requires RequestInv(s) && Enabled(analyzer, s, action) && s.history.accepted.Keys <= s.history.requested
    ensures RequestInv(Apply(analyzer, s, action))
  {
    forall id ensures RequestOk(Apply(analyzer, s, action), id) {
      assert RequestOk(s, id);
      match action {
        case Receive(message) => RequestKeptByReceive(analyzer, s, message, id);
        case Work(step) => RequestKeptByWork(analyzer, s, step, id);
        case Schedule(_) => TaskCountAppend(s.shared.tasks, DiagnosticsSignal, id);
        case AcceptResult => RequestKeptByAccept(analyzer, s, id);
        case _ =>
      }
    }
  }

  lemma {:induction false} WorkKeptByWork(analyzer: Analyzer, s: System, step: WorkerStep)
    requires WorkInv(analyzer, s) && Enabled(analyzer, s, Work(step))
    ensures WorkInv(analyzer, Apply(analyzer, s, Work(step)))
  {
  }

  lemma {:induction false} WorkKeptByAsk(analyzer: Analyzer, s: System, request: Request)
    requires WorkInv(analyzer, s) && request.id !in s.history.requested
    ensures WorkInv(analyzer, ReceiveRequest(s, request))
  {
  }

  lemma {:induction false} WorkKeptByReceive(analyzer: Analyzer, s: System, message: ClientMessage)
    requires WorkInv(analyzer, s) && Enabled(analyzer, s, Receive(message))
    ensures WorkInv(analyzer, ReceiveMessage(s, message))
  {
    match message {
      case Ask(request) => WorkKeptByAsk(analyzer, s, request);
      case Cancel(Some(_)) =>
      case _ =>
    }
  }

  lemma {:induction false} WorkKept(analyzer: Analyzer, s: System, action: Action)
    requires WorkInv(analyzer, s) && Enabled(analyzer, s, action)
    ensures WorkInv(analyzer, Apply(analyzer, s, action))
  {
    match action {
      case Receive(message) => WorkKeptByReceive(analyzer, s, message);
      case Work(step) => WorkKeptByWork(analyzer, s, step);
      case _ =>
    }
  }

  lemma {:induction false} RecordedExtends(larger: map<(string, nat), Document>,
                                           smaller: map<(string, nat), Document>, documents: Documents)
    requires Extends(larger, smaller) && Recorded(smaller, documents)
    ensures Recorded(larger, documents)
  {
  }

  /** What is outstanding for `id` after a step was so before, or was asked about the current documents. */
  ghost predicate OutstandingStep(s: System, t: System, id: RequestId) {
    id in t.server.outstanding ==>
      || (id in s.server.outstanding && t.server.outstanding[id] == s.server.outstanding[id]
          && (id in s.history.accepted ==>
                id in t.history.accepted && t.history.accepted[id] == s.history.accepted[id]))
      || (id in t.history.accepted && t.history.accepted[id].documents == s.server.documents
          && t.history.ledger == s.history.ledger
          && t.server.outstanding[id] == DocumentRevisions(s.server.documents))
  }

  lemma {:induction false} OutstandingOnAsk(s: System, request: Request, id: RequestId)
    requires request.id !in s.history.requested && s.history.accepted.Keys <= s.history.requested
    ensures OutstandingStep(s, ReceiveRequest(s, request), id)
  {
  }

  lemma {:induction false} OutstandingOnReceive(analyzer: Analyzer, s: System, message: ClientMessage, id: RequestId)
    requires Enabled(analyzer, s, Receive(message)) && s.history.accepted.Keys <= s.history.requested
    ensures OutstandingStep(s, ReceiveMessage(s, message), id)
  {
    match message {
      case Ask(request) => OutstandingOnAsk(s, request, id);
      case Cancel(Some(target)) =>
      case _ =>
    }
  }

  lemma {:induction false} OutstandingOnAccept(s: System, result: WorkerResult, id: RequestId)
    ensures OutstandingStep(s, AcceptOne(s, result), id)
  {
  }

  /** A step either leaves a request's bookkeeping alone, ends it, or starts it with the current documents. */
  lemma {:induction false} OutstandingSteps(analyzer: Analyzer, s: System, action: Action, id: RequestId)
    requires Enabled(analyzer, s, action) && s.history.accepted.Keys <= s.history.requested
    ensures OutstandingStep(s, Apply(analyzer, s, action), id)
  {
    match action {
      case Receive(message) => OutstandingOnReceive(analyzer, s, message, id);
      case AcceptResult => OutstandingOnAccept(Popped(s), s.shared.results[0], id);
      case _ =>
    }
  }

  lemma {:induction false} OutstandingKept(analyzer: Analyzer, s: System, action: Action)
    requires OutstandingInv(s) && LedgerInv(s) && s.history.accepted.Keys <= s.history.requested
    requires Enabled(analyzer, s, action)
    requires Extends(Apply(analyzer, s, action).history.ledger, s.history.ledger)
    ensures OutstandingInv(Apply(analyzer, s, action))
  {
    var t := Apply(analyzer, s, action);
    forall id ensures OutstandingOk(t, id) {
      OutstandingSteps(analyzer, s, action, id);
      assert OutstandingOk(s, id);
      if id in s.server.outstanding {
        RecordedExtends(t.history.ledger, s.history.ledger, s.history.accepted[id].documents);
      }
    }
  }

  lemma {:induction false} SignalKeptByReceive(s: System, message: ClientMessage)
    requires SignalInv(s) && s.main.Polling?
    ensures SignalInv(ReceiveMessage(s, message))
  {
    match message {
      case Ask(request) =>
        SignalsInAppend(s.shared.tasks, RequestWork(RequestTask(request, s.server.documents, s.server.folders)));
      case Cancel(Some(_)) =>
      case _ =>
    }
  }

  lemma {:induction false} SignalKeptByWork(analyzer: Analyzer, s: System, step: WorkerStep)
    requires SignalInv(s) && Enabled(analyzer, s, Work(step))
    ensures SignalInv(Apply(analyzer, s, Work(step)))
  {
  }

  lemma {:induction false} SignalKept(analyzer: Analyzer, s: System, action: Action)
    requires SignalInv(s) && Enabled(analyzer, s, action)
    ensures SignalInv(Apply(analyzer, s, action))
  {
    match action {
      case Receive(message) => SignalKeptByReceive(s, message);
      case Work(step) => SignalKeptByWork(analyzer, s, step);
      case Schedule(SendSignal) => SignalsInAppend(s.shared.tasks, DiagnosticsSignal);
      case _ =>
    }
  }

  // --------------------------------------------- preservation: diagnostics

  /** `after` is `before` with more edits done: nothing lost from the current revisions has come back. */
  ghost predicate Advances(before: Scene, after: Scene) {
    && Extends(after.ledger, before.ledger)
    && after.shown == before.shown
    && forall revisions: Revisions :: Known(before.ledger, revisions) && Within(revisions, after.current) ==>
         Within(revisions, before.current)
  }

  lemma {:induction false} ReportExtends(analyzer: Analyzer, larger: map<(string, nat), Document>,
                                         smaller: map<(string, nat), Document>, revisions: Revisions)
    requires Extends(larger, smaller) && Known(smaller, revisions)
    ensures Known(larger, revisions)
    ensures ReportOf(analyzer, larger, revisions) == ReportOf(analyzer, smaller, revisions)
  {
    RestoreExtends(larger, smaller, revisions);
  }

  lemma {:induction false} DraftAdvances(analyzer: Analyzer, before: Scene, after: Scene, draft: Option<Draft>)
    requires Advances(before, after) && DraftOk(analyzer, before, draft)
    ensures DraftOk(analyzer, after, draft)
  {
    if draft.Some? {
      ReportExtends(analyzer, after.ledger, before.ledger, draft.value.revisions);
    }
  }

  lemma {:induction false} ResultAdvances(analyzer: Analyzer, before: Scene, after: Scene, result: WorkerResult)
    requires Advances(before, after) && ResultOk(analyzer, before, result)
    ensures ResultOk(analyzer, after, result)
  {
    DraftAdvances(analyzer, before, after, ResultDraft(result));
    if result.DiagnosticsDone? {
      ReportExtends(analyzer, after.ledger, before.ledger, result.revisions);
    }
  }

  lemma {:induction false} TaskAdvances(analyzer: Analyzer, before: Scene, after: Scene, task: Option<DiagnosticTask>)
    requires Advances(before, after) && TaskOk(analyzer, before, task)
    ensures TaskOk(analyzer, after, task)
  {
    DraftAdvances(analyzer, before, after, TaskDraft(analyzer, task));
    if task.Some? {
      RecordedExtends(after.ledger, before.ledger, task.value.documents);
    }
  }

  lemma {:induction false} OrderedAdvances(analyzer: Analyzer, before: Scene, after: Scene, earlier: Option<Draft>,
                                           later: Option<Draft>)
    requires Advances(before, after) && DraftOk(analyzer, before, earlier)
    requires Ordered(before.current, earlier, later)
    ensures Ordered(after.current, earlier, later)
  {
  }

  /** An edit makes no analysis under way wrong: what it outdates stays outdated. */
  lemma {:induction false} PipelineAdvances(analyzer: Analyzer, before: Scene, after: Scene,
                                            results: seq<WorkerResult>, working: Option<DiagnosticTask>,
                                            latest: Option<DiagnosticTask>)
    requires Advances(before, after) && PipelineOk(analyzer, before, results, working, latest)
    ensures PipelineOk(analyzer, after, results, working, latest)
  {
    var w, l := TaskDraft(analyzer, working), TaskDraft(analyzer, latest);
    TaskAdvances(analyzer, before, after, working);
    TaskAdvances(analyzer, before, after, latest);
    OrderedAdvances(analyzer, before, after, w, l);
    forall i | 0 <= i < |results|
      ensures ResultOk(analyzer, after, results[i])
      ensures Ordered(after.current, ResultDraft(results[i]), w) && Ordered(after.current, ResultDraft(results[i]), l)
    {
      ResultAdvances(analyzer, before, after, results[i]);
      OrderedAdvances(analyzer, before, after, ResultDraft(results[i]), w);
      OrderedAdvances(analyzer, before, after, ResultDraft(results[i]), l);
    }
    forall i, j | 0 <= i < j < |results|
      ensures Ordered(after.current, ResultDraft(results[i]), ResultDraft(results[j]))
    {
      OrderedAdvances(analyzer, before, after, ResultDraft(results[i]), ResultDraft(results[j]));
    }
  }

  /** A result accepted while current leaves the client showing exactly the analysis of the current documents. */
  lemma {:induction false} AcceptedShows(analyzer: Analyzer, scene: Scene, result: WorkerResult)
    requires result.DiagnosticsDone? && result.revisions == scene.current && ResultOk(analyzer, scene, result)
    ensures ShowsReport(Deliver(scene.shown, result.messages), ReportOf(analyzer, scene.ledger, scene.current))
  {
    DeliverExactly(scene.shown, result.messages, ReportOf(analyzer, scene.ledger, scene.current));
  }

  lemma {:induction false} ShownCovered(shown: Report, report: Report, scope: set<string>)
    requires ShowsReport(shown, report) && report.Keys <= scope
    ensures ShownWithin(shown, scope)
  {
  }

  // A draft behind an accepted result still covers what the client shows: if it can be accepted
  // later, it is for the very same revisions.
  lemma {:induction false} DraftAfterAccept(analyzer: Analyzer, before: Scene, shown: Report, accepted: Option<Draft>,
                                            draft: Option<Draft>)
    requires DraftOk(analyzer, before, draft) && Known(before.ledger, before.current)
    requires accepted.Some? && accepted.value.revisions == before.current && Ordered(before.current, accepted, draft)
    requires ShowsReport(shown, ReportOf(analyzer, before.ledger, before.current))
    ensures DraftOk(analyzer, before.(shown := shown), draft)
  {
    if draft.Some? && Within(draft.value.revisions, before.current) {
      assert draft.value.revisions == before.current;
      ShownCovered(shown, ReportOf(analyzer, before.ledger, before.current), draft.value.scope);
    }
  }

  lemma {:induction false} ResultAfterAccept(analyzer: Analyzer, before: Scene, shown: Report,
                                             accepted: Option<Draft>, result: WorkerResult)
    requires ResultOk(analyzer, before, result) && Known(before.ledger, before.current)
    requires accepted.Some? && accepted.value.revisions == before.current
    requires Ordered(before.current, accepted, ResultDraft(result))
    requires ShowsReport(shown, ReportOf(analyzer, before.ledger, before.current))
    ensures ResultOk(analyzer, before.(shown := shown), result)
  {
    DraftAfterAccept(analyzer, before, shown, accepted, ResultDraft(result));
  }

  lemma {:induction false} TaskAfterAccept(analyzer: Analyzer, before: Scene, shown: Report, accepted: Option<Draft>,
                                           task: Option<DiagnosticTask>)
    requires TaskOk(analyzer, before, task) && Known(before.ledger, before.current)
    requires accepted.Some? && accepted.value.revisions == before.current
    requires Ordered(before.current, accepted, TaskDraft(analyzer, task))
    requires ShowsReport(shown, ReportOf(analyzer, before.ledger, before.current))
    ensures TaskOk(analyzer, before.(shown := shown), task)
  {
    DraftAfterAccept(analyzer, before, shown, accepted, TaskDraft(analyzer, task));
  }

  /** What is behind the first result stays in order. */
  lemma {:induction false} DropOrdered(current: Revisions, results: seq<WorkerResult>, rest: seq<WorkerResult>)
    requires ResultsOrdered(current, results) && results != [] && rest == results[1..]
    ensures ResultsOrdered(current, rest)
    ensures forall i :: 0 <= i < |rest| ==> Ordered(current, ResultDraft(results[0]), ResultDraft(rest[i]))
  {
    forall i, j | 0 <= i < j < |rest| ensures Ordered(current, ResultDraft(rest[i]), ResultDraft(rest[j])) {
      assert rest[i] == results[i + 1] && rest[j] == results[j + 1];
    }
    forall i | 0 <= i < |rest| ensures Ordered(current, ResultDraft(results[0]), ResultDraft(rest[i])) {
      assert rest[i] == results[i + 1];
    }
  }

  lemma {:induction false} DropBefore(current: Revisions, results: seq<WorkerResult>, rest: seq<WorkerResult>,
                                      later: Option<Draft>)
    requires AllBefore(current, results, later) && results != [] && rest == results[1..]
    ensures AllBefore(current, rest, later) && Ordered(current, ResultDraft(results[0]), later)
  {
    forall i | 0 <= i < |rest| ensures Ordered(current, ResultDraft(rest[i]), later) {
      assert rest[i] == results[i + 1];
    }
  }

  lemma {:induction false} DropOk(analyzer: Analyzer, scene: Scene, results: seq<WorkerResult>, rest: seq<WorkerResult>)
    requires ResultsOk(analyzer, scene, results) && results != [] && rest == results[1..]
    ensures ResultsOk(analyzer, scene, rest)
  {
    forall i | 0 <= i < |rest| ensures ResultOk(analyzer, scene, rest[i]) {
      assert rest[i] == results[i + 1];
    }
  }

  lemma {:induction false} PipelineAfterAccept(analyzer: Analyzer, scene: Scene, results: seq<WorkerResult>,
                                               working: Option<DiagnosticTask>, latest: Option<DiagnosticTask>)
    requires PipelineOk(analyzer, scene, results, working, latest)
    requires results != [] && ResultIsFor(results[0], scene.current)
    ensures PipelineOk(analyzer, scene.(shown := Deliver(scene.shown, results[0].messages)), results[1..], working,
                       latest)
  {
    var head, rest := ResultDraft(results[0]), results[1..];
    var shown := Deliver(scene.shown, results[0].messages);
    AcceptedShows(analyzer, scene, results[0]);
    DropOrdered(scene.current, results, rest);
    DropBefore(scene.current, results, rest, TaskDraft(analyzer, working));
    DropBefore(scene.current, results, rest, TaskDraft(analyzer, latest));
    DropOk(analyzer, scene, results, rest);
    TaskAfterAccept(analyzer, scene, shown, head, working);
    TaskAfterAccept(analyzer, scene, shown, head, latest);
    forall i | 0 <= i < |rest| ensures ResultOk(analyzer, scene.(shown := shown), rest[i]) {
      ResultAfterAccept(analyzer, scene, shown, head, rest[i]);
    }
  }
}

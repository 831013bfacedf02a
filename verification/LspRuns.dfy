/** What holds in every run of the language server. */
module LspRuns {
  import opened Options
  import opened LspModel
  import opened LspDelivery
  import opened LspInvariants

  // ------------------------------------------- steps of the diagnostics pipeline

  lemma {:induction false} PushOk(analyzer: Analyzer, scene: Scene, results: seq<WorkerResult>, done: WorkerResult)
    requires ResultsOk(analyzer, scene, results) && ResultOk(analyzer, scene, done)
    ensures ResultsOk(analyzer, scene, results + [done])
  {
  }

  lemma {:induction false} PushOrdered(current: Revisions, results: seq<WorkerResult>, done: WorkerResult)
    requires ResultsOrdered(current, results) && AllBefore(current, results, ResultDraft(done))
    ensures ResultsOrdered(current, results + [done])
  {
  }

  lemma {:induction false} PushBefore(current: Revisions, results: seq<WorkerResult>, done: WorkerResult,
                                      later: Option<Draft>)
    requires AllBefore(current, results, later) && Ordered(current, ResultDraft(done), later)
    ensures AllBefore(current, results + [done], later)
  {
  }

  /** A good result that fits in before the tasks joins the finished ones. */
  lemma {:induction false} PushResult(analyzer: Analyzer, scene: Scene, results: seq<WorkerResult>,
                                      done: WorkerResult, working: Option<DiagnosticTask>,
                                      latest: Option<DiagnosticTask>)
    requires PipelineOk(analyzer, scene, results, working, latest)
    requires ResultOk(analyzer, scene, done) && AllBefore(scene.current, results, ResultDraft(done))
    requires Ordered(scene.current, ResultDraft(done), TaskDraft(analyzer, working))
    requires Ordered(scene.current, ResultDraft(done), TaskDraft(analyzer, latest))
    ensures PipelineOk(analyzer, scene, results + [done], working, latest)
  {
    PushOk(analyzer, scene, results, done);
    PushOrdered(scene.current, results, done);
    PushBefore(scene.current, results, done, TaskDraft(analyzer, working));
    PushBefore(scene.current, results, done, TaskDraft(analyzer, latest));
  }

  /** The result of the worker's task is as good as the task. */
  lemma {:induction false} DoneIsOk(analyzer: Analyzer, scene: Scene, messages: seq<Publication>, task: DiagnosticTask)
    requires TaskOk(analyzer, scene, Some(task)) && Publishes(messages, analyzer, task)
    ensures var done := DiagnosticsDone(task.revisions, messages, ByUri(analyzer, task.documents).Keys);
            ResultOk(analyzer, scene, done) && ResultDraft(done) == TaskDraft(analyzer, Some(task))
  {
    PublishedRenders(messages, analyzer, task);
    RestoreRecorded(scene.ledger, task.documents);
  }

  lemma {:induction false} NothingWorking(analyzer: Analyzer, scene: Scene, results: seq<WorkerResult>,
                                          working: Option<DiagnosticTask>, latest: Option<DiagnosticTask>)
    requires PipelineOk(analyzer, scene, results, working, latest)
    ensures PipelineOk(analyzer, scene, results, None, latest)
  {
  }

  lemma {:induction false} FinishTask(analyzer: Analyzer, scene: Scene, results: seq<WorkerResult>,
                                      messages: seq<Publication>, task: DiagnosticTask,
                                      latest: Option<DiagnosticTask>)
    requires PipelineOk(analyzer, scene, results, Some(task), latest) && Publishes(messages, analyzer, task)
    ensures PipelineOk(analyzer, scene,
              results + [DiagnosticsDone(task.revisions, messages, ByUri(analyzer, task.documents).Keys)], None, latest)
  {
    DoneIsOk(analyzer, scene, messages, task);
    NothingWorking(analyzer, scene, results, Some(task), latest);
    PushResult(analyzer, scene, results,
               DiagnosticsDone(task.revisions, messages, ByUri(analyzer, task.documents).Keys), None, latest);
  }

  lemma {:induction false} StoreTask(analyzer: Analyzer, scene: Scene, results: seq<WorkerResult>,
                                     working: Option<DiagnosticTask>, latest: Option<DiagnosticTask>,
                                     task: DiagnosticTask, last: Option<Revisions>)
    requires PipelineOk(analyzer, scene, results, working, latest)
    requires ShownOk(analyzer, scene, task.publishedUris, last)
    requires Recorded(scene.ledger, task.documents)
    requires task.revisions == DocumentRevisions(task.documents) == scene.current
    ensures PipelineOk(analyzer, scene, results, working, Some(task))
  {
    RestoreRecorded(scene.ledger, task.documents);
    var scope := task.publishedUris + ByUri(analyzer, task.documents).Keys;
    if last.Some? {
      ShownCovered(scene.shown, ReportOf(analyzer, scene.ledger, last.value), scope);
    }
  }

  lemma {:induction false} PipelineKeptByWork(analyzer: Analyzer, s: System, step: WorkerStep)
    requires PipelineInv(analyzer, s) && Enabled(analyzer, s, Work(step))
    ensures PipelineInv(analyzer, Apply(analyzer, s, Work(step)))
  {
    var scene, results, latest := SceneOf(s), s.shared.results, s.shared.latest;
    match step {
      case Answer =>
        PushResult(analyzer, scene, results,
          RequestDone(s.worker.request.request.id, analyzer.answer(s.worker.request)), None, latest);
      case Publish(messages) => FinishTask(analyzer, scene, results, messages, s.worker.task, latest);
      case _ =>
    }
  }

  lemma {:induction false} EditAdvances(analyzer: Analyzer, s: System, action: Action)
    requires LedgerInv(s) && Enabled(analyzer, s, action) && IsEdit(s, action)
    requires Apply(analyzer, s, action).history.edits < REVISION_LIMIT
    ensures Advances(SceneOf(s), SceneOf(Apply(analyzer, s, action)))
  {
    var t := Apply(analyzer, s, action);
    MessageEdits(s.server.documents, action.message, s.server.nextRevision);
    EditExtends(s, t.server.documents, t.server.nextRevision, t.history.edits);
  }

  /** Receiving a message leaves the diagnostics pipeline and the client's diagnostics alone. */
  lemma {:induction false} ReceiveSteps(analyzer: Analyzer, s: System, message: ClientMessage)
    requires Enabled(analyzer, s, Receive(message))
    ensures var t := ReceiveMessage(s, message);
            && t.shared.results == s.shared.results && t.worker == s.worker && t.shared.latest == s.shared.latest
            && t.client.shown == s.client.shown
            && t.server.publishedUris == s.server.publishedUris && t.history.lastPublished == s.history.lastPublished
  {
    match message {
      case Ask(_) =>
      case Cancel(Some(_)) =>
      case _ =>
    }
  }

  lemma {:induction false} PipelineKeptByReceive(analyzer: Analyzer, s: System, message: ClientMessage)
    requires LedgerInv(s) && PipelineInv(analyzer, s) && Enabled(analyzer, s, Receive(message))
    requires ReceiveMessage(s, message).history.edits < REVISION_LIMIT
    ensures PipelineInv(analyzer, ReceiveMessage(s, message))
  {
    var t := ReceiveMessage(s, message);
    ReceiveSteps(analyzer, s, message);
    if IsEdit(s, Receive(message)) {
      EditAdvances(analyzer, s, Receive(message));
      PipelineAdvances(analyzer, SceneOf(s), SceneOf(t), s.shared.results, TaskOf(s.worker), s.shared.latest);
    } else {
      NonEditSteps(analyzer, s, Receive(message));
    }
  }

  lemma {:induction false} DropResult(analyzer: Analyzer, scene: Scene, results: seq<WorkerResult>,
                                      working: Option<DiagnosticTask>, latest: Option<DiagnosticTask>)
    requires PipelineOk(analyzer, scene, results, working, latest) && results != []
    ensures PipelineOk(analyzer, scene, results[1..], working, latest)
  {
    DropOrdered(scene.current, results, results[1..]);
    DropBefore(scene.current, results, results[1..], TaskDraft(analyzer, working));
    DropBefore(scene.current, results, results[1..], TaskDraft(analyzer, latest));
    DropOk(analyzer, scene, results, results[1..]);
  }

  /** What accepting a result does to the scene. */
  lemma {:induction false} AcceptSteps(analyzer: Analyzer, s: System)
    requires Enabled(analyzer, s, AcceptResult)
    ensures var t, result := Apply(analyzer, s, AcceptResult), s.shared.results[0];
            && t.worker == s.worker && t.shared == s.shared.(results := s.shared.results[1..])
            && t.server.documents == s.server.documents && t.history.ledger == s.history.ledger
            && t.history.accepted == s.history.accepted && t.history.scheduled == s.history.scheduled
            && (if ResultIsFor(result, DocumentRevisions(s.server.documents)) then
                  && t.client.shown == Deliver(s.client.shown, result.messages)
                  && t.server.publishedUris == result.publishedUris
                  && t.history.lastPublished == Some(result.revisions)
                else
                  && t.client.shown == s.client.shown
                  && t.server.publishedUris == s.server.publishedUris
                  && t.history.lastPublished == s.history.lastPublished)
  {
  }

  lemma {:induction false} PipelineKeptByAccept(analyzer: Analyzer, s: System)
    requires PipelineInv(analyzer, s) && Enabled(analyzer, s, AcceptResult)
    ensures PipelineInv(analyzer, Apply(analyzer, s, AcceptResult))
  {
    var scene, results := SceneOf(s), s.shared.results;
    AcceptSteps(analyzer, s);
    if ResultIsFor(results[0], scene.current) {
      PipelineAfterAccept(analyzer, scene, results, TaskOf(s.worker), s.shared.latest);
    } else {
      DropResult(analyzer, scene, results, TaskOf(s.worker), s.shared.latest);
    }
  }

  lemma {:induction false} PipelineKeptBySchedule(analyzer: Analyzer, s: System, step: ScheduleStep)
    requires LedgerInv(s) && PipelineInv(analyzer, s) && ShownInv(analyzer, s) && Enabled(analyzer, s, Schedule(step))
    ensures PipelineInv(analyzer, Apply(analyzer, s, Schedule(step)))
  {
    if step.StoreLatest? {
      var task := DiagnosticTask(s.server.documents, DocumentRevisions(s.server.documents), s.server.publishedUris);
      StoreTask(analyzer, SceneOf(s), s.shared.results, TaskOf(s.worker), s.shared.latest, task,
                s.history.lastPublished);
    }
  }

  lemma {:induction false} PipelineKept(analyzer: Analyzer, s: System, action: Action)
    requires LedgerInv(s) && PipelineInv(analyzer, s) && ShownInv(analyzer, s) && Enabled(analyzer, s, action)
    requires Apply(analyzer, s, action).history.edits < REVISION_LIMIT
    ensures PipelineInv(analyzer, Apply(analyzer, s, action))
  {
    match action {
      case Receive(message) => PipelineKeptByReceive(analyzer, s, message);
      case Schedule(step) => PipelineKeptBySchedule(analyzer, s, step);
      case AcceptResult => PipelineKeptByAccept(analyzer, s);
      case Work(step) => PipelineKeptByWork(analyzer, s, step);
      case _ =>
    }
  }

  lemma {:induction false} ShownKeptByReceive(analyzer: Analyzer, s: System, message: ClientMessage)
    requires LedgerInv(s) && ShownInv(analyzer, s) && Enabled(analyzer, s, Receive(message))
    requires ReceiveMessage(s, message).history.edits < REVISION_LIMIT
    ensures ShownInv(analyzer, ReceiveMessage(s, message))
  {
    var t := ReceiveMessage(s, message);
    ReceiveSteps(analyzer, s, message);
    if IsEdit(s, Receive(message)) {
      EditAdvances(analyzer, s, Receive(message));
      if s.history.lastPublished.Some? {
        ReportExtends(analyzer, t.history.ledger, s.history.ledger, s.history.lastPublished.value);
      }
    } else {
      NonEditSteps(analyzer, s, Receive(message));
    }
  }

  lemma {:induction false} ShownKeptByAccept(analyzer: Analyzer, s: System)
    requires PipelineInv(analyzer, s) && ShownInv(analyzer, s) && Enabled(analyzer, s, AcceptResult)
    ensures ShownInv(analyzer, Apply(analyzer, s, AcceptResult))
  {
    var scene, result := SceneOf(s), s.shared.results[0];
    AcceptSteps(analyzer, s);
    if ResultIsFor(result, scene.current) {
      AcceptedShows(analyzer, scene, result);
    }
  }

  lemma {:induction false} ShownKept(analyzer: Analyzer, s: System, action: Action)
    requires LedgerInv(s) && PipelineInv(analyzer, s) && ShownInv(analyzer, s) && Enabled(analyzer, s, action)
    requires Apply(analyzer, s, action).history.edits < REVISION_LIMIT
    ensures ShownInv(analyzer, Apply(analyzer, s, action))
  {
    match action {
      case Receive(message) => ShownKeptByReceive(analyzer, s, message);
      case AcceptResult => ShownKeptByAccept(analyzer, s);
      case _ =>
    }
  }

  lemma {:induction false} ProgressKeptByAccept(analyzer: Analyzer, s: System)
    requires ProgressInv(s) && Enabled(analyzer, s, AcceptResult)
    ensures ProgressInv(Apply(analyzer, s, AcceptResult))
  {
    var t := Apply(analyzer, s, AcceptResult);
    var current := DocumentRevisions(s.server.documents);
    AcceptSteps(analyzer, s);
    if ResultIsFor(s.shared.results[0], current) {
      assert t.history.lastPublished == Some(current);
    } else if i: nat :| i < |s.shared.results| && ResultIsFor(s.shared.results[i], current) {
      assert ResultIsFor(t.shared.results[i - 1], current);
    }
  }

  lemma {:induction false} ProgressKeptByWork(analyzer: Analyzer, s: System, step: WorkerStep)
    requires ProgressInv(s) && LedgerInv(s) && Enabled(analyzer, s, Work(step))
    ensures ProgressInv(Apply(analyzer, s, Work(step)))
  {
    var t := Apply(analyzer, s, Work(step));
    var current := DocumentRevisions(s.server.documents);
    if i: nat :| i < |s.shared.results| && ResultIsFor(s.shared.results[i], current) {
      assert ResultIsFor(t.shared.results[i], current);
    } else if step.Publish? && s.worker.task.revisions == current {
      assert ResultIsFor(t.shared.results[|s.shared.results|], current);
    }
  }

  lemma {:induction false} ProgressKept(analyzer: Analyzer, s: System, action: Action)
    requires LedgerInv(s) && ProgressInv(s) && Enabled(analyzer, s, action)
    ensures ProgressInv(Apply(analyzer, s, action))
  {
    match action {
      case Receive(message) =>
        ReceiveSteps(analyzer, s, message);
        if !IsEdit(s, action) {
          NonEditSteps(analyzer, s, action);
        }
      case AcceptResult => ProgressKeptByAccept(analyzer, s);
      case Work(step) => ProgressKeptByWork(analyzer, s, step);
      case _ =>
    }
  }

  // -------------------------------------------------------------------- runs

  lemma {:induction false} StepKeepsInv(analyzer: Analyzer, s: System, action: Action)
    requires Inv(analyzer, s) && Enabled(analyzer, s, action)
    requires Apply(analyzer, s, action).history.edits < REVISION_LIMIT
    ensures Inv(analyzer, Apply(analyzer, s, action))
  {
    LedgerKept(analyzer, s, action);
    RequestKept(analyzer, s, action);
    WorkKept(analyzer, s, action);
    OutstandingKept(analyzer, s, action);
    SignalKept(analyzer, s, action);
    PipelineKept(analyzer, s, action);
    ShownKept(analyzer, s, action);
    ProgressKept(analyzer, s, action);
  }

  lemma {:induction false} EditsGrow(analyzer: Analyzer, s: System, action: Action)
    requires Enabled(analyzer, s, action)
    ensures s.history.edits <= Apply(analyzer, s, action).history.edits
  {
    if !IsEdit(s, action) {
      NonEditSteps(analyzer, s, action);
    }
  }

  /** The number of edits never falls. */
  lemma {:induction false} EditsBelowLast(analyzer: Analyzer, states: seq<System>, actions: seq<Action>, i: nat)
    requires Follows(analyzer, states, actions) && i < |states|
    ensures states[i].history.edits <= Last(states).history.edits
    decreases |states| - i
  {
    if i < |actions| {
      assert Enabled(analyzer, states[i], actions[i]);
      EditsGrow(analyzer, states[i], actions[i]);
      EditsBelowLast(analyzer, states, actions, i + 1);
    }
  }

  /** From a state with the invariant, every state reached with fewer than 2^64 edits has it. */
  lemma {:induction false} FollowsKeepsInv(analyzer: Analyzer, states: seq<System>, actions: seq<Action>, i: nat)
    requires Follows(analyzer, states, actions) && Inv(analyzer, states[0])
    requires i < |states| && states[i].history.edits < REVISION_LIMIT
    ensures Inv(analyzer, states[i])
    decreases i
  {
    if i > 0 {
      var s, action := states[i - 1], actions[i - 1];
      assert Enabled(analyzer, s, action);
      EditsGrow(analyzer, s, action);
      FollowsKeepsInv(analyzer, states, actions, i - 1);
      StepKeepsInv(analyzer, s, action);
    }
  }

  lemma {:induction false} InvAt(analyzer: Analyzer, states: seq<System>, actions: seq<Action>, i: nat)
    requires IsRun(analyzer, states, actions) && Last(states).history.edits < REVISION_LIMIT
    requires i < |states|
    ensures Inv(analyzer, states[i])
  {
    InitialInv(analyzer);
    EditsBelowLast(analyzer, states, actions, i);
    FollowsKeepsInv(analyzer, states, actions, i);
  }

  /** The invariant holds in every state of every run with fewer than 2^64 edits. */
  lemma {:induction false} RunKeepsInv(analyzer: Analyzer, states: seq<System>, actions: seq<Action>)
    requires IsRun(analyzer, states, actions) && Last(states).history.edits < REVISION_LIMIT
    ensures forall i :: 0 <= i < |states| ==> Inv(analyzer, states[i])
  {
    forall i | 0 <= i < |states| ensures Inv(analyzer, states[i]) {
      InvAt(analyzer, states, actions, i);
    }
  }

  lemma {:induction false} LedgerInvAt(analyzer: Analyzer, states: seq<System>, actions: seq<Action>, i: nat)
    requires IsRun(analyzer, states, actions) && Last(states).history.edits < REVISION_LIMIT
    requires i < |states|
    ensures LedgerInv(states[i])
  {
    InvAt(analyzer, states, actions, i);
  }

  lemma {:induction false} LedgerGrows(analyzer: Analyzer, states: seq<System>, actions: seq<Action>, i: nat, j: nat)
    requires IsRun(analyzer, states, actions) && Last(states).history.edits < REVISION_LIMIT
    requires i <= j < |states|
    ensures Extends(states[j].history.ledger, states[i].history.ledger)
    decreases j
  {
    if i < j {
      var s, action := states[j - 1], actions[j - 1];
      LedgerInvAt(analyzer, states, actions, j - 1);
      assert Enabled(analyzer, s, action);
      EditsBelowLast(analyzer, states, actions, j);
      LedgerKept(analyzer, s, action);
      LedgerGrows(analyzer, states, actions, i, j - 1);
      ExtendsFurther(states[j].history.ledger, s.history.ledger, states[i].history.ledger);
    }
  }

  lemma {:induction false} ExtendsFurther(largest: map<(string, nat), Document>, larger: map<(string, nat), Document>,
                                          smaller: map<(string, nat), Document>)
    requires Extends(largest, larger) && Extends(larger, smaller)
    ensures Extends(largest, smaller)
  {
  }

  /** At any two moments of a run, equal revision maps mean equal documents. */
  lemma {:induction false} EqualRevisionsMeanEqualDocuments(analyzer: Analyzer, states: seq<System>,
                                                            actions: seq<Action>, i: nat, j: nat)
    requires IsRun(analyzer, states, actions) && Last(states).history.edits < REVISION_LIMIT
    requires i < |states| && j < |states|
    ensures DocumentRevisions(states[i].server.documents) == DocumentRevisions(states[j].server.documents) <==>
            states[i].server.documents == states[j].server.documents
  {
    var last := |states| - 1;
    InvAt(analyzer, states, actions, i);
    InvAt(analyzer, states, actions, j);
    LedgerGrows(analyzer, states, actions, i, last);
    LedgerGrows(analyzer, states, actions, j, last);
    RecordedExtends(states[last].history.ledger, states[i].history.ledger, states[i].server.documents);
    RecordedExtends(states[last].history.ledger, states[j].history.ledger, states[j].server.documents);
    if DocumentRevisions(states[i].server.documents) == DocumentRevisions(states[j].server.documents) {
      RevisionsDetermineDocuments(states[last].history.ledger, states[i].server.documents, states[j].server.documents);
    }
  }

  predicate HasEntry(documents: Documents, uri: string, revision: nat) {
    uri in documents && documents[uri].revision == revision
  }

  lemma {:induction false} EntryStaysLost(analyzer: Analyzer, s: System, action: Action, uri: string, revision: nat)
    requires LedgerInv(s) && Enabled(analyzer, s, action)
    requires Apply(analyzer, s, action).history.edits < REVISION_LIMIT
    requires (uri, revision) in s.history.ledger && !HasEntry(s.server.documents, uri, revision)
    ensures !HasEntry(Apply(analyzer, s, action).server.documents, uri, revision)
  {
    if IsEdit(s, action) {
      MessageEdits(s.server.documents, action.message, s.server.nextRevision);
    } else {
      NonEditSteps(analyzer, s, action);
    }
  }

  lemma {:induction false} EntryRecorded(analyzer: Analyzer, states: seq<System>, actions: seq<Action>, i: nat,
                                         j: nat, uri: string, revision: nat)
    requires IsRun(analyzer, states, actions) && Last(states).history.edits < REVISION_LIMIT
    requires i <= j < |states| && HasEntry(states[i].server.documents, uri, revision)
    ensures (uri, revision) in states[j].history.ledger
  {
    LedgerInvAt(analyzer, states, actions, i);
    LedgerGrows(analyzer, states, actions, i, j);
  }

  /** A (URI, revision) entry that was in the document map and has gone never comes back. */
  lemma {:induction false} LostEntryNeverReturns(analyzer: Analyzer, states: seq<System>, actions: seq<Action>,
                                                 i: nat, j: nat, k: nat, uri: string, revision: nat)
    requires IsRun(analyzer, states, actions) && Last(states).history.edits < REVISION_LIMIT
    requires i <= j <= k < |states|
    requires HasEntry(states[i].server.documents, uri, revision)
    requires !HasEntry(states[j].server.documents, uri, revision)
    ensures !HasEntry(states[k].server.documents, uri, revision)
    decreases k
  {
    if j < k {
      LostEntryNeverReturns(analyzer, states, actions, i, j, k - 1, uri, revision);
      EntryRecorded(analyzer, states, actions, i, k - 1, uri, revision);
      LedgerInvAt(analyzer, states, actions, k - 1);
      EditsBelowLast(analyzer, states, actions, k);
      assert Enabled(analyzer, states[k - 1], actions[k - 1]);
      EntryStaysLost(analyzer, states[k - 1], actions[k - 1], uri, revision);
    }
  }

  // Accepting a diagnostics result leaves the client showing exactly the analysis of the current
  // documents, on every URI; published are the open documents and the URIs with findings.
  lemma {:induction false} AcceptedDiagnosticsAreExact(analyzer: Analyzer, states: seq<System>, actions: seq<Action>,
                                                       i: nat)
    requires IsRun(analyzer, states, actions) && Last(states).history.edits < REVISION_LIMIT
    requires i < |actions| && actions[i] == AcceptResult && states[i].shared.results != []
    requires ResultIsFor(states[i].shared.results[0], DocumentRevisions(states[i].server.documents))
    ensures var documents, shown := states[i + 1].server.documents, states[i + 1].client.shown;
            && documents == states[i].server.documents
            && (forall uri :: (if uri in shown then shown[uri] else []) ==
                              if documents != map[] && uri in analyzer.findings(documents)
                              then analyzer.findings(documents)[uri] else [])
            && states[i + 1].server.publishedUris ==
               if documents == map[] then {} else documents.Keys + analyzer.findings(documents).Keys
  {
    var s := states[i];
    InvAt(analyzer, states, actions, i);
    assert Enabled(analyzer, s, actions[i]);
    AcceptSteps(analyzer, s);
    AcceptedShows(analyzer, SceneOf(s), s.shared.results[0]);
    RestoreRecorded(s.history.ledger, s.server.documents);
    assert ResultOk(analyzer, SceneOf(s), s.shared.results[0]);
    CollectedIsFound(analyzer, s.server.documents);
    ShowsFindings(analyzer, s.server.documents, states[i + 1].client.shown);
  }

  // ---------------------------------------------------------------- requests

  predicate AsksFor(action: Action, id: RequestId) {
    action.Receive? && action.message.Ask? && action.message.request.id == id
  }

  /** How often the client asked for `id`. */
  function AskCount(actions: seq<Action>, id: RequestId): nat
    decreases |actions|
  {
    if actions == [] then 0
    else AskCount(actions[..|actions| - 1], id) + One(AsksFor(actions[|actions| - 1], id))
  }

  lemma {:induction false} RequestedSteps(analyzer: Analyzer, s: System, action: Action, id: RequestId)
    requires Enabled(analyzer, s, action)
    ensures id in Apply(analyzer, s, action).history.requested <==> id in s.history.requested || AsksFor(action, id)
  {
    if action.Receive? {
      match action.message {
        case Ask(_) =>
        case Cancel(Some(_)) =>
        case _ =>
      }
    }
  }

  lemma {:induction false} RequestedIsAsked(analyzer: Analyzer, states: seq<System>, actions: seq<Action>,
                                            id: RequestId)
    requires IsRun(analyzer, states, actions)
    ensures AskCount(actions, id) == One(id in Last(states).history.requested)
    decreases |actions|
  {
    if actions != [] {
      var n := |actions| - 1;
      assert Enabled(analyzer, states[n], actions[n]);
      RequestedIsAsked(analyzer, states[..n + 1], actions[..n], id);
      RequestedSteps(analyzer, states[n], actions[n], id);
    }
  }

  /** No request is ever answered twice, nor answered without having been asked. */
  lemma {:induction false} AtMostOneResponse(analyzer: Analyzer, states: seq<System>, actions: seq<Action>,
                                             id: RequestId)
    requires IsRun(analyzer, states, actions) && Last(states).history.edits < REVISION_LIMIT
    ensures ResponseCount(Last(states).client.responses, id) <= AskCount(actions, id) <= 1
  {
    InvAt(analyzer, states, actions, |states| - 1);
    RequestedIsAsked(analyzer, states, actions, id);
    assert RequestOk(Last(states), id);
  }

  /** At quiescence every request asked has exactly one response, and no cancellation mark is left behind. */
  lemma {:induction false} ExactlyOneResponseAtQuiescence(analyzer: Analyzer, states: seq<System>, actions: seq<Action>)
    requires IsRun(analyzer, states, actions) && Last(states).history.edits < REVISION_LIMIT
    requires Quiescent(Last(states))
    ensures forall id :: ResponseCount(Last(states).client.responses, id) == AskCount(actions, id)
    ensures Last(states).shared.cancelled == {} && Last(states).server.outstanding == map[]
  {
    var s := Last(states);
    InvAt(analyzer, states, actions, |states| - 1);
    forall id
      ensures ResponseCount(s.client.responses, id) == AskCount(actions, id)
      ensures id !in s.shared.cancelled && id !in s.server.outstanding
    {
      RequestedIsAsked(analyzer, states, actions, id);
      assert RequestOk(s, id);
    }
  }

  /** A cancelled request is still travelling: its mark will be taken away when it arrives. */
  lemma {:induction false} CancelledIsInFlight(analyzer: Analyzer, states: seq<System>, actions: seq<Action>,
                                               id: RequestId)
    requires IsRun(analyzer, states, actions) && Last(states).history.edits < REVISION_LIMIT
    requires id in Last(states).shared.cancelled
    ensures InFlight(Last(states), id) == 1
    ensures ResponseCount(Last(states).client.responses, id) == 1
  {
    InvAt(analyzer, states, actions, |states| - 1);
    assert RequestOk(Last(states), id);
  }

  lemma {:induction false} AcceptedSteps(analyzer: Analyzer, s: System, action: Action, id: RequestId)
    requires Enabled(analyzer, s, action) && s.history.accepted.Keys <= s.history.requested
    requires id in Apply(analyzer, s, action).history.accepted
    ensures var t := Apply(analyzer, s, action);
            if AsksFor(action, id) then
              t.history.accepted[id] == RequestTask(action.message.request, s.server.documents, s.server.folders)
            else id in s.history.accepted && t.history.accepted[id] == s.history.accepted[id]
  {
    if action.Receive? {
      match action.message {
        case Ask(_) =>
        case Cancel(Some(_)) =>
        case _ =>
      }
    }
  }

  lemma {:induction false} AcceptedRequested(analyzer: Analyzer, states: seq<System>, actions: seq<Action>, i: nat)
    requires IsRun(analyzer, states, actions) && Last(states).history.edits < REVISION_LIMIT
    requires i < |states|
    ensures states[i].history.accepted.Keys <= states[i].history.requested
  {
    InvAt(analyzer, states, actions, i);
  }

  /** The task recorded for a request is the snapshot taken when the client asked. */
  lemma {:induction false} AcceptedWhenAsked(analyzer: Analyzer, states: seq<System>, actions: seq<Action>, n: nat,
                                             id: RequestId)
    requires IsRun(analyzer, states, actions) && Last(states).history.edits < REVISION_LIMIT
    requires n < |states| && id in states[n].history.accepted
    ensures exists asked :: 0 <= asked < n && AsksFor(actions[asked], id) &&
              states[n].history.accepted[id] ==
              RequestTask(actions[asked].message.request, states[asked].server.documents, states[asked].server.folders)
    decreases n
  {
    if n > 0 {
      AcceptedRequested(analyzer, states, actions, n - 1);
      assert Enabled(analyzer, states[n - 1], actions[n - 1]);
      AcceptedSteps(analyzer, states[n - 1], actions[n - 1], id);
      if !AsksFor(actions[n - 1], id) {
        AcceptedWhenAsked(analyzer, states, actions, n - 1, id);
      }
    }
  }

  // A reply is delivered as computed exactly when the documents are still those the client asked
  // about; otherwise the client is told that they changed.
  lemma {:induction false} DeliveredReplyIsForCurrentDocuments(analyzer: Analyzer, states: seq<System>,
                                                               actions: seq<Action>, i: nat)
    requires IsRun(analyzer, states, actions) && Last(states).history.edits < REVISION_LIMIT
    requires i < |actions| && actions[i] == AcceptResult && states[i].shared.results != []
    requires states[i].shared.results[0].RequestDone? && states[i].shared.results[0].id in states[i].server.outstanding
    ensures exists asked :: 0 <= asked < i && AsksFor(actions[asked], states[i].shared.results[0].id) &&
              var task := RequestTask(actions[asked].message.request, states[asked].server.documents,
                                      states[asked].server.folders);
              states[i + 1].client.responses == states[i].client.responses + [(states[i].shared.results[0].id,
                if states[asked].server.documents == states[i].server.documents
                then Handled(analyzer.answer(task.(documents := states[i].server.documents)))
                else Error(CONTENT_MODIFIED))]
  {
    var s := states[i];
    var id := s.shared.results[0].id;
    InvAt(analyzer, states, actions, i);
    assert Enabled(analyzer, s, actions[i]) && OutstandingOk(s, id);
    assert s.shared.results[0] == RequestDone(id, s.shared.results[0].reply);
    AcceptedWhenAsked(analyzer, states, actions, i, id);
    var asked :| 0 <= asked < i && AsksFor(actions[asked], id) && s.history.accepted[id] ==
      RequestTask(actions[asked].message.request, states[asked].server.documents, states[asked].server.folders);
    EqualRevisionsMeanEqualDocuments(analyzer, states, actions, asked, i);
  }

  // -------------------------------------------------------------- no lost wakeup

  /** `signal_queued` counts the one signal on its way, and a stored task always has its signal. */
  lemma {:induction false} NoLostWakeup(analyzer: Analyzer, states: seq<System>, actions: seq<Action>)
    requires IsRun(analyzer, states, actions) && Last(states).history.edits < REVISION_LIMIT
    ensures Signals(Last(states)) == One(Last(states).shared.signalQueued)
    ensures Last(states).shared.latest.Some? ==> Last(states).shared.signalQueued
  {
    InvAt(analyzer, states, actions, |states| - 1);
  }

  /** Where nothing is left to do, the client shows exactly the analysis of the current documents. */
  lemma {:induction false} QuiescentIsUpToDate(analyzer: Analyzer, s: System)
    requires Inv(analyzer, s) && Quiescent(s)
    ensures var documents, shown := s.server.documents, s.client.shown;
            forall uri :: (if uri in shown then shown[uri] else []) ==
                          if documents != map[] && uri in analyzer.findings(documents)
                          then analyzer.findings(documents)[uri] else []
  {
    RestoreRecorded(s.history.ledger, s.server.documents);
    if s.history.scheduled {
      assert CurrentOnItsWay(s);
    } else {
      assert ByUri(analyzer, s.server.documents) == map[];
    }
    ShowsFindings(analyzer, s.server.documents, s.client.shown);
  }

  /** Whenever everything has drained, the client shows exactly the analysis of the current documents. */
  lemma {:induction false} QuiescentClientIsUpToDate(analyzer: Analyzer, states: seq<System>, actions: seq<Action>)
    requires IsRun(analyzer, states, actions) && Last(states).history.edits < REVISION_LIMIT
    requires Quiescent(Last(states))
    ensures var documents, shown := Last(states).server.documents, Last(states).client.shown;
            forall uri :: (if uri in shown then shown[uri] else []) ==
                          if documents != map[] && uri in analyzer.findings(documents)
                          then analyzer.findings(documents)[uri] else []
  {
    InvAt(analyzer, states, actions, |states| - 1);
    QuiescentIsUpToDate(analyzer, Last(states));
  }
}

// The event loop and the worker as the program writes them, each method proved to be a sequence of
// the state machine's steps.
module LspServer {
  import opened Options
  import opened LspModel
  import opened LspDelivery
  import opened LspInvariants
  import opened LspRuns

  // ---------------------------------------------------- specification functions

  /** `schedule_diagnostics` when the worker does not interleave: the three shared accesses in a row. */
  function AfterScheduling(s: System): System {
    if !s.main.StoringRevisions? then s
    else
      var (_, stored) := AfterSchedule(s.server, s.shared, StoreRevisions);
      var (main, latest) := AfterSchedule(s.server, stored, StoreLatest);
      if main.Draining? then s.(main := main, shared := latest)
      else
        var (done, signalled) := AfterSchedule(s.server, latest, SendSignal);
        s.(main := done, shared := signalled)
  }

  /** Uninterrupted scheduling is a run of the machine. */
  lemma {:induction false} SchedulingFollows(analyzer: Analyzer, s: System)
    returns (states: seq<System>, actions: seq<Action>)
    requires s.main.StoringRevisions?
    ensures Follows(analyzer, states, actions) && states[0] == s && Last(states) == AfterScheduling(s)
    ensures forall action :: action in actions ==> action.Schedule?
  {
    var first := Apply(analyzer, s, Schedule(StoreRevisions));
    var second := Apply(analyzer, first, Schedule(StoreLatest));
    if second.main.Draining? {
      states, actions := [s, first, second], [Schedule(StoreRevisions), Schedule(StoreLatest)];
    } else {
      var third := Apply(analyzer, second, Schedule(SendSignal));
      states := [s, first, second, third];
      actions := [Schedule(StoreRevisions), Schedule(StoreLatest), Schedule(SendSignal)];
    }
  }

  /** One turn of the result loop, with the removal of a leftover cancellation mark. */
  function AfterTurn(s: System): System
    requires s.shared.results != []
  {
    var t := AcceptOne(Popped(s), s.shared.results[0]);
    if t.main.Forgetting? then
      t.(main := Draining, shared := t.shared.(cancelled := t.shared.cancelled - {t.main.id}))
    else t
  }

  lemma {:induction false} TurnShrinks(s: System)
    requires s.main.Draining? && s.shared.results != []
    ensures AfterTurn(s).main.Draining? && AfterTurn(s).shared.results == s.shared.results[1..]
  {
  }

  /** `send_worker_results` when the worker adds nothing meanwhile. */
  function AfterDraining(s: System): System
    requires s.main.Draining?
    decreases |s.shared.results|
  {
    if s.shared.results == [] then s.(main := if s.server.exiting then Stopped else Polling)
    else
      TurnShrinks(s);
      AfterDraining(AfterTurn(s))
  }

  lemma {:induction false} DrainingFollows(analyzer: Analyzer, s: System)
    returns (states: seq<System>, actions: seq<Action>)
    requires s.main.Draining?
    ensures Follows(analyzer, states, actions) && states[0] == s && Last(states) == AfterDraining(s)
    ensures forall action :: action in actions ==>
              action.AcceptResult? || action.ForgetCancelled? || action.ResultsEmpty?
    decreases |s.shared.results|
  {
    if s.shared.results == [] {
      states, actions := [s, AfterDraining(s)], [ResultsEmpty];
    } else {
      var t := Apply(analyzer, s, AcceptResult);
      TurnShrinks(s);
      states, actions := DrainingFollows(analyzer, AfterTurn(s));
      if t.main.Forgetting? {
        FollowsFrom(analyzer, t, ForgetCancelled, states, actions);
        states, actions := [t] + states, [ForgetCancelled] + actions;
      }
      FollowsFrom(analyzer, s, AcceptResult, states, actions);
      states, actions := [s] + states, [AcceptResult] + actions;
    }
  }

  // ----------------------------------------------------------- the invariant kept

  /** The invariant, in a state that fewer than 2^64 edits led to. */
  ghost predicate Sound(analyzer: Analyzer, s: System) {
    Inv(analyzer, s) && s.history.edits < REVISION_LIMIT
  }

  lemma {:induction false} StepKeepsSound(analyzer: Analyzer, s: System, action: Action)
    requires Sound(analyzer, s) && Enabled(analyzer, s, action)
    requires IsEdit(s, action) ==> s.history.edits + 1 < REVISION_LIMIT
    ensures Sound(analyzer, Apply(analyzer, s, action))
  {
    if !IsEdit(s, action) {
      NonEditSteps(analyzer, s, action);
    }
    StepKeepsInv(analyzer, s, action);
  }

  /** Steps of the threads make no edit. */
  lemma {:induction false} FollowsKeepsEdits(analyzer: Analyzer, states: seq<System>, actions: seq<Action>, i: nat)
    requires Follows(analyzer, states, actions) && i < |states|
    requires forall action :: action in actions ==> !action.Receive?
    ensures states[i].history.edits == states[0].history.edits
    decreases i
  {
    if i > 0 {
      var s, action := states[i - 1], actions[i - 1];
      FollowsKeepsEdits(analyzer, states, actions, i - 1);
      assert Enabled(analyzer, s, action) && action in actions;
      NonEditSteps(analyzer, s, action);
    }
  }

  lemma {:induction false} FollowsKeepsSound(analyzer: Analyzer, states: seq<System>, actions: seq<Action>)
    requires Follows(analyzer, states, actions) && Sound(analyzer, states[0])
    requires forall action :: action in actions ==> !action.Receive?
    ensures Sound(analyzer, Last(states))
  {
    FollowsKeepsEdits(analyzer, states, actions, |states| - 1);
    FollowsKeepsInv(analyzer, states, actions, |states| - 1);
  }

  lemma {:induction false} SchedulingKeepsSound(analyzer: Analyzer, s: System)
    requires Sound(analyzer, s)
    ensures Sound(analyzer, AfterScheduling(s))
  {
    if s.main.StoringRevisions? {
      var states, actions := SchedulingFollows(analyzer, s);
      FollowsKeepsSound(analyzer, states, actions);
    }
  }

  lemma {:induction false} DrainingKeepsSound(analyzer: Analyzer, s: System)
    requires Sound(analyzer, s) && s.main.Draining?
    ensures Sound(analyzer, AfterDraining(s))
  {
    var states, actions := DrainingFollows(analyzer, s);
    FollowsKeepsSound(analyzer, states, actions);
  }

  /** A message the client may send now, with room for an edit. */
  ghost predicate Acceptable(s: System, message: ClientMessage) {
    && s.main.Polling? && s.history.edits + 1 < REVISION_LIMIT
    && (message.Ask? ==> message.request.id !in s.history.requested)
  }

  lemma {:induction false} MessageKeepsSound(analyzer: Analyzer, s: System, message: ClientMessage)
    requires Sound(analyzer, s) && Acceptable(s, message)
    ensures Sound(analyzer, AfterScheduling(ReceiveMessage(s, message)))
  {
    assert Enabled(analyzer, s, Receive(message));
    StepKeepsSound(analyzer, s, Receive(message));
    SchedulingKeepsSound(analyzer, ReceiveMessage(s, message));
  }

  lemma {:induction false} EditedAnywhere(s: System, documents: Documents, revision: nat, edits: nat)
    ensures Edit(s.(main := Draining), documents, revision, edits) == Edit(s, documents, revision, edits)
  {
  }

  lemma {:induction false} UneditedAnywhere(s: System, message: ClientMessage)
    requires EditedDocuments(s.server.documents, message, MintedRevision(message, s.server.nextRevision)).None?
    ensures ReceiveMessage(s.(main := Draining), message) == ReceiveMessage(s, message)
  {
    match message {
      case Ask(_) =>
      case Cancel(Some(_)) =>
      case _ =>
    }
  }

  /** Receiving a message ends the polling in any case. */
  lemma {:induction false} ReceivedAnywhere(s: System, message: ClientMessage)
    ensures ReceiveMessage(s.(main := Draining), message) == ReceiveMessage(s, message)
  {
    var minted := MintedRevision(message, s.server.nextRevision);
    var edited := EditedDocuments(s.server.documents, message, minted);
    if edited.Some? {
      EditedAnywhere(s, edited.value, minted, if message.DidClose? then s.history.edits else s.history.edits + 1);
    } else {
      UneditedAnywhere(s, message);
    }
  }

  /** The first half of an iteration of `server_event_loop`: a message, or a timeout. */
  function AfterReceiving(s: System, message: Option<ClientMessage>): (t: System)
    requires s.main.Polling?
    ensures t.main.Draining?
  {
    match message
    case None => s.(main := Draining)
    case Some(message) =>
      MessageIsHandled(s, message);
      AfterScheduling(ReceiveMessage(s, message))
  }

  /** A whole iteration that the worker does not interrupt. */
  function AfterIteration(s: System, message: Option<ClientMessage>): System
    requires s.main.Polling?
  {
    AfterDraining(AfterReceiving(s, message))
  }

  lemma {:induction false} MessageIsHandled(s: System, message: ClientMessage)
    ensures AfterScheduling(ReceiveMessage(s, message)).main.Draining?
  {
    match message {
      case Ask(_) =>
      case Cancel(Some(_)) =>
      case _ =>
    }
  }

  lemma {:induction false} DrainedIsPolling(s: System)
    requires s.main.Draining?
    ensures AfterDraining(s).main.Polling? || AfterDraining(s).main.Stopped?
    ensures AfterDraining(s).shared.results == []
    decreases |s.shared.results|
  {
    if s.shared.results != [] {
      TurnShrinks(s);
      DrainedIsPolling(AfterTurn(s));
    }
  }

  /** An iteration keeps the invariant; if nothing is left to do after it, the client is up to date. */
  lemma {:induction false} IterationKeepsSound(analyzer: Analyzer, s: System, message: Option<ClientMessage>)
    requires Sound(analyzer, s) && s.main.Polling? && (message.Some? ==> Acceptable(s, message.value))
    ensures Sound(analyzer, AfterIteration(s, message))
    ensures Quiescent(AfterIteration(s, message)) ==> UpToDate(analyzer, AfterIteration(s, message))
  {
    if message.Some? {
      MessageKeepsSound(analyzer, s, message.value);
    } else {
      StepKeepsSound(analyzer, s, PollTimeout);
    }
    DrainingKeepsSound(analyzer, AfterReceiving(s, message));
    if Quiescent(AfterIteration(s, message)) {
      QuiescentIsUpToDate(analyzer, AfterIteration(s, message));
    }
  }

  /** The client shows the analysis of the current documents. */
  ghost predicate UpToDate(analyzer: Analyzer, s: System) {
    var documents, shown := s.server.documents, s.client.shown;
    forall uri :: (if uri in shown then shown[uri] else []) ==
                  if documents != map[] && uri in analyzer.findings(documents)
                  then analyzer.findings(documents)[uri] else []
  }

  // ------------------------------------------------------------------- methods

  method ListUris(uris: set<string>) returns (listing: seq<string>)
    ensures forall uri :: uri in listing <==> uri in uris
    ensures forall i, j :: 0 <= i < j < |listing| ==> listing[i] != listing[j]
  {
    listing := [];
    var left := uris;
    while left != {}
      invariant forall uri :: uri in uris <==> uri in listing || uri in left
      invariant forall uri :: uri in listing ==> uri !in left
      invariant forall i, j :: 0 <= i < j < |listing| ==> listing[i] != listing[j]
      decreases |left|
    {
      var uri :| uri in left;
      listing := listing + [uri];
      left := left - {uri};
    }
  }

  /** One message for each URI of `listing`, in that order. */
  ghost predicate Announces(messages: seq<Publication>, listing: seq<string>) {
    && |messages| == |listing|
    && forall i :: 0 <= i < |listing| ==> messages[i].uri == listing[i]
  }

  lemma {:induction false} AnnouncesOnePerUri(messages: seq<Publication>, listing: seq<string>, uris: set<string>)
    requires Announces(messages, listing)
    requires forall uri :: uri in listing <==> uri in uris
    requires forall i, j :: 0 <= i < j < |listing| ==> listing[i] != listing[j]
    ensures OnePerUri(messages, uris)
  {
    forall uri ensures uri in Touched(messages) <==> uri in uris {
      if uri in uris {
        var i :| 0 <= i < |listing| && listing[i] == uri;
        assert messages[i] in messages;
      }
    }
  }

  /** The first loop of `publish_all_diagnostics`: a clearing message for every URI that is no longer reported. */
  method ClearGone(uris: set<string>) returns (messages: seq<Publication>)
    ensures OnePerUri(messages, uris)
    ensures forall message :: message in messages ==> message.diagnostics == [] && message.version == None
  {
    var gone := ListUris(uris);
    messages := [];
    for i := 0 to |gone|
      invariant Announces(messages, gone[..i])
      invariant forall message :: message in messages ==> message.diagnostics == [] && message.version == None
    {
      messages := messages + [Publication(gone[i], [], None)];
    }
    assert gone[..|gone|] == gone;
    AnnouncesOnePerUri(messages, gone, uris);
  }

  /** The message says what the report says about its URI, with the version of the document if it is open. */
  predicate Says(message: Publication, byUri: Report, documents: Documents) {
    && message.uri in byUri && message.diagnostics == byUri[message.uri]
    && message.version == if message.uri in documents then Some(documents[message.uri].version) else None
  }

  /** The second loop: the diagnostics of every current URI. */
  method SendCurrent(byUri: Report, documents: Documents) returns (messages: seq<Publication>)
    ensures OnePerUri(messages, byUri.Keys)
    ensures forall message :: message in messages ==> Says(message, byUri, documents)
  {
    var kept := ListUris(byUri.Keys);
    messages := [];
    for i := 0 to |kept|
      invariant Announces(messages, kept[..i])
      invariant forall message :: message in messages ==> Says(message, byUri, documents)
    {
      var uri := kept[i];
      assert uri in byUri;
      var version := if uri in documents then Some(documents[uri].version) else None;
      messages := messages + [Publication(uri, byUri[uri], version)];
    }
    assert kept[..|kept|] == kept;
    AnnouncesOnePerUri(messages, kept, byUri.Keys);
  }

  /** `publish_all_diagnostics`: clear what is no longer reported, then send every current URI. */
  method PublishAllDiagnostics(analyzer: Analyzer, task: DiagnosticTask)
    returns (messages: seq<Publication>, publishedUris: set<string>)
    ensures Publishes(messages, analyzer, task)
    ensures publishedUris == ByUri(analyzer, task.documents).Keys
    ensures publishedUris ==
            if task.documents == map[] then {} else task.documents.Keys + analyzer.findings(task.documents).Keys
    ensures Touched(messages) == task.publishedUris + publishedUris
    ensures forall i, j :: 0 <= i < j < |messages| ==> messages[i].uri != messages[j].uri
    ensures forall i :: 0 <= i < |messages| ==>
              && messages[i].diagnostics ==
                 (if task.documents == map[] then [] else Visible(analyzer.findings(task.documents), messages[i].uri))
              && messages[i].version ==
                 if messages[i].uri in task.documents then Some(task.documents[messages[i].uri].version) else None
  {
    var byUri := ByUri(analyzer, task.documents);
    publishedUris := byUri.Keys;
    var clearing := ClearGone(task.publishedUris - publishedUris);
    var current := SendCurrent(byUri, task.documents);
    messages := clearing + current;
    assert messages[..|clearing|] == clearing && messages[|clearing|..] == current;
    assert PublishesAt(messages, analyzer, task, |clearing|);
    CollectedIsFound(analyzer, task.documents);
    PublishedExactly(messages, analyzer, task);
  }

  class LanguageServer {
    const analyzer: Analyzer

    /** The event loop's own state. */
    var server: Server

    /** The channels and the locked cells. */
    var shared: Shared

    /** What the client has received. */
    var client: Client

    // Where the two threads are, and the bookkeeping of the model.
    ghost var main: MainPc
    var worker: WorkerPc
    ghost var history: History

    ghost function View(): System
      reads this
    {
      System(main, worker, server, shared, client, history)
    }

    constructor (analyzer: Analyzer)
      ensures this.analyzer == analyzer && View() == INITIAL
    {
      this.analyzer := analyzer;
      server := Server(map[], {}, false, map[], 0, false, {});
      shared := Shared([], [], {}, map[], None, false);
      client := Client([], map[]);
      main, worker, history := Polling, Idle, INITIAL.history;
    }

    method Send(id: RequestId, response: Response)
      modifies this`client
      ensures View() == Respond(old(View()), id, response)
    {
      client := client.(responses := client.responses + [(id, response)]);
    }

    method HandleRequest(request: Request)
      modifies this
      ensures View() == ReceiveRequest(old(View()), request)
      ensures old(Sound(analyzer, View()) && Acceptable(View(), Ask(request))) ==> Sound(analyzer, View())
    {
      if Sound(analyzer, View()) && Acceptable(View(), Ask(request)) {
        MessageKeepsSound(analyzer, View(), Ask(request));
      }
      history := history.(requested := history.requested + {request.id});
      main := Draining;
      if request.command.Shutdown? {
        server := server.(shutdownRequested := true);
        Send(request.id, Acknowledged);
        return;
      }
      if !SupportedRequest(request.command) {
        Send(request.id, Error(METHOD_NOT_FOUND));
        return;
      }
      server := server.(outstanding := server.outstanding[request.id := DocumentRevisions(server.documents)]);
      var task := RequestTask(request, server.documents, server.folders);
      shared := shared.(tasks := shared.tasks + [RequestWork(task)]);
      history := history.(accepted := history.accepted[request.id := task]);
    }

    method HandleCancellation(target: Option<RequestId>)
      modifies this
      ensures View() == ReceiveMessage(old(View()), Cancel(target))
      ensures old(Sound(analyzer, View()) && Acceptable(View(), Cancel(target))) ==> Sound(analyzer, View())
    {
      if Sound(analyzer, View()) && Acceptable(View(), Cancel(target)) {
        MessageKeepsSound(analyzer, View(), Cancel(target));
      }
      main := Draining;
      if target.None? {
        return;
      }
      var id := target.value;
      if id in server.outstanding {
        server := server.(outstanding := server.outstanding - {id});
        shared := shared.(cancelled := shared.cancelled + {id});
        Send(id, Error(REQUEST_CANCELLED));
      }
    }

    /** `schedule_diagnostics` */
    method ScheduleDiagnostics()
      requires main.StoringRevisions?
      modifies this
      ensures View() == AfterScheduling(old(View()))
    {
      var revisions := DocumentRevisions(server.documents);
      shared := shared.(currentRevisions := revisions);
      var task := DiagnosticTask(server.documents, revisions, server.publishedUris);
      shared := shared.(latest := Some(task));
      var shouldSignal := !shared.signalQueued;
      if shouldSignal {
        shared := shared.(signalQueued := true);
        shared := shared.(tasks := shared.tasks + [DiagnosticsSignal]);
      }
      main := Draining;
    }

    /** The new document map and revision counter of an edit, and its diagnostics. */
    method Replace(documents: Documents, revision: nat, ghost edits: nat)
      modifies this
      ensures View() == AfterScheduling(Edit(old(View()), documents, revision, edits))
    {
      server := server.(documents := documents, nextRevision := revision);
      main, history := StoringRevisions, Edit(View(), documents, revision, edits).history;
      ScheduleDiagnostics();
    }

    method HandleWatchedFiles(message: ClientMessage)
      requires message.WatchedFilesChanged? && main.Draining?
      modifies this
      ensures View() == AfterScheduling(ReceiveMessage(old(View()), message))
    {
      if message.anyMux {
        var revision := NextRevision(server.nextRevision);
        Replace(Bumped(server.documents, revision), revision, history.edits + 1);
      }
    }

    method HandleOpen(message: ClientMessage)
      requires message.DidOpen? && main.Draining?
      modifies this
      ensures View() == AfterScheduling(ReceiveMessage(old(View()), message))
    {
      if message.hasPath {
        var revision := NextRevision(server.nextRevision);
        Replace(server.documents[message.uri := Document(message.text, message.version, revision)], revision,
                history.edits + 1);
      }
    }

    method HandleChange(message: ClientMessage)
      requires message.DidChange? && main.Draining?
      modifies this
      ensures View() == AfterScheduling(ReceiveMessage(old(View()), message))
    {
      var uri, changes := message.uri, message.changes;
      if changes != [] && uri in server.documents && message.version > server.documents[uri].version {
        var revision := NextRevision(server.nextRevision);
        var document := server.documents[uri].(source := changes[|changes| - 1], version := message.version,
                                               revision := revision);
        Replace(server.documents[uri := document], revision, history.edits + 1);
      }
    }

    /** What a notification asks for, with the diagnostics it schedules. */
    method Dispatch(message: ClientMessage)
      requires !message.Ask? && main.Draining?
      modifies this
      ensures View() == AfterScheduling(ReceiveMessage(old(View()), message))
    {
      match message {
        case Exit => server := server.(exiting := true);
        case Cancel(target) => HandleCancellation(target);
        case ChangeFolders(folders) => server := server.(folders := folders);
        case WatchedFilesChanged(anyMux) => HandleWatchedFiles(message);
        case DidOpen(uri, hasPath, text, version) => HandleOpen(message);
        case DidChange(uri, version, changes) => HandleChange(message);
        case DidClose(uri) => Replace(server.documents - {uri}, server.nextRevision, history.edits);
        case _ =>
      }
    }

    /** `handle_notification` */
    method HandleNotification(message: ClientMessage)
      requires !message.Ask? && !main.StoringRevisions?
      modifies this
      ensures View() == AfterScheduling(ReceiveMessage(old(View()), message))
      ensures old(Sound(analyzer, View()) && Acceptable(View(), message)) ==> Sound(analyzer, View())
    {
      if Sound(analyzer, View()) && Acceptable(View(), message) {
        MessageKeepsSound(analyzer, View(), message);
      }
      ReceivedAnywhere(View(), message);
      main := Draining;
      Dispatch(message);
    }

    method SendMessages(messages: seq<Publication>)
      modifies this`client
      ensures View() == old(View()).(client := old(client).(shown := Deliver(old(client.shown), messages)))
    {
      var i := 0;
      while i < |messages|
        invariant 0 <= i <= |messages|
        invariant client.responses == old(client.responses)
        invariant Deliver(client.shown, messages[i..]) == Deliver(old(client.shown), messages)
      {
        assert messages[i..][1..] == messages[i + 1..];
        client := client.(shown := client.shown[messages[i].uri := messages[i].diagnostics]);
        i := i + 1;
      }
    }

    /** One turn of the result loop. */
    method AcceptResult()
      requires main.Draining? && shared.results != []
      modifies this
      ensures View() == AfterTurn(old(View()))
    {
      var result := shared.results[0];
      shared := shared.(results := shared.results[1..]);
      match result {
        case RequestDone(id, reply) =>
          if id !in server.outstanding {
            shared := shared.(cancelled := shared.cancelled - {id});
          } else {
            var expected := server.outstanding[id];
            server := server.(outstanding := server.outstanding - {id});
            if expected != DocumentRevisions(server.documents) {
              Send(id, Error(CONTENT_MODIFIED));
            } else {
              Send(id, Handled(reply));
            }
          }
        case DiagnosticsDone(revisions, messages, publishedUris) =>
          if revisions == DocumentRevisions(server.documents) {
            server := server.(publishedUris := publishedUris);
            history := history.(lastPublished := Some(revisions));
            SendMessages(messages);
          }
      }
    }

    /** `send_worker_results` */
    method SendWorkerResults()
      requires main.Draining?
      modifies this
      ensures View() == AfterDraining(old(View()))
      ensures old(Sound(analyzer, View())) ==> Sound(analyzer, View())
    {
      if Sound(analyzer, View()) {
        DrainingKeepsSound(analyzer, View());
      }
      while shared.results != []
        invariant main.Draining?
        invariant AfterDraining(View()) == AfterDraining(old(View()))
        decreases |shared.results|
      {
        TurnShrinks(View());
        AcceptResult();
      }
      main := if server.exiting then Stopped else Polling;
    }

    /** The worker's next access: it takes a task, looks at a locked cell, or sends a result. */
    method Access() returns (step: WorkerStep)
      requires worker.Idle? ==> shared.tasks != []
      modifies this`worker, this`shared
      ensures Enabled(analyzer, old(View()), Work(step))
      ensures View() == Apply(analyzer, old(View()), Work(step))
    {
      match worker {
        case Idle =>
          step := TakeTask;
          var task := shared.tasks[0];
          shared := shared.(tasks := shared.tasks[1..]);
          worker :=
            match task
            case RequestWork(request) => CheckingCancelled(request)
            case DiagnosticsSignal => TakingLatest;
        case CheckingCancelled(request) =>
          step := CheckCancelled;
          if request.request.id in shared.cancelled {
            shared := shared.(cancelled := shared.cancelled - {request.request.id});
            worker := Idle;
          } else {
            worker := Answering(request);
          }
        case Answering(request) =>
          step := Answer;
          shared := shared.(results := shared.results + [RequestDone(request.request.id, analyzer.answer(request))]);
          worker := Idle;
        case TakingLatest =>
          step := TakeLatest;
          shared := shared.(signalQueued := false);
          var task := shared.latest;
          shared := shared.(latest := None);
          worker := match task case None => Idle case Some(task) => CheckingFresh(task);
        case CheckingFresh(task) =>
          step := CheckFresh;
          worker := if task.revisions != shared.currentRevisions then Idle else Publishing(task);
        case Publishing(task) =>
          var messages, publishedUris := PublishAllDiagnostics(analyzer, task);
          step := Publish(messages);
          shared := shared.(results := shared.results + [DiagnosticsDone(task.revisions, messages, publishedUris)]);
          worker := Idle;
      }
    }

    /** The worker's next access keeps the invariant. */
    method WorkerAccess() returns (step: WorkerStep)
      requires worker.Idle? ==> shared.tasks != []
      modifies this`worker, this`shared
      ensures Enabled(analyzer, old(View()), Work(step))
      ensures View() == Apply(analyzer, old(View()), Work(step))
      ensures old(Sound(analyzer, View())) ==> Sound(analyzer, View())
    {
      step := Access();
      if old(Sound(analyzer, View())) {
        StepKeepsSound(analyzer, old(View()), Work(step));
      }
    }

    /** A message of the client, or the timeout of waiting for one. */
    method Receive(message: Option<ClientMessage>)
      requires main.Polling?
      modifies this
      ensures View() == AfterReceiving(old(View()), message)
    {
      if message.None? {
        main := Draining;
      } else if message.value.Ask? {
        HandleRequest(message.value.request);
      } else {
        HandleNotification(message.value);
      }
    }

    // One iteration of `server_event_loop` that the worker does not interrupt.
    // It keeps the invariant, so whenever nothing is left to do afterwards the
    // client shows the analysis of the current documents.
    method Iterate(message: Option<ClientMessage>)
      requires Sound(analyzer, View()) && main.Polling? && (message.Some? ==> Acceptable(View(), message.value))
      modifies this
      ensures View() == AfterIteration(old(View()), message)
      ensures (main.Polling? || main.Stopped?) && shared.results == []
      ensures Sound(analyzer, View()) && (Quiescent(View()) ==> UpToDate(analyzer, View()))
    {
      IterationKeepsSound(analyzer, View(), message);
      DrainedIsPolling(AfterReceiving(View(), message));
      Receive(message);
      SendWorkerResults();
    }
  }
}

/** Left to itself the language server empties its queues. */
module LspDraining {
  import opened Options
  import opened LspModel

  // ------------------------------------------------------------------- draining

  function TaskLoad(tasks: seq<WorkerTask>): nat
    decreases |tasks|
  {
    if tasks == [] then 0 else (if tasks[0].DiagnosticsSignal? then 6 else 5) + TaskLoad(tasks[1..])
  }

  lemma {:induction false} TaskLoadAppend(tasks: seq<WorkerTask>, task: WorkerTask)
    ensures TaskLoad(tasks + [task]) == TaskLoad(tasks) + TaskLoad([task])
    decreases |tasks|
  {
    if tasks == [] {
      assert tasks + [task] == [task];
    } else {
      assert (tasks + [task])[1..] == tasks[1..] + [task];
      TaskLoadAppend(tasks[1..], task);
    }
  }

  /** How many steps the two threads still have to take for what they were given. */
  function Load(s: System): nat {
    TaskLoad(s.shared.tasks) + 2 * |s.shared.results|
    + (match s.worker
       case Idle => 0
       case CheckingCancelled(_) => 4
       case Answering(_) => 3
       case TakingLatest => 5
       case CheckingFresh(_) => 4
       case Publishing(_) => 3)
    + (match s.main
       case StoringRevisions => 9
       case StoringLatest => 8
       case SendingSignal => 7
       case Forgetting(_) => 1
       case _ => 0)
  }

  predicate IsIdle(action: Action) {
    action.PollTimeout? || action.ResultsEmpty?
  }

  lemma {:induction false} WorkerShrinksLoad(analyzer: Analyzer, s: System, step: WorkerStep)
    requires Enabled(analyzer, s, Work(step))
    ensures Load(Apply(analyzer, s, Work(step))) < Load(s)
  {
  }

  lemma {:induction false} SchedulingShrinksLoad(analyzer: Analyzer, s: System, step: ScheduleStep)
    requires Enabled(analyzer, s, Schedule(step))
    ensures Load(Apply(analyzer, s, Schedule(step))) < Load(s)
  {
    TaskLoadAppend(s.shared.tasks, DiagnosticsSignal);
  }

  /** Every step that is neither a client message nor an empty poll uses up some of the load. */
  lemma {:induction false} WorkShrinksLoad(analyzer: Analyzer, s: System, action: Action)
    requires Enabled(analyzer, s, action) && !action.Receive? && !IsIdle(action)
    ensures Load(Apply(analyzer, s, action)) < Load(s)
  {
    match action {
      case Schedule(step) => SchedulingShrinksLoad(analyzer, s, step);
      case Work(step) => WorkerShrinksLoad(analyzer, s, step);
      case _ =>
    }
  }

  lemma {:induction false} Listing(uris: set<string>) returns (listing: seq<string>)
    ensures forall uri :: uri in listing <==> uri in uris
    ensures forall i, j :: 0 <= i < j < |listing| ==> listing[i] != listing[j]
    decreases |uris|
  {
    if uris == {} {
      listing := [];
    } else {
      var uri :| uri in uris;
      var rest := Listing(uris - {uri});
      listing := [uri] + rest;
    }
  }

  /** The notifications for a listing of URIs. */
  function Publications(listing: seq<string>, documents: Documents, report: Report): (messages: seq<Publication>)
    ensures |messages| == |listing|
    ensures forall i :: 0 <= i < |listing| ==> messages[i].uri == listing[i]
    ensures forall uri :: uri in Touched(messages) <==> uri in listing
  {
    var messages := seq(|listing|, i requires 0 <= i < |listing| =>
      Publication(listing[i], Visible(report, listing[i]),
                  if listing[i] in report && listing[i] in documents then Some(documents[listing[i]].version)
                  else None));
    assert forall i :: 0 <= i < |listing| ==> messages[i] in messages && messages[i].uri in Touched(messages);
    messages
  }

  lemma {:induction false} PublicationsSay(listing: seq<string>, documents: Documents, report: Report,
                                           message: Publication)
    requires message in Publications(listing, documents, report)
    ensures message.uri in listing && message.diagnostics == Visible(report, message.uri)
    ensures message.version ==
            if message.uri in report && message.uri in documents then Some(documents[message.uri].version) else None
  {
  }

  /** One message per URI of a listing. */
  lemma {:induction false} PublicationsList(listing: seq<string>, documents: Documents, report: Report,
                                            uris: set<string>)
    requires forall uri :: uri in listing <==> uri in uris
    requires forall i, j :: 0 <= i < j < |listing| ==> listing[i] != listing[j]
    ensures OnePerUri(Publications(listing, documents, report), uris)
  {
  }

  lemma {:induction false} SomePublication(analyzer: Analyzer, task: DiagnosticTask)
    returns (messages: seq<Publication>)
    ensures Publishes(messages, analyzer, task)
  {
    var current := ByUri(analyzer, task.documents);
    var gone := Listing(task.publishedUris - current.Keys);
    var kept := Listing(current.Keys);
    var clearing, setting := Publications(gone, task.documents, current), Publications(kept, task.documents, current);
    PublicationsList(gone, task.documents, current, task.publishedUris - current.Keys);
    PublicationsList(kept, task.documents, current, current.Keys);
    messages := clearing + setting;
    assert messages[..|gone|] == clearing && messages[|gone|..] == setting;
    forall message | message in clearing ensures message.diagnostics == [] && message.version == None {
      PublicationsSay(gone, task.documents, current, message);
    }
    forall message | message in setting
      ensures message.uri in current && message.diagnostics == current[message.uri]
      ensures message.version == if message.uri in task.documents then Some(task.documents[message.uri].version)
                                 else None
    {
      PublicationsSay(kept, task.documents, current, message);
    }
    assert PublishesAt(messages, analyzer, task, |gone|);
  }

  /** The next step of whichever thread has something to do. */
  lemma {:induction false} NextStep(analyzer: Analyzer, s: System) returns (action: Action)
    requires !s.main.Stopped? && !Quiescent(s)
    ensures Enabled(analyzer, s, action) && !action.Receive?
    ensures IsIdle(action) ==>
              if s.main.Polling? then s.shared.results != [] else s.shared.results == []
  {
    match s.main {
      case StoringRevisions => action := Schedule(StoreRevisions);
      case StoringLatest => action := Schedule(StoreLatest);
      case SendingSignal => action := Schedule(SendSignal);
      case Forgetting(_) => action := ForgetCancelled;
      case _ =>
        if s.shared.results != [] {
          action := if s.main.Draining? then AcceptResult else PollTimeout;
        } else if s.worker.Idle? && s.shared.tasks == [] {
          action := ResultsEmpty;
        } else {
          match s.worker {
            case Idle => action := Work(TakeTask);
            case CheckingCancelled(_) => action := Work(CheckCancelled);
            case Answering(_) => action := Work(Answer);
            case TakingLatest => action := Work(TakeLatest);
            case CheckingFresh(_) => action := Work(CheckFresh);
            case Publishing(task) =>
              var messages := SomePublication(analyzer, task);
              action := Work(Publish(messages));
          }
        }
    }
  }

  /** As long as the client has not sent `exit`, the server can always drain its queues by itself. */
  lemma {:induction false} Drains(analyzer: Analyzer, s: System) returns (states: seq<System>, actions: seq<Action>)
    requires !s.server.exiting && !s.main.Stopped?
    ensures Follows(analyzer, states, actions) && states[0] == s && Quiescent(Last(states))
    ensures forall action :: action in actions ==> !action.Receive?
    decreases Load(s), if s.main.Draining? then 1 else if s.main.Polling? && s.shared.results != [] then 2 else 0
  {
    if Quiescent(s) {
      states, actions := [s], [];
    } else {
      var action := NextStep(analyzer, s);
      if !IsIdle(action) {
        WorkShrinksLoad(analyzer, s, action);
      }
      states, actions := Drains(analyzer, Apply(analyzer, s, action));
      FollowsFrom(analyzer, s, action, states, actions);
      states, actions := [s] + states, [action] + actions;
    }
  }
}

/** Which response a request gets, over whole runs of the language server. */
module LspReplies {
  import opened Options
  import opened LspModel
  import opened LspInvariants
  import opened LspRuns
  import opened LspDraining
  import opened LspDocuments

  // ------------------------------------------------------------- what is justified

  /** The response to a request that a handler had to answer, asked by action `asked` of the run up to `n`. */
  ghost predicate HandlerResponse(analyzer: Analyzer, states: seq<System>, actions: seq<Action>, asked: nat, n: nat,
                                  request: Request, response: Response)
    requires n <= |actions| && |states| == |actions| + 1 && asked < n
  {
    || (&& response == Error(-32800)
        && exists c :: asked < c < n && actions[c] == Receive(Cancel(Some(request.id))))
    || exists d :: asked < d < n && actions[d] == AcceptResult && response ==
         if states[d].server.documents == states[asked].server.documents then
           Handled(analyzer.answer(
             RequestTask(request, states[asked].server.documents, states[asked].server.folders)))
         else Error(-32801)
  }

  // Shutting down is acknowledged and unknown methods are refused at once.  Anything else is
  // answered by its handler, or by an error because it was cancelled or the documents changed.
  ghost predicate Justified(analyzer: Analyzer, states: seq<System>, actions: seq<Action>, asked: nat, n: nat,
                            id: RequestId, response: Response)
    requires n <= |actions| && |states| == |actions| + 1
  {
    && asked < n && AsksFor(actions[asked], id)
    && var request := actions[asked].message.request;
       match request.command
       case Shutdown => response == Acknowledged
       case Unknown(_) => response == Error(-32601)
       case _ => HandlerResponse(analyzer, states, actions, asked, n, request, response)
  }

  lemma {:induction false} JustifiedLater(analyzer: Analyzer, states: seq<System>, actions: seq<Action>, asked: nat,
                                          n: nat, m: nat, id: RequestId, response: Response)
    requires n <= m <= |actions| && |states| == |actions| + 1
    requires Justified(analyzer, states, actions, asked, n, id, response)
    ensures Justified(analyzer, states, actions, asked, m, id, response)
  {
  }

  // ---------------------------------------------------------------------- one step

  /** The request an accepted task is for is one that a handler answers. */
  lemma {:induction false} AcceptedIsSupported(analyzer: Analyzer, states: seq<System>, actions: seq<Action>, n: nat,
                                               id: RequestId)
    requires IsRun(analyzer, states, actions) && Last(states).history.edits < REVISION_LIMIT
    requires n < |states| && id in states[n].history.accepted
    ensures !states[n].history.accepted[id].request.command.Shutdown?
    ensures !states[n].history.accepted[id].request.command.Unknown?
    decreases n
  {
    if n > 0 {
      AcceptedRequested(analyzer, states, actions, n - 1);
      StepAt(analyzer, states, actions, n - 1);
      AcceptedSteps(analyzer, states[n - 1], actions[n - 1], id);
      if AsksFor(actions[n - 1], id) {
        AskAccepts(states[n - 1], actions[n - 1].message.request);
      } else {
        AcceptedIsSupported(analyzer, states, actions, n - 1, id);
      }
    }
  }

  lemma {:induction false} AskAccepts(s: System, request: Request)
    requires s.history.accepted.Keys <= s.history.requested && request.id !in s.history.requested
    ensures request.id in ReceiveRequest(s, request).history.accepted <==>
            !request.command.Shutdown? && !request.command.Unknown?
  {
  }

  /** The response a step of the machine sends, if any. */
  ghost function Sent(s: System, action: Action): Option<(RequestId, Response)> {
    match action
    case Receive(Ask(request)) =>
      if request.command.Shutdown? then Some((request.id, Acknowledged))
      else if request.command.Unknown? then Some((request.id, Error(-32601)))
      else None
    case Receive(Cancel(Some(id))) => if id in s.server.outstanding then Some((id, Error(-32800))) else None
    case AcceptResult =>
      if s.shared.results != [] && s.shared.results[0].RequestDone? && s.shared.results[0].id in s.server.outstanding
      then
        Some((s.shared.results[0].id,
              if s.server.outstanding[s.shared.results[0].id] == DocumentRevisions(s.server.documents)
              then Handled(s.shared.results[0].reply) else Error(-32801)))
      else None
    case _ => None
  }

  lemma {:induction false} StepSends(analyzer: Analyzer, s: System, action: Action)
    requires Enabled(analyzer, s, action)
    ensures var sent := Sent(s, action);
            Apply(analyzer, s, action).client.responses ==
              s.client.responses + if sent.Some? then [sent.value] else []
  {
    if action.Receive? {
      match action.message {
        case Ask(_) =>
        case Cancel(Some(_)) =>
        case _ =>
      }
    }
  }

  /** A response sent on an answer is the handler's, or says that the documents changed. */
  lemma {:induction false} AnswerIsJustified(analyzer: Analyzer, states: seq<System>, actions: seq<Action>, n: nat)
    returns (asked: nat)
    requires IsRun(analyzer, states, actions) && Last(states).history.edits < REVISION_LIMIT
    requires n < |actions| && actions[n] == AcceptResult && Sent(states[n], actions[n]).Some?
    ensures var (id, response) := Sent(states[n], actions[n]).value;
            Justified(analyzer, states, actions, asked, n + 1, id, response)
  {
    var s := states[n];
    var id := s.shared.results[0].id;
    var (_, response) := Sent(s, actions[n]).value;
    DeliveredReplyIsForCurrentDocuments(analyzer, states, actions, n);
    StepAt(analyzer, states, actions, n);
    StepSends(analyzer, s, actions[n]);
    InvAt(analyzer, states, actions, n);
    assert OutstandingOk(s, id);
    AcceptedWhenAsked(analyzer, states, actions, n, id);
    asked :| asked < n && AsksFor(actions[asked], id) && s.history.accepted[id] ==
      RequestTask(actions[asked].message.request, states[asked].server.documents, states[asked].server.folders);
    AcceptedIsSupported(analyzer, states, actions, n, id);
    EqualRevisionsMeanEqualDocuments(analyzer, states, actions, asked, n);
    assert s.shared.results[0] == RequestDone(id, s.shared.results[0].reply);
    assert HandlerResponse(analyzer, states, actions, asked, n + 1, actions[asked].message.request, response);
  }

  lemma {:induction false} CancelIsJustified(analyzer: Analyzer, states: seq<System>, actions: seq<Action>, n: nat,
                                             id: RequestId)
    returns (asked: nat)
    requires IsRun(analyzer, states, actions) && Last(states).history.edits < REVISION_LIMIT
    requires n < |actions| && actions[n] == Receive(Cancel(Some(id))) && id in states[n].server.outstanding
    ensures Justified(analyzer, states, actions, asked, n + 1, id, Error(-32800))
  {
    InvAt(analyzer, states, actions, n);
    assert OutstandingOk(states[n], id);
    AcceptedWhenAsked(analyzer, states, actions, n, id);
    asked :| asked < n && AsksFor(actions[asked], id) && states[n].history.accepted[id] ==
      RequestTask(actions[asked].message.request, states[asked].server.documents, states[asked].server.folders);
    AcceptedIsSupported(analyzer, states, actions, n, id);
    assert HandlerResponse(analyzer, states, actions, asked, n + 1, actions[asked].message.request, Error(-32800));
  }

  lemma {:induction false} SentIsJustified(analyzer: Analyzer, states: seq<System>, actions: seq<Action>, n: nat)
    returns (asked: nat)
    requires IsRun(analyzer, states, actions) && Last(states).history.edits < REVISION_LIMIT
    requires n < |actions| && Sent(states[n], actions[n]).Some?
    ensures var (id, response) := Sent(states[n], actions[n]).value;
            Justified(analyzer, states, actions, asked, n + 1, id, response)
  {
    match actions[n] {
      case Receive(Ask(_)) => asked := n;
      case Receive(Cancel(Some(id))) => asked := CancelIsJustified(analyzer, states, actions, n, id);
      case AcceptResult => asked := AnswerIsJustified(analyzer, states, actions, n);
    }
  }

  // ---------------------------------------------------------------------- results

  // In every run each response is the right one for the request it names: whatever the client
  // received is justified by what it had asked, cancelled and edited before.
  lemma {:induction false} EveryResponseIsRight(analyzer: Analyzer, states: seq<System>, actions: seq<Action>, n: nat,
                                                k: nat)
    returns (asked: nat)
    requires IsRun(analyzer, states, actions) && Last(states).history.edits < REVISION_LIMIT
    requires n < |states| && k < |states[n].client.responses|
    ensures var (id, response) := states[n].client.responses[k];
            Justified(analyzer, states, actions, asked, n, id, response)
    decreases n
  {
    StepAt(analyzer, states, actions, n - 1);
    StepSends(analyzer, states[n - 1], actions[n - 1]);
    if k < |states[n - 1].client.responses| {
      asked := EveryResponseIsRight(analyzer, states, actions, n - 1, k);
      JustifiedLater(analyzer, states, actions, asked, n - 1, n, states[n].client.responses[k].0,
                     states[n].client.responses[k].1);
    } else {
      asked := SentIsJustified(analyzer, states, actions, n - 1);
    }
  }

  /** A cancellation is answered at once, exactly if its request was asked and has no response yet. */
  lemma {:induction false} CancelAnswersAtOnce(analyzer: Analyzer, states: seq<System>, actions: seq<Action>, i: nat,
                                               id: RequestId)
    requires IsRun(analyzer, states, actions) && Last(states).history.edits < REVISION_LIMIT
    requires i < |actions| && actions[i] == Receive(Cancel(Some(id)))
    ensures states[i + 1].client.responses == states[i].client.responses +
              if AskCount(actions[..i], id) > ResponseCount(states[i].client.responses, id) then [(id, Error(-32800))]
              else []
  {
    var s := states[i];
    InvAt(analyzer, states, actions, i);
    assert RequestOk(s, id);
    assert IsRun(analyzer, states[..i + 1], actions[..i]);
    RequestedIsAsked(analyzer, states[..i + 1], actions[..i], id);
    StepAt(analyzer, states, actions, i);
    StepSends(analyzer, s, actions[i]);
  }

  /** Two runs, one after the other. */
  lemma {:induction false} FollowsOn(analyzer: Analyzer, states: seq<System>, actions: seq<Action>, more: seq<System>,
                                     further: seq<Action>)
    requires Follows(analyzer, states, actions) && Follows(analyzer, more, further) && more[0] == Last(states)
    ensures Follows(analyzer, states + more[1..], actions + further)
    ensures Last(states + more[1..]) == Last(more)
  {
    var all, every := states + more[1..], actions + further;
    forall i {:trigger every[i]} | 0 <= i < |every|
      ensures Enabled(analyzer, all[i], every[i]) && all[i + 1] == Apply(analyzer, all[i], every[i])
    {
      if i < |actions| {
        StepAt(analyzer, states, actions, i);
      } else {
        StepAt(analyzer, more, further, i - |actions|);
      }
    }
  }

  /** Steps of the threads leave the documents alone. */
  lemma {:induction false} ThreadsKeepDocuments(analyzer: Analyzer, states: seq<System>, actions: seq<Action>, i: nat)
    requires Follows(analyzer, states, actions) && i < |states|
    requires forall action :: action in actions ==> !action.Receive?
    ensures states[i].server.documents == states[0].server.documents
    ensures states[i].history.edits == states[0].history.edits
    decreases i
  {
    if i > 0 {
      ThreadsKeepDocuments(analyzer, states, actions, i - 1);
      StepAt(analyzer, states, actions, i - 1);
      assert actions[i - 1] in actions;
      NonEditSteps(analyzer, states[i - 1], actions[i - 1]);
    }
  }

  lemma {:induction false} AskCountNone(actions: seq<Action>, id: RequestId)
    requires forall action :: action in actions ==> !action.Receive?
    ensures AskCount(actions, id) == 0
    decreases |actions|
  {
    if actions != [] {
      AskCountNone(actions[..|actions| - 1], id);
      assert actions[|actions| - 1] in actions;
    }
  }

  lemma {:induction false} AskCountAdds(left: seq<Action>, right: seq<Action>, id: RequestId)
    ensures AskCount(left + right, id) == AskCount(left, id) + AskCount(right, id)
    decreases |right|
  {
    if right == [] {
      assert left + right == left;
    } else {
      var n := |right| - 1;
      assert (left + right)[..|left| + n] == left + right[..n];
      AskCountAdds(left, right[..n], id);
    }
  }

  lemma {:induction false} AskedSomewhere(actions: seq<Action>, id: RequestId, i: nat)
    requires i < |actions| && AsksFor(actions[i], id)
    ensures AskCount(actions, id) > 0
    decreases |actions|
  {
    if i < |actions| - 1 {
      AskedSomewhere(actions[..|actions| - 1], id, i);
    }
  }

  lemma {:induction false} ResponseSomewhere(responses: seq<(RequestId, Response)>, id: RequestId) returns (k: nat)
    requires ResponseCount(responses, id) > 0
    ensures k < |responses| && responses[k].0 == id
    decreases |responses|
  {
    var n := |responses| - 1;
    if responses[n].0 == id {
      k := n;
    } else {
      k := ResponseSomewhere(responses[..n], id);
    }
  }

  /** The run goes on with a request and what the threads do about it. */
  ghost predicate Continues(analyzer: Analyzer, states: seq<System>, actions: seq<Action>, request: Request,
                            more: seq<System>, further: seq<Action>) {
    && IsRun(analyzer, more, further) && |actions| < |further| && states <= more && actions <= further
    && further[|actions|] == Receive(Ask(request))
    && forall i :: |actions| < i < |further| ==> !further[i].Receive?
  }

  /** A request received between two iterations, and the threads left to themselves until nothing is left to do. */
  lemma {:induction false} AskThenDrain(analyzer: Analyzer, states: seq<System>, actions: seq<Action>, request: Request)
    returns (more: seq<System>, further: seq<Action>)
    requires IsRun(analyzer, states, actions) && Last(states).history.edits < REVISION_LIMIT
    requires Last(states).main.Polling? && AskCount(actions, request.id) == 0
    ensures Continues(analyzer, states, actions, request, more, further) && Quiescent(Last(more))
    ensures Last(more).server.documents == Last(states).server.documents
    ensures Last(more).history.edits == Last(states).history.edits
  {
    var s, ask := Last(states), Receive(Ask(request));
    StopsAfterExit(analyzer, states, actions, |states| - 1);
    RequestedIsAsked(analyzer, states, actions, request.id);
    var t := Apply(analyzer, s, ask);
    NonEditSteps(analyzer, s, ask);
    FieldSteps(analyzer, s, ask);
    var rest, steps := Drains(analyzer, t);
    ThreadsKeepDocuments(analyzer, rest, steps, |rest| - 1);
    FollowsFrom(analyzer, s, ask, rest, steps);
    FollowsOn(analyzer, states, actions, [s] + rest, [ask] + steps);
    more, further := states + ([s] + rest)[1..], actions + ([ask] + steps);
    forall i | |actions| < i < |further| ensures !further[i].Receive? {
      assert further[i] == steps[i - |actions| - 1] && further[i] in steps;
    }
  }

  /** Only once is it asked. */
  lemma {:induction false} AskedOnce(analyzer: Analyzer, states: seq<System>, actions: seq<Action>, request: Request,
                                     more: seq<System>, further: seq<Action>, i: nat)
    requires Continues(analyzer, states, actions, request, more, further) && AskCount(actions, request.id) == 0
    requires i < |further| && AsksFor(further[i], request.id)
    ensures i == |actions|
  {
    if i < |actions| {
      assert further[i] == actions[i];
      AskedSomewhere(actions, request.id, i);
    }
  }

  /** Once everything has drained, whatever was asked has a response. */
  lemma {:induction false} DrainedHasResponse(analyzer: Analyzer, states: seq<System>, actions: seq<Action>,
                                              asked: nat, id: RequestId)
    returns (k: nat)
    requires IsRun(analyzer, states, actions) && Last(states).history.edits < REVISION_LIMIT
    requires Quiescent(Last(states)) && asked < |actions| && AsksFor(actions[asked], id)
    ensures k < |Last(states).client.responses| && Last(states).client.responses[k].0 == id
  {
    AskedSomewhere(actions, id, asked);
    ExactlyOneResponseAtQuiescence(analyzer, states, actions);
    k := ResponseSomewhere(Last(states).client.responses, id);
  }

  /** Where the run has gone on like that, the response is justified by the request having been asked then. */
  lemma {:induction false} JustifiedThen(analyzer: Analyzer, states: seq<System>, actions: seq<Action>,
                                         request: Request, more: seq<System>, further: seq<Action>, k: nat)
    requires Continues(analyzer, states, actions, request, more, further) && AskCount(actions, request.id) == 0
    requires Last(more).history.edits < REVISION_LIMIT
    requires k < |Last(more).client.responses| && Last(more).client.responses[k].0 == request.id
    ensures Justified(analyzer, more, further, |actions|, |further|, request.id, Last(more).client.responses[k].1)
  {
    var asked := EveryResponseIsRight(analyzer, more, further, |further|, k);
    AskedOnce(analyzer, states, actions, request, more, further, asked);
  }

  // From every state of every run before `exit`, between two iterations, a request can still be
  // asked, and once the queues have drained it has its handler's answer about the documents as they are.
  lemma {:induction false} AskedIsAnswered(analyzer: Analyzer, states: seq<System>, actions: seq<Action>,
                                           request: Request)
    returns (more: seq<System>, further: seq<Action>, k: nat)
    requires IsRun(analyzer, states, actions) && Last(states).history.edits < REVISION_LIMIT
    requires Last(states).main.Polling? && AskCount(actions, request.id) == 0
    requires !request.command.Shutdown? && !request.command.Unknown?
    ensures Continues(analyzer, states, actions, request, more, further) && Quiescent(Last(more))
    ensures k < |Last(more).client.responses|
    ensures Last(more).client.responses[k] ==
              (request.id, Handled(analyzer.answer(
                 RequestTask(request, Last(states).server.documents, Last(states).server.folders))))
  {
    more, further := AskThenDrain(analyzer, states, actions, request);
    k := DrainedHasResponse(analyzer, more, further, |actions|, request.id);
    JustifiedThen(analyzer, states, actions, request, more, further, k);
    OnlyAnswered(analyzer, more, further, |actions|, request, Last(more).client.responses[k].1);
    assert more[|actions|] == Last(states);
  }

  /** Where no message follows the request, only its handler's answer is left. */
  lemma {:induction false} OnlyAnswered(analyzer: Analyzer, states: seq<System>, actions: seq<Action>, n: nat,
                                        request: Request, response: Response)
    requires Follows(analyzer, states, actions) && n < |actions| && actions[n] == Receive(Ask(request))
    requires forall i :: n < i < |actions| ==> !actions[i].Receive?
    requires HandlerResponse(analyzer, states, actions, n, |actions|, request, response)
    ensures response ==
            Handled(analyzer.answer(RequestTask(request, states[n].server.documents, states[n].server.folders)))
  {
    forall d | n < d < |actions| ensures states[d].server.documents == states[n].server.documents {
      DocumentsAfter(analyzer, states, actions, n, d);
    }
  }

  lemma {:induction false} DocumentsAfter(analyzer: Analyzer, states: seq<System>, actions: seq<Action>, n: nat, d: nat)
    requires Follows(analyzer, states, actions) && n < d < |states|
    requires actions[n].Receive? && actions[n].message.Ask?
    requires forall i :: n < i < |actions| ==> !actions[i].Receive?
    ensures states[d].server.documents == states[n].server.documents
    decreases d
  {
    StepAt(analyzer, states, actions, d - 1);
    NonEditSteps(analyzer, states[d - 1], actions[d - 1]);
    if n < d - 1 {
      DocumentsAfter(analyzer, states, actions, n, d - 1);
    }
  }

  // ------------------------------------------------------- what the worker spares itself

  /** Between `c` and `i` the worker did nothing else. */
  ghost predicate NextWork(actions: seq<Action>, c: nat, i: nat) {
    c < i <= |actions| && forall j :: c < j < i ==> !actions[j].Work?
  }

  lemma {:induction false} WorkerStays(analyzer: Analyzer, s: System, action: Action)
    requires Enabled(analyzer, s, action) && !action.Work?
    ensures Apply(analyzer, s, action).worker == s.worker
  {
    if action.Receive? {
      match action.message {
        case Ask(_) =>
        case Cancel(Some(_)) =>
        case _ =>
      }
    }
  }

  /** A worker that is not idle came to where it is by its last step. */
  lemma {:induction false} LastWork(analyzer: Analyzer, states: seq<System>, actions: seq<Action>, i: nat)
    returns (c: nat)
    requires IsRun(analyzer, states, actions) && i < |states| && !states[i].worker.Idle?
    ensures NextWork(actions, c, i) && actions[c].Work? && states[c + 1].worker == states[i].worker
    decreases i
  {
    StepAt(analyzer, states, actions, i - 1);
    if actions[i - 1].Work? {
      c := i - 1;
    } else {
      WorkerStays(analyzer, states[i - 1], actions[i - 1]);
      c := LastWork(analyzer, states, actions, i - 1);
    }
  }

  // A request is answered only after the worker looked for its cancellation and found none; one
  // found cancelled is dropped together with its mark.
  lemma {:induction false} CancelledAreSkipped(analyzer: Analyzer, states: seq<System>, actions: seq<Action>, i: nat)
    requires IsRun(analyzer, states, actions) && i < |actions|
    ensures actions[i] == Work(Answer) ==> exists c: nat ::
              && NextWork(actions, c, i) && actions[c] == Work(CheckCancelled)
              && states[c].worker == CheckingCancelled(states[i].worker.request)
              && states[i].worker.request.request.id !in states[c].shared.cancelled
    ensures actions[i] == Work(CheckCancelled) && states[i].worker.request.request.id in states[i].shared.cancelled ==>
              && states[i + 1].worker.Idle? && states[i + 1].shared.results == states[i].shared.results
              && states[i + 1].shared.cancelled == states[i].shared.cancelled - {states[i].worker.request.request.id}
  {
    StepAt(analyzer, states, actions, i);
    if actions[i] == Work(Answer) {
      var c := LastWork(analyzer, states, actions, i);
      StepAt(analyzer, states, actions, c);
    }
  }

  // Documents are analysed only after the worker compared their revisions with the latest and
  // found them equal; a stale task is dropped.
  lemma {:induction false} StaleAreSkipped(analyzer: Analyzer, states: seq<System>, actions: seq<Action>, i: nat)
    requires IsRun(analyzer, states, actions) && i < |actions|
    ensures actions[i].Work? && actions[i].work.Publish? ==> exists c: nat ::
              && NextWork(actions, c, i) && actions[c] == Work(CheckFresh)
              && states[c].worker == CheckingFresh(states[i].worker.task)
              && states[i].worker.task.revisions == states[c].shared.currentRevisions
    ensures actions[i] == Work(CheckFresh) && states[i].worker.task.revisions != states[i].shared.currentRevisions ==>
              states[i + 1].worker.Idle? && states[i + 1].shared == states[i].shared
  {
    StepAt(analyzer, states, actions, i);
    if actions[i].Work? && actions[i].work.Publish? {
      var c := LastWork(analyzer, states, actions, i);
      StepAt(analyzer, states, actions, c);
    }
  }
}

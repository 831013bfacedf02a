// What the messages of a whole run of the language server add up to: the open documents and their
// texts, the workspace folders, and when the server stops.
module LspDocuments {
  import opened Options
  import opened LspModel
  import opened LspInvariants
  import opened LspRuns

  // ----------------------------------------------------------------- the messages

  /** `didOpen` of a URI that is a file. */
  predicate Opens(action: Action, uri: string) {
    action.Receive? && action.message.DidOpen? && action.message.uri == uri && action.message.hasPath
  }

  predicate Closes(action: Action, uri: string) {
    action == Receive(DidClose(uri))
  }

  /** `didChange` with at least one change; the whole text is the last one. */
  predicate Changes(action: Action, uri: string) {
    action.Receive? && action.message.DidChange? && action.message.uri == uri && action.message.changes != []
  }

  /** The text and version a message brings. */
  predicate Brings(action: Action, uri: string, text: string, version: int) {
    || action == Receive(DidOpen(uri, true, text, version))
    || (Changes(action, uri) && action.message.version == version
        && action.message.changes[|action.message.changes| - 1] == text)
  }

  /** Opened by action `i`, and not closed since. */
  ghost predicate OpenSince(actions: seq<Action>, uri: string, i: nat, n: nat) {
    && i < n <= |actions| && Opens(actions[i], uri)
    && forall j :: i < j < n ==> !Closes(actions[j], uri)
  }

  /** No action between `i` and `n` closes or reopens the document or brings a newer version. */
  ghost predicate NothingNewer(actions: seq<Action>, uri: string, version: int, i: nat, n: nat) {
    n <= |actions| &&
    forall j :: i < j < n ==>
      && !Closes(actions[j], uri) && !Opens(actions[j], uri)
      && (Changes(actions[j], uri) ==> actions[j].message.version <= version)
  }

  // Action `i` brought the text, with a version newer than the one before if it is a change, and nothing newer
  // came between.
  ghost predicate TextFrom(states: seq<System>, actions: seq<Action>, uri: string, text: string, version: int, i: nat,
                           n: nat)
  {
    && i < n <= |actions| && n <= |states| && Brings(actions[i], uri, text, version)
    && (Changes(actions[i], uri) ==>
          uri in states[i].server.documents && states[i].server.documents[uri].version < version)
    && NothingNewer(actions, uri, version, i, n)
  }

  // ---------------------------------------------------------------------- one step

  /** What an action does to the documents, one URI at a time. */
  ghost predicate DocumentStep(before: Documents, action: Action, after: Documents, uri: string) {
    && (uri in after <==> Opens(action, uri) || (uri in before && !Closes(action, uri)))
    && (uri in after ==>
          if Opens(action, uri) then
            after[uri].source == action.message.text && after[uri].version == action.message.version
          else if uri in before && Changes(action, uri) && action.message.version > before[uri].version then
            && after[uri].version == action.message.version
            && after[uri].source == action.message.changes[|action.message.changes| - 1]
          else
            uri in before && after[uri].source == before[uri].source && after[uri].version == before[uri].version)
  }

  lemma {:induction false} DocumentSteps(analyzer: Analyzer, s: System, action: Action, uri: string)
    requires Enabled(analyzer, s, action)
    ensures DocumentStep(s.server.documents, action, Apply(analyzer, s, action).server.documents, uri)
  {
    if action.Receive? {
      match action.message {
        case Ask(_) =>
        case Cancel(Some(_)) =>
        case _ =>
      }
    } else {
      NonEditSteps(analyzer, s, action);
    }
  }

  lemma {:induction false} FieldSteps(analyzer: Analyzer, s: System, action: Action)
    requires Enabled(analyzer, s, action)
    ensures var t := Apply(analyzer, s, action);
            && t.server.folders == (if action.Receive? && action.message.ChangeFolders? then action.message.folders
                                    else s.server.folders)
            && (t.server.exiting <==> s.server.exiting || action == Receive(Exit))
            && (t.main.Stopped? <==> s.main.Stopped? || (action == ResultsEmpty && s.server.exiting))
            && (t.main.Polling? <==> (s.main.Polling? && action.Work?) || (action == ResultsEmpty && !s.server.exiting))
            && (t.main.Stopped? && !s.main.Stopped? ==> s.shared.results == [])
  {
    if action.Receive? {
      match action.message {
        case Ask(_) =>
        case Cancel(Some(_)) =>
        case _ =>
      }
    }
  }

  // ---------------------------------------------------------------------- whole runs

  lemma {:induction false} StepAt(analyzer: Analyzer, states: seq<System>, actions: seq<Action>, n: nat)
    requires Follows(analyzer, states, actions) && n < |actions|
    ensures Enabled(analyzer, states[n], actions[n]) && states[n + 1] == Apply(analyzer, states[n], actions[n])
  {
    assert Enabled(analyzer, states[n], actions[n]);
  }

  lemma {:induction false} OpenSinceMore(actions: seq<Action>, uri: string, n: nat, m: nat)
    requires m == n + 1 && n < |actions|
    ensures (exists i: nat :: OpenSince(actions, uri, i, m)) <==>
            Opens(actions[n], uri) || (!Closes(actions[n], uri) && exists i: nat :: OpenSince(actions, uri, i, n))
  {
    if Opens(actions[n], uri) {
      assert OpenSince(actions, uri, n, m);
    } else if i: nat :| OpenSince(actions, uri, i, m) {
      assert OpenSince(actions, uri, i, n);
    }
    if !Closes(actions[n], uri) {
      if i: nat :| OpenSince(actions, uri, i, n) {
        assert OpenSince(actions, uri, i, m);
      }
    }
  }

  /** A document is open exactly if it was opened, and not closed since. */
  lemma {:induction false} OpenExactlySinceOpened(analyzer: Analyzer, states: seq<System>, actions: seq<Action>,
                                                  n: nat, uri: string)
    requires IsRun(analyzer, states, actions) && n < |states|
    ensures uri in states[n].server.documents <==> exists i: nat :: OpenSince(actions, uri, i, n)
    decreases n
  {
    if n > 0 {
      OpenExactlySinceOpened(analyzer, states, actions, n - 1, uri);
      StepAt(analyzer, states, actions, n - 1);
      DocumentSteps(analyzer, states[n - 1], actions[n - 1], uri);
      OpenSinceMore(actions, uri, n - 1, n);
    }
  }

  /** An action that brings nothing newer leaves the text the last one. */
  lemma {:induction false} TextStays(states: seq<System>, actions: seq<Action>, uri: string, text: string,
                                     version: int, i: nat, n: nat)
    requires TextFrom(states, actions, uri, text, version, i, n) && n < |actions| && n + 1 <= |states|
    requires !Closes(actions[n], uri) && !Opens(actions[n], uri)
    requires Changes(actions[n], uri) ==> actions[n].message.version <= version
    ensures TextFrom(states, actions, uri, text, version, i, n + 1)
  {
  }

  /** The action just taken brought the text. */
  lemma {:induction false} TextIsNew(states: seq<System>, actions: seq<Action>, uri: string, text: string,
                                     version: int, n: nat)
    requires n < |actions| && n + 1 <= |states| && Brings(actions[n], uri, text, version)
    requires Changes(actions[n], uri) ==>
               uri in states[n].server.documents && states[n].server.documents[uri].version < version
    ensures TextFrom(states, actions, uri, text, version, n, n + 1)
  {
  }

  /** The last action brought the text, or left it as it was and brought nothing newer. */
  ghost predicate TextStep(states: seq<System>, actions: seq<Action>, uri: string, n: nat)
    requires 0 < n < |states| && n <= |actions|
  {
    uri in states[n].server.documents ==>
      var document, before := states[n].server.documents[uri], states[n - 1].server.documents;
      || TextFrom(states, actions, uri, document.source, document.version, n - 1, n)
      || (&& uri in before && before[uri].source == document.source && before[uri].version == document.version
          && !Closes(actions[n - 1], uri) && !Opens(actions[n - 1], uri)
          && (Changes(actions[n - 1], uri) ==> actions[n - 1].message.version <= document.version))
  }

  lemma {:induction false} TextSteps(analyzer: Analyzer, states: seq<System>, actions: seq<Action>, n: nat, uri: string)
    requires IsRun(analyzer, states, actions) && 0 < n < |states|
    ensures TextStep(states, actions, uri, n)
  {
    StepAt(analyzer, states, actions, n - 1);
    DocumentSteps(analyzer, states[n - 1], actions[n - 1], uri);
    TextStepFrom(states, actions, n, uri);
  }

  lemma {:induction false} TextStepFrom(states: seq<System>, actions: seq<Action>, n: nat, uri: string)
    requires 0 < n < |states| && n <= |actions|
    requires DocumentStep(states[n - 1].server.documents, actions[n - 1], states[n].server.documents, uri)
    ensures TextStep(states, actions, uri, n)
  {
    if uri in states[n].server.documents {
      var document, before, action :=
        states[n].server.documents[uri], states[n - 1].server.documents, actions[n - 1];
      if Opens(action, uri) || (uri in before && Changes(action, uri) && action.message.version > before[uri].version) {
        TextIsNew(states, actions, uri, document.source, document.version, n - 1);
      }
    }
  }

  lemma {:induction false} TextByHistory(states: seq<System>, actions: seq<Action>, n: nat, uri: string)
    returns (i: nat)
    requires n < |states| && n <= |actions| && states[0].server.documents == map[]
    requires forall m {:trigger TextStep(states, actions, uri, m)} :: 0 < m <= n ==> TextStep(states, actions, uri, m)
    requires uri in states[n].server.documents
    ensures var document := states[n].server.documents[uri];
            TextFrom(states, actions, uri, document.source, document.version, i, n)
    decreases n
  {
    var text, version := states[n].server.documents[uri].source, states[n].server.documents[uri].version;
    assert TextStep(states, actions, uri, n);
    if TextFrom(states, actions, uri, text, version, n - 1, n) {
      i := n - 1;
    } else {
      i := TextByHistory(states, actions, n - 1, uri);
      TextStays(states, actions, uri, text, version, i, n - 1);
    }
  }

  /** The text of an open document is the one the last accepted message about it brought. */
  lemma {:induction false} TextIsLastBrought(analyzer: Analyzer, states: seq<System>, actions: seq<Action>, n: nat,
                                             uri: string)
    returns (i: nat)
    requires IsRun(analyzer, states, actions) && n < |states| && uri in states[n].server.documents
    ensures var document := states[n].server.documents[uri];
            TextFrom(states, actions, uri, document.source, document.version, i, n)
  {
    forall m | 0 < m <= n ensures TextStep(states, actions, uri, m) {
      TextSteps(analyzer, states, actions, m, uri);
    }
    i := TextByHistory(states, actions, n, uri);
  }

  /** A change to watched Mux files makes every analysis made or asked for so far out of date, and changes no text. */
  lemma {:induction false} WatchedFilesOutdateAll(analyzer: Analyzer, states: seq<System>, actions: seq<Action>,
                                                  i: nat, j: nat, uri: string)
    requires IsRun(analyzer, states, actions) && Last(states).history.edits < REVISION_LIMIT
    requires j <= i < |actions| && actions[i] == Receive(WatchedFilesChanged(true))
    requires uri in states[i + 1].server.documents
    ensures uri in states[i].server.documents
    ensures states[i + 1].server.documents[uri] ==
              states[i].server.documents[uri].(revision := states[i + 1].server.documents[uri].revision)
    ensures !HasEntry(states[j].server.documents, uri, states[i + 1].server.documents[uri].revision)
  {
    var s, revision := states[i], states[i + 1].server.documents[uri].revision;
    StepAt(analyzer, states, actions, i);
    EditsBelowLast(analyzer, states, actions, i + 1);
    NextRevisionBelowLimit(s.server.nextRevision) by {
      LedgerInvAt(analyzer, states, actions, i);
    }
    if HasEntry(states[j].server.documents, uri, revision) {
      EntryRecorded(analyzer, states, actions, j, i, uri, revision);
      LedgerInvAt(analyzer, states, actions, i);
    }
  }

  /** The workspace folders are those of the last message about them. */
  lemma {:induction false} FoldersAreLast(analyzer: Analyzer, states: seq<System>, actions: seq<Action>, n: nat)
    requires IsRun(analyzer, states, actions) && n < |states|
    ensures || (states[n].server.folders == {}
                && forall j :: 0 <= j < n ==> !(actions[j].Receive? && actions[j].message.ChangeFolders?))
            || exists i :: 0 <= i < n && actions[i] == Receive(ChangeFolders(states[n].server.folders))
                 && forall j :: i < j < n ==> !(actions[j].Receive? && actions[j].message.ChangeFolders?)
    decreases n
  {
    if n > 0 {
      FoldersAreLast(analyzer, states, actions, n - 1);
      StepAt(analyzer, states, actions, n - 1);
      FieldSteps(analyzer, states[n - 1], actions[n - 1]);
      if actions[n - 1].Receive? && actions[n - 1].message.ChangeFolders? {
        assert actions[n - 1] == Receive(ChangeFolders(states[n].server.folders));
      }
    }
  }

  /** The event loop stops only after `exit`, and after `exit` takes no further message. */
  lemma {:induction false} StopsAfterExit(analyzer: Analyzer, states: seq<System>, actions: seq<Action>, n: nat)
    requires IsRun(analyzer, states, actions) && n < |states|
    ensures states[n].server.exiting <==> exists i :: 0 <= i < n && actions[i] == Receive(Exit)
    ensures states[n].main.Stopped? ==> states[n].server.exiting
    ensures states[n].server.exiting ==> !states[n].main.Polling?
    decreases n
  {
    if n > 0 {
      StopsAfterExit(analyzer, states, actions, n - 1);
      StepAt(analyzer, states, actions, n - 1);
      FieldSteps(analyzer, states[n - 1], actions[n - 1]);
    }
  }
}

/** What a batch of diagnostics messages does to the client, and when revision maps determine documents. */
module LspDelivery {
  import opened Options
  import opened LspModel

  // ---------------------------------------------------------- revision maps

  ghost predicate Within(inner: Revisions, outer: Revisions) {
    forall uri :: uri in inner ==> uri in outer && outer[uri] == inner[uri]
  }

  /** Every entry of `revisions` has been the revision of some document. */
  ghost predicate Known(ledger: map<(string, nat), Document>, revisions: Revisions) {
    forall uri :: uri in revisions ==> (uri, revisions[uri]) in ledger
  }

  /** The documents a revision map stands for. */
  ghost function Restore(ledger: map<(string, nat), Document>, revisions: Revisions): Documents
    requires Known(ledger, revisions)
  {
    map uri | uri in revisions :: ledger[(uri, revisions[uri])]
  }

  /** `documents` is a map the ledger has recorded, entry by entry. */
  ghost predicate Recorded(ledger: map<(string, nat), Document>, documents: Documents) {
    forall uri :: uri in documents ==>
      && (uri, documents[uri].revision) in ledger
      && ledger[(uri, documents[uri].revision)] == documents[uri]
  }

  lemma {:induction false} RestoreRecorded(ledger: map<(string, nat), Document>, documents: Documents)
    requires Recorded(ledger, documents)
    ensures Known(ledger, DocumentRevisions(documents))
    ensures Restore(ledger, DocumentRevisions(documents)) == documents
  {
  }

  /** Two recorded document maps with the same revisions are the same map. */
  lemma {:induction false} RevisionsDetermineDocuments(ledger: map<(string, nat), Document>, left: Documents,
                                                       right: Documents)
    requires Recorded(ledger, left) && Recorded(ledger, right)
    requires DocumentRevisions(left) == DocumentRevisions(right)
    ensures left == right
  {
    RestoreRecorded(ledger, left);
    RestoreRecorded(ledger, right);
  }

  // ---------------------------------------------------------------- delivery

  // Each message of the batch says what the report says about its URI, and the batch mentions
  // every URI of the report.
  ghost predicate Renders(messages: seq<Publication>, report: Report) {
    && report.Keys <= Touched(messages)
    && forall message :: message in messages ==> message.diagnostics == Visible(report, message.uri)
  }

  lemma {:induction false} DeliverRendered(shown: Report, messages: seq<Publication>, report: Report)
    requires forall message :: message in messages ==> message.diagnostics == Visible(report, message.uri)
    ensures forall uri :: Visible(Deliver(shown, messages), uri) ==
                          if uri in Touched(messages) then Visible(report, uri) else Visible(shown, uri)
    decreases |messages|
  {
    if messages != [] {
      var head, rest := messages[0], messages[1..];
      assert messages == [head] + rest;
      DeliverRendered(shown[head.uri := head.diagnostics], rest, report);
      assert Touched(messages) == {head.uri} + Touched(rest);
    }
  }

  /** URIs on which the client shows something. */
  ghost predicate ShownWithin(shown: Report, scope: set<string>) {
    forall uri :: Visible(shown, uri) != [] ==> uri in scope
  }

  /** A batch whose scope covers everything on show leaves the client showing exactly the report. */
  lemma {:induction false} DeliverExactly(shown: Report, messages: seq<Publication>, report: Report)
    requires Renders(messages, report)
    requires ShownWithin(shown, Touched(messages))
    ensures forall uri :: Visible(Deliver(shown, messages), uri) == Visible(report, uri)
  {
    DeliverRendered(shown, messages, report);
  }

  lemma {:induction false} TouchedSplit(messages: seq<Publication>, split: nat)
    requires split <= |messages|
    ensures Touched(messages) == Touched(messages[..split]) + Touched(messages[split..])
    ensures forall message :: message in messages <==> message in messages[..split] || message in messages[split..]
  {
    assert messages == messages[..split] + messages[split..];
  }

  /** The collected report is what the analysis found, for every open document and every URI with findings. */
  lemma {:induction false} CollectedIsFound(analyzer: Analyzer, documents: Documents)
    ensures ByUri(analyzer, documents).Keys ==
            if documents == map[] then {} else documents.Keys + analyzer.findings(documents).Keys
    ensures forall uri :: Visible(ByUri(analyzer, documents), uri) ==
                          if documents == map[] then [] else Visible(analyzer.findings(documents), uri)
  {
  }

  /** A client that shows the collected report shows what the analysis found, on every URI. */
  lemma {:induction false} ShowsFindings(analyzer: Analyzer, documents: Documents, shown: Report)
    requires forall uri :: Visible(shown, uri) == Visible(ByUri(analyzer, documents), uri)
    ensures forall uri :: (if uri in shown then shown[uri] else []) ==
                          if documents != map[] && uri in analyzer.findings(documents)
                          then analyzer.findings(documents)[uri] else []
  {
    CollectedIsFound(analyzer, documents);
    forall uri
      ensures (if uri in shown then shown[uri] else []) ==
              if documents != map[] && uri in analyzer.findings(documents)
              then analyzer.findings(documents)[uri] else []
    {
      assert Visible(shown, uri) == Visible(ByUri(analyzer, documents), uri);
    }
  }

  /** What the message at `i` is about, and what it says. */
  lemma {:induction false} PublicationAt(messages: seq<Publication>, analyzer: Analyzer, task: DiagnosticTask,
                                         split: nat, i: nat)
    requires PublishesAt(messages, analyzer, task, split) && i < |messages|
    ensures var message, current := messages[i], ByUri(analyzer, task.documents);
            && (message.uri in current.Keys <==> split <= i) && message.uri in task.publishedUris + current.Keys
            && message.diagnostics == Visible(current, message.uri)
            && (split <= i ==>
                  message.version ==
                  if message.uri in task.documents then Some(task.documents[message.uri].version) else None)
            && (i < split ==> message.version == None)
  {
    if i < split {
      assert messages[..split][i] == messages[i];
      assert messages[i].uri in Touched(messages[..split]);
    } else {
      assert messages[split..][i - split] == messages[i];
    }
  }

  lemma {:induction false} PublicationsDiffer(messages: seq<Publication>, analyzer: Analyzer, task: DiagnosticTask,
                                              split: nat, i: nat, j: nat)
    requires PublishesAt(messages, analyzer, task, split) && i < j < |messages|
    ensures messages[i].uri != messages[j].uri
  {
    PublicationAt(messages, analyzer, task, split, i);
    PublicationAt(messages, analyzer, task, split, j);
    if j < split {
      assert messages[..split][i] == messages[i] && messages[..split][j] == messages[j];
    } else if split <= i {
      assert messages[split..][i - split] == messages[i] && messages[split..][j - split] == messages[j];
    }
  }

  lemma {:induction false} PublishedTouches(messages: seq<Publication>, analyzer: Analyzer, task: DiagnosticTask,
                                            split: nat)
    requires PublishesAt(messages, analyzer, task, split)
    ensures Touched(messages) == task.publishedUris + ByUri(analyzer, task.documents).Keys
  {
    TouchedSplit(messages, split);
  }

  // What `publish_all_diagnostics` queues: one message for each URI published before, each open
  // document and each URI with findings, saying what was found there.
  lemma {:induction false} PublishedExactly(messages: seq<Publication>, analyzer: Analyzer, task: DiagnosticTask)
    requires Publishes(messages, analyzer, task)
    ensures Touched(messages) == task.publishedUris +
              if task.documents == map[] then {}
              else task.documents.Keys + analyzer.findings(task.documents).Keys
    ensures forall i, j :: 0 <= i < j < |messages| ==> messages[i].uri != messages[j].uri
    ensures forall i :: 0 <= i < |messages| ==>
              && messages[i].diagnostics ==
                 (if task.documents == map[] then [] else Visible(analyzer.findings(task.documents), messages[i].uri))
              && messages[i].version ==
                 if messages[i].uri in task.documents then Some(task.documents[messages[i].uri].version) else None
  {
    var split: nat :| PublishesAt(messages, analyzer, task, split);
    CollectedIsFound(analyzer, task.documents);
    PublishedTouches(messages, analyzer, task, split);
    forall i, j | 0 <= i < j < |messages| ensures messages[i].uri != messages[j].uri {
      PublicationsDiffer(messages, analyzer, task, split, i, j);
    }
    forall i | 0 <= i < |messages|
      ensures messages[i].diagnostics ==
              if task.documents == map[] then [] else Visible(analyzer.findings(task.documents), messages[i].uri)
      ensures messages[i].version ==
              if messages[i].uri in task.documents then Some(task.documents[messages[i].uri].version) else None
    {
      PublicationAt(messages, analyzer, task, split, i);
    }
  }

  // What `publish_all_diagnostics` queues renders the analysis of its snapshot and also mentions
  // every URI published before.
  lemma {:induction false} PublishedRenders(messages: seq<Publication>, analyzer: Analyzer, task: DiagnosticTask)
    requires Publishes(messages, analyzer, task)
    ensures Renders(messages, ByUri(analyzer, task.documents))
    ensures Touched(messages) == task.publishedUris + ByUri(analyzer, task.documents).Keys
  {
    var split: nat :| PublishesAt(messages, analyzer, task, split);
    PublishedTouches(messages, analyzer, task, split);
    forall message | message in messages
      ensures message.diagnostics == Visible(ByUri(analyzer, task.documents), message.uri)
    {
      var i :| 0 <= i < |messages| && messages[i] == message;
      PublicationAt(messages, analyzer, task, split, i);
    }
  }
}

// The last part of `merge_coverage` of `mux-compiler/src/main.rs`: one record for each source, and
// what a reader gets out of them.
module CoverageReport {
  import opened Collections
  import opened Options
  import opened CoverageMerge
  import opened CoverageTotals
  import opened Lcov

  type StatementEntry = (Place, nat)

  type BranchEntry = ((Place, int), Outcomes)

  /** One outcome of a branch, and its count. */
  type OutcomeEntry = (((Place, int), bool), Option<nat>)

  // ------------------------------------------------------------------- writing

  /** The records of the sources, one after another. */
  function AllRecords(names: seq<string>, statements: seq<StatementEntry>,
                      branches: seq<BranchEntry>): seq<ReportLine> {
    if names == [] then []
    else
      var n := |names| - 1;
      AllRecords(names[..n], statements, branches)
        + Record(names[n], LinesOf(statements, names[n]), SitesOf(branches, names[n]))
  }

  predicate Distinct<T(==)>(list: seq<T>) {
    forall i, j :: 0 <= i < j < |list| ==> list[i] != list[j]
  }

  /** The sources of statements and branches, each once. */
  ghost predicate ListsSources(names: seq<string>, statements: seq<StatementEntry>, branches: seq<BranchEntry>) {
    && Distinct(names)
    && forall source :: source in names <==> source in StatementSources(statements) || source in BranchSources(branches)
  }

  function StatementSources(statements: seq<StatementEntry>): set<string> {
    set entry | entry in statements :: entry.0.0
  }

  function BranchSources(branches: seq<BranchEntry>): set<string> {
    set entry | entry in branches :: entry.0.0.0
  }

  /** The loop over the set of source names; the program goes through it in sorted order, here the order is open. */
  method WriteRecords(sources: set<string>, statements: seq<StatementEntry>, branches: seq<BranchEntry>)
    returns (report: seq<ReportLine>, ghost names: seq<string>)
    ensures Distinct(names) && (forall source :: source in names <==> source in sources)
    ensures report == AllRecords(names, statements, branches)
  {
    report, names := [], [];
    var left := sources;
    while left != {}
      invariant Distinct(names) && left <= sources
      invariant forall source :: source in names <==> source in sources && source !in left
      invariant report == AllRecords(names, statements, branches)
      decreases left
    {
      var source :| source in left;
      report := AppendLcovSource(report, source, statements, branches);
      AllRecordsSnoc(names, source, statements, branches);
      names, left := names + [source], left - {source};
    }
  }

  lemma {:induction false} AllRecordsSnoc(names: seq<string>, source: string, statements: seq<StatementEntry>,
                                          branches: seq<BranchEntry>)
    ensures AllRecords(names + [source], statements, branches) ==
            AllRecords(names, statements, branches)
              + Record(source, LinesOf(statements, source), SitesOf(branches, source))
  {
    assert (names + [source])[..|names|] == names;
  }

  // ------------------------------------------------------------------- reading

  /** What a reader of LCOV has gathered: data lines belong to the source named last. */
  datatype Reading = Reading(
    source: string,
    sources: seq<string>,
    statements: seq<StatementEntry>,
    outcomes: seq<OutcomeEntry>)

  const NOTHING := Reading("", [], [], [])

  function ReadLine(before: Reading, line: ReportLine): Reading {
    match line
    case SourceFile(source) => before.(source := source, sources := before.sources + [source])
    case LineData(line, count) => before.(statements := before.statements + [((before.source, line), count)])
    case BranchData(line, id, outcome, hits) =>
      before.(outcomes := before.outcomes + [((((before.source, line), id), outcome), hits)])
    case _ => before
  }

  function Read(before: Reading, report: seq<ReportLine>): Reading {
    if report == [] then before
    else ReadLine(Read(before, report[..|report| - 1]), report[|report| - 1])
  }

  lemma {:induction false} ReadAppend(before: Reading, left: seq<ReportLine>, right: seq<ReportLine>)
    ensures Read(before, left + right) == Read(Read(before, left), right)
    decreases |right|
  {
    if right == [] {
      assert left + right == left;
    } else {
      var n := |right| - 1;
      ReadAppend(before, left, right[..n]);
      assert (left + right)[..|left + right| - 1] == left + right[..n];
    }
  }

  lemma {:induction false} ReadOne(before: Reading, line: ReportLine)
    ensures Read(before, [line]) == ReadLine(before, line)
  {
    assert [line][..0] == [];
  }

  function PlaceLines(source: string, lines: seq<(nat, nat)>): seq<StatementEntry> {
    if lines == [] then []
    else PlaceLines(source, lines[..|lines| - 1]) + [((source, lines[|lines| - 1].0), lines[|lines| - 1].1)]
  }

  function OutcomePair(key: (Place, int), outcomes: Outcomes): seq<OutcomeEntry> {
    [((key, false), outcomes.notTaken), ((key, true), outcomes.taken)]
  }

  function PlaceSites(source: string, sites: seq<(nat, int, Outcomes)>): seq<OutcomeEntry> {
    if sites == [] then []
    else
      var (line, id, outcomes) := sites[|sites| - 1];
      PlaceSites(source, sites[..|sites| - 1]) + OutcomePair(((source, line), id), outcomes)
  }

  lemma {:induction false} ReadLineDatas(before: Reading, lines: seq<(nat, nat)>)
    ensures Read(before, LineDatas(lines)) ==
            before.(statements := before.statements + PlaceLines(before.source, lines))
    decreases |lines|
  {
    if lines == [] {
      assert before.statements + [] == before.statements;
    } else {
      var n := |lines| - 1;
      var data := LineData(lines[n].0, lines[n].1);
      ReadLineDatas(before, lines[..n]);
      ReadAppend(before, LineDatas(lines[..n]), [data]);
      ReadOne(Read(before, LineDatas(lines[..n])), data);
      Regroup(before.statements, PlaceLines(before.source, lines[..n]), [((before.source, lines[n].0), lines[n].1)]);
    }
  }

  lemma {:induction false} ReadPair(before: Reading, site: (nat, int, Outcomes))
    ensures Read(before, BranchPair(site)) ==
            before.(outcomes := before.outcomes + OutcomePair(((before.source, site.0), site.1), site.2))
  {
    var first, second := BranchPair(site)[0], BranchPair(site)[1];
    assert BranchPair(site) == [first] + [second];
    ReadAppend(before, [first], [second]);
    ReadOne(before, first);
    ReadOne(ReadLine(before, first), second);
  }

  lemma {:induction false} ReadBranchDatas(before: Reading, sites: seq<(nat, int, Outcomes)>)
    ensures Read(before, BranchDatas(sites)) ==
            before.(outcomes := before.outcomes + PlaceSites(before.source, sites))
    decreases |sites|
  {
    if sites == [] {
      assert before.outcomes + [] == before.outcomes;
    } else {
      var n := |sites| - 1;
      ReadBranchDatas(before, sites[..n]);
      ReadAppend(before, BranchDatas(sites[..n]), BranchPair(sites[n]));
      ReadPair(Read(before, BranchDatas(sites[..n])), sites[n]);
      Regroup(before.outcomes, PlaceSites(before.source, sites[..n]),
              OutcomePair(((before.source, sites[n].0), sites[n].1), sites[n].2));
    }
  }

  /** Lines that carry no data. */
  lemma {:induction false} ReadFrame(before: Reading, lines: seq<ReportLine>)
    requires forall i :: 0 <= i < |lines| ==> !lines[i].SourceFile? && !lines[i].LineData? && !lines[i].BranchData?
    ensures Read(before, lines) == before
    decreases |lines|
  {
    if lines != [] {
      ReadFrame(before, lines[..|lines| - 1]);
    }
  }

  lemma {:induction false} ReadLineSummary(before: Reading, source: string, lines: seq<(nat, nat)>)
    ensures Read(before, LineSummary(source, lines)) == before.(source := source, sources := before.sources + [source])
  {
    var first, rest := [TestName], [LinesFound(|lines|), LinesHit(HitLines(lines))];
    assert LineSummary(source, lines) == first + [SourceFile(source)] + rest;
    ReadFrame(before, first);
    ReadAppend(before, first, [SourceFile(source)]);
    ReadOne(before, SourceFile(source));
    ReadAppend(before, first + [SourceFile(source)], rest);
    ReadFrame(Read(before, first + [SourceFile(source)]), rest);
  }

  lemma {:induction false} ReadBranches(before: Reading, sites: seq<(nat, int, Outcomes)>)
    ensures Read(before, if sites == [] then [] else BranchSummary(sites) + BranchDatas(sites)) ==
            before.(outcomes := before.outcomes + PlaceSites(before.source, sites))
  {
    ReadBranchDatas(before, sites);
    if sites != [] {
      ReadAppend(before, BranchSummary(sites), BranchDatas(sites));
      ReadFrame(before, BranchSummary(sites));
    }
  }

  /** A record gives back what was written into it, under its source. */
  lemma {:induction false} ReadRecord(before: Reading, source: string, lines: seq<(nat, nat)>,
                                      sites: seq<(nat, int, Outcomes)>)
    ensures Read(before, Record(source, lines, sites)) ==
            Reading(source, before.sources + [source], before.statements + PlaceLines(source, lines),
                    before.outcomes + PlaceSites(source, sites))
  {
    var summary, datas := LineSummary(source, lines), LineDatas(lines);
    var part := if sites == [] then [] else BranchSummary(sites) + BranchDatas(sites);
    var named := Read(before, summary);
    ReadLineSummary(before, source, lines);
    ReadAppend(before, summary, datas);
    ReadLineDatas(named, lines);
    ReadAppend(before, summary + datas, part);
    ReadBranches(Read(before, summary + datas), sites);
    ReadAppend(before, summary + datas + part, [EndOfRecord]);
    ReadOne(Read(before, summary + datas + part), EndOfRecord);
  }

  // ------------------------------------------------------- every counter exactly once

  /** The entries of one source, in order. */
  function Keep<T>(entries: seq<T>, sourceOf: T -> string, source: string): seq<T> {
    if entries == [] then []
    else
      var n := |entries| - 1;
      Keep(entries[..n], sourceOf, source) + if sourceOf(entries[n]) == source then [entries[n]] else []
  }

  /** The entries source by source. */
  function BySource<T>(entries: seq<T>, sourceOf: T -> string, names: seq<string>): seq<T> {
    if names == [] then []
    else
      var n := |names| - 1;
      BySource(entries, sourceOf, names[..n]) + Keep(entries, sourceOf, names[n])
  }

  lemma {:induction false} KeepCounts<T>(entries: seq<T>, sourceOf: T -> string, source: string, entry: T)
    ensures multiset(Keep(entries, sourceOf, source))[entry] ==
            if sourceOf(entry) == source then multiset(entries)[entry] else 0
    decreases |entries|
  {
    if entries != [] {
      var n := |entries| - 1;
      KeepCounts(entries[..n], sourceOf, source, entry);
      assert entries == entries[..n] + [entries[n]];
    }
  }

  lemma {:induction false} BySourceCounts<T>(entries: seq<T>, sourceOf: T -> string, names: seq<string>, entry: T)
    requires Distinct(names)
    ensures multiset(BySource(entries, sourceOf, names))[entry] ==
            if sourceOf(entry) in names then multiset(entries)[entry] else 0
    decreases |names|
  {
    if names != [] {
      var n := |names| - 1;
      BySourceCounts(entries, sourceOf, names[..n], entry);
      KeepCounts(entries, sourceOf, names[n], entry);
      assert names == names[..n] + [names[n]];
    }
  }

  lemma {:induction false} SameMultiset<T>(left: multiset<T>, right: multiset<T>)
    requires forall x :: left[x] == right[x]
    ensures left == right
  {
    assert forall x :: x in left <==> left[x] > 0;
    assert forall x :: x in right <==> right[x] > 0;
    assert left <= right && right <= left;
  }

  /** Source by source is a rearrangement, if every source is named once. */
  lemma {:induction false} BySourceRearranges<T>(entries: seq<T>, sourceOf: T -> string, names: seq<string>)
    requires Distinct(names) && forall entry :: entry in entries ==> sourceOf(entry) in names
    ensures multiset(BySource(entries, sourceOf, names)) == multiset(entries)
  {
    var sorted := BySource(entries, sourceOf, names);
    forall entry ensures multiset(sorted)[entry] == multiset(entries)[entry] {
      BySourceCounts(entries, sourceOf, names, entry);
      if entry !in entries {
        assert entry !in multiset(entries);
      }
    }
    SameMultiset(multiset(sorted), multiset(entries));
  }

  lemma {:induction false} DistinctCount<T>(list: seq<T>, x: T)
    requires Distinct(list)
    ensures multiset(list)[x] <= 1
    decreases |list|
  {
    if list != [] {
      var n := |list| - 1;
      DistinctCount(list[..n], x);
      assert list == list[..n] + [list[n]];
    }
  }

  lemma {:induction false} TwiceCounts<T>(list: seq<T>, i: nat, j: nat)
    requires i < j < |list| && list[i] == list[j]
    ensures multiset(list)[list[i]] >= 2
  {
    assert list == list[..j] + [list[j]] + list[j + 1..];
    assert list[..j][i] == list[i];
    assert list[i] in multiset(list[..j]);
  }

  /** A rearrangement of an enumeration enumerates the same map. */
  lemma {:induction false} RearrangedEnumerates<K, V>(entries: seq<(K, V)>, other: seq<(K, V)>, contents: map<K, V>)
    requires Enumerates(entries, contents) && multiset(other) == multiset(entries)
    ensures Enumerates(other, contents)
  {
    forall i | 0 <= i < |other| ensures other[i].0 in contents && contents[other[i].0] == other[i].1 {
      assert other[i] in multiset(other);
      assert other[i] in multiset(entries);
    }
    forall i, j | 0 <= i < j < |other| ensures other[i].0 != other[j].0 {
      if other[i] == other[j] {
        TwiceCounts(other, i, j);
        DistinctCount(entries, other[i]);
      }
    }
    forall key | key in contents ensures (key, contents[key]) in other {
      assert (key, contents[key]) in multiset(entries);
      assert (key, contents[key]) in multiset(other);
    }
  }

  function StatementSource(entry: StatementEntry): string {
    entry.0.0
  }

  function OutcomeSource(entry: OutcomeEntry): string {
    entry.0.0.0.0
  }

  /** Both outcomes of every branch. */
  function OutcomesOf(branches: seq<BranchEntry>): seq<OutcomeEntry> {
    if branches == [] then []
    else
      var n := |branches| - 1;
      OutcomesOf(branches[..n]) + OutcomePair(branches[n].0, branches[n].1)
  }

  lemma {:induction false} PlacedLines(statements: seq<StatementEntry>, source: string)
    ensures PlaceLines(source, LinesOf(statements, source)) == Keep(statements, StatementSource, source)
    decreases |statements|
  {
    if statements != [] {
      var n := |statements| - 1;
      var ((at, line), count) := statements[n];
      PlacedLines(statements[..n], source);
      var before := LinesOf(statements[..n], source);
      assert (before + [(line, count)])[..|before|] == before;
      assert before + [] == before;
    }
  }

  lemma {:induction false} KeepPair(entries: seq<OutcomeEntry>, key: (Place, int), outcomes: Outcomes, source: string)
    ensures Keep(entries + OutcomePair(key, outcomes), OutcomeSource, source) ==
            Keep(entries, OutcomeSource, source) + if key.0.0 == source then OutcomePair(key, outcomes) else []
  {
    var first, second := OutcomePair(key, outcomes)[0], OutcomePair(key, outcomes)[1];
    var more := entries + OutcomePair(key, outcomes);
    assert more[..|more| - 1] == entries + [first];
    assert (entries + [first])[..|entries|] == entries;
  }

  lemma {:induction false} PlacedSites(branches: seq<BranchEntry>, source: string)
    ensures PlaceSites(source, SitesOf(branches, source)) == Keep(OutcomesOf(branches), OutcomeSource, source)
    decreases |branches|
  {
    if branches != [] {
      var n := |branches| - 1;
      var (((at, line), id), outcomes) := branches[n];
      PlacedSites(branches[..n], source);
      KeepPair(OutcomesOf(branches[..n]), branches[n].0, branches[n].1, source);
      var before := SitesOf(branches[..n], source);
      assert (before + [(line, id, outcomes)])[..|before|] == before;
      assert before + [] == before;
    }
  }

  /** Reading the report gives back all entries, source by source. */
  lemma {:induction false} ReadAllRecords(names: seq<string>, statements: seq<StatementEntry>,
                                          branches: seq<BranchEntry>)
    ensures var r := Read(NOTHING, AllRecords(names, statements, branches));
            && r.sources == names && r.statements == BySource(statements, StatementSource, names)
            && r.outcomes == BySource(OutcomesOf(branches), OutcomeSource, names)
    decreases |names|
  {
    if names != [] {
      var n := |names| - 1;
      var lines, sites := LinesOf(statements, names[n]), SitesOf(branches, names[n]);
      var before := AllRecords(names[..n], statements, branches);
      ReadAllRecords(names[..n], statements, branches);
      ReadAppend(NOTHING, before, Record(names[n], lines, sites));
      ReadRecord(Read(NOTHING, before), names[n], lines, sites);
      PlacedLines(statements, names[n]);
      PlacedSites(branches, names[n]);
    }
  }

  /** The merged branches, outcome by outcome. */
  ghost function OutcomeMap(branches: map<(Place, int), Outcomes>): map<((Place, int), bool), Option<nat>> {
    map key, taken: bool | key in branches ::
      (key, taken) := if taken then branches[key].taken else branches[key].notTaken
  }

  lemma {:induction false} OutcomesOfAt(branches: seq<BranchEntry>, i: nat)
    requires i < |OutcomesOf(branches)|
    ensures |OutcomesOf(branches)| == 2 * |branches|
    ensures var (key, outcomes) := branches[i / 2];
            OutcomesOf(branches)[i] ==
              if i % 2 == 0 then ((key, false), outcomes.notTaken) else ((key, true), outcomes.taken)
    decreases |branches|
  {
    var n := |branches| - 1;
    OutcomesOfLength(branches);
    OutcomesOfLength(branches[..n]);
    if i < 2 * n {
      OutcomesOfAt(branches[..n], i);
    }
  }

  lemma {:induction false} OutcomesOfLength(branches: seq<BranchEntry>)
    ensures |OutcomesOf(branches)| == 2 * |branches|
    decreases |branches|
  {
    if branches != [] {
      OutcomesOfLength(branches[..|branches| - 1]);
    }
  }

  lemma {:induction false} OutcomeListed(branches: seq<BranchEntry>, merged: map<(Place, int), Outcomes>,
                                         key: (Place, int), taken: bool)
    requires Enumerates(branches, merged) && key in merged
    ensures ((key, taken), if taken then merged[key].taken else merged[key].notTaken) in OutcomesOf(branches)
  {
    var k :| 0 <= k < |branches| && branches[k] == (key, merged[key]);
    var i := 2 * k + if taken then 1 else 0;
    OutcomesOfLength(branches);
    OutcomesOfAt(branches, i);
    assert OutcomesOf(branches)[i] == ((key, taken), if taken then merged[key].taken else merged[key].notTaken);
  }

  lemma {:induction false} OutcomeMerged(branches: seq<BranchEntry>, merged: map<(Place, int), Outcomes>, i: nat)
    requires Enumerates(branches, merged) && i < |OutcomesOf(branches)|
    ensures var entry := OutcomesOf(branches)[i];
            && entry.0.0 in merged
            && entry.1 == if entry.0.1 then merged[entry.0.0].taken else merged[entry.0.0].notTaken
  {
    OutcomesOfAt(branches, i);
  }

  lemma {:induction false} OutcomesDiffer(branches: seq<BranchEntry>, merged: map<(Place, int), Outcomes>, i: nat,
                                          j: nat)
    requires Enumerates(branches, merged) && i < j < |OutcomesOf(branches)|
    ensures OutcomesOf(branches)[i].0 != OutcomesOf(branches)[j].0
  {
    OutcomesOfAt(branches, i);
    OutcomesOfAt(branches, j);
    if i / 2 < j / 2 {
      assert branches[i / 2].0 != branches[j / 2].0;
    }
  }

  lemma {:induction false} OutcomesEnumerate(branches: seq<BranchEntry>, merged: map<(Place, int), Outcomes>)
    requires Enumerates(branches, merged)
    ensures Enumerates(OutcomesOf(branches), OutcomeMap(merged))
  {
    var entries, contents := OutcomesOf(branches), OutcomeMap(merged);
    forall i | 0 <= i < |entries| ensures entries[i].0 in contents && contents[entries[i].0] == entries[i].1 {
      OutcomeMerged(branches, merged, i);
    }
    forall i, j | 0 <= i < j < |entries| ensures entries[i].0 != entries[j].0 {
      OutcomesDiffer(branches, merged, i, j);
    }
    forall key | key in contents ensures (key, contents[key]) in entries {
      OutcomeListed(branches, merged, key.0, key.1);
    }
  }

  lemma {:induction false} SourcesNamed(names: seq<string>, statements: seq<StatementEntry>, branches: seq<BranchEntry>)
    requires ListsSources(names, statements, branches)
    ensures forall entry :: entry in statements ==> StatementSource(entry) in names
    ensures forall entry :: entry in OutcomesOf(branches) ==> OutcomeSource(entry) in names
  {
    forall entry | entry in statements ensures StatementSource(entry) in names {
      assert StatementSource(entry) in StatementSources(statements);
    }
    forall entry | entry in OutcomesOf(branches) ensures OutcomeSource(entry) in names {
      var i :| 0 <= i < |OutcomesOf(branches)| && OutcomesOf(branches)[i] == entry;
      OutcomesOfLength(branches);
      OutcomesOfAt(branches, i);
      assert branches[i / 2] in branches && OutcomeSource(entry) in BranchSources(branches);
    }
  }

  // A reader of the whole report finds each source once, each statement once, and each outcome of
  // each branch once, all with their merged counts.
  lemma {:induction false} ReportHoldsEveryCounterOnce(names: seq<string>, statements: seq<StatementEntry>,
                                                       branches: seq<BranchEntry>, merged: Merged)
    requires ListsSources(names, statements, branches)
    requires Enumerates(statements, merged.statements) && Enumerates(branches, merged.branches)
    ensures var r := Read(NOTHING, AllRecords(names, statements, branches));
            && Distinct(r.sources)
            && Enumerates(r.statements, merged.statements)
            && Enumerates(r.outcomes, OutcomeMap(merged.branches))
  {
    var r := Read(NOTHING, AllRecords(names, statements, branches));
    ReadAllRecords(names, statements, branches);
    SourcesNamed(names, statements, branches);
    BySourceRearranges(statements, StatementSource, names);
    RearrangedEnumerates(statements, r.statements, merged.statements);
    OutcomesEnumerate(branches, merged.branches);
    BySourceRearranges(OutcomesOf(branches), OutcomeSource, names);
    RearrangedEnumerates(OutcomesOf(branches), r.outcomes, OutcomeMap(merged.branches));
  }

  // --------------------------------------------------------------------- the whole

  /** The entries of a map, in some order. */
  method Entries<K(==), V>(contents: map<K, V>) returns (entries: seq<(K, V)>)
    ensures Enumerates(entries, contents)
  {
    entries := [];
    var left := contents.Keys;
    while left != {}
      invariant left <= contents.Keys
      invariant forall i, j :: 0 <= i < j < |entries| ==> entries[i].0 != entries[j].0
      invariant forall i :: 0 <= i < |entries| ==>
                  entries[i].0 in contents && entries[i].0 !in left && contents[entries[i].0] == entries[i].1
      invariant forall key :: key in contents && key !in left ==> (key, contents[key]) in entries
      decreases left
    {
      var key :| key in left;
      entries, left := entries + [(key, contents[key])], left - {key};
    }
  }

  /** The report of merged coverage: a reader gets back exactly the merged counters. */
  method WriteReport(merged: Merged) returns (report: seq<ReportLine>)
    ensures var r := Read(NOTHING, report);
            && Distinct(r.sources)
            && Enumerates(r.statements, merged.statements)
            && Enumerates(r.outcomes, OutcomeMap(merged.branches))
  {
    var statements := Entries(merged.statements);
    var branches := Entries(merged.branches);
    ghost var names;
    report, names := WriteRecords(StatementSources(statements) + BranchSources(branches), statements, branches);
    ReportHoldsEveryCounterOnce(names, statements, branches, merged);
  }

  // A reader finds each source once, and exactly the statements and outcomes that sites and records
  // name, each once and with the sum of the counts of its records.
  ghost predicate Holds(r: Reading, tests: seq<TestRecords>) {
    && Distinct(r.sources)
    && (forall i, j :: 0 <= i < j < |r.statements| ==> r.statements[i].0 != r.statements[j].0)
    && (forall i, j :: 0 <= i < j < |r.outcomes| ==> r.outcomes[i].0 != r.outcomes[j].0)
    && (forall place, count :: (place, count) in r.statements <==>
          StatementShown(tests, place) && count == RecordTotal(tests, Statement(place)))
    && forall place, id, taken, hits :: (((place, id), taken), hits) in r.outcomes <==>
         && BranchShown(tests, place, id)
         && hits == var total := RecordTotal(tests, Branch(place, id, taken)); if total == 0 then None else Some(total)
  }

  lemma {:induction false} EnumeratedIn<K, V>(entries: seq<(K, V)>, contents: map<K, V>, key: K, value: V)
    requires Enumerates(entries, contents)
    ensures (key, value) in entries <==> key in contents && contents[key] == value
  {
    if (key, value) in entries {
      var i :| 0 <= i < |entries| && entries[i] == (key, value);
    }
  }

  lemma {:induction false} HoldsTotals(r: Reading, merged: Merged, tests: seq<TestRecords>)
    requires Agrees(merged, AllEffects(tests)) && Distinct(r.sources)
    requires Enumerates(r.statements, merged.statements) && Enumerates(r.outcomes, OutcomeMap(merged.branches))
    ensures Holds(r, tests)
  {
    MergedTotals(tests, merged);
    forall place, count
      ensures (place, count) in r.statements <==>
                StatementShown(tests, place) && count == RecordTotal(tests, Statement(place))
    {
      EnumeratedIn(r.statements, merged.statements, place, count);
    }
    forall place, id, taken, hits
      ensures (((place, id), taken), hits) in r.outcomes <==>
              BranchShown(tests, place, id) && hits == OptionalCount(RecordTotal(tests, Branch(place, id, taken)))
    {
      EnumeratedIn(r.outcomes, OutcomeMap(merged.branches), ((place, id), taken), hits);
      OutcomeIsTotal(merged, tests, place, id, taken);
    }
  }

  lemma {:induction false} OutcomeIsTotal(merged: Merged, tests: seq<TestRecords>, place: Place, id: int, taken: bool)
    requires Agrees(merged, AllEffects(tests))
    ensures ((place, id), taken) in OutcomeMap(merged.branches) <==> BranchShown(tests, place, id)
    ensures ((place, id), taken) in OutcomeMap(merged.branches) ==>
              OutcomeMap(merged.branches)[((place, id), taken)] ==
                OptionalCount(RecordTotal(tests, Branch(place, id, taken)))
  {
    MergedTotals(tests, merged);
    assert (place, id) in merged.branches <==> BranchShown(tests, place, id);
  }

  // `merge_coverage` up to writing the file: what a reader gets out of the report
  // are the totals of the records of all tests, each once.
  method ReportCoverage(tests: seq<TestRecords>) returns (report: Option<seq<ReportLine>>)
    ensures report.Some? <==> GoodRecords(tests) && NoOverflow(tests) && SomeSite(tests)
    ensures report.Some? ==> Holds(Read(NOTHING, report.value), tests)
  {
    var merged := MergeCoverage(tests);
    if merged.None? {
      return None;
    }
    var written := WriteReport(merged.value);
    HoldsTotals(Read(NOTHING, written), merged.value, tests);
    report := Some(written);
  }
}

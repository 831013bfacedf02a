/** `append_lcov_source` of `mux-compiler/src/main.rs`: one source's record of the LCOV report. */
module Lcov {
  import opened Options
  import opened CoverageMerge

  datatype ReportLine =
    | TestName
    | SourceFile(source: string)
    | LinesFound(lines: nat)
    | LinesHit(lines: nat)
    | LineData(line: nat, count: nat)
    | BranchesFound(branches: nat)
    | BranchesHit(branches: nat)
    | BranchData(at: nat, id: int, outcome: bool, hits: Option<nat>)
    | EndOfRecord

  /** The entries of a map, each once, in the order it iterates them. */
  ghost predicate Enumerates<K, V>(entries: seq<(K, V)>, contents: map<K, V>) {
    && (forall i, j :: 0 <= i < j < |entries| ==> entries[i].0 != entries[j].0)
    && (forall i :: 0 <= i < |entries| ==> entries[i].0 in contents && contents[entries[i].0] == entries[i].1)
    && (forall key :: key in contents ==> (key, contents[key]) in entries)
  }

  /** Lines and counts of one source. */
  function LinesOf(statements: seq<(Place, nat)>, source: string): seq<(nat, nat)> {
    if statements == [] then []
    else
      var ((at, line), count) := statements[|statements| - 1];
      LinesOf(statements[..|statements| - 1], source) + if at == source then [(line, count)] else []
  }

  /** Branch sites of one source. */
  function SitesOf(branches: seq<((Place, int), Outcomes)>, source: string): seq<(nat, int, Outcomes)> {
    if branches == [] then []
    else
      var (((at, line), id), outcomes) := branches[|branches| - 1];
      SitesOf(branches[..|branches| - 1], source) + if at == source then [(line, id, outcomes)] else []
  }

  function HitLines(lines: seq<(nat, nat)>): nat {
    if lines == [] then 0
    else HitLines(lines[..|lines| - 1]) + if lines[|lines| - 1].1 > 0 then 1 else 0
  }

  function Seen(count: Option<nat>): nat {
    if count.Some? then 1 else 0
  }

  function HitOutcomes(sites: seq<(nat, int, Outcomes)>): nat {
    if sites == [] then 0
    else
      var outcomes := sites[|sites| - 1].2;
      HitOutcomes(sites[..|sites| - 1]) + Seen(outcomes.notTaken) + Seen(outcomes.taken)
  }

  // ---------------------------------------------------------------- reading a record

  /** How many lines of the report satisfy a test. */
  function Count(report: seq<ReportLine>, which: ReportLine -> bool): nat {
    if report == [] then 0
    else Count(report[..|report| - 1], which) + if which(report[|report| - 1]) then 1 else 0
  }

  lemma {:induction false} CountAppend(left: seq<ReportLine>, right: seq<ReportLine>, which: ReportLine -> bool)
    ensures Count(left + right, which) == Count(left, which) + Count(right, which)
    decreases |right|
  {
    if right == [] {
      assert left + right == left;
    } else {
      CountAppend(left, right[..|right| - 1], which);
      assert (left + right)[..|left + right| - 1] == left + right[..|right| - 1];
    }
  }

  lemma {:induction false} CountOne(line: ReportLine, which: ReportLine -> bool)
    ensures Count([line], which) == if which(line) then 1 else 0
  {
    assert [line][..0] == [];
  }

  predicate IsLine(line: ReportLine) {
    line.LineData?
  }

  predicate IsHitLine(line: ReportLine) {
    line.LineData? && line.count > 0
  }

  predicate IsBranch(line: ReportLine) {
    line.BranchData?
  }

  predicate IsHitBranch(line: ReportLine) {
    line.BranchData? && line.hits.Some?
  }

  /** Every summary line says the given number. */
  ghost predicate Summarize(report: seq<ReportLine>, lines: nat, hitLines: nat, branches: nat, hitBranches: nat) {
    forall i :: 0 <= i < |report| ==>
      && (report[i].LinesFound? ==> report[i].lines == lines)
      && (report[i].LinesHit? ==> report[i].lines == hitLines)
      && (report[i].BranchesFound? ==> report[i].branches == branches)
      && (report[i].BranchesHit? ==> report[i].branches == hitBranches)
  }

  /** The summary lines of a record agree with its data lines. */
  ghost predicate SummariesAgree(record: seq<ReportLine>) {
    Summarize(record, Count(record, IsLine), Count(record, IsHitLine), Count(record, IsBranch),
              Count(record, IsHitBranch))
  }

  // ----------------------------------------------------------------- writing a record

  function LineDatas(lines: seq<(nat, nat)>): (datas: seq<ReportLine>)
    ensures |datas| == |lines|
    ensures forall i :: 0 <= i < |datas| ==> datas[i] == LineData(lines[i].0, lines[i].1)
  {
    if lines == [] then []
    else LineDatas(lines[..|lines| - 1]) + [LineData(lines[|lines| - 1].0, lines[|lines| - 1].1)]
  }

  function BranchPair(site: (nat, int, Outcomes)): seq<ReportLine> {
    [BranchData(site.0, site.1, false, site.2.notTaken), BranchData(site.0, site.1, true, site.2.taken)]
  }

  function BranchDatas(sites: seq<(nat, int, Outcomes)>): (datas: seq<ReportLine>)
    ensures forall i :: 0 <= i < |datas| ==> datas[i].BranchData?
  {
    if sites == [] then []
    else BranchDatas(sites[..|sites| - 1]) + BranchPair(sites[|sites| - 1])
  }

  function LineSummary(source: string, lines: seq<(nat, nat)>): seq<ReportLine> {
    [TestName, SourceFile(source), LinesFound(|lines|), LinesHit(HitLines(lines))]
  }

  function BranchSummary(sites: seq<(nat, int, Outcomes)>): seq<ReportLine> {
    [BranchesFound(2 * |sites|), BranchesHit(HitOutcomes(sites))]
  }

  function Record(source: string, lines: seq<(nat, nat)>, sites: seq<(nat, int, Outcomes)>): seq<ReportLine> {
    LineSummary(source, lines) + LineDatas(lines) +
    (if sites == [] then [] else BranchSummary(sites) + BranchDatas(sites)) + [EndOfRecord]
  }

  /** The loop writing DA lines. */
  method PushLines(record: seq<ReportLine>, source: string, statements: seq<(Place, nat)>)
    returns (more: seq<ReportLine>)
    ensures more == record + LineDatas(LinesOf(statements, source))
  {
    var datas: seq<ReportLine> := [];
    for i := 0 to |statements|
      invariant datas == LineDatas(LinesOf(statements[..i], source))
    {
      DatasStep(statements, i, source);
      var line, count := statements[i].0.1, statements[i].1;
      if statements[i].0.0 == source {
        datas := datas + [LineData(line, count)];
      }
    }
    assert statements[..|statements|] == statements;
    more := record + datas;
  }

  /** The loop writing BRDA lines. */
  method PushBranches(record: seq<ReportLine>, branchSites: seq<(nat, int, Outcomes)>) returns (more: seq<ReportLine>)
    ensures more == record + BranchDatas(branchSites)
  {
    more := record;
    for i := 0 to |branchSites|
      invariant more == record + BranchDatas(branchSites[..i])
    {
      assert branchSites[..i + 1][..i] == branchSites[..i];
      var (line, id, outcomes) := branchSites[i];
      more := more + [BranchData(line, id, false, outcomes.notTaken), BranchData(line, id, true, outcomes.taken)];
    }
    assert branchSites[..|branchSites|] == branchSites;
  }

  /** `append_lcov_source` */
  method AppendLcovSource(report: seq<ReportLine>, source: string, statements: seq<(Place, nat)>,
                          branches: seq<((Place, int), Outcomes)>)
    returns (more: seq<ReportLine>)
    ensures more == report + Record(source, LinesOf(statements, source), SitesOf(branches, source))
  {
    var sourceLines := LinesOf(statements, source);
    var record := [TestName, SourceFile(source), LinesFound(|sourceLines|), LinesHit(HitLines(sourceLines))];
    record := PushLines(record, source, statements);
    var branchSites := SitesOf(branches, source);
    if branchSites == [] {
      return report + (record + [EndOfRecord]);
    }
    record := record + [BranchesFound(|branchSites| * 2), BranchesHit(HitOutcomes(branchSites))];
    record := PushBranches(record, branchSites);
    more := report + (record + [EndOfRecord]);
  }

  lemma {:induction false} DatasStep(statements: seq<(Place, nat)>, i: nat, source: string)
    requires i < |statements|
    ensures LineDatas(LinesOf(statements[..i + 1], source)) ==
            if statements[i].0.0 == source
            then LineDatas(LinesOf(statements[..i], source)) + [LineData(statements[i].0.1, statements[i].1)]
            else LineDatas(LinesOf(statements[..i], source))
  {
    var ((at, line), count) := statements[i];
    var before := LinesOf(statements[..i], source);
    assert statements[..i + 1][..i] == statements[..i];
    assert LinesOf(statements[..i + 1], source) == before + if at == source then [(line, count)] else [];
    LineDatasSnoc(before, line, count);
    assert before + [] == before;
  }

  lemma {:induction false} LineDatasSnoc(lines: seq<(nat, nat)>, line: nat, count: nat)
    ensures LineDatas(lines + [(line, count)]) == LineDatas(lines) + [LineData(line, count)]
  {
    assert (lines + [(line, count)])[..|lines|] == lines;
  }

  // ------------------------------------------------------------------------ results

  lemma {:induction false} CountLineDatas(lines: seq<(nat, nat)>)
    ensures Count(LineDatas(lines), IsLine) == |lines| && Count(LineDatas(lines), IsHitLine) == HitLines(lines)
    ensures Count(LineDatas(lines), IsBranch) == Count(LineDatas(lines), IsHitBranch) == 0
    decreases |lines|
  {
    if lines != [] {
      var n := |lines| - 1;
      CountLineDatas(lines[..n]);
      assert LineDatas(lines)[..n] == LineDatas(lines[..n]);
      assert |LineDatas(lines)| - 1 == n;
    }
  }

  lemma {:induction false} CountPair(site: (nat, int, Outcomes), which: ReportLine -> bool)
    ensures Count(BranchPair(site), which) ==
            (if which(BranchPair(site)[0]) then 1 else 0) + if which(BranchPair(site)[1]) then 1 else 0
  {
    CountOne(BranchPair(site)[0], which);
    assert BranchPair(site)[..1] == [BranchPair(site)[0]];
  }

  lemma {:induction false} CountBranchDatas(sites: seq<(nat, int, Outcomes)>)
    ensures Count(BranchDatas(sites), IsBranch) == 2 * |sites|
    ensures Count(BranchDatas(sites), IsHitBranch) == HitOutcomes(sites)
    ensures Count(BranchDatas(sites), IsLine) == Count(BranchDatas(sites), IsHitLine) == 0
    decreases |sites|
  {
    if sites != [] {
      var n := |sites| - 1;
      CountBranchDatas(sites[..n]);
      AppendPair(sites[..n], sites[n], IsBranch);
      AppendPair(sites[..n], sites[n], IsHitBranch);
      AppendPair(sites[..n], sites[n], IsLine);
      AppendPair(sites[..n], sites[n], IsHitLine);
    }
  }

  lemma {:induction false} AppendPair(sites: seq<(nat, int, Outcomes)>, site: (nat, int, Outcomes),
                                      which: ReportLine -> bool)
    ensures Count(BranchDatas(sites) + BranchPair(site), which) == Count(BranchDatas(sites), which) +
            (if which(BranchPair(site)[0]) then 1 else 0) + if which(BranchPair(site)[1]) then 1 else 0
  {
    CountAppend(BranchDatas(sites), BranchPair(site), which);
    CountPair(site, which);
  }

  lemma {:induction false} CountFrame(source: string, lines: seq<(nat, nat)>, sites: seq<(nat, int, Outcomes)>,
                                      which: ReportLine -> bool)
    requires !which(TestName) && !which(SourceFile(source)) && !which(LinesFound(|lines|))
    requires !which(LinesHit(HitLines(lines)))
    requires !which(BranchesFound(2 * |sites|)) && !which(BranchesHit(HitOutcomes(sites))) && !which(EndOfRecord)
    ensures Count(Record(source, lines, sites), which) ==
              Count(LineDatas(lines), which) + Count(BranchDatas(sites), which)
  {
    var summary, datas := LineSummary(source, lines), LineDatas(lines);
    var part := if sites == [] then [] else BranchSummary(sites) + BranchDatas(sites);
    NoneCounted(summary, which);
    NoneCounted(BranchSummary(sites), which);
    CountAppend(BranchSummary(sites), BranchDatas(sites), which);
    assert Count(part, which) == Count(BranchDatas(sites), which);
    CountAppend(summary, datas, which);
    CountAppend(summary + datas, part, which);
    CountAppend(summary + datas + part, [EndOfRecord], which);
    CountOne(EndOfRecord, which);
  }

  lemma {:induction false} NoneCounted(report: seq<ReportLine>, which: ReportLine -> bool)
    requires forall i :: 0 <= i < |report| ==> !which(report[i])
    ensures Count(report, which) == 0
    decreases |report|
  {
    if report != [] {
      NoneCounted(report[..|report| - 1], which);
    }
  }

  lemma {:induction false} RecordSummarizes(source: string, lines: seq<(nat, nat)>, sites: seq<(nat, int, Outcomes)>)
    ensures Summarize(Record(source, lines, sites), |lines|, HitLines(lines), 2 * |sites|, HitOutcomes(sites))
  {
  }

  lemma {:induction false} CountsLines(source: string, lines: seq<(nat, nat)>, sites: seq<(nat, int, Outcomes)>)
    ensures Count(Record(source, lines, sites), IsLine) == |lines|
  {
    CountLineDatas(lines);
    CountBranchDatas(sites);
    CountFrame(source, lines, sites, IsLine);
  }

  lemma {:induction false} CountsHitLines(source: string, lines: seq<(nat, nat)>, sites: seq<(nat, int, Outcomes)>)
    ensures Count(Record(source, lines, sites), IsHitLine) == HitLines(lines)
  {
    CountLineDatas(lines);
    CountBranchDatas(sites);
    CountFrame(source, lines, sites, IsHitLine);
  }

  lemma {:induction false} CountsBranches(source: string, lines: seq<(nat, nat)>, sites: seq<(nat, int, Outcomes)>)
    ensures Count(Record(source, lines, sites), IsBranch) == 2 * |sites|
  {
    CountLineDatas(lines);
    CountBranchDatas(sites);
    CountFrame(source, lines, sites, IsBranch);
  }

  lemma {:induction false} CountsHitBranches(source: string, lines: seq<(nat, nat)>, sites: seq<(nat, int, Outcomes)>)
    ensures Count(Record(source, lines, sites), IsHitBranch) == HitOutcomes(sites)
  {
    CountLineDatas(lines);
    CountBranchDatas(sites);
    CountFrame(source, lines, sites, IsHitBranch);
  }

  /** LF, LH, BRF and BRH of a record count its DA and BRDA lines. */
  lemma {:induction false} SummariesAlwaysAgree(source: string, lines: seq<(nat, nat)>,
                                                sites: seq<(nat, int, Outcomes)>)
    ensures SummariesAgree(Record(source, lines, sites))
  {
    CountsLines(source, lines, sites);
    CountsHitLines(source, lines, sites);
    CountsBranches(source, lines, sites);
    CountsHitBranches(source, lines, sites);
    RecordSummarizes(source, lines, sites);
  }

  // Each record has its source and its summary of lines, a summary of branches exactly if there
  // are branches, and an end.
  lemma {:induction false} SummariesArePresent(source: string, lines: seq<(nat, nat)>, sites: seq<(nat, int, Outcomes)>)
    ensures var record := Record(source, lines, sites);
            && |record| > 4 && record[0] == TestName && record[1] == SourceFile(source)
            && LinesFound(Count(record, IsLine)) in record && LinesHit(Count(record, IsHitLine)) in record
            && record[|record| - 1] == EndOfRecord
    ensures var record := Record(source, lines, sites);
            if sites != [] then
              BranchesFound(Count(record, IsBranch)) in record && BranchesHit(Count(record, IsHitBranch)) in record
            else
              forall line :: line in record ==> !line.BranchesFound? && !line.BranchesHit? && !line.BranchData?
  {
    var record := Record(source, lines, sites);
    SummariesAlwaysAgree(source, lines, sites);
    assert record[2] == LinesFound(|lines|) && record[3] == LinesHit(HitLines(lines));
    if sites != [] {
      var n := 4 + |lines|;
      assert record[n] == BranchesFound(2 * |sites|) && record[n + 1] == BranchesHit(HitOutcomes(sites));
    }
  }

  lemma {:induction false} LinesOfHas(statements: seq<(Place, nat)>, source: string, line: nat, count: nat)
    ensures (line, count) in LinesOf(statements, source) <==> ((source, line), count) in statements
    decreases |statements|
  {
    if statements != [] {
      var n := |statements| - 1;
      var ((at, l), c) := statements[n];
      LinesOfHas(statements[..n], source, line, count);
      assert statements == statements[..n] + [statements[n]];
    }
  }

  /** A record has a DA line for exactly the statements of its source, with their counts. */
  lemma {:induction false} DataLinesAreStatements(source: string, statements: seq<(Place, nat)>,
                                                  sites: seq<(nat, int, Outcomes)>, merged: map<Place, nat>,
                                                  line: nat, count: nat)
    requires Enumerates(statements, merged)
    ensures LineData(line, count) in Record(source, LinesOf(statements, source), sites) <==>
            (source, line) in merged && merged[(source, line)] == count
  {
    var lines := LinesOf(statements, source);
    LinesOfHas(statements, source, line, count);
    assert LineData(line, count) in LineDatas(lines) <==> (line, count) in lines by {
      if (line, count) in lines {
        var i :| 0 <= i < |lines| && lines[i] == (line, count);
        assert LineDatas(lines)[i] == LineData(line, count);
      }
    }
    assert LineData(line, count) !in BranchDatas(sites);
  }

  lemma {:induction false} SitesOfHas(branches: seq<((Place, int), Outcomes)>, source: string, line: nat, id: int,
                                      outcomes: Outcomes)
    ensures (line, id, outcomes) in SitesOf(branches, source) <==> (((source, line), id), outcomes) in branches
    decreases |branches|
  {
    if branches != [] {
      var n := |branches| - 1;
      var (((at, l), i), o) := branches[n];
      SitesOfHas(branches[..n], source, line, id, outcomes);
      assert branches == branches[..n] + [branches[n]];
    }
  }

  lemma {:induction false} BranchDatasHave(sites: seq<(nat, int, Outcomes)>, line: nat, id: int, outcome: bool,
                                           hits: Option<nat>)
    ensures BranchData(line, id, outcome, hits) in BranchDatas(sites) <==>
            exists o :: (line, id, o) in sites && hits == if outcome then o.taken else o.notTaken
    decreases |sites|
  {
    if sites != [] {
      var n := |sites| - 1;
      BranchDatasHave(sites[..n], line, id, outcome, hits);
      assert sites == sites[..n] + [sites[n]];
    }
  }

  /** And a BRDA line for exactly the two outcomes of each branch of its source, with their counts. */
  lemma {:induction false} DataLinesAreBranches(source: string, lines: seq<(nat, nat)>,
                                                branches: seq<((Place, int), Outcomes)>,
                                                merged: map<(Place, int), Outcomes>, line: nat, id: int,
                                                outcome: bool, hits: Option<nat>)
    requires Enumerates(branches, merged)
    ensures BranchData(line, id, outcome, hits) in Record(source, lines, SitesOf(branches, source)) <==>
            ((source, line), id) in merged
            && hits == if outcome then merged[((source, line), id)].taken else merged[((source, line), id)].notTaken
  {
    var sites := SitesOf(branches, source);
    forall o ensures (line, id, o) in sites <==> ((source, line), id) in merged && merged[((source, line), id)] == o {
      SitesOfHas(branches, source, line, id, o);
    }
    BranchDatasHave(sites, line, id, outcome, hits);
    BranchLinesInRecord(source, lines, sites, BranchData(line, id, outcome, hits));
  }

  lemma {:induction false} BranchLinesInRecord(source: string, lines: seq<(nat, nat)>,
                                               sites: seq<(nat, int, Outcomes)>, data: ReportLine)
    requires data.BranchData?
    ensures data in Record(source, lines, sites) <==> data in BranchDatas(sites)
  {
    assert data !in LineSummary(source, lines) && data !in LineDatas(lines) && data !in BranchSummary(sites);
    assert sites == [] ==> BranchDatas(sites) == [];
  }
}

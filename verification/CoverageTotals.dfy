// What the merged coverage is, said of the records themselves: for each counter the sum of the counts
// of the records that name it (`mux-compiler/src/main.rs`).
module CoverageTotals {
  import opened Collections
  import opened Options
  import opened CoverageLines
  import opened CoverageMerge

  // ------------------------------------------------------------- said of the records

  /** The record can be read, its place maps back to the counter's, and it is of the counter's kind. */
  ghost predicate CountsFor(placement: Placement, hits: Hits, counter: Counter) {
    && hits.Hits? && hits.line > 0 && 0 < hits.count <= U64_MAX
    && MapCoverageLocation(placement, hits.temporary, hits.path, hits.line) == Some(counter.place)
    && hits.kind ==
       match counter
       case Statement(_) => StatementHits
       case Branch(_, id, taken) => BranchHits(id, if taken then 1 else 0)
  }

  /** The sum of the counts of the records for a counter. */
  ghost function HitsTotal(placement: Placement, hits: seq<Hits>, counter: Counter): nat {
    if hits == [] then 0
    else
      var n := |hits| - 1;
      HitsTotal(placement, hits[..n], counter) + if CountsFor(placement, hits[n], counter) then hits[n].count else 0
  }

  ghost function RecordTotal(tests: seq<TestRecords>, counter: Counter): nat {
    if tests == [] then 0
    else
      var n := |tests| - 1;
      RecordTotal(tests[..n], counter) + HitsTotal(tests[n].placement, tests[n].hits, counter)
  }

  /** The site line can be read and its place maps back to this one. */
  ghost predicate SiteIsAt(placement: Placement, site: Site, place: Place) {
    site.Site? && MapCoverageLocation(placement, site.temporary, site.path, site.line) == Some(place)
  }

  /** A site declares the statement, or a record counts for it. */
  ghost predicate StatementIn(test: TestRecords, place: Place) {
    || (exists k :: 0 <= k < |test.sites|
          && SiteIsAt(test.placement, test.sites[k], place) && test.sites[k].kind == StatementSite)
    || exists k :: 0 <= k < |test.hits| && CountsFor(test.placement, test.hits[k], Statement(place))
  }

  ghost predicate BranchIn(test: TestRecords, place: Place, id: int) {
    || (exists k :: 0 <= k < |test.sites|
          && SiteIsAt(test.placement, test.sites[k], place) && test.sites[k].kind == BranchSite(id))
    || exists k, taken :: 0 <= k < |test.hits| && CountsFor(test.placement, test.hits[k], Branch(place, id, taken))
  }

  ghost predicate StatementShown(tests: seq<TestRecords>, place: Place) {
    exists test :: test in tests && StatementIn(test, place)
  }

  ghost predicate BranchShown(tests: seq<TestRecords>, place: Place, id: int) {
    exists test :: test in tests && BranchIn(test, place, id)
  }

  /** Neither unreadable nor, unless its place is dropped, of unknown kind. */
  ghost predicate GoodSite(placement: Placement, site: Site) {
    && site.Site?
    && (MapCoverageLocation(placement, site.temporary, site.path, site.line).Some? ==> !site.kind.UnknownSite?)
  }

  /** Line and count positive and in range; unless its place is dropped, of a known kind with outcome 0 or 1. */
  ghost predicate GoodHits(placement: Placement, hits: Hits) {
    && hits.Hits? && hits.line > 0 && 0 < hits.count <= U64_MAX
    && (MapCoverageLocation(placement, hits.temporary, hits.path, hits.line).Some? ==>
          hits.kind.StatementHits? || (hits.kind.BranchHits? && hits.kind.taken in {0, 1}))
  }

  ghost predicate GoodTest(test: TestRecords) {
    && (forall k :: 0 <= k < |test.sites| ==> GoodSite(test.placement, test.sites[k]))
    && forall k :: 0 <= k < |test.hits| ==> GoodHits(test.placement, test.hits[k])
  }

  ghost predicate GoodRecords(tests: seq<TestRecords>) {
    forall test :: test in tests ==> GoodTest(test)
  }

  ghost predicate NoOverflow(tests: seq<TestRecords>) {
    forall counter :: RecordTotal(tests, counter) <= U64_MAX
  }

  ghost predicate DeclaresSomething(test: TestRecords) {
    exists k, place :: 0 <= k < |test.sites| && SiteIsAt(test.placement, test.sites[k], place)
                         && !test.sites[k].kind.UnknownSite?
  }

  ghost predicate SomeSite(tests: seq<TestRecords>) {
    exists test :: test in tests && DeclaresSomething(test)
  }

  // ----------------------------------------------------------- the same, as effects

  lemma {:induction false} EffectCounts(placement: Placement, hits: Hits, counter: Counter)
    ensures var effect := EffectOfHits(placement, hits);
            && (effect.Adds? && effect.counter == counter <==> CountsFor(placement, hits, counter))
            && (effect.Adds? ==> effect.count == hits.count)
            && (effect == Fails <==> !GoodHits(placement, hits))
            && !effect.SeesStatement? && !effect.SeesBranch?
  {
  }

  lemma {:induction false} EffectDeclares(placement: Placement, site: Site)
    ensures var effect := EffectOfSite(placement, site);
            && (effect == Fails <==> !GoodSite(placement, site)) && !effect.Adds?
            && (forall place :: effect == SeesStatement(place) <==>
                  SiteIsAt(placement, site, place) && site.kind == StatementSite)
            && forall place, id :: effect == SeesBranch(place, id) <==>
                 SiteIsAt(placement, site, place) && site.kind == BranchSite(id)
  {
  }

  lemma {:induction false} SiteEffectAt(placement: Placement, sites: seq<Site>, k: nat)
    requires k < |sites|
    ensures |SiteEffects(placement, sites)| == |sites|
    ensures SiteEffects(placement, sites)[k] == EffectOfSite(placement, sites[k])
    decreases |sites|
  {
    var n := |sites| - 1;
    if n > 0 {
      SiteEffectAt(placement, sites[..n], if k < n then k else 0);
    }
  }

  lemma {:induction false} HitEffectAt(placement: Placement, hits: seq<Hits>, k: nat)
    requires k < |hits|
    ensures |HitEffects(placement, hits)| == |hits|
    ensures HitEffects(placement, hits)[k] == EffectOfHits(placement, hits[k])
    decreases |hits|
  {
    var n := |hits| - 1;
    if n > 0 {
      HitEffectAt(placement, hits[..n], if k < n then k else 0);
    }
  }

  /** The effects of a test are those of its sites and of its records. */
  lemma {:induction false} EffectOfTest(test: TestRecords, effect: Effect)
    ensures effect in TestEffects(test) <==>
            || (exists k :: 0 <= k < |test.sites| && EffectOfSite(test.placement, test.sites[k]) == effect)
            || exists k :: 0 <= k < |test.hits| && EffectOfHits(test.placement, test.hits[k]) == effect
  {
    var left, right := SiteEffects(test.placement, test.sites), HitEffects(test.placement, test.hits);
    forall k | 0 <= k < |test.sites|
      ensures |left| == |test.sites| && left[k] == EffectOfSite(test.placement, test.sites[k]) && left[k] in left
    {
      SiteEffectAt(test.placement, test.sites, k);
    }
    forall k | 0 <= k < |test.hits|
      ensures |right| == |test.hits| && right[k] == EffectOfHits(test.placement, test.hits[k]) && right[k] in right
    {
      HitEffectAt(test.placement, test.hits, k);
    }
    assert effect in left + right <==> effect in left || effect in right;
  }

  lemma {:induction false} SitesAddNothing(placement: Placement, sites: seq<Site>, counter: Counter)
    ensures Total(SiteEffects(placement, sites), counter) == 0
    decreases |sites|
  {
    if sites != [] {
      var n := |sites| - 1;
      SitesAddNothing(placement, sites[..n], counter);
      EffectDeclares(placement, sites[n]);
      TotalSnoc(SiteEffects(placement, sites[..n]), EffectOfSite(placement, sites[n]), counter);
    }
  }

  lemma {:induction false} HitsAddUp(placement: Placement, hits: seq<Hits>, counter: Counter)
    ensures Total(HitEffects(placement, hits), counter) == HitsTotal(placement, hits, counter)
    decreases |hits|
  {
    if hits != [] {
      var n := |hits| - 1;
      HitsAddUp(placement, hits[..n], counter);
      EffectCounts(placement, hits[n], counter);
      TotalSnoc(HitEffects(placement, hits[..n]), EffectOfHits(placement, hits[n]), counter);
    }
  }

  /** The total of a counter is the sum of the counts of the records that name it. */
  lemma {:induction false} TotalIsRecordTotal(tests: seq<TestRecords>, counter: Counter)
    ensures Total(AllEffects(tests), counter) == RecordTotal(tests, counter)
    decreases |tests|
  {
    if tests != [] {
      var n := |tests| - 1;
      TotalIsRecordTotal(tests[..n], counter);
      TotalAppend(AllEffects(tests[..n]), TestEffects(tests[n]), counter);
      TotalAppend(SiteEffects(tests[n].placement, tests[n].sites), HitEffects(tests[n].placement, tests[n].hits),
                  counter);
      SitesAddNothing(tests[n].placement, tests[n].sites, counter);
      HitsAddUp(tests[n].placement, tests[n].hits, counter);
    }
  }

  lemma {:induction false} StatementOfTest(test: TestRecords, place: Place)
    ensures (exists effect :: effect in TestEffects(test) && ShowsStatement(effect, place)) <==>
              StatementIn(test, place)
  {
    forall k | 0 <= k < |test.sites|
      ensures ShowsStatement(EffectOfSite(test.placement, test.sites[k]), place) <==>
              SiteIsAt(test.placement, test.sites[k], place) && test.sites[k].kind == StatementSite
      ensures EffectOfSite(test.placement, test.sites[k]) in TestEffects(test)
    {
      EffectDeclares(test.placement, test.sites[k]);
      EffectOfTest(test, EffectOfSite(test.placement, test.sites[k]));
    }
    forall k | 0 <= k < |test.hits|
      ensures ShowsStatement(EffectOfHits(test.placement, test.hits[k]), place) <==>
              CountsFor(test.placement, test.hits[k], Statement(place))
      ensures EffectOfHits(test.placement, test.hits[k]) in TestEffects(test)
    {
      EffectCounts(test.placement, test.hits[k], Statement(place));
      EffectOfTest(test, EffectOfHits(test.placement, test.hits[k]));
    }
    if effect :| effect in TestEffects(test) && ShowsStatement(effect, place) {
      EffectOfTest(test, effect);
    }
  }

  lemma {:induction false} BranchOfTest(test: TestRecords, place: Place, id: int)
    ensures (exists effect :: effect in TestEffects(test) && ShowsBranch(effect, place, id)) <==>
              BranchIn(test, place, id)
  {
    forall k | 0 <= k < |test.sites|
      ensures ShowsBranch(EffectOfSite(test.placement, test.sites[k]), place, id) <==>
              SiteIsAt(test.placement, test.sites[k], place) && test.sites[k].kind == BranchSite(id)
      ensures EffectOfSite(test.placement, test.sites[k]) in TestEffects(test)
    {
      EffectDeclares(test.placement, test.sites[k]);
      EffectOfTest(test, EffectOfSite(test.placement, test.sites[k]));
    }
    forall k | 0 <= k < |test.hits|
      ensures ShowsBranch(EffectOfHits(test.placement, test.hits[k]), place, id) <==>
              || CountsFor(test.placement, test.hits[k], Branch(place, id, false))
              || CountsFor(test.placement, test.hits[k], Branch(place, id, true))
      ensures EffectOfHits(test.placement, test.hits[k]) in TestEffects(test)
    {
      EffectCounts(test.placement, test.hits[k], Branch(place, id, false));
      EffectCounts(test.placement, test.hits[k], Branch(place, id, true));
      EffectOfTest(test, EffectOfHits(test.placement, test.hits[k]));
    }
    if effect :| effect in TestEffects(test) && ShowsBranch(effect, place, id) {
      EffectOfTest(test, effect);
    }
  }

  /** Which counters there are follows from the site lines and the records. */
  lemma {:induction false} ShownByRecords(tests: seq<TestRecords>)
    ensures forall place :: HasStatement(AllEffects(tests), place) <==> StatementShown(tests, place)
    ensures forall place, id :: HasBranch(AllEffects(tests), place, id) <==> BranchShown(tests, place, id)
  {
    var effects := AllEffects(tests);
    forall effect ensures effect in effects <==> InSomeTest(TestEffects, tests, effect) {
      EffectsComeFromTests(TestEffects, tests, effect);
    }
    forall place ensures HasStatement(effects, place) <==> StatementShown(tests, place) {
      StatementByRecords(tests, place);
    }
    forall place, id ensures HasBranch(effects, place, id) <==> BranchShown(tests, place, id) {
      BranchByRecords(tests, place, id);
    }
  }

  lemma {:induction false} StatementByRecords(tests: seq<TestRecords>, place: Place)
    ensures HasStatement(AllEffects(tests), place) <==> StatementShown(tests, place)
  {
    var effects := AllEffects(tests);
    if HasStatement(effects, place) {
      var i :| 0 <= i < |effects| && ShowsStatement(effects[i], place);
      EffectsComeFromTests(TestEffects, tests, effects[i]);
      var test :| test in tests && effects[i] in TestEffects(test);
      StatementOfTest(test, place);
    }
    if StatementShown(tests, place) {
      var test :| test in tests && StatementIn(test, place);
      StatementOfTest(test, place);
      var effect :| effect in TestEffects(test) && ShowsStatement(effect, place);
      EffectsComeFromTests(TestEffects, tests, effect);
    }
  }

  lemma {:induction false} BranchByRecords(tests: seq<TestRecords>, place: Place, id: int)
    ensures HasBranch(AllEffects(tests), place, id) <==> BranchShown(tests, place, id)
  {
    var effects := AllEffects(tests);
    if HasBranch(effects, place, id) {
      var i :| 0 <= i < |effects| && ShowsBranch(effects[i], place, id);
      EffectsComeFromTests(TestEffects, tests, effects[i]);
      var test :| test in tests && effects[i] in TestEffects(test);
      BranchOfTest(test, place, id);
    }
    if BranchShown(tests, place, id) {
      var test :| test in tests && BranchIn(test, place, id);
      BranchOfTest(test, place, id);
      var effect :| effect in TestEffects(test) && ShowsBranch(effect, place, id);
      EffectsComeFromTests(TestEffects, tests, effect);
    }
  }

  lemma {:induction false} TestFails(test: TestRecords)
    ensures Fails in TestEffects(test) <==> !GoodTest(test)
  {
    EffectOfTest(test, Fails);
    forall k | 0 <= k < |test.sites|
      ensures EffectOfSite(test.placement, test.sites[k]) == Fails <==> !GoodSite(test.placement, test.sites[k])
    {
      EffectDeclares(test.placement, test.sites[k]);
    }
    forall k | 0 <= k < |test.hits|
      ensures EffectOfHits(test.placement, test.hits[k]) == Fails <==> !GoodHits(test.placement, test.hits[k])
    {
      EffectCounts(test.placement, test.hits[k], Statement(("", 0)));
    }
  }

  /** The effects are clean exactly if the records are good and no total is too large. */
  lemma {:induction false} CleanIsGood(tests: seq<TestRecords>)
    ensures Clean(AllEffects(tests)) <==> GoodRecords(tests) && NoOverflow(tests)
  {
    var effects := AllEffects(tests);
    forall counter ensures Total(effects, counter) == RecordTotal(tests, counter) {
      TotalIsRecordTotal(tests, counter);
    }
    assert (forall i :: 0 <= i < |effects| ==> effects[i] != Fails) <==> Fails !in effects;
    EffectsComeFromTests(TestEffects, tests, Fails);
    forall test | test in tests ensures Fails in TestEffects(test) <==> !GoodTest(test) {
      TestFails(test);
    }
  }

  lemma {:induction false} TestDeclares(test: TestRecords)
    ensures DeclaresSomething(test) <==>
            exists effect :: effect in TestEffects(test) && (effect.SeesStatement? || effect.SeesBranch?)
  {
    forall k | 0 <= k < |test.sites|
      ensures EffectOfSite(test.placement, test.sites[k]) in TestEffects(test)
    {
      EffectOfTest(test, EffectOfSite(test.placement, test.sites[k]));
    }
    if DeclaresSomething(test) {
      var k, place :| 0 <= k < |test.sites| && SiteIsAt(test.placement, test.sites[k], place)
        && !test.sites[k].kind.UnknownSite?;
      EffectDeclares(test.placement, test.sites[k]);
    }
    if effect :| effect in TestEffects(test) && (effect.SeesStatement? || effect.SeesBranch?) {
      EffectOfTest(test, effect);
      DeclaredBySite(test, effect);
    }
  }

  lemma {:induction false} DeclaredBySite(test: TestRecords, effect: Effect)
    requires effect in TestEffects(test) && (effect.SeesStatement? || effect.SeesBranch?)
    ensures DeclaresSomething(test)
  {
    EffectOfTest(test, effect);
    forall k | 0 <= k < |test.hits| ensures EffectOfHits(test.placement, test.hits[k]) != effect {
      EffectCounts(test.placement, test.hits[k], Statement(("", 0)));
    }
    var k :| 0 <= k < |test.sites| && EffectOfSite(test.placement, test.sites[k]) == effect;
    EffectDeclares(test.placement, test.sites[k]);
    assert SiteIsAt(test.placement, test.sites[k], effect.place);
  }

  lemma {:induction false} HasSiteIsSomeSite(tests: seq<TestRecords>)
    ensures HasSite(AllEffects(tests)) <==> SomeSite(tests)
  {
    var effects := AllEffects(tests);
    if HasSite(effects) {
      var i :| 0 <= i < |effects| && (effects[i].SeesStatement? || effects[i].SeesBranch?);
      EffectsComeFromTests(TestEffects, tests, effects[i]);
      var test :| test in tests && effects[i] in TestEffects(test);
      TestDeclares(test);
    }
    if SomeSite(tests) {
      var test :| test in tests && DeclaresSomething(test);
      TestDeclares(test);
      var effect :| effect in TestEffects(test) && (effect.SeesStatement? || effect.SeesBranch?);
      EffectsComeFromTests(TestEffects, tests, effect);
    }
  }

  lemma {:induction false} MergedTotals(tests: seq<TestRecords>, merged: Merged)
    requires Agrees(merged, AllEffects(tests))
    ensures forall place :: place in merged.statements <==> StatementShown(tests, place)
    ensures forall place :: place in merged.statements ==>
              merged.statements[place] == RecordTotal(tests, Statement(place))
    ensures forall place, id :: (place, id) in merged.branches <==> BranchShown(tests, place, id)
    ensures forall place, id :: (place, id) in merged.branches ==>
              merged.branches[(place, id)] ==
              Outcomes(OptionalCount(RecordTotal(tests, Branch(place, id, false))),
                       OptionalCount(RecordTotal(tests, Branch(place, id, true))))
  {
    ShownByRecords(tests);
    forall place, id
      ensures (place, id) in merged.branches <==> HasBranch(AllEffects(tests), place, id)
      ensures (place, id) in merged.branches ==>
                merged.branches[(place, id)] == TrueOutcomes(AllEffects(tests), place, id)
    {
      var key := (place, id);
      assert key in merged.branches <==> HasBranch(AllEffects(tests), key.0, key.1);
      assert key in merged.branches ==> merged.branches[key] == TrueOutcomes(AllEffects(tests), key.0, key.1);
    }
    forall counter ensures Total(AllEffects(tests), counter) == RecordTotal(tests, counter) {
      TotalIsRecordTotal(tests, counter);
    }
  }

  // ----------------------------------------------------------------------- the whole

  lemma {:induction false} JoinedPrefix(ofTest: TestRecords -> seq<Effect>, tests: seq<TestRecords>, i: nat)
    requires i <= |tests|
    ensures Joined(ofTest, tests[..i]) <= Joined(ofTest, tests)
    decreases |tests|
  {
    if i < |tests| {
      assert tests[..|tests| - 1][..i] == tests[..i];
      JoinedPrefix(ofTest, tests[..|tests| - 1], i);
    } else {
      assert tests[..i] == tests;
    }
  }

  lemma {:induction false} TestSpoils(ofTest: TestRecords -> seq<Effect>, tests: seq<TestRecords>, i: nat,
                                      part: seq<Effect>)
    requires i < |tests| && part <= ofTest(tests[i]) && !Clean(Joined(ofTest, tests[..i]) + part)
    ensures !Clean(Joined(ofTest, tests))
  {
    assert tests[..i + 1][..i] == tests[..i];
    UncleanPrefix(Joined(ofTest, tests[..i]) + part, Joined(ofTest, tests[..i + 1]));
    JoinedPrefix(ofTest, tests, i + 1);
    UncleanPrefix(Joined(ofTest, tests[..i + 1]), Joined(ofTest, tests));
  }

  // `merge_coverage` up to the report.  It succeeds exactly if no record is malformed, no total
  // passes 64 bits and some site was declared.  The maps then hold the totals of the records.
  method MergeCoverage(tests: seq<TestRecords>) returns (merged: Option<Merged>)
    ensures merged.Some? <==> GoodRecords(tests) && NoOverflow(tests) && SomeSite(tests)
    ensures merged.Some? ==> Agrees(merged.value, AllEffects(tests))
    ensures merged.Some? ==> forall place :: place in merged.value.statements <==> StatementShown(tests, place)
    ensures merged.Some? ==> forall place :: place in merged.value.statements ==>
              merged.value.statements[place] == RecordTotal(tests, Statement(place))
    ensures merged.Some? ==> forall place, id :: (place, id) in merged.value.branches <==> BranchShown(tests, place, id)
    ensures merged.Some? ==> forall place, id :: (place, id) in merged.value.branches ==>
              merged.value.branches[(place, id)] ==
              Outcomes(OptionalCount(RecordTotal(tests, Branch(place, id, false))),
                       OptionalCount(RecordTotal(tests, Branch(place, id, true))))
  {
    CleanIsGood(tests);
    HasSiteIsSomeSite(tests);
    var accumulators := new Accumulators();
    for i := 0 to |tests|
      invariant accumulators.Valid() && accumulators.effects == AllEffects(tests[..i])
      invariant fresh(accumulators)
    {
      assert tests[..i + 1][..i] == tests[..i];
      ghost var before := accumulators.effects;
      var ok := accumulators.MergeSites(tests[i].placement, tests[i].sites);
      if !ok {
        TestSpoils(TestEffects, tests, i, SiteEffects(tests[i].placement, tests[i].sites));
        return None;
      }
      ok := accumulators.MergeRecords(tests[i].placement, tests[i].hits);
      Regroup(before, SiteEffects(tests[i].placement, tests[i].sites), HitEffects(tests[i].placement, tests[i].hits));
      if !ok {
        TestSpoils(TestEffects, tests, i, TestEffects(tests[i]));
        return None;
      }
    }
    assert tests[..|tests|] == tests;
    if accumulators.sitesSeen == 0 || accumulators.filesSeen == {} {
      return None;
    }
    merged := Some(accumulators.merged);
    MergedTotals(tests, accumulators.merged);
  }
}

/** Merging coverage of all tests and writing it as LCOV (`mux-compiler/src/main.rs`). */
module CoverageMerge {
  import opened Collections
  import opened Options
  import opened CoverageLines

  const U64_MAX: nat := 0xFFFF_FFFF_FFFF_FFFF

  type Place = (string, nat)

  /** A counter of the merged report: a statement, or one outcome of a branch. */
  datatype Counter = Statement(place: Place) | Branch(place: Place, id: int, taken: bool)

  /** One line of a site file; `UnreadableSite` cannot be parsed up to its line number. */
  datatype Site = Site(temporary: bool, path: string, line: nat, kind: SiteKind) | UnreadableSite

  datatype SiteKind = StatementSite | BranchSite(id: int) | UnknownSite

  /** One line of a record file; `UnreadableHits` has too few fields, or path, line or count that cannot be parsed. */
  datatype Hits = Hits(temporary: bool, path: string, line: nat, count: nat, kind: HitKind) | UnreadableHits

  /** `UnknownHits` also stands for a branch record whose id or outcome is no number. */
  datatype HitKind = StatementHits | BranchHits(id: int, taken: int) | UnknownHits

  /** What one test left behind. */
  datatype TestRecords = TestRecords(placement: Placement, sites: seq<Site>, hits: seq<Hits>)

  // ------------------------------------------------------------- what a record means

  /** What a record contributes once its place has been mapped back. */
  datatype Effect =
    | SeesStatement(place: Place)
    | SeesBranch(place: Place, id: int)
    | Adds(counter: Counter, count: nat)
    | Skipped
    | Fails

  function EffectOfSite(placement: Placement, site: Site): Effect {
    if site.UnreadableSite? then Fails
    else
      var mapped := MapCoverageLocation(placement, site.temporary, site.path, site.line);
      if mapped.None? then Skipped
      else match site.kind
        case StatementSite => SeesStatement(mapped.value)
        case BranchSite(id) => SeesBranch(mapped.value, id)
        case UnknownSite => Fails
  }

  /** Lines and counts are positive, and counts have 64 bits. */
  predicate ReadableHits(hits: Hits) {
    hits.Hits? && hits.line > 0 && 0 < hits.count <= U64_MAX
  }

  function EffectOfHits(placement: Placement, hits: Hits): Effect {
    if !ReadableHits(hits) then Fails
    else
      var mapped := MapCoverageLocation(placement, hits.temporary, hits.path, hits.line);
      if mapped.None? then Skipped
      else match hits.kind
        case StatementHits => Adds(Statement(mapped.value), hits.count)
        case BranchHits(id, taken) =>
          if taken == 0 || taken == 1 then Adds(Branch(mapped.value, id, taken == 1), hits.count) else Fails
        case UnknownHits => Fails
  }

  function SiteEffects(placement: Placement, sites: seq<Site>): seq<Effect> {
    if sites == [] then []
    else SiteEffects(placement, sites[..|sites| - 1]) + [EffectOfSite(placement, sites[|sites| - 1])]
  }

  function HitEffects(placement: Placement, hits: seq<Hits>): seq<Effect> {
    if hits == [] then []
    else HitEffects(placement, hits[..|hits| - 1]) + [EffectOfHits(placement, hits[|hits| - 1])]
  }

  function TestEffects(test: TestRecords): seq<Effect> {
    SiteEffects(test.placement, test.sites) + HitEffects(test.placement, test.hits)
  }

  /** The effects of all tests, given those of one. */
  function Joined(ofTest: TestRecords -> seq<Effect>, tests: seq<TestRecords>): seq<Effect> {
    if tests == [] then []
    else Joined(ofTest, tests[..|tests| - 1]) + ofTest(tests[|tests| - 1])
  }

  function AllEffects(tests: seq<TestRecords>): seq<Effect> {
    Joined(TestEffects, tests)
  }

  /** The true total of a counter. */
  function Total(effects: seq<Effect>, counter: Counter): nat {
    if effects == [] then 0
    else
      var n := |effects| - 1;
      Total(effects[..n], counter) + if effects[n].Adds? && effects[n].counter == counter then effects[n].count else 0
  }

  /** The statements of the report: declared by a site or hit. */
  predicate ShowsStatement(effect: Effect, place: Place) {
    effect == SeesStatement(place) || (effect.Adds? && effect.counter == Statement(place))
  }

  predicate ShowsBranch(effect: Effect, place: Place, id: int) {
    || effect == SeesBranch(place, id)
    || (effect.Adds? && effect.counter.Branch? && effect.counter.place == place && effect.counter.id == id)
  }

  ghost predicate HasStatement(effects: seq<Effect>, place: Place) {
    exists i :: 0 <= i < |effects| && ShowsStatement(effects[i], place)
  }

  ghost predicate HasBranch(effects: seq<Effect>, place: Place, id: int) {
    exists i :: 0 <= i < |effects| && ShowsBranch(effects[i], place, id)
  }

  /** `[Option<u64>; 2]` */
  datatype Outcomes = Outcomes(notTaken: Option<nat>, taken: Option<nat>)

  function OptionalCount(total: nat): Option<nat> {
    if total == 0 then None else Some(total)
  }

  // ------------------------------------------------------------------ the merged maps

  datatype Merged = Merged(statements: map<Place, nat>, branches: map<(Place, int), Outcomes>)

  ghost predicate StatementsAgree(statements: map<Place, nat>, effects: seq<Effect>) {
    && (forall place :: place in statements <==> HasStatement(effects, place))
    && (forall place :: place in statements ==> statements[place] == Total(effects, Statement(place)))
  }

  function TrueOutcomes(effects: seq<Effect>, place: Place, id: int): Outcomes {
    Outcomes(OptionalCount(Total(effects, Branch(place, id, false))),
             OptionalCount(Total(effects, Branch(place, id, true))))
  }

  ghost predicate BranchesAgree(branches: map<(Place, int), Outcomes>, effects: seq<Effect>) {
    && (forall key :: key in branches <==> HasBranch(effects, key.0, key.1))
    && (forall key :: key in branches ==> branches[key] == TrueOutcomes(effects, key.0, key.1))
  }

  /** The maps hold exactly the true totals, for exactly what sites and records show. */
  ghost predicate Agrees(merged: Merged, effects: seq<Effect>) {
    StatementsAgree(merged.statements, effects) && BranchesAgree(merged.branches, effects)
  }

  /** Nothing failed and no total is beyond 64 bits. */
  ghost predicate Clean(effects: seq<Effect>) {
    && (forall i :: 0 <= i < |effects| ==> effects[i] != Fails)
    && (forall counter :: Total(effects, counter) <= U64_MAX)
  }

  lemma {:induction false} TotalAppend(left: seq<Effect>, right: seq<Effect>, counter: Counter)
    ensures Total(left + right, counter) == Total(left, counter) + Total(right, counter)
    decreases |right|
  {
    if right == [] {
      assert left + right == left;
    } else {
      var n := |right| - 1;
      TotalAppend(left, right[..n], counter);
      assert (left + right)[..|left + right| - 1] == left + right[..n];
    }
  }

  lemma {:induction false} TotalSnoc(effects: seq<Effect>, effect: Effect, counter: Counter)
    ensures Total(effects + [effect], counter) ==
            Total(effects, counter) + if effect.Adds? && effect.counter == counter then effect.count else 0
  {
    assert (effects + [effect])[..|effects|] == effects;
  }

  lemma {:induction false} ShowsSnoc(effects: seq<Effect>, effect: Effect)
    ensures forall place :: HasStatement(effects + [effect], place) <==>
              HasStatement(effects, place) || ShowsStatement(effect, place)
    ensures forall place, id :: HasBranch(effects + [effect], place, id) <==>
              HasBranch(effects, place, id) || ShowsBranch(effect, place, id)
  {
    var more := effects + [effect];
    assert more[|effects|] == effect;
    assert forall i :: 0 <= i < |effects| ==> more[i] == effects[i];
  }

  /** A failing prefix makes the whole fail. */
  lemma {:induction false} CleanPrefix(effects: seq<Effect>, more: seq<Effect>)
    requires Clean(effects + more)
    ensures Clean(effects)
  {
    assert forall i :: 0 <= i < |effects| ==> (effects + more)[i] == effects[i];
    forall counter ensures Total(effects, counter) <= U64_MAX {
      TotalAppend(effects, more, counter);
    }
  }

  lemma {:induction false} CleanSnoc(effects: seq<Effect>, effect: Effect)
    requires Clean(effects) && effect != Fails
    requires effect.Adds? ==> Total(effects + [effect], effect.counter) <= U64_MAX
    ensures Clean(effects + [effect])
  {
    forall counter ensures Total(effects + [effect], counter) <= U64_MAX {
      TotalSnoc(effects, effect, counter);
    }
  }

  lemma {:induction false} CleanStep(effects: seq<Effect>, effect: Effect)
    requires Clean(effects)
    ensures effect != Fails && (effect.Adds? ==> Total(effects + [effect], effect.counter) <= U64_MAX) ==>
              Clean(effects + [effect])
  {
    if effect != Fails && (effect.Adds? ==> Total(effects + [effect], effect.counter) <= U64_MAX) {
      CleanSnoc(effects, effect);
    }
  }

  ghost predicate HasSite(effects: seq<Effect>) {
    exists i :: 0 <= i < |effects| && (effects[i].SeesStatement? || effects[i].SeesBranch?)
  }

  lemma {:induction false} HasSiteAppend(left: seq<Effect>, right: seq<Effect>)
    ensures HasSite(left + right) <==> HasSite(left) || HasSite(right)
  {
    var more := left + right;
    assert forall i :: 0 <= i < |left| ==> more[i] == left[i];
    assert forall i :: 0 <= i < |right| ==> more[|left| + i] == right[i];
  }

  /** What nothing shows has no hits. */
  lemma {:induction false} NoTotal(effects: seq<Effect>, counter: Counter)
    requires if counter.Statement? then !HasStatement(effects, counter.place)
             else !HasBranch(effects, counter.place, counter.id)
    ensures Total(effects, counter) == 0
    decreases |effects|
  {
    if effects != [] {
      var n := |effects| - 1;
      assert effects == effects[..n] + [effects[n]];
      ShowsSnoc(effects[..n], effects[n]);
      NoTotal(effects[..n], counter);
    }
  }

  // ---------------------------------------------------------------- one step of merging

  function CountAt(statements: map<Place, nat>, place: Place): nat {
    if place in statements then statements[place] else 0
  }

  function OutcomesAt(branches: map<(Place, int), Outcomes>, place: Place, id: int): Outcomes {
    if (place, id) in branches then branches[(place, id)] else Outcomes(None, None)
  }

  function Bump(count: Option<nat>, more: nat): Option<nat> {
    OptionalCount((if count.Some? then count.value else 0) + more)
  }

  function BumpOutcome(outcomes: Outcomes, taken: bool, count: nat): Outcomes {
    if taken then outcomes.(taken := Bump(outcomes.taken, count))
    else outcomes.(notTaken := Bump(outcomes.notTaken, count))
  }

  lemma {:induction false} StatementStep(statements: map<Place, nat>, effects: seq<Effect>, effect: Effect,
                                         place: Place, count: nat)
    requires StatementsAgree(statements, effects)
    requires (effect == SeesStatement(place) && count == 0) || effect == Adds(Statement(place), count)
    ensures CountAt(statements, place) == Total(effects, Statement(place))
    ensures StatementsAgree(statements[place := CountAt(statements, place) + count], effects + [effect])
  {
    ShowsSnoc(effects, effect);
    if place !in statements {
      NoTotal(effects, Statement(place));
    }
    forall other ensures Total(effects + [effect], Statement(other)) ==
                         Total(effects, Statement(other)) + if other == place then count else 0 {
      TotalSnoc(effects, effect, Statement(other));
    }
  }

  lemma {:induction false} StatementsUntouched(statements: map<Place, nat>, effects: seq<Effect>, effect: Effect)
    requires StatementsAgree(statements, effects)
    requires !effect.SeesStatement? && (effect.Adds? ==> effect.counter.Branch?)
    ensures StatementsAgree(statements, effects + [effect])
  {
    ShowsSnoc(effects, effect);
    forall place ensures Total(effects + [effect], Statement(place)) == Total(effects, Statement(place)) {
      TotalSnoc(effects, effect, Statement(place));
    }
  }

  lemma {:induction false} OutcomesStep(effects: seq<Effect>, effect: Effect, place: Place, id: int, taken: bool,
                                        count: nat)
    requires (effect == SeesBranch(place, id) && count == 0) || effect == Adds(Branch(place, id, taken), count)
    ensures forall key: (Place, int) :: TrueOutcomes(effects + [effect], key.0, key.1) ==
              if key == (place, id) then BumpOutcome(TrueOutcomes(effects, place, id), taken, count)
              else TrueOutcomes(effects, key.0, key.1)
  {
    forall key: (Place, int) ensures TrueOutcomes(effects + [effect], key.0, key.1) ==
              if key == (place, id) then BumpOutcome(TrueOutcomes(effects, place, id), taken, count)
              else TrueOutcomes(effects, key.0, key.1) {
      TotalSnoc(effects, effect, Branch(key.0, key.1, true));
      TotalSnoc(effects, effect, Branch(key.0, key.1, false));
    }
  }

  lemma {:induction false} OutcomesTrue(branches: map<(Place, int), Outcomes>, effects: seq<Effect>, place: Place,
                                        id: int)
    requires BranchesAgree(branches, effects)
    ensures OutcomesAt(branches, place, id) == TrueOutcomes(effects, place, id)
  {
    if (place, id) in branches {
      assert branches[(place, id)] == TrueOutcomes(effects, (place, id).0, (place, id).1);
    } else {
      assert !HasBranch(effects, (place, id).0, (place, id).1);
      NoTotal(effects, Branch(place, id, true));
      NoTotal(effects, Branch(place, id, false));
    }
  }

  lemma {:induction false} BranchStep(branches: map<(Place, int), Outcomes>, effects: seq<Effect>, effect: Effect,
                                      place: Place, id: int, taken: bool, count: nat)
    requires BranchesAgree(branches, effects)
    requires (effect == SeesBranch(place, id) && count == 0) || effect == Adds(Branch(place, id, taken), count)
    ensures OutcomesAt(branches, place, id) == TrueOutcomes(effects, place, id)
    ensures BranchesAgree(branches[(place, id) := BumpOutcome(OutcomesAt(branches, place, id), taken, count)],
                          effects + [effect])
  {
    var all, more := effects + [effect],
        branches[(place, id) := BumpOutcome(OutcomesAt(branches, place, id), taken, count)];
    ShowsSnoc(effects, effect);
    OutcomesStep(effects, effect, place, id, taken, count);
    OutcomesTrue(branches, effects, place, id);
    forall key ensures key in more <==> HasBranch(all, key.0, key.1) {
      assert key in branches <==> HasBranch(effects, key.0, key.1);
    }
    forall key | key in more ensures more[key] == TrueOutcomes(all, key.0, key.1) {
      if key != (place, id) {
        assert branches[key] == TrueOutcomes(effects, key.0, key.1);
      }
    }
  }

  lemma {:induction false} BranchesUntouched(branches: map<(Place, int), Outcomes>, effects: seq<Effect>,
                                             effect: Effect)
    requires BranchesAgree(branches, effects)
    requires !effect.SeesBranch? && (effect.Adds? ==> effect.counter.Statement?)
    ensures BranchesAgree(branches, effects + [effect])
  {
    ShowsSnoc(effects, effect);
    forall key: (Place, int) ensures TrueOutcomes(effects + [effect], key.0, key.1) ==
      TrueOutcomes(effects, key.0, key.1) {
      TotalSnoc(effects, effect, Branch(key.0, key.1, true));
      TotalSnoc(effects, effect, Branch(key.0, key.1, false));
    }
  }

  // ------------------------------------------------------------------------ methods

  /** The accumulators of `merge_coverage`; `effects` is what has been merged into them. */
  class Accumulators {
    var merged: Merged
    var filesSeen: set<string>
    var sitesSeen: nat
    ghost var effects: seq<Effect>

    ghost predicate Valid()
      reads this
    {
      && Agrees(merged, effects) && Clean(effects)
      && (sitesSeen > 0 <==> HasSite(effects))
      && (sitesSeen > 0 ==> filesSeen != {})
    }

    constructor ()
      ensures Valid() && effects == []
    {
      merged := Merged(map[], map[]);
      filesSeen := {};
      sitesSeen := 0;
      effects := [];
    }

    /** `entry(...).or_insert(0)`, then the counter goes up. */
    method AddToStatement(place: Place, count: nat, ghost effect: Effect)
      requires Agrees(merged, effects)
      requires (effect == SeesStatement(place) && count == 0) || effect == Adds(Statement(place), count)
      modifies this`merged, this`effects
      ensures effects == old(effects) + [effect] && Agrees(merged, effects)
    {
      StatementStep(merged.statements, effects, effect, place, count);
      BranchesUntouched(merged.branches, effects, effect);
      merged := merged.(statements := merged.statements[place := CountAt(merged.statements, place) + count]);
      effects := effects + [effect];
    }

    /** `entry(...).or_insert([None, None])`, then the outcome's counter goes up. */
    method AddToBranch(place: Place, id: int, taken: bool, count: nat, ghost effect: Effect)
      requires Agrees(merged, effects)
      requires (effect == SeesBranch(place, id) && count == 0) || effect == Adds(Branch(place, id, taken), count)
      modifies this`merged, this`effects
      ensures effects == old(effects) + [effect] && Agrees(merged, effects)
    {
      BranchStep(merged.branches, effects, effect, place, id, taken, count);
      StatementsUntouched(merged.statements, effects, effect);
      var counts := OutcomesAt(merged.branches, place, id);
      merged := merged.(branches := merged.branches[(place, id) := BumpOutcome(counts, taken, count)]);
      effects := effects + [effect];
    }

    method Skip()
      requires Agrees(merged, effects)
      modifies this`effects
      ensures effects == old(effects) + [Skipped] && Agrees(merged, effects)
    {
      StatementsUntouched(merged.statements, effects, Skipped);
      BranchesUntouched(merged.branches, effects, Skipped);
      effects := effects + [Skipped];
    }

    /** One line of a site file. */
    method MergeSite(placement: Placement, site: Site) returns (ok: bool)
      requires Valid()
      modifies this
      ensures ok <==> EffectOfSite(placement, site) != Fails
      ensures ok ==> Valid() && effects == old(effects) + [EffectOfSite(placement, site)]
    {
      if site.UnreadableSite? {
        return false;
      }
      var mapped := MapCoverageLocation(placement, site.temporary, site.path, site.line);
      HasSiteAppend(effects, [EffectOfSite(placement, site)]);
      HasSiteOne(EffectOfSite(placement, site));
      CleanStep(effects, EffectOfSite(placement, site));
      if mapped.None? {
        Skip();
        return true;
      }
      var place := mapped.value;
      filesSeen := filesSeen + {place.0};
      match site.kind {
        case StatementSite =>
          AddToStatement(place, 0, SeesStatement(place));
        case BranchSite(id) =>
          AddToBranch(place, id, true, 0, SeesBranch(place, id));
        case UnknownSite =>
          return false;
      }
      sitesSeen := sitesSeen + 1;
      ok := true;
    }

    /** A statement's counter goes up, unless it would pass 64 bits. */
    method AddStatementHits(place: Place, count: nat) returns (ok: bool)
      requires Agrees(merged, effects)
      modifies this`merged, this`effects
      ensures ok <==> Total(old(effects) + [Adds(Statement(place), count)], Statement(place)) <= U64_MAX
      ensures ok ==> effects == old(effects) + [Adds(Statement(place), count)] && Agrees(merged, effects)
    {
      var effect := Adds(Statement(place), count);
      StatementStep(merged.statements, effects, effect, place, count);
      TotalSnoc(effects, effect, Statement(place));
      if CountAt(merged.statements, place) + count > U64_MAX {
        return false;
      }
      AddToStatement(place, count, effect);
      ok := true;
    }

    /** An outcome's counter goes up, unless it would pass 64 bits. */
    method AddBranchHits(place: Place, id: int, taken: bool, count: nat) returns (ok: bool)
      requires Agrees(merged, effects)
      modifies this`merged, this`effects
      ensures ok <==> Total(old(effects) + [Adds(Branch(place, id, taken), count)], Branch(place, id, taken)) <= U64_MAX
      ensures ok ==> effects == old(effects) + [Adds(Branch(place, id, taken), count)] && Agrees(merged, effects)
    {
      var counter := Branch(place, id, taken);
      OutcomesTrue(merged.branches, effects, place, id);
      TotalSnoc(effects, Adds(counter, count), counter);
      var counts := OutcomesAt(merged.branches, place, id);
      var before := if taken then counts.taken else counts.notTaken;
      if (if before.Some? then before.value else 0) + count > U64_MAX {
        return false;
      }
      AddToBranch(place, id, taken, count, Adds(counter, count));
      ok := true;
    }

    /** One line of a record file; the additions are checked. */
    method MergeHits(placement: Placement, hits: Hits) returns (ok: bool)
      requires Valid()
      modifies this
      ensures var effect := EffectOfHits(placement, hits);
              && (ok <==> effect != Fails
                          && (effect.Adds? ==> Total(old(effects) + [effect], effect.counter) <= U64_MAX))
              && (ok ==> Valid() && effects == old(effects) + [effect])
    {
      if !ReadableHits(hits) {
        return false;
      }
      var mapped := MapCoverageLocation(placement, hits.temporary, hits.path, hits.line);
      HasSiteAppend(effects, [EffectOfHits(placement, hits)]);
      HasSiteOne(EffectOfHits(placement, hits));
      CleanStep(effects, EffectOfHits(placement, hits));
      if mapped.None? {
        Skip();
        return true;
      }
      var place := mapped.value;
      filesSeen := filesSeen + {place.0};
      match hits.kind {
        case StatementHits =>
          ok := AddStatementHits(place, hits.count);
        case BranchHits(id, taken) =>
          if taken != 0 && taken != 1 {
            return false;
          }
          ok := AddBranchHits(place, id, taken == 1, hits.count);
        case UnknownHits =>
          ok := false;
      }
    }

    /** `merge_coverage_sites` */
    method MergeSites(placement: Placement, sites: seq<Site>) returns (ok: bool)
      requires Valid()
      modifies this
      ensures ok ==> Valid() && effects == old(effects) + SiteEffects(placement, sites)
      ensures !ok ==> !Clean(old(effects) + SiteEffects(placement, sites))
    {
      for i := 0 to |sites|
        invariant Valid() && effects == old(effects) + SiteEffects(placement, sites[..i])
      {
        assert sites[..i + 1][..i] == sites[..i];
        ok := MergeSite(placement, sites[i]);
        if !ok {
          SiteEffectsPrefix(placement, sites, i + 1);
          FailureSpoils(old(effects), SiteEffects(placement, sites[..i]), EffectOfSite(placement, sites[i]),
                        SiteEffects(placement, sites));
          return;
        }
        Regroup(old(effects), SiteEffects(placement, sites[..i]), [EffectOfSite(placement, sites[i])]);
      }
      assert sites[..|sites|] == sites;
      ok := true;
    }

    /** `merge_coverage_records` */
    method MergeRecords(placement: Placement, hits: seq<Hits>) returns (ok: bool)
      requires Valid()
      modifies this
      ensures ok ==> Valid() && effects == old(effects) + HitEffects(placement, hits)
      ensures !ok ==> !Clean(old(effects) + HitEffects(placement, hits))
    {
      for i := 0 to |hits|
        invariant Valid() && effects == old(effects) + HitEffects(placement, hits[..i])
      {
        assert hits[..i + 1][..i] == hits[..i];
        ok := MergeHits(placement, hits[i]);
        if !ok {
          HitEffectsPrefix(placement, hits, i + 1);
          FailureSpoils(old(effects), HitEffects(placement, hits[..i]), EffectOfHits(placement, hits[i]),
                        HitEffects(placement, hits));
          return;
        }
        Regroup(old(effects), HitEffects(placement, hits[..i]), [EffectOfHits(placement, hits[i])]);
      }
      assert hits[..|hits|] == hits;
      ok := true;
    }
  }

  lemma {:induction false} SiteEffectsPrefix(placement: Placement, sites: seq<Site>, i: nat)
    requires i <= |sites|
    ensures SiteEffects(placement, sites[..i]) <= SiteEffects(placement, sites)
    decreases |sites|
  {
    if i < |sites| {
      assert sites[..|sites| - 1][..i] == sites[..i];
      SiteEffectsPrefix(placement, sites[..|sites| - 1], i);
    } else {
      assert sites[..i] == sites;
    }
  }

  lemma {:induction false} HitEffectsPrefix(placement: Placement, hits: seq<Hits>, i: nat)
    requires i <= |hits|
    ensures HitEffects(placement, hits[..i]) <= HitEffects(placement, hits)
    decreases |hits|
  {
    if i < |hits| {
      assert hits[..|hits| - 1][..i] == hits[..i];
      HitEffectsPrefix(placement, hits[..|hits| - 1], i);
    } else {
      assert hits[..i] == hits;
    }
  }

  lemma {:induction false} UncleanPrefix(prefix: seq<Effect>, whole: seq<Effect>)
    requires prefix <= whole && !Clean(prefix)
    ensures !Clean(whole)
  {
    assert whole == prefix + whole[|prefix|..];
    if Clean(whole) {
      CleanPrefix(prefix, whole[|prefix|..]);
    }
  }

  /** A record that cannot be merged makes the whole unclean, whatever follows. */
  lemma {:induction false} FailureSpoils(before: seq<Effect>, done: seq<Effect>, effect: Effect, all: seq<Effect>)
    requires done + [effect] <= all
    requires effect == Fails || (effect.Adds? && Total(before + done + [effect], effect.counter) > U64_MAX)
    ensures !Clean(before + all)
  {
    var prefix := before + done + [effect];
    assert prefix[|before + done|] == effect;
    assert !Clean(prefix);
    assert before + all == prefix + all[|done| + 1..];
    UncleanPrefix(prefix, before + all);
  }

  lemma {:induction false} HasSiteOne(effect: Effect)
    ensures HasSite([effect]) <==> effect.SeesStatement? || effect.SeesBranch?
  {
    assert [effect][0] == effect;
  }

  // ------------------------------------------------------------------------ results

  lemma {:induction false} JoinedSnoc(ofTest: TestRecords -> seq<Effect>, tests: seq<TestRecords>, test: TestRecords)
    ensures Joined(ofTest, tests + [test]) == Joined(ofTest, tests) + ofTest(test)
  {
    assert (tests + [test])[..|tests|] == tests;
  }

  lemma {:induction false} JoinedAppend(ofTest: TestRecords -> seq<Effect>, left: seq<TestRecords>,
                                        right: seq<TestRecords>)
    ensures Joined(ofTest, left + right) == Joined(ofTest, left) + Joined(ofTest, right)
    decreases |right|
  {
    if right == [] {
      assert left + right == left;
    } else {
      var front, last := right[..|right| - 1], right[|right| - 1];
      assert left + right == (left + front) + [last];
      JoinedAppend(ofTest, left, front);
      JoinedSnoc(ofTest, left + front, last);
      Regroup(Joined(ofTest, left), Joined(ofTest, front), ofTest(last));
    }
  }

  lemma {:induction false} JoinedOne(ofTest: TestRecords -> seq<Effect>, test: TestRecords)
    ensures Joined(ofTest, [test]) == ofTest(test)
  {
    assert [test][..0] == [];
  }

  /** Taking one test out of the middle takes out its hits. */
  lemma {:induction false} TotalWithout(ofTest: TestRecords -> seq<Effect>, before: seq<TestRecords>,
                                        test: TestRecords, after: seq<TestRecords>, counter: Counter)
    ensures Total(Joined(ofTest, before + [test] + after), counter) ==
            Total(Joined(ofTest, before + after), counter) + Total(ofTest(test), counter)
  {
    JoinedAppend(ofTest, before + [test], after);
    JoinedAppend(ofTest, before, [test]);
    JoinedOne(ofTest, test);
    JoinedAppend(ofTest, before, after);
    TotalAppend(Joined(ofTest, before) + ofTest(test), Joined(ofTest, after), counter);
    TotalAppend(Joined(ofTest, before), ofTest(test), counter);
    TotalAppend(Joined(ofTest, before), Joined(ofTest, after), counter);
  }

  /** A member of a list, with what stands before and after it. */
  lemma {:induction false} SplitAt(tests: seq<TestRecords>, test: TestRecords)
    returns (before: seq<TestRecords>, after: seq<TestRecords>)
    requires test in multiset(tests)
    ensures tests == before + [test] + after
    ensures multiset(before + after) == multiset(tests) - multiset{test}
  {
    var i :| 0 <= i < |tests| && tests[i] == test;
    before, after := tests[..i], tests[i + 1..];
    assert tests == before + [test] + after;
  }

  lemma {:induction false} TotalOfRest(ofTest: TestRecords -> seq<Effect>, tests: seq<TestRecords>, counter: Counter)
    returns (rest: seq<TestRecords>, last: TestRecords)
    requires tests != []
    ensures last in multiset(tests) && |rest| < |tests| && multiset(rest) == multiset(tests) - multiset{last}
    ensures Total(Joined(ofTest, tests), counter) == Total(Joined(ofTest, rest), counter) + Total(ofTest(last), counter)
  {
    rest, last := tests[..|tests| - 1], tests[|tests| - 1];
    assert tests == rest + [last];
    TotalAppend(Joined(ofTest, rest), ofTest(last), counter);
  }

  /** Totals do not depend on the order of the tests. */
  lemma {:induction false} TotalsCommute(ofTest: TestRecords -> seq<Effect>, left: seq<TestRecords>,
                                         right: seq<TestRecords>, counter: Counter)
    requires multiset(left) == multiset(right)
    ensures Total(Joined(ofTest, left), counter) == Total(Joined(ofTest, right), counter)
    decreases |left|
  {
    assert |multiset(left)| == |multiset(right)|;
    if left != [] {
      var rest, last := TotalOfRest(ofTest, left, counter);
      var before, after := SplitAt(right, last);
      TotalsCommute(ofTest, rest, before + after, counter);
      TotalWithout(ofTest, before, last, after, counter);
    }
  }

  ghost predicate InSomeTest(ofTest: TestRecords -> seq<Effect>, tests: seq<TestRecords>, effect: Effect) {
    exists test :: test in tests && effect in ofTest(test)
  }

  lemma {:induction false} EffectsComeFromTests(ofTest: TestRecords -> seq<Effect>, tests: seq<TestRecords>,
                                                effect: Effect)
    ensures effect in Joined(ofTest, tests) <==> InSomeTest(ofTest, tests, effect)
    decreases |tests|
  {
    if tests != [] {
      var n := |tests| - 1;
      EffectsComeFromTests(ofTest, tests[..n], effect);
      assert tests == tests[..n] + [tests[n]];
    }
  }

  lemma {:induction false} EffectsCommute(ofTest: TestRecords -> seq<Effect>, left: seq<TestRecords>,
                                          right: seq<TestRecords>, effect: Effect)
    requires multiset(left) == multiset(right)
    ensures effect in Joined(ofTest, left) ==> effect in Joined(ofTest, right)
  {
    EffectsComeFromTests(ofTest, left, effect);
    EffectsComeFromTests(ofTest, right, effect);
    if InSomeTest(ofTest, left, effect) {
      var test :| test in left && effect in ofTest(test);
      assert test in multiset(left);
      assert test in multiset(right);
    }
  }

  /** Two lists of effects from which the same report follows. */
  ghost predicate Alike(left: seq<Effect>, right: seq<Effect>) {
    && (forall effect :: effect in left <==> effect in right)
    && (forall counter :: Total(left, counter) == Total(right, counter))
  }

  lemma {:induction false} AlikeShow(left: seq<Effect>, right: seq<Effect>)
    requires Alike(left, right)
    ensures forall place :: HasStatement(left, place) ==> HasStatement(right, place)
    ensures forall place, id :: HasBranch(left, place, id) ==> HasBranch(right, place, id)
    ensures HasSite(left) ==> HasSite(right)
    ensures Clean(left) ==> Clean(right)
  {
    forall i | 0 <= i < |left| ensures exists j :: 0 <= j < |right| && right[j] == left[i] {
      assert left[i] in right;
    }
    if Clean(left) {
      forall i | 0 <= i < |right| ensures right[i] != Fails {
        assert right[i] in left;
      }
    }
  }

  lemma {:induction false} AlikeStatements(left: seq<Effect>, right: seq<Effect>, a: map<Place, nat>,
                                           b: map<Place, nat>)
    requires Alike(left, right) && StatementsAgree(a, left) && StatementsAgree(b, right)
    ensures a == b
  {
    AlikeShow(left, right);
    AlikeShow(right, left);
    forall place ensures place in a <==> place in b {
      assert HasStatement(left, place) <==> HasStatement(right, place);
    }
  }

  lemma {:induction false} AlikeBranches(left: seq<Effect>, right: seq<Effect>, a: map<(Place, int), Outcomes>,
                                         b: map<(Place, int), Outcomes>)
    requires Alike(left, right) && BranchesAgree(a, left) && BranchesAgree(b, right)
    ensures a == b
  {
    AlikeShow(left, right);
    AlikeShow(right, left);
    forall key ensures key in a <==> key in b {
      assert HasBranch(left, key.0, key.1) <==> HasBranch(right, key.0, key.1);
    }
  }

  lemma {:induction false} AlikeAgree(left: seq<Effect>, right: seq<Effect>, a: Merged, b: Merged)
    requires Alike(left, right) && Agrees(a, left) && Agrees(b, right)
    ensures a == b
  {
    AlikeStatements(left, right, a.statements, b.statements);
    AlikeBranches(left, right, a.branches, b.branches);
  }

  /** Whether merging succeeds does not depend on the order of the tests, and neither do the merged maps. */
  lemma {:induction false} OrderDoesNotMatter(left: seq<TestRecords>, right: seq<TestRecords>)
    requires multiset(left) == multiset(right)
    ensures Clean(AllEffects(left)) <==> Clean(AllEffects(right))
    ensures HasSite(AllEffects(left)) <==> HasSite(AllEffects(right))
    ensures forall a, b :: Agrees(a, AllEffects(left)) && Agrees(b, AllEffects(right)) ==> a == b
  {
    forall effect ensures effect in AllEffects(left) <==> effect in AllEffects(right) {
      EffectsCommute(TestEffects, left, right, effect);
      EffectsCommute(TestEffects, right, left, effect);
    }
    forall counter ensures Total(AllEffects(left), counter) == Total(AllEffects(right), counter) {
      TotalsCommute(TestEffects, left, right, counter);
    }
    AlikeShow(AllEffects(left), AllEffects(right));
    AlikeShow(AllEffects(right), AllEffects(left));
    forall a, b | Agrees(a, AllEffects(left)) && Agrees(b, AllEffects(right)) ensures a == b {
      AlikeAgree(AllEffects(left), AllEffects(right), a, b);
    }
  }
}

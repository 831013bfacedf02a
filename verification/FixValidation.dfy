// `first_new_error` and `error_key` of `mux-compiler/src/analysis.rs`: whether fixed sources show
// only errors that were there before.
module FixValidation {
  import opened Options
  import opened FixEdits

  const USIZE_MAX: nat := 0xFFFF_FFFF_FFFF_FFFF

  /** A diagnostic: its file's path if known, the byte range of its primary label if any, and whether it is an error. */
  datatype Diagnostic = Diagnostic(path: Option<string>, code: nat, message: string, primary: Option<(nat, nat)>,
                                   error: bool)

  datatype ErrorKey = ErrorKey(path: Option<string>, code: nat, message: string, start: nat, end: nat)

  function TryUsize(n: int): Option<nat> {
    if 0 <= n <= USIZE_MAX then Some(n) else None
  }

  function ShiftedKey(diagnostic: Diagnostic, shift: int): Option<ErrorKey>
    requires diagnostic.primary.Some?
  {
    var start, end := TryUsize(diagnostic.primary.value.0 + shift), TryUsize(diagnostic.primary.value.1 + shift);
    if start.Some? && end.Some? then
      Some(ErrorKey(diagnostic.path, diagnostic.code, diagnostic.message, start.value, end.value))
    else None
  }

  /** The key of an error once the edits of its file have moved it; none if one of them touches it. */
  function KeyOf(diagnostic: Diagnostic, edits: seq<Edit>): Option<ErrorKey> {
    if diagnostic.primary.None? then None
    else if diagnostic.path.None? then ShiftedKey(diagnostic, 0)
    else
      var mine := EditsOf(edits, diagnostic.path.value);
      if Clear(mine, diagnostic.primary.value.0, diagnostic.primary.value.1)
      then ShiftedKey(diagnostic, Shift(mine, diagnostic.primary.value.0))
      else None
  }

  lemma {:induction false} ShiftSnoc(edits: seq<Edit>, edit: Edit, offset: nat)
    ensures Shift(edits + [edit], offset) == Shift(edits, offset) + if edit.end <= offset then Growth(edit) else 0
  {
    if edits != [] {
      assert (edits + [edit])[1..] == edits[1..] + [edit];
      ShiftSnoc(edits[1..], edit, offset);
    }
  }

  lemma {:induction false} ClearSnoc(edits: seq<Edit>, edit: Edit, start: nat, end: nat)
    ensures Clear(edits + [edit], start, end) <==> Clear(edits, start, end) && (edit.end <= start || edit.start >= end)
  {
    var more := edits + [edit];
    assert more[|edits|] == edit;
    assert forall i :: 0 <= i < |edits| ==> more[i] == edits[i];
  }

  lemma {:induction false} TouchedStaysTouched(edits: seq<Edit>, i: nat, path: string, start: nat, end: nat)
    requires i <= |edits| && !Clear(EditsOf(edits[..i], path), start, end)
    ensures !Clear(EditsOf(edits, path), start, end)
    decreases |edits| - i
  {
    if i < |edits| {
      EditsOfStep(edits, i, path);
      ClearSnoc(EditsOf(edits[..i], path), edits[i], start, end);
      TouchedStaysTouched(edits, i + 1, path, start, end);
    } else {
      assert edits[..i] == edits;
    }
  }

  /** `error_key` */
  method ErrorKeyOf(diagnostic: Diagnostic, edits: seq<Edit>) returns (key: Option<ErrorKey>)
    ensures key == KeyOf(diagnostic, edits)
  {
    if diagnostic.primary.None? {
      return None;
    }
    var (start, end) := diagnostic.primary.value;
    var offsetDelta: int := 0;
    if diagnostic.path.Some? {
      var path := diagnostic.path.value;
      for i := 0 to |edits|
        invariant Clear(EditsOf(edits[..i], path), start, end)
        invariant offsetDelta == Shift(EditsOf(edits[..i], path), start)
      {
        EditsOfStep(edits, i, path);
        ClearSnoc(EditsOf(edits[..i], path), edits[i], start, end);
        ShiftSnoc(EditsOf(edits[..i], path), edits[i], start);
        if edits[i].file == path {
          if edits[i].end <= start {
            offsetDelta := offsetDelta + |edits[i].replacement| - (edits[i].end - edits[i].start);
          } else if edits[i].start < end {
            TouchedStaysTouched(edits, i + 1, path, start, end);
            return None;
          }
        }
      }
      assert edits[..|edits|] == edits;
    }
    key := ShiftedKey(diagnostic, offsetDelta);
  }

  // ----------------------------------------------------------------- keys against text

  lemma {:induction false} ShiftOfInsert(edit: Edit, sorted: seq<Edit>, offset: nat)
    ensures Shift(Insert(edit, sorted), offset) ==
            Shift(sorted, offset) + if edit.end <= offset then Growth(edit) else 0
  {
    if sorted != [] && !AtMost(edit, sorted[0]) {
      ShiftOfInsert(edit, sorted[1..], offset);
      assert Insert(edit, sorted)[1..] == Insert(edit, sorted[1..]);
    } else {
      assert ([edit] + sorted)[1..] == sorted;
    }
  }

  /** The order of the edits does not matter to the shift. */
  lemma {:induction false} ShiftOfSort(edits: seq<Edit>, offset: nat)
    ensures Shift(Sort(edits), offset) == Shift(edits, offset)
  {
    if edits != [] {
      ShiftOfSort(edits[1..], offset);
      ShiftOfInsert(edits[0], Sort(edits[1..]), offset);
    }
  }

  lemma {:induction false} ClearOfSort(edits: seq<Edit>, start: nat, end: nat)
    requires Clear(edits, start, end)
    ensures Clear(Sort(edits), start, end)
  {
    SortSorts(edits);
    forall i | 0 <= i < |Sort(edits)| ensures Sort(edits)[i].end <= start || Sort(edits)[i].start >= end {
      assert Sort(edits)[i] in multiset(Sort(edits));
      assert Sort(edits)[i] in multiset(edits);
    }
  }

  /** An error's key names the place its text has in the edited file. */
  lemma {:induction false} KeyFindsText(diagnostic: Diagnostic, edits: seq<Edit>, before: ByteText, after: ByteText)
    requires diagnostic.path.Some? && diagnostic.primary.Some?
    requires diagnostic.primary.value.0 <= diagnostic.primary.value.1 <= |before|
    requires Rewrites(before, EditsOf(edits, diagnostic.path.value), after)
    ensures var key, (start, end) := KeyOf(diagnostic, edits), diagnostic.primary.value;
            key.Some? ==>
              && key.value.start <= key.value.end <= |after|
              && after[key.value.start..key.value.end] == before[start..end]
  {
    var mine := EditsOf(edits, diagnostic.path.value);
    var (start, end) := diagnostic.primary.value;
    if Clear(mine, start, end) {
      ClearOfSort(mine, start, end);
      ShiftOfSort(mine, start);
      SpanKept(before, Sort(mine), start, end);
    }
  }

  /** It has one exactly if no edit of its file touches it, in a text of ordinary size. */
  lemma {:induction false} KeyExactly(diagnostic: Diagnostic, edits: seq<Edit>, before: ByteText, after: ByteText)
    requires diagnostic.path.Some? && diagnostic.primary.Some?
    requires diagnostic.primary.value.0 <= diagnostic.primary.value.1 <= |before|
    requires Rewrites(before, EditsOf(edits, diagnostic.path.value), after) && |after| <= USIZE_MAX
    ensures KeyOf(diagnostic, edits).Some? <==>
            Clear(EditsOf(edits, diagnostic.path.value), diagnostic.primary.value.0, diagnostic.primary.value.1)
  {
    var mine := EditsOf(edits, diagnostic.path.value);
    var (start, end) := diagnostic.primary.value;
    if Clear(mine, start, end) {
      ClearOfSort(mine, start, end);
      ShiftOfSort(mine, start);
      SpanKept(before, Sort(mine), start, end);
    }
  }

  /** An error in no known file keeps its place whatever is edited. */
  lemma {:induction false} PathlessKeyStays(diagnostic: Diagnostic, edits: seq<Edit>)
    requires diagnostic.path.None?
    ensures KeyOf(diagnostic, edits) ==
            if diagnostic.primary.Some? && diagnostic.primary.value.0 <= USIZE_MAX
               && diagnostic.primary.value.1 <= USIZE_MAX
            then Some(ErrorKey(None, diagnostic.code, diagnostic.message, diagnostic.primary.value.0,
                               diagnostic.primary.value.1))
            else None
  {
  }

  // -------------------------------------------------------------------- comparing

  /** A diagnostic as the comparison sees it: errors only, by key. */
  datatype Keyed = NoError | Keyless | Keyed(key: ErrorKey)

  function KeyedOf(diagnostic: Diagnostic, edits: seq<Edit>): Keyed {
    if !diagnostic.error then NoError
    else if KeyOf(diagnostic, edits).None? then Keyless
    else Keyed(KeyOf(diagnostic, edits).value)
  }

  function AllKeyed(diagnostics: seq<Diagnostic>, edits: seq<Edit>): (all: seq<Keyed>)
    ensures |all| == |diagnostics|
  {
    if diagnostics == [] then []
    else AllKeyed(diagnostics[..|diagnostics| - 1], edits) + [KeyedOf(diagnostics[|diagnostics| - 1], edits)]
  }

  lemma {:induction false} KeyedAt(diagnostics: seq<Diagnostic>, edits: seq<Edit>, i: nat)
    requires i < |diagnostics|
    ensures AllKeyed(diagnostics, edits)[i] == KeyedOf(diagnostics[i], edits)
    decreases |diagnostics|
  {
    if i < |diagnostics| - 1 {
      KeyedAt(diagnostics[..|diagnostics| - 1], edits, i);
    }
  }

  /** The keys of the errors that have one. */
  function Keys(all: seq<Keyed>): multiset<ErrorKey> {
    if all == [] then multiset{}
    else Keys(all[..|all| - 1]) + if all[|all| - 1].Keyed? then multiset{all[|all| - 1].key} else multiset{}
  }

  ghost predicate AllHaveKeys(all: seq<Keyed>) {
    forall j :: 0 <= j < |all| ==> all[j] != Keyless
  }

  /** Every error has a key, and no key comes more often than it is known. */
  ghost predicate NothingNew(known: multiset<ErrorKey>, all: seq<Keyed>) {
    AllHaveKeys(all) && Keys(all) <= known
  }

  /** How many of the errors have that key. */
  ghost function ErrorCount(diagnostics: seq<Diagnostic>, edits: seq<Edit>, key: ErrorKey): nat {
    if diagnostics == [] then 0
    else
      var n := |diagnostics| - 1;
      ErrorCount(diagnostics[..n], edits, key)
        + if diagnostics[n].error && KeyOf(diagnostics[n], edits) == Some(key) then 1 else 0
  }

  lemma {:induction false} KeysCount(diagnostics: seq<Diagnostic>, edits: seq<Edit>, key: ErrorKey)
    ensures Keys(AllKeyed(diagnostics, edits))[key] == ErrorCount(diagnostics, edits, key)
    decreases |diagnostics|
  {
    if diagnostics != [] {
      var n := |diagnostics| - 1;
      KeysCount(diagnostics[..n], edits, key);
      var all := AllKeyed(diagnostics, edits);
      assert all[..n] == AllKeyed(diagnostics[..n], edits);
    }
  }

  lemma {:induction false} IncludedByCount(part: multiset<ErrorKey>, whole: multiset<ErrorKey>)
    ensures part <= whole <==> forall key :: part[key] <= whole[key]
  {
  }

  lemma {:induction false} KeylessExactly(diagnostics: seq<Diagnostic>, edits: seq<Edit>)
    ensures AllHaveKeys(AllKeyed(diagnostics, edits)) <==>
            forall i :: 0 <= i < |diagnostics| && diagnostics[i].error ==> KeyOf(diagnostics[i], edits).Some?
  {
    forall i | 0 <= i < |diagnostics| ensures AllKeyed(diagnostics, edits)[i] == KeyedOf(diagnostics[i], edits) {
      KeyedAt(diagnostics, edits, i);
    }
  }

  // Nothing is new exactly if every error of the edited sources has a key, and no key is that
  // of more errors than the edits would leave of the old ones.
  lemma {:induction false} NothingNewExactly(baseline: seq<Diagnostic>, staged: seq<Diagnostic>, edits: seq<Edit>)
    ensures NothingNew(Keys(AllKeyed(baseline, edits)), AllKeyed(staged, [])) <==>
            && (forall i :: 0 <= i < |staged| && staged[i].error ==> KeyOf(staged[i], []).Some?)
            && forall key :: ErrorCount(staged, [], key) <= ErrorCount(baseline, edits, key)
  {
    KeylessExactly(staged, []);
    IncludedByCount(Keys(AllKeyed(staged, [])), Keys(AllKeyed(baseline, edits)));
    CountsAtMost(staged, [], baseline, edits);
  }

  /** Keys are included exactly if none is that of more errors. */
  lemma {:induction false} CountsAtMost(some: seq<Diagnostic>, someEdits: seq<Edit>, others: seq<Diagnostic>,
                                        otherEdits: seq<Edit>)
    ensures (forall key :: Keys(AllKeyed(some, someEdits))[key] <= Keys(AllKeyed(others, otherEdits))[key]) <==>
            forall key :: ErrorCount(some, someEdits, key) <= ErrorCount(others, otherEdits, key)
  {
    var part, whole := Keys(AllKeyed(some, someEdits)), Keys(AllKeyed(others, otherEdits));
    if forall key :: ErrorCount(some, someEdits, key) <= ErrorCount(others, otherEdits, key) {
      forall key ensures part[key] <= whole[key] {
        KeysCount(some, someEdits, key);
        KeysCount(others, otherEdits, key);
      }
    } else {
      var key :| ErrorCount(some, someEdits, key) > ErrorCount(others, otherEdits, key);
      KeysCount(some, someEdits, key);
      KeysCount(others, otherEdits, key);
      assert part[key] > whole[key];
    }
  }

  type Counts = map<ErrorKey, nat>

  function CountOf(counts: Counts, key: ErrorKey): nat {
    if key in counts then counts[key] else 0
  }

  ghost predicate CountsAre(counts: Counts, keys: multiset<ErrorKey>) {
    forall key :: CountOf(counts, key) == keys[key]
  }

  lemma {:induction false} CountUp(counts: Counts, keys: multiset<ErrorKey>, key: ErrorKey)
    requires CountsAre(counts, keys)
    ensures CountsAre(counts[key := CountOf(counts, key) + 1], keys + multiset{key})
  {
  }

  lemma {:induction false} CountDown(counts: Counts, keys: multiset<ErrorKey>, key: ErrorKey)
    requires CountsAre(counts, keys) && CountOf(counts, key) > 0
    ensures CountsAre(counts[key := CountOf(counts, key) - 1], keys - multiset{key})
  {
  }

  lemma {:induction false} KeysStep(all: seq<Keyed>, i: nat)
    requires i < |all|
    ensures Keys(all[..i + 1]) == if all[i].Keyed? then Keys(all[..i]) + multiset{all[i].key} else Keys(all[..i])
  {
    assert all[..i + 1][..i] == all[..i];
  }

  /** The loop over the errors of the unedited sources. */
  method CountExisting(baseline: seq<Diagnostic>, edits: seq<Edit>) returns (existing: Counts)
    ensures CountsAre(existing, Keys(AllKeyed(baseline, edits)))
  {
    existing := map[];
    ghost var all := AllKeyed(baseline, edits);
    for i := 0 to |baseline|
      invariant CountsAre(existing, Keys(all[..i]))
    {
      KeysStep(all, i);
      KeyedAt(baseline, edits, i);
      if baseline[i].error {
        var key := ErrorKeyOf(baseline[i], edits);
        if key.Some? {
          CountUp(existing, Keys(all[..i]), key.value);
          existing := existing[key.value := CountOf(existing, key.value) + 1];
        }
      }
    }
    assert all[..|all|] == all;
  }

  lemma {:induction false} OneMoreKnown(known: multiset<ErrorKey>, part: multiset<ErrorKey>, key: ErrorKey)
    requires part <= known
    ensures part + multiset{key} <= known <==> key in known - part
  {
  }

  lemma {:induction false} OneMoreKeyed(all: seq<Keyed>, i: nat)
    requires i < |all| && AllHaveKeys(all[..i])
    ensures AllHaveKeys(all[..i + 1]) <==> all[i] != Keyless
  {
    assert all[..i + 1][i] == all[i] && forall j :: 0 <= j < i ==> all[..i + 1][j] == all[..i][j];
  }

  /** What one more error means for the comparison. */
  lemma {:induction false} NothingNewStep(known: multiset<ErrorKey>, all: seq<Keyed>, i: nat)
    requires i < |all| && NothingNew(known, all[..i])
    ensures NothingNew(known, all[..i + 1]) <==>
            all[i] != Keyless && (all[i].Keyed? ==> all[i].key in known - Keys(all[..i]))
  {
    KeysStep(all, i);
    OneMoreKeyed(all, i);
    if all[i].Keyed? {
      OneMoreKnown(known, Keys(all[..i]), all[i].key);
    }
  }

  lemma {:induction false} PrefixKnown(known: multiset<ErrorKey>, all: seq<Keyed>, i: nat)
    requires i <= |all| && NothingNew(known, all)
    ensures NothingNew(known, all[..i])
    decreases |all|
  {
    if i < |all| {
      PrefixKnown(known, all[..|all| - 1], i);
      assert all[..|all| - 1][..i] == all[..i];
    } else {
      assert all[..i] == all;
    }
  }

  lemma {:induction false} NewStaysNew(known: multiset<ErrorKey>, all: seq<Keyed>, i: nat)
    requires i <= |all| && !NothingNew(known, all[..i])
    ensures !NothingNew(known, all)
  {
    if NothingNew(known, all) {
      PrefixKnown(known, all, i);
    }
  }

  /** The part of the known keys an error uses up. */
  function UsedBy(keyed: Keyed): multiset<ErrorKey> {
    if keyed.Keyed? then multiset{keyed.key} else multiset{}
  }

  /** One round of the second loop: whether the error is known, and what remains known. */
  method CheckOne(existing: Counts, ghost remaining: multiset<ErrorKey>, diagnostic: Diagnostic)
    returns (ok: bool, more: Counts)
    requires CountsAre(existing, remaining)
    ensures ok <==> KeyedOf(diagnostic, []) != Keyless && UsedBy(KeyedOf(diagnostic, [])) <= remaining
    ensures ok ==> CountsAre(more, remaining - UsedBy(KeyedOf(diagnostic, [])))
  {
    ok, more := true, existing;
    if diagnostic.error {
      var key := ErrorKeyOf(diagnostic, []);
      if key.None? {
        return false, existing;
      }
      if CountOf(existing, key.value) == 0 {
        return false, existing;
      }
      CountDown(existing, remaining, key.value);
      more := existing[key.value := CountOf(existing, key.value) - 1];
    }
  }

  lemma {:induction false} Remaining(known: multiset<ErrorKey>, all: seq<Keyed>, i: nat)
    requires i < |all| && NothingNew(known, all[..i])
    ensures NothingNew(known, all[..i + 1]) <==> all[i] != Keyless && UsedBy(all[i]) <= known - Keys(all[..i])
    ensures known - Keys(all[..i + 1]) == known - Keys(all[..i]) - UsedBy(all[i])
  {
    NothingNewStep(known, all, i);
    KeysStep(all, i);
    UsedOfRest(known - Keys(all[..i]), all[i]);
    LessByMore(known, Keys(all[..i]), UsedBy(all[i]));
    assert Keys(all[..i + 1]) == Keys(all[..i]) + UsedBy(all[i]);
  }

  lemma {:induction false} UsedOfRest(rest: multiset<ErrorKey>, keyed: Keyed)
    ensures UsedBy(keyed) <= rest <==> (keyed.Keyed? ==> keyed.key in rest)
  {
  }

  lemma {:induction false} LessByMore(known: multiset<ErrorKey>, part: multiset<ErrorKey>, more: multiset<ErrorKey>)
    ensures known - (part + more) == known - part - more
  {
  }

  /** `first_new_error`: the first error that has no key or whose key is used up. */
  method FirstNewError(baseline: seq<Diagnostic>, staged: seq<Diagnostic>, edits: seq<Edit>)
    returns (first: Option<nat>)
    ensures var known, all := Keys(AllKeyed(baseline, edits)), AllKeyed(staged, []);
            && (first.None? <==> NothingNew(known, all))
            && (first.Some? ==>
                  && first.value < |staged|
                  && NothingNew(known, all[..first.value]) && !NothingNew(known, all[..first.value + 1]))
  {
    var existing: Counts := CountExisting(baseline, edits);
    ghost var known, all := Keys(AllKeyed(baseline, edits)), AllKeyed(staged, []);
    for i := 0 to |staged|
      invariant NothingNew(known, all[..i])
      invariant CountsAre(existing, known - Keys(all[..i]))
    {
      Remaining(known, all, i);
      KeyedAt(staged, [], i);
      var ok, more := CheckOne(existing, known - Keys(all[..i]), staged[i]);
      if !ok {
        NewStaysNew(known, all, i + 1);
        return Some(i);
      }
      existing := more;
    }
    assert all[..|all|] == all;
    first := None;
  }

  // ---------------------------------------------------------------------- results

  lemma {:induction false} KeysComeFrom(diagnostics: seq<Diagnostic>, edits: seq<Edit>, key: ErrorKey) returns (i: nat)
    requires key in Keys(AllKeyed(diagnostics, edits))
    ensures i < |diagnostics| && KeyedOf(diagnostics[i], edits) == Keyed(key)
    decreases |diagnostics|
  {
    var n := |diagnostics| - 1;
    var all := AllKeyed(diagnostics, edits);
    assert all[..n] == AllKeyed(diagnostics[..n], edits);
    if KeyedOf(diagnostics[n], edits) == Keyed(key) {
      i := n;
    } else {
      i := KeysComeFrom(diagnostics[..n], edits, key);
    }
  }

  lemma {:induction false} KeyCounted(all: seq<Keyed>, i: nat)
    requires i < |all| && all[i].Keyed?
    ensures all[i].key in Keys(all)
    decreases |all|
  {
    if i < |all| - 1 {
      KeyCounted(all[..|all| - 1], i);
    }
  }

  // When nothing new is found, every error of the edited sources is one from
  // before: same file, code and message, and the same text under it.
  lemma {:induction false} AcceptedErrorsAreOld(baseline: seq<Diagnostic>, staged: seq<Diagnostic>, edits: seq<Edit>,
                                                i: nat, before: ByteText, after: ByteText)
    returns (b: nat)
    requires NothingNew(Keys(AllKeyed(baseline, edits)), AllKeyed(staged, []))
    requires i < |staged| && staged[i].error
    ensures staged[i].primary.Some? && b < |baseline| && baseline[b].error && baseline[b].primary.Some?
    ensures baseline[b].path == staged[i].path && baseline[b].code == staged[i].code
    ensures baseline[b].message == staged[i].message
    ensures var (start, end), (oldStart, oldEnd) := staged[i].primary.value, baseline[b].primary.value;
            staged[i].path.Some? && Rewrites(before, EditsOf(edits, staged[i].path.value), after)
            && oldStart <= oldEnd <= |before| ==>
              start <= end <= |after| && after[start..end] == before[oldStart..oldEnd]
  {
    KeyedAt(staged, [], i);
    var key := KeyOf(staged[i], []).value;
    KeyCounted(AllKeyed(staged, []), i);
    b := KeysComeFrom(baseline, edits, key);
    if staged[i].path.Some? && Rewrites(before, EditsOf(edits, staged[i].path.value), after)
       && baseline[b].primary.value.0 <= baseline[b].primary.value.1 <= |before| {
      KeyFindsText(baseline[b], edits, before, after);
    }
  }
}

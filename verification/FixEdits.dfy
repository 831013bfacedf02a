// The edits of one file: their order, their overlaps and the text they leave
// (`mux-compiler/src/diagnostic/fix.rs`), and shifting a diagnostic's span through
// them (`error_key` of `mux-compiler/src/analysis.rs`).  Texts are byte sequences.
module FixEdits {
  type ByteText = seq<nat>

  /** A `TextEdit`; files are named by their paths. */
  datatype Edit = Edit(file: string, start: nat, end: nat, replacement: ByteText, applicable: bool)

  ghost predicate InText(text: ByteText, edits: seq<Edit>) {
    forall i :: 0 <= i < |edits| ==> edits[i].start <= edits[i].end <= |text|
  }

  /** The edits of one file, in the order given. */
  function EditsOf(edits: seq<Edit>, path: string): seq<Edit> {
    if edits == [] then []
    else (if edits[0].file == path then [edits[0]] else []) + EditsOf(edits[1..], path)
  }

  lemma {:induction false} EditsOfStep(edits: seq<Edit>, i: nat, path: string)
    requires i < |edits|
    ensures EditsOf(edits[..i + 1], path) ==
            if edits[i].file == path then EditsOf(edits[..i], path) + [edits[i]] else EditsOf(edits[..i], path)
    decreases i
  {
    if i > 0 {
      EditsOfStep(edits[1..], i - 1, path);
      assert edits[1..][..i] == edits[..i + 1][1..] && edits[1..][..i - 1] == edits[..i][1..];
    } else {
      assert edits[..1][1..] == [];
    }
  }

  // ---------------------------------------------------------------- order and overlap

  /** The key edits are sorted by. */
  predicate AtMost(left: Edit, right: Edit) {
    left.start < right.start || (left.start == right.start && left.end <= right.end)
  }

  predicate Sorted(edits: seq<Edit>) {
    |edits| <= 1 || (AtMost(edits[0], edits[1]) && Sorted(edits[1..]))
  }

  function Insert(edit: Edit, sorted: seq<Edit>): seq<Edit> {
    if sorted == [] || AtMost(edit, sorted[0]) then [edit] + sorted
    else [sorted[0]] + Insert(edit, sorted[1..])
  }

  /** `sort_by_key` */
  function Sort(edits: seq<Edit>): seq<Edit> {
    if edits == [] then [] else Insert(edits[0], Sort(edits[1..]))
  }

  lemma {:induction false} InsertSorts(edit: Edit, sorted: seq<Edit>)
    requires Sorted(sorted)
    ensures Sorted(Insert(edit, sorted))
    ensures Insert(edit, sorted)[0] == edit || (sorted != [] && Insert(edit, sorted)[0] == sorted[0])
  {
    var more := Insert(edit, sorted);
    if sorted == [] || AtMost(edit, sorted[0]) {
      assert more[1..] == sorted;
    } else {
      InsertSorts(edit, sorted[1..]);
      assert more[1..] == Insert(edit, sorted[1..]);
    }
  }

  lemma {:induction false} InsertAdds(edit: Edit, sorted: seq<Edit>)
    ensures multiset(Insert(edit, sorted)) == multiset(sorted) + multiset{edit}
  {
    if sorted != [] && !AtMost(edit, sorted[0]) {
      InsertAdds(edit, sorted[1..]);
      assert sorted == [sorted[0]] + sorted[1..];
    }
  }

  lemma {:induction false} SortSorts(edits: seq<Edit>)
    ensures Sorted(Sort(edits)) && multiset(Sort(edits)) == multiset(edits)
  {
    if edits != [] {
      SortSorts(edits[1..]);
      InsertSorts(edits[0], Sort(edits[1..]));
      InsertAdds(edits[0], Sort(edits[1..]));
      assert edits == [edits[0]] + edits[1..];
    }
  }

  /** `ranges_overlap` */
  predicate RangesOverlap(left: Edit, right: Edit) {
    var leftEmpty, rightEmpty := left.start == left.end, right.start == right.end;
    if leftEmpty && rightEmpty then left.start == right.start
    else if leftEmpty then left.start >= right.start && left.start < right.end
    else if rightEmpty then right.start >= left.start && right.start < left.end
    else left.start < right.end && right.start < left.end
  }

  /** The places an edit lays claim to: the bytes it replaces, or the one place where it inserts. */
  predicate Claims(edit: Edit, offset: nat) {
    edit.start == offset || edit.start <= offset < edit.end
  }

  /** Edits overlap exactly if they lay claim to one place. */
  lemma {:induction false} OverlapIsSharedClaim(left: Edit, right: Edit)
    requires left.start <= left.end && right.start <= right.end
    ensures RangesOverlap(left, right) <==> exists offset :: Claims(left, offset) && Claims(right, offset)
  {
    var later := if left.start < right.start then right.start else left.start;
    assert RangesOverlap(left, right) ==> Claims(left, later) && Claims(right, later);
  }

  /** Edits one after another. */
  predicate Apart(edits: seq<Edit>) {
    |edits| <= 1 || (edits[0].end <= edits[1].start && Apart(edits[1..]))
  }

  /** In sorted order, no overlap of neighbours means one after another. */
  lemma {:induction false} NeighboursApart(left: Edit, right: Edit)
    requires AtMost(left, right) && left.start <= left.end && right.start <= right.end
    ensures !RangesOverlap(left, right) ==> left.end <= right.start && left.start < right.start
    ensures left.end < right.start ==> !RangesOverlap(left, right)
  {
  }

  /** The check over `windows(2)`. */
  method AnyOverlap(sorted: seq<Edit>) returns (overlap: bool)
    requires Sorted(sorted) && Ordered(sorted)
    ensures overlap <==> NeighboursOverlap(sorted)
    ensures !overlap ==> Apart(sorted)
  {
    var i := 1;
    while i < |sorted|
      invariant 1 <= i
      invariant forall j :: 0 < j < i && j < |sorted| ==> !RangesOverlap(sorted[j - 1], sorted[j])
    {
      if RangesOverlap(sorted[i - 1], sorted[i]) {
        return true;
      }
      i := i + 1;
    }
    ApartFromNeighbours(sorted);
    overlap := false;
  }

  lemma {:induction false} ApartFromNeighbours(sorted: seq<Edit>)
    requires Sorted(sorted) && forall i :: 0 <= i < |sorted| ==> sorted[i].start <= sorted[i].end
    requires forall j :: 0 < j < |sorted| ==> !RangesOverlap(sorted[j - 1], sorted[j])
    ensures Apart(sorted)
  {
    if |sorted| > 1 {
      assert !RangesOverlap(sorted[1 - 1], sorted[1]);
      NeighboursApart(sorted[0], sorted[1]);
      forall j | 0 < j < |sorted[1..]| ensures !RangesOverlap(sorted[1..][j - 1], sorted[1..][j]) {
        assert !RangesOverlap(sorted[j + 1 - 1], sorted[j + 1]);
      }
      ApartFromNeighbours(sorted[1..]);
    }
  }

  // ------------------------------------------------------------------------- applying

  function ReplaceRange(text: ByteText, start: nat, end: nat, replacement: ByteText): ByteText
    requires start <= end <= |text|
  {
    text[..start] + replacement + text[end..]
  }

  /** The text after the edits, the last one applied first. */
  function Edited(text: ByteText, edits: seq<Edit>): (after: ByteText)
    requires InText(text, edits) && Apart(edits)
    ensures edits == [] ==> after == text
    ensures edits != [] ==> |after| >= edits[0].start && after[..edits[0].start] == text[..edits[0].start]
  {
    if edits == [] then text
    else
      var later := Edited(text, edits[1..]);
      assert edits[0].end <= |later| && later[..edits[0].end] == text[..edits[0].end] by {
        if |edits| > 1 {
          assert edits[1..][0] == edits[1];
          assert later[..edits[1].start][..edits[0].end] == text[..edits[1].start][..edits[0].end];
        }
      }
      assert later[..edits[0].end][..edits[0].start] == text[..edits[0].end][..edits[0].start];
      ReplaceRange(later, edits[0].start, edits[0].end, edits[0].replacement)
  }

  /** The text from `from` on with each range replaced in turn, front to back. */
  function Spliced(text: ByteText, edits: seq<Edit>, from: nat): ByteText
    requires InText(text, edits) && Apart(edits) && from <= |text| && (edits != [] ==> from <= edits[0].start)
    decreases |edits|
  {
    if edits == [] then text[from..]
    else text[from..edits[0].start] + edits[0].replacement + Spliced(text, edits[1..], edits[0].end)
  }

  lemma {:induction false} ReplacedFront(text: ByteText, rest: ByteText, edit: Edit)
    requires edit.start <= edit.end <= |text|
    ensures ReplaceRange(text[..edit.end] + rest, edit.start, edit.end, edit.replacement) ==
            text[..edit.start] + edit.replacement + rest
  {
    var later := text[..edit.end] + rest;
    assert later[..edit.start] == text[..edit.start] && later[edit.end..] == rest;
  }

  lemma {:induction false} FrontParts(text: ByteText, from: nat, start: nat, replacement: ByteText, rest: ByteText)
    requires from <= start <= |text|
    ensures text[..start] + replacement + rest == text[..from] + (text[from..start] + replacement + rest)
  {
    assert text[..start] == text[..from] + text[from..start];
  }

  /** Applying the edits last to first is splicing the replacements in front to back. */
  lemma {:induction false} EditedIsSpliced(text: ByteText, edits: seq<Edit>, from: nat)
    requires InText(text, edits) && Apart(edits) && from <= |text| && (edits != [] ==> from <= edits[0].start)
    ensures Edited(text, edits) == text[..from] + Spliced(text, edits, from)
    decreases |edits|
  {
    if edits != [] {
      var edit, rest := edits[0], Spliced(text, edits[1..], edits[0].end);
      EditedIsSpliced(text, edits[1..], edit.end);
      ReplacedFront(text, rest, edit);
      FrontParts(text, from, edit.start, edit.replacement, rest);
    }
  }

  ghost predicate NeighboursOverlap(sorted: seq<Edit>) {
    exists i :: 0 < i < |sorted| && RangesOverlap(sorted[i - 1], sorted[i])
  }

  /** Two edits of the list, wherever they stand, overlap. */
  ghost predicate SomeOverlap(edits: seq<Edit>) {
    exists i, j :: 0 <= i < j < |edits| && RangesOverlap(edits[i], edits[j])
  }

  ghost predicate Ordered(edits: seq<Edit>) {
    forall i :: 0 <= i < |edits| ==> edits[i].start <= edits[i].end
  }

  lemma {:induction false} RestHas(edits: seq<Edit>, i: nat)
    requires i < |edits|
    ensures multiset(Without(edits, i)) == multiset(edits) - multiset{edits[i]}
  {
    assert edits == edits[..i] + [edits[i]] + edits[i + 1..];
  }

  lemma {:induction false} PlaceOf(edits: seq<Edit>, edit: Edit) returns (p: nat)
    requires edit in multiset(edits)
    ensures p < |edits| && edits[p] == edit
  {
    p :| p < |edits| && edits[p] == edit;
  }

  /** A place other than the `i`th, counted without it and with it. */
  function Without(edits: seq<Edit>, i: nat): seq<Edit>
    requires i < |edits|
  {
    edits[..i] + edits[i + 1..]
  }

  lemma {:induction false} OtherPlace(edits: seq<Edit>, i: nat, j: nat)
    requires i < |edits| && j < |edits| && i != j
    ensures edits[j] in multiset(Without(edits, i))
  {
    assert Without(edits, i)[if j < i then j else j - 1] == edits[j];
  }

  lemma {:induction false} PlaceBack(edits: seq<Edit>, p: nat, r: nat) returns (q: nat)
    requires p < |edits| && r < |Without(edits, p)|
    ensures q < |edits| && q != p && edits[q] == Without(edits, p)[r]
  {
    q := if r < p then r else r + 1;
  }

  /** Two places of one list are two places of any rearrangement. */
  lemma {:induction false} PairsMove(edits: seq<Edit>, other: seq<Edit>, i: nat, j: nat) returns (p: nat, q: nat)
    requires multiset(edits) == multiset(other) && i < |edits| && j < |edits| && i != j
    ensures p < |other| && q < |other| && p != q && other[p] == edits[i] && other[q] == edits[j]
  {
    assert edits[i] in multiset(edits);
    p := PlaceOf(other, edits[i]);
    RestHas(edits, i);
    RestHas(other, p);
    OtherPlace(edits, i, j);
    var r := PlaceOf(Without(other, p), edits[j]);
    q := PlaceBack(other, p, r);
  }

  // Of sorted edits whose neighbours do not overlap, an earlier one ends before a later one
  // starts, and starts before it.
  lemma {:induction false} NeighboursSuffice(sorted: seq<Edit>, i: nat, j: nat)
    requires Sorted(sorted) && forall k :: 0 <= k < |sorted| ==> sorted[k].start <= sorted[k].end
    requires forall k :: 0 < k < |sorted| ==> !RangesOverlap(sorted[k - 1], sorted[k])
    requires i < j < |sorted|
    ensures sorted[i].end <= sorted[j].start && sorted[i].start < sorted[j].start
    decreases j
  {
    NextAtMost(sorted, j);
    assert !RangesOverlap(sorted[j - 1], sorted[j]);
    NeighboursApart(sorted[j - 1], sorted[j]);
    if i < j - 1 {
      NeighboursSuffice(sorted, i, j - 1);
    }
  }

  lemma {:induction false} NextAtMost(sorted: seq<Edit>, j: nat)
    requires Sorted(sorted) && 0 < j < |sorted|
    ensures AtMost(sorted[j - 1], sorted[j])
  {
    if j > 1 {
      NextAtMost(sorted[1..], j - 1);
    }
  }

  /** Overlapping is mutual, and never between an edit that ends before another one starts and that one. */
  lemma {:induction false} OverlapFacts(left: Edit, right: Edit)
    requires left.start <= left.end && right.start <= right.end
    ensures RangesOverlap(left, right) <==> RangesOverlap(right, left)
    ensures left.end <= right.start && left.start < right.start ==> !RangesOverlap(left, right)
  {
  }

  lemma {:induction false} OverlapMoves(edits: seq<Edit>, other: seq<Edit>)
    requires multiset(edits) == multiset(other) && Ordered(edits) && SomeOverlap(edits)
    ensures SomeOverlap(other)
  {
    var i, j :| 0 <= i < j < |edits| && RangesOverlap(edits[i], edits[j]);
    var p, q := PairsMove(edits, other, i, j);
    OverlapFacts(edits[i], edits[j]);
    assert RangesOverlap(other[if p < q then p else q], other[if p < q then q else p]);
  }

  lemma {:induction false} OverlapIsNextTo(sorted: seq<Edit>)
    requires Sorted(sorted) && Ordered(sorted)
    ensures NeighboursOverlap(sorted) <==> SomeOverlap(sorted)
  {
    if NeighboursOverlap(sorted) {
      var k :| 0 < k < |sorted| && RangesOverlap(sorted[k - 1], sorted[k]);
      assert RangesOverlap(sorted[k - 1], sorted[k]);
    } else if SomeOverlap(sorted) {
      var p, q :| 0 <= p < q < |sorted| && RangesOverlap(sorted[p], sorted[q]);
      NeighboursSuffice(sorted, p, q);
    }
  }

  /** Neighbours in sorted order overlap exactly if any two edits of the list do. */
  lemma {:induction false} NeighboursDecide(edits: seq<Edit>)
    requires Ordered(edits)
    ensures NeighboursOverlap(Sort(edits)) <==> SomeOverlap(edits)
  {
    var sorted := Sort(edits);
    SortSorts(edits);
    SortedOrdered(edits);
    OverlapIsNextTo(sorted);
    if SomeOverlap(sorted) {
      OverlapMoves(sorted, edits);
    }
    if SomeOverlap(edits) {
      OverlapMoves(edits, sorted);
    }
  }

  lemma {:induction false} SortedOrdered(edits: seq<Edit>)
    requires Ordered(edits)
    ensures Ordered(Sort(edits))
  {
    SortSorts(edits);
    forall i | 0 <= i < |Sort(edits)| ensures Sort(edits)[i].start <= Sort(edits)[i].end {
      assert Sort(edits)[i] in multiset(Sort(edits));
      assert Sort(edits)[i] in multiset(edits);
    }
  }

  /** The edits of one file turn one text into the other. */
  ghost predicate Rewrites(before: ByteText, edits: seq<Edit>, after: ByteText) {
    InText(before, Sort(edits)) && Apart(Sort(edits)) && after == Edited(before, Sort(edits))
  }

  lemma {:induction false} ApartTail(edits: seq<Edit>, k: nat)
    requires Apart(edits) && k <= |edits|
    ensures Apart(edits[k..])
  {
    if k == 0 {
      assert edits[0..] == edits;
    } else if |edits| > 1 {
      ApartTail(edits[1..], k - 1);
      assert edits[1..][k - 1..] == edits[k..];
    }
  }

  // ------------------------------------------------------------------------- shifting

  function Growth(edit: Edit): int {
    |edit.replacement| - (edit.end - edit.start)
  }

  /** How far the edits that end at or before `offset` move it. */
  function Shift(edits: seq<Edit>, offset: nat): int {
    if edits == [] then 0
    else (if edits[0].end <= offset then Growth(edits[0]) else 0) + Shift(edits[1..], offset)
  }

  /** No edit reaches into the span. */
  predicate Clear(edits: seq<Edit>, start: nat, end: nat) {
    forall i :: 0 <= i < |edits| ==> edits[i].end <= start || edits[i].start >= end
  }

  /** Moved offsets do not pass the text before the edits. */
  lemma {:induction false} ShiftBound(edits: seq<Edit>, floor: nat, offset: nat)
    requires Apart(edits) && floor <= offset
    requires forall i :: 0 <= i < |edits| ==> edits[i].start <= edits[i].end
    requires edits != [] ==> floor <= edits[0].start
    ensures offset + Shift(edits, offset) >= floor
    ensures edits != [] && offset < edits[0].end ==> Shift(edits, offset) == 0
  {
    if edits != [] {
      if edits[0].end <= offset {
        ShiftBound(edits[1..], edits[0].end, offset);
      } else {
        NoShift(edits, offset);
      }
    }
  }

  lemma {:induction false} NoShift(edits: seq<Edit>, offset: nat)
    requires Apart(edits) && edits != [] && offset < edits[0].end
    requires forall i :: 0 <= i < |edits| ==> edits[i].start <= edits[i].end
    ensures Shift(edits, offset) == 0
  {
    if |edits| > 1 {
      NoShift(edits[1..], offset);
    }
  }

  lemma {:induction false} SpanBefore(text: ByteText, later: ByteText, start: nat, end: nat, edit: Edit)
    requires end <= edit.start <= edit.end <= |later| && start <= end && edit.start <= |text|
    requires later[..edit.start] == text[..edit.start]
    ensures ReplaceRange(later, edit.start, edit.end, edit.replacement)[start..end] == text[start..end]
  {
    assert later[..edit.start][start..end] == text[..edit.start][start..end];
  }

  lemma {:induction false} SpanBehind(later: ByteText, from: nat, until: nat, edit: Edit)
    requires edit.start <= edit.end <= from <= until <= |later|
    ensures from + Growth(edit) >= 0
    ensures until + Growth(edit) <= |ReplaceRange(later, edit.start, edit.end, edit.replacement)|
    ensures ReplaceRange(later, edit.start, edit.end, edit.replacement)[from + Growth(edit)..until + Growth(edit)] ==
              later[from..until]
  {
  }

  /** The edits after the first leave everything up to its end alone. */
  lemma {:induction false} LaterPrefix(text: ByteText, edits: seq<Edit>)
    requires InText(text, edits) && Apart(edits) && edits != []
    ensures var later := Edited(text, edits[1..]);
            && edits[0].end <= |later| && edits[0].start <= |later|
            && later[..edits[0].end] == text[..edits[0].end] && later[..edits[0].start] == text[..edits[0].start]
            && Edited(text, edits) == ReplaceRange(later, edits[0].start, edits[0].end, edits[0].replacement)
  {
    var later := Edited(text, edits[1..]);
    if |edits| > 1 {
      assert edits[1..][0] == edits[1];
      assert later[..edits[1].start][..edits[0].end] == text[..edits[1].start][..edits[0].end];
    }
    assert later[..edits[0].end][..edits[0].start] == text[..edits[0].end][..edits[0].start];
  }

  /** The span's text is at the shifted place. */
  ghost predicate Kept(text: ByteText, after: ByteText, shift: int, start: nat, end: nat) {
    && start <= end <= |text|
    && 0 <= start + shift && end + shift <= |after|
    && after[start + shift..end + shift] == text[start..end]
  }

  lemma {:induction false} KeptBefore(text: ByteText, later: ByteText, start: nat, end: nat, edit: Edit)
    requires start <= end <= edit.start <= edit.end <= |later| && edit.start <= |text|
    requires later[..edit.start] == text[..edit.start]
    ensures Kept(text, ReplaceRange(later, edit.start, edit.end, edit.replacement), 0, start, end)
  {
    SpanBefore(text, later, start, end, edit);
  }

  lemma {:induction false} KeptBehind(text: ByteText, later: ByteText, shift: int, start: nat, end: nat, edit: Edit)
    requires Kept(text, later, shift, start, end) && edit.start <= edit.end <= start + shift
    ensures Kept(text, ReplaceRange(later, edit.start, edit.end, edit.replacement), shift + Growth(edit), start, end)
  {
    SpanBehind(later, start + shift, end + shift, edit);
  }

  /** The first edit ends before the span: the span moves with it. */
  lemma {:induction false} KeptPast(text: ByteText, later: ByteText, edits: seq<Edit>, start: nat, end: nat)
    requires InText(text, edits) && Apart(edits) && edits != [] && edits[0].end <= start
    requires Kept(text, later, Shift(edits[1..], start), start, end)
    ensures edits[0].start <= edits[0].end <= |later|
    ensures Kept(text, ReplaceRange(later, edits[0].start, edits[0].end, edits[0].replacement), Shift(edits, start),
                 start, end)
  {
    ShiftBound(edits[1..], edits[0].end, start);
    KeptBehind(text, later, Shift(edits[1..], start), start, end, edits[0]);
  }

  /** It starts behind the span: nothing moves. */
  lemma {:induction false} KeptInFront(text: ByteText, later: ByteText, edits: seq<Edit>, start: nat, end: nat)
    requires InText(text, edits) && Apart(edits) && edits != [] && start < edits[0].end
    requires start <= end <= edits[0].start
    requires edits[0].end <= |later| && later[..edits[0].start] == text[..edits[0].start]
    ensures Kept(text, ReplaceRange(later, edits[0].start, edits[0].end, edits[0].replacement), Shift(edits, start),
                 start, end)
  {
    NoShift(edits, start);
    KeptBefore(text, later, start, end, edits[0]);
  }

  /** The text of a span no edit reaches into is found again where the shift says. */
  lemma {:induction false} SpanKept(text: ByteText, edits: seq<Edit>, start: nat, end: nat)
    requires InText(text, edits) && Apart(edits) && start <= end <= |text| && Clear(edits, start, end)
    ensures Kept(text, Edited(text, edits), Shift(edits, start), start, end)
  {
    if edits != [] {
      var later := Edited(text, edits[1..]);
      LaterPrefix(text, edits);
      if edits[0].end <= start {
        SpanKept(text, edits[1..], start, end);
        KeptPast(text, later, edits, start, end);
      } else {
        KeptInFront(text, later, edits, start, end);
      }
    }
  }
}

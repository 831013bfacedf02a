/** `apply_in_memory` of `mux-compiler/src/diagnostic/fix.rs`: all edits of all files, or a refusal. */
module FixApply {
  import opened Collections
  import opened Options
  import opened Text
  import opened FixEdits

  /** Sources by path. */
  type Sources = map<string, ByteText>

  /** Ranges read past while recovering from syntax errors, by path. */
  type Recovery = map<string, seq<(nat, nat)>>

  datatype Refusal = NotApplicable | UnknownFile | EmbeddedFile | InvalidRange | RecoveryRange

  /** What `apply_in_memory` yields; a refusal names the edit refused. */
  datatype Applied =
    | Refused(edit: nat, refusal: Refusal)
    | Overlapping(file: string)
    | Updated(texts: Sources, changed: set<string>)

  const EMBEDDED := "<embedded>/"

  // ------------------------------------------------------------------- one edit

  /** `validate_range`: inside the text, between characters. */
  predicate ValidRange(text: ByteText, edit: Edit) {
    edit.start <= edit.end <= |text| && IsCharBoundary(text, edit.start) && IsCharBoundary(text, edit.end)
  }

  /** `RecoveryIntervals::touches` */
  predicate Touches(recovery: Recovery, edit: Edit) {
    edit.file in recovery
    && exists i :: 0 <= i < |recovery[edit.file]|
         && RangesOverlap(edit.(start := recovery[edit.file][i].0, end := recovery[edit.file][i].1), edit)
  }

  /** `validate_edit` */
  function Validate(sources: Sources, recovery: Recovery, edit: Edit): Option<Refusal> {
    if !edit.applicable then Some(NotApplicable)
    else if edit.file !in sources then Some(UnknownFile)
    else if EMBEDDED <= edit.file then Some(EmbeddedFile)
    else if !ValidRange(sources[edit.file], edit) then Some(InvalidRange)
    else if Touches(recovery, edit) then Some(RecoveryRange)
    else None
  }

  /** What an edit must be like to be accepted. */
  ghost predicate Acceptable(sources: Sources, recovery: Recovery, edit: Edit) {
    && edit.applicable && edit.file in sources && !("<embedded>/" <= edit.file)
    && edit.start <= edit.end <= |sources[edit.file]|
    && IsCharBoundary(sources[edit.file], edit.start) && IsCharBoundary(sources[edit.file], edit.end)
    && (edit.file in recovery ==>
          forall range :: range in recovery[edit.file] ==>
            !exists offset :: Claims(edit, offset) && Claims(edit.(start := range.0, end := range.1), offset))
  }

  /** Edits are accepted exactly if they are machine-applicable, in range, and clear of recovered source. */
  lemma {:induction false} AcceptedExactly(sources: Sources, recovery: Recovery, edit: Edit)
    requires edit.file in recovery ==> forall range :: range in recovery[edit.file] ==> range.0 <= range.1
    ensures Validate(sources, recovery, edit).None? <==> Acceptable(sources, recovery, edit)
  {
    if edit.start <= edit.end && edit.file in recovery {
      forall range | range in recovery[edit.file]
        ensures RangesOverlap(edit.(start := range.0, end := range.1), edit) <==>
                exists offset :: Claims(edit, offset) && Claims(edit.(start := range.0, end := range.1), offset)
      {
        OverlapIsSharedClaim(edit.(start := range.0, end := range.1), edit);
      }
    }
  }

  /** The first `n` edits are. */
  ghost predicate ValidTo(sources: Sources, recovery: Recovery, edits: seq<Edit>, n: nat)
    requires n <= |edits|
  {
    forall i {:trigger Validate(sources, recovery, edits[i])} :: 0 <= i < n ==>
      Validate(sources, recovery, edits[i]).None?
  }

  ghost predicate AllValid(sources: Sources, recovery: Recovery, edits: seq<Edit>) {
    ValidTo(sources, recovery, edits, |edits|)
  }

  /** The edit joins those of its file. */
  function Joining(byFile: map<string, seq<Edit>>, edit: Edit): map<string, seq<Edit>> {
    byFile[edit.file := (if edit.file in byFile then byFile[edit.file] else []) + [edit]]
  }

  /** The edits of every file that has some. */
  ghost predicate Groups(byFile: map<string, seq<Edit>>, edits: seq<Edit>) {
    && (forall file :: file in byFile <==> EditsOf(edits, file) != [])
    && forall file :: file in byFile ==> byFile[file] == EditsOf(edits, file)
  }

  lemma {:induction false} GroupsAdd(byFile: map<string, seq<Edit>>, edits: seq<Edit>, edit: Edit, more: seq<Edit>)
    requires Groups(byFile, edits)
    requires forall file :: EditsOf(more, file) ==
               if edit.file == file then EditsOf(edits, file) + [edit] else EditsOf(edits, file)
    ensures Groups(Joining(byFile, edit), more)
  {
  }

  lemma {:induction false} GroupsStep(byFile: map<string, seq<Edit>>, edits: seq<Edit>, i: nat)
    requires i < |edits| && Groups(byFile, edits[..i])
    ensures Groups(Joining(byFile, edits[i]), edits[..i + 1])
  {
    var before, more := edits[..i], edits[..i + 1];
    forall file
      ensures EditsOf(more, file) ==
                if edits[i].file == file then EditsOf(before, file) + [edits[i]] else EditsOf(before, file)
    {
      EditsOfStep(edits, i, file);
    }
    GroupsAdd(byFile, before, edits[i], more);
  }

  lemma {:induction false} NoGroups()
    ensures Groups(map[], [])
  {
  }

  /** One turn for a valid edit. */
  method Join(byFile: map<string, seq<Edit>>, edits: seq<Edit>, i: nat) returns (more: map<string, seq<Edit>>)
    requires i < |edits| && Groups(byFile, edits[..i])
    ensures Groups(more, edits[..i + 1])
  {
    GroupsStep(byFile, edits, i);
    more := Joining(byFile, edits[i]);
  }

  /** The first loop: every edit is validated and joins the edits of its file. */
  method Group(sources: Sources, recovery: Recovery, edits: seq<Edit>)
    returns (refused: Option<nat>, byFile: map<string, seq<Edit>>)
    ensures refused.None? ==> AllValid(sources, recovery, edits) && Groups(byFile, edits)
    ensures refused.Some? ==>
              && refused.value < |edits| && ValidTo(sources, recovery, edits, refused.value)
              && Validate(sources, recovery, edits[refused.value]).Some?
  {
    byFile := map[];
    NoGroups();
    assert edits[..0] == [];
    for i := 0 to |edits|
      invariant ValidTo(sources, recovery, edits, i)
      invariant Groups(byFile, edits[..i])
    {
      if Validate(sources, recovery, edits[i]).Some? {
        return Some(i), byFile;
      }
      byFile := Join(byFile, edits, i);
    }
    assert edits[..|edits|] == edits;
    refused := None;
  }

  // ------------------------------------------------------------- between characters

  /** The bytes of a text. */
  ghost predicate IsText(bytes: ByteText) {
    exists s: string :: Bytes(s) == bytes
  }

  /** Edits between characters that put texts in. */
  ghost predicate BetweenCharacters(text: ByteText, edits: seq<Edit>) {
    forall i :: 0 <= i < |edits| ==> ValidRange(text, edits[i]) && IsText(edits[i].replacement)
  }

  lemma {:induction false} TailBetween(text: ByteText, edits: seq<Edit>)
    requires BetweenCharacters(text, edits) && edits != []
    ensures BetweenCharacters(text, edits[1..])
  {
  }

  /** Where a boundary divides a text. */
  lemma {:induction false} Divided(s: string, offset: nat) returns (k: nat)
    requires offset <= Length(s) && IsCharBoundary(Bytes(s), offset)
    ensures k <= |s| && Offset(s, k) == offset && Bytes(s[..k]) == Bytes(s)[..offset]
  {
    BoundariesAreOffsets(s, offset);
    k := Index(s, offset);
    BytesPrefix(s, k, |s|);
    assert s == s[..k] + s[k..];
    BytesOfPrefix(s[..k], s[k..], k);
  }

  lemma {:induction false} OffsetAppend(x: string, y: string)
    ensures |Bytes(x)| == Length(x) && IsCharBoundary(Bytes(x + y), |Bytes(x)|)
    ensures Bytes(x + y)[..|Bytes(x)|] == Bytes(x) && Bytes(x + y)[|Bytes(x)|..] == Bytes(y)
  {
    BytesAppend(x, y);
    if y != "" {
      FirstByte(y);
    }
  }

  lemma {:induction false} FirstByte(s: string)
    requires s != ""
    ensures |Bytes(s)| > 0 && !Continuation(Bytes(s)[0])
  {
    OffsetsIncrease(s, 0, |s|);
    IndexOfOffset(s, 0);
    BoundariesAreOffsets(s, 0);
  }

  /** `later` is `text` up to `kept`, and then more text. */
  ghost predicate KeepsFront(text: string, later: ByteText, kept: nat, rest: string) {
    kept <= |text| && later == Bytes(text[..kept] + rest)
  }

  lemma {:induction false} FrontOfFront(text: string, k: nat, kept: nat, rest: string) returns (more: string)
    requires k <= kept <= |text|
    ensures text[..kept] + rest == text[..k] + more
  {
    more := text[k..kept] + rest;
    assert text[..kept] == text[..k] + text[k..kept];
  }

  /** Replacing a range between characters puts one text for another. */
  lemma {:induction false} ReplacedText(text: string, later: ByteText, i: nat, j: nat, rest: string,
                                        replacement: string)
    requires i <= j <= |text| && KeepsFront(text, later, j, rest)
    ensures Offset(text, i) <= Offset(text, j) <= |later|
    ensures IsCharBoundary(later, Offset(text, i)) && IsCharBoundary(later, Offset(text, j))
    ensures ReplaceRange(later, Offset(text, i), Offset(text, j), Bytes(replacement)) ==
              Bytes(text[..i] + (replacement + rest))
  {
    FrontBytes(text, i);
    FrontBytes(text, j);
    var more := FrontOfFront(text, i, j, rest);
    OffsetAppend(text[..i], more);
    OffsetAppend(text[..j], rest);
    BytesAppend(replacement, rest);
    BytesAppend(text[..i], replacement + rest);
    OffsetsIncrease(text, i, j);
    Regroup(Bytes(text[..i]), Bytes(replacement), Bytes(rest));
  }

  lemma {:induction false} FrontBytes(text: string, k: nat)
    requires k <= |text|
    ensures |Bytes(text[..k])| == Offset(text, k)
  {
    BytesPrefix(text, k, |text|);
    assert text == text[..k] + text[k..];
    BytesOfPrefix(text[..k], text[k..], k);
  }

  /** How far the text before the first edit goes. */
  function FirstStart(text: ByteText, edits: seq<Edit>): nat {
    if edits == [] then |text| else edits[0].start
  }

  /** Edits between characters leave a text, and each replaces a range between characters of the text it finds. */
  lemma {:induction false} EditedIsText(s: string, edits: seq<Edit>) returns (kept: nat, rest: string)
    requires InText(Bytes(s), edits) && Apart(edits) && BetweenCharacters(Bytes(s), edits)
    ensures kept <= |s| && Offset(s, kept) == FirstStart(Bytes(s), edits)
    ensures KeepsFront(s, Edited(Bytes(s), edits), kept, rest)
    ensures edits != [] ==> ValidRange(Edited(Bytes(s), edits[1..]), edits[0])
  {
    var text := Bytes(s);
    if edits == [] {
      kept, rest := |s|, "";
      assert s[..|s|] + "" == s;
    } else {
      var edit := edits[0];
      TailBetween(text, edits);
      var k, more := EditedIsText(s, edits[1..]);
      kept := Divided(s, edit.start);
      var j := Divided(s, edit.end);
      var replacement: string :| Bytes(replacement) == edit.replacement;
      OffsetsOrdered(s, kept, j);
      OffsetsOrdered(s, j, k);
      var behind := FrontOfFront(s, j, k, more);
      ReplacedText(s, Edited(text, edits[1..]), kept, j, behind, replacement);
      LaterPrefix(text, edits);
      rest := replacement + behind;
    }
  }

  // -------------------------------------------------------------------- one file

  /** `String::replace_range`, which panics unless both ends lie between characters. */
  method Replace(source: ByteText, start: nat, end: nat, replacement: ByteText) returns (after: ByteText)
    requires start <= end <= |source| && IsCharBoundary(source, start) && IsCharBoundary(source, end)
    ensures after == ReplaceRange(source, start, end, replacement)
  {
    after := source[..start] + replacement + source[end..];
  }

  /** The loop over the sorted edits, last to first: ranges of the original stay valid, so nothing panics. */
  method ReplaceAll(text: ByteText, sorted: seq<Edit>) returns (source: ByteText)
    requires InText(text, sorted) && Apart(sorted) && IsText(text) && BetweenCharacters(text, sorted)
    ensures source == Edited(text, sorted)
  {
    ghost var s: string :| Bytes(s) == text;
    source := text;
    var k: nat := |sorted|;
    assert sorted[k..] == [];
    while k > 0
      invariant k <= |sorted| && Apart(sorted[k..]) && InText(text, sorted[k..])
      invariant source == Edited(text, sorted[k..])
    {
      k := k - 1;
      ApartTail(sorted, k);
      assert sorted[k..][1..] == sorted[k + 1..];
      ghost var kept, rest := EditedIsText(s, sorted[k..]);
      source := Replace(source, sorted[k].start, sorted[k].end, sorted[k].replacement);
    }
    assert sorted[0..] == sorted;
  }

  lemma {:induction false} SortedBetween(text: ByteText, edits: seq<Edit>)
    requires BetweenCharacters(text, edits)
    ensures BetweenCharacters(text, Sort(edits)) && InText(text, Sort(edits))
  {
    SortSorts(edits);
    forall i | 0 <= i < |Sort(edits)| ensures ValidRange(text, Sort(edits)[i]) && IsText(Sort(edits)[i].replacement) {
      assert Sort(edits)[i] in multiset(Sort(edits));
      assert Sort(edits)[i] in multiset(edits);
    }
  }

  /** The second loop's turn for one file: none if two of its edits overlap. */
  method ApplyToFile(text: ByteText, edits: seq<Edit>) returns (after: Option<ByteText>)
    requires IsText(text) && BetweenCharacters(text, edits)
    ensures after.None? <==> SomeOverlap(edits)
    ensures after.Some? ==> Rewrites(text, edits, after.value) && IsText(after.value)
  {
    var sorted := Sort(edits);
    SortSorts(edits);
    SortedBetween(text, edits);
    NeighboursDecide(edits);
    var overlap := AnyOverlap(sorted);
    if overlap {
      return None;
    }
    var source := ReplaceAll(text, sorted);
    ghost var s: string :| Bytes(s) == text;
    ghost var kept, rest := EditedIsText(s, sorted);
    after := Some(source);
  }

  // ------------------------------------------------------------------- all files

  lemma {:induction false} EditsOfAreOf(sources: Sources, recovery: Recovery, edits: seq<Edit>, file: string)
    requires AllValid(sources, recovery, edits)
    requires forall i :: 0 <= i < |edits| ==> IsText(edits[i].replacement)
    ensures EditsOf(edits, file) != [] ==> file in sources && BetweenCharacters(sources[file], EditsOf(edits, file))
  {
    if edits != [] {
      assert Validate(sources, recovery, edits[0]).None?;
      EditsOfAreOf(sources, recovery, edits[1..], file);
    }
  }

  /** One file after its edits: a text again. */
  ghost predicate FileUpdated(sources: Sources, edits: seq<Edit>, texts: Sources, file: string) {
    && file in sources && file in texts
    && Rewrites(sources[file], edits, texts[file]) && IsText(texts[file]) && !SomeOverlap(edits)
  }

  /** The files whose text differs. */
  ghost predicate ListsChanged(sources: Sources, texts: Sources, changed: set<string>) {
    forall file :: file in changed <==> file in texts && (file in sources ==> texts[file] != sources[file])
  }

  /** Every file with edits, and no other, has its edited text. */
  ghost predicate Updates(sources: Sources, edits: seq<Edit>, texts: Sources, changed: set<string>) {
    && (forall file :: file in texts <==> EditsOf(edits, file) != [])
    && (forall file :: file in texts ==> FileUpdated(sources, EditsOf(edits, file), texts, file))
    && ListsChanged(sources, texts, changed)
  }

  /** The files done so far. */
  ghost predicate UpdatedSoFar(sources: Sources, byFile: map<string, seq<Edit>>, texts: Sources, changed: set<string>) {
    && texts.Keys <= byFile.Keys
    && (forall file :: file in texts ==> FileUpdated(sources, byFile[file], texts, file))
    && ListsChanged(sources, texts, changed)
  }

  lemma {:induction false} AllUpdated(sources: Sources, edits: seq<Edit>, byFile: map<string, seq<Edit>>,
                                      texts: Sources, changed: set<string>)
    requires UpdatedSoFar(sources, byFile, texts, changed) && texts.Keys == byFile.Keys && Groups(byFile, edits)
    ensures Updates(sources, edits, texts, changed)
  {
  }

  lemma {:induction false} NoOverlapLeft(sources: Sources, edits: seq<Edit>, texts: Sources, changed: set<string>)
    requires Updates(sources, edits, texts, changed)
    ensures !FileOverlaps(edits)
  {
    forall file ensures !SomeOverlap(EditsOf(edits, file)) {
      if file in texts {
        assert FileUpdated(sources, EditsOf(edits, file), texts, file);
      }
    }
  }

  /** Two edits of one file overlap. */
  ghost predicate FileOverlaps(edits: seq<Edit>) {
    exists file :: SomeOverlap(EditsOf(edits, file))
  }

  lemma {:induction false} OneMoreUpdated(sources: Sources, byFile: map<string, seq<Edit>>, texts: Sources,
                                          changed: set<string>, file: string, text: ByteText)
    requires UpdatedSoFar(sources, byFile, texts, changed) && file in byFile && file !in texts
    requires FileUpdated(sources, byFile[file], texts[file := text], file)
    ensures UpdatedSoFar(sources, byFile, texts[file := text],
                         if text == sources[file] then changed else changed + {file})
  {
    var more := texts[file := text];
    forall other | other in more ensures FileUpdated(sources, byFile[other], more, other) {
      if other != file {
        assert FileUpdated(sources, byFile[other], texts, other) && more[other] == texts[other];
      }
    }
  }

  ghost predicate Editable(sources: Sources, edits: seq<Edit>, file: string) {
    file in sources && IsText(sources[file]) && BetweenCharacters(sources[file], edits)
  }

  /** One turn of the second loop. */
  method UpdateFile(sources: Sources, byFile: map<string, seq<Edit>>, texts: Sources, changed: set<string>,
                    file: string)
    returns (ok: bool, more: Sources, moreChanged: set<string>)
    requires UpdatedSoFar(sources, byFile, texts, changed) && file in byFile && file !in texts
    requires Editable(sources, byFile[file], file)
    ensures ok <==> !SomeOverlap(byFile[file])
    ensures ok ==> more.Keys == texts.Keys + {file} && UpdatedSoFar(sources, byFile, more, moreChanged)
  {
    var text := ApplyToFile(sources[file], byFile[file]);
    if text.None? {
      return false, texts, changed;
    }
    OneMoreUpdated(sources, byFile, texts, changed, file, text.value);
    ok, more := true, texts[file := text.value];
    moreChanged := if text.value == sources[file] then changed else changed + {file};
  }

  /** The second loop: the edits of each file are checked against each other and applied. */
  method ApplyToFiles(sources: Sources, byFile: map<string, seq<Edit>>) returns (applied: Applied)
    requires forall file :: file in byFile ==> Editable(sources, byFile[file], file)
    ensures !applied.Refused?
    ensures applied.Overlapping? ==> applied.file in byFile && SomeOverlap(byFile[applied.file])
    ensures applied.Updated? ==>
              applied.texts.Keys == byFile.Keys && UpdatedSoFar(sources, byFile, applied.texts, applied.changed)
  {
    var left := byFile.Keys;
    var texts: Sources, changed := map[], {};
    while left != {}
      invariant left <= byFile.Keys && texts.Keys == byFile.Keys - left
      invariant UpdatedSoFar(sources, byFile, texts, changed)
      decreases left
    {
      var file :| file in left;
      var ok;
      ok, texts, changed := UpdateFile(sources, byFile, texts, changed, file);
      if !ok {
        return Overlapping(file);
      }
      left := left - {file};
    }
    applied := Updated(texts, changed);
  }

  /** Where an edit of one file stands among all. */
  lemma {:induction false} PlaceAmongAll(edits: seq<Edit>, file: string, p: nat) returns (i: nat)
    requires p < |EditsOf(edits, file)|
    ensures i < |edits| && edits[i] == EditsOf(edits, file)[p] && edits[i].file == file
  {
    if edits[0].file == file && p == 0 {
      i := 0;
    } else {
      i := PlaceAmongAll(edits[1..], file, if edits[0].file == file then p - 1 else p);
      i := i + 1;
    }
  }

  lemma {:induction false} PlacesAmongAll(edits: seq<Edit>, file: string, p: nat, q: nat) returns (i: nat, j: nat)
    requires p < q < |EditsOf(edits, file)|
    ensures i < j < |edits| && edits[i].file == edits[j].file == file
    ensures edits[i] == EditsOf(edits, file)[p] && edits[j] == EditsOf(edits, file)[q]
  {
    if edits[0].file == file && p == 0 {
      j := PlaceAmongAll(edits[1..], file, q - 1);
      i, j := 0, j + 1;
    } else if edits[0].file == file {
      i, j := PlacesAmongAll(edits[1..], file, p - 1, q - 1);
      i, j := i + 1, j + 1;
    } else {
      i, j := PlacesAmongAll(edits[1..], file, p, q);
      i, j := i + 1, j + 1;
    }
  }

  /** Where an edit stands among those of its file. */
  lemma {:induction false} PlaceInFile(edits: seq<Edit>, i: nat) returns (p: nat)
    requires i < |edits|
    ensures p < |EditsOf(edits, edits[i].file)| && EditsOf(edits, edits[i].file)[p] == edits[i]
  {
    if i == 0 {
      p := 0;
    } else {
      p := PlaceInFile(edits[1..], i - 1);
      p := if edits[0].file == edits[i].file then p + 1 else p;
    }
  }

  lemma {:induction false} PlacesInFile(edits: seq<Edit>, i: nat, j: nat) returns (p: nat, q: nat)
    requires i < j < |edits| && edits[i].file == edits[j].file
    ensures p < q < |EditsOf(edits, edits[i].file)|
    ensures EditsOf(edits, edits[i].file)[p] == edits[i] && EditsOf(edits, edits[i].file)[q] == edits[j]
  {
    if i == 0 {
      q := PlaceInFile(edits[1..], j - 1);
      p, q := 0, q + 1;
    } else {
      p, q := PlacesInFile(edits[1..], i - 1, j - 1);
      if edits[0].file == edits[i].file {
        p, q := p + 1, q + 1;
      }
    }
  }

  /** Two edits of one file lay claim to one place. */
  ghost predicate Clash(edits: seq<Edit>, i: nat, j: nat) {
    && i < j < |edits| && edits[i].file == edits[j].file
    && exists offset :: Claims(edits[i], offset) && Claims(edits[j], offset)
  }

  /** There is an overlap exactly if two edits of one file lay claim to one place. */
  lemma {:induction false} OverlapsExactly(edits: seq<Edit>)
    requires Ordered(edits)
    ensures FileOverlaps(edits) <==> exists i: nat, j: nat :: Clash(edits, i, j)
  {
    if FileOverlaps(edits) {
      var file :| SomeOverlap(EditsOf(edits, file));
      var mine := EditsOf(edits, file);
      var p, q :| 0 <= p < q < |mine| && RangesOverlap(mine[p], mine[q]);
      var i, j := PlacesAmongAll(edits, file, p, q);
      OverlapIsSharedClaim(edits[i], edits[j]);
      assert Clash(edits, i, j);
    }
    if i: nat, j: nat :| Clash(edits, i, j) {
      OverlapIsSharedClaim(edits[i], edits[j]);
      var p, q := PlacesInFile(edits, i, j);
      var mine := EditsOf(edits, edits[i].file);
      assert RangesOverlap(mine[p], mine[q]);
      assert SomeOverlap(mine);
    }
  }

  /** An updated file is the old text with the replacements spliced in. */
  lemma {:induction false} UpdatedIsSpliced(sources: Sources, edits: seq<Edit>, texts: Sources, changed: set<string>,
                                            file: string)
    requires Updates(sources, edits, texts, changed) && file in texts
    ensures var sorted := Sort(EditsOf(edits, file));
            && file in sources && InText(sources[file], sorted) && Apart(sorted)
            && texts[file] == Spliced(sources[file], sorted, 0)
  {
    assert FileUpdated(sources, EditsOf(edits, file), texts, file);
    EditedIsSpliced(sources[file], Sort(EditsOf(edits, file)), 0);
  }

  /** `apply_in_memory` on UTF-8 texts. */
  method ApplyInMemory(sources: Sources, recovery: Recovery, edits: seq<Edit>) returns (applied: Applied)
    requires forall file :: file in sources ==> IsText(sources[file])
    requires forall i :: 0 <= i < |edits| ==> IsText(edits[i].replacement)
    ensures applied.Refused? <==> !AllValid(sources, recovery, edits)
    ensures applied.Refused? ==>
              && applied.edit < |edits| && ValidTo(sources, recovery, edits, applied.edit)
              && Validate(sources, recovery, edits[applied.edit]) == Some(applied.refusal)
    ensures applied.Overlapping? <==> AllValid(sources, recovery, edits) && FileOverlaps(edits)
    ensures applied.Overlapping? ==> SomeOverlap(EditsOf(edits, applied.file))
    ensures applied.Updated? ==> Updates(sources, edits, applied.texts, applied.changed)
  {
    var refused, byFile := Group(sources, recovery, edits);
    if refused.Some? {
      return Refused(refused.value, Validate(sources, recovery, edits[refused.value]).value);
    }
    forall file | file in byFile ensures Editable(sources, byFile[file], file) {
      EditsOfAreOf(sources, recovery, edits, file);
    }
    applied := ApplyToFiles(sources, byFile);
    if applied.Updated? {
      AllUpdated(sources, edits, byFile, applied.texts, applied.changed);
      NoOverlapLeft(sources, edits, applied.texts, applied.changed);
    }
  }
}

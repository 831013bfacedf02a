// `encode_semantic_tokens` of `mux-compiler/src/lsp.rs`: splitting tokens at line ends and the
// delta encoding of LSP 3.17, section "Semantic Tokens".
module SemanticTokens {
  import opened Options
  import opened Text
  import opened TextPositions

  datatype Style = Style(tokenType: nat, modifiers: nat)

  /** A lexer token: its byte range, and how it is shown if at all. */
  datatype Token = Token(start: nat, end: nat, style: Option<Style>)

  /** A stretch of one line, in UTF-16 units. */
  datatype Segment = Segment(line: nat, start: nat, length: nat, style: Style)

  /** One entry of the answer: relative to the entry before. */
  datatype Delta = Delta(deltaLine: nat, deltaStart: nat, length: nat, style: Style)

  // ----------------------------------------------------------------- splitting

  /** The end of the line's content before the newline at `k`. */
  function LineContentEnd(s: string, k: nat): nat
    requires k < |s|
  {
    if k > 0 && s[k - 1] == '\r' then k - 1 else k
  }

  /** The piece that the newline at `k` ends, unless it is empty. */
  function PushedPiece(s: string, start: nat, k: nat): seq<(nat, nat)>
    requires start <= k < |s|
  {
    var end := LineContentEnd(s, k);
    if start < end then [(start, end)] else []
  }

  /** The pieces of the scalars from `from` to `to` between line ends, when the piece being read began at `start`. */
  function Pieces(s: string, start: nat, from: nat, until: nat): seq<(nat, nat)>
    requires start <= from <= until <= |s|
    decreases until - from
  {
    if from == until then
      if start < until then [(start, until)] else []
    else if s[from] == '\n' then
      PushedPiece(s, start, from) + Pieces(s, from + 1, from + 1, until)
    else
      Pieces(s, start, from + 1, until)
  }

  /** Pieces are non-empty, in order, apart, inside the token, and on one line each. */
  ghost predicate GoodPieces(s: string, pieces: seq<(nat, nat)>, from: nat, until: nat)
    requires until <= |s|
  {
    && (forall i :: 0 <= i < |pieces| ==>
          from <= pieces[i].0 < pieces[i].1 <= until && NoNewline(s, pieces[i].0, pieces[i].1))
    && forall i, j :: 0 <= i < j < |pieces| ==> pieces[i].1 <= pieces[j].0
  }

  lemma {:induction false} PiecesAreGood(s: string, start: nat, from: nat, until: nat)
    requires start <= from <= until <= |s| && NoNewline(s, start, from)
    ensures GoodPieces(s, Pieces(s, start, from, until), start, until)
    decreases until - from
  {
    if from < until {
      if s[from] == '\n' {
        PiecesAreGood(s, from + 1, from + 1, until);
      } else {
        PiecesAreGood(s, start, from + 1, until);
      }
    }
  }

  ghost predicate InPiece(pieces: seq<(nat, nat)>, k: nat) {
    exists i :: 0 <= i < |pieces| && pieces[i].0 <= k < pieces[i].1
  }

  lemma {:induction false} InLaterPiece(front: seq<(nat, nat)>, rest: seq<(nat, nat)>, k: nat)
    requires InPiece(rest, k)
    ensures InPiece(front + rest, k)
  {
    var i :| 0 <= i < |rest| && rest[i].0 <= k < rest[i].1;
    assert (front + rest)[|front| + i] == rest[i];
  }

  lemma {:induction false} InPushedPiece(s: string, start: nat, end: nat, rest: seq<(nat, nat)>, k: nat)
    requires start <= end < |s| && start <= k < LineContentEnd(s, end)
    ensures InPiece(PushedPiece(s, start, end) + rest, k)
  {
    assert (PushedPiece(s, start, end) + rest)[0] == (start, LineContentEnd(s, end));
  }

  /** Every scalar of the token is shown, except line feeds and a carriage return before one. */
  lemma {:induction false} PiecesCover(s: string, start: nat, from: nat, until: nat, k: nat)
    requires start <= from <= until <= |s| && NoNewline(s, start, from)
    requires start <= k < until && s[k] != '\n' && !(s[k] == '\r' && k + 1 < until && s[k + 1] == '\n')
    ensures InPiece(Pieces(s, start, from, until), k)
    decreases until - from
  {
    if from == until {
      assert Pieces(s, start, from, until)[0] == (start, until);
    } else if s[from] != '\n' {
      PiecesCover(s, start, from + 1, until, k);
    } else if k < from {
      InPushedPiece(s, start, from, Pieces(s, from + 1, from + 1, until), k);
    } else {
      PiecesCover(s, from + 1, from + 1, until, k);
      InLaterPiece(PushedPiece(s, start, from), Pieces(s, from + 1, from + 1, until), k);
    }
  }

  /** A line ending inside the token, or the carriage return of one. */
  predicate EndsLine(s: string, until: nat, k: nat)
    requires k < until <= |s|
  {
    s[k] == '\n' || (s[k] == '\r' && k + 1 < until && s[k + 1] == '\n')
  }

  /** No piece has any of a line ending in it. */
  ghost predicate NoEndings(s: string, pieces: seq<(nat, nat)>, until: nat)
    requires until <= |s|
  {
    forall i :: 0 <= i < |pieces| ==> forall k :: pieces[i].0 <= k < pieces[i].1 && k < until ==> !EndsLine(s, until, k)
  }

  lemma {:induction false} PushedHasNoEndings(s: string, start: nat, end: nat, until: nat)
    requires start <= end < until <= |s| && NoNewline(s, start, end) && s[end] == '\n'
    ensures NoEndings(s, PushedPiece(s, start, end), until)
  {
  }

  lemma {:induction false} NoEndingsTogether(s: string, left: seq<(nat, nat)>, right: seq<(nat, nat)>, until: nat)
    requires until <= |s| && NoEndings(s, left, until) && NoEndings(s, right, until)
    ensures NoEndings(s, left + right, until)
  {
  }

  lemma {:induction false} PiecesHaveNoEndings(s: string, start: nat, from: nat, until: nat)
    requires start <= from <= until <= |s| && NoNewline(s, start, from)
    ensures NoEndings(s, Pieces(s, start, from, until), until)
    decreases until - from
  {
    if from < until {
      if s[from] == '\n' {
        PiecesHaveNoEndings(s, from + 1, from + 1, until);
        PushedHasNoEndings(s, start, from, until);
        NoEndingsTogether(s, PushedPiece(s, start, from), Pieces(s, from + 1, from + 1, until), until);
      } else {
        PiecesHaveNoEndings(s, start, from + 1, until);
      }
    }
  }

  /** What the client should see of scalars `from` to `until` of one line. */
  function SegmentOf(s: string, from: nat, until: nat, style: Style): Segment
    requires from <= until <= |s|
  {
    Segment(Line(s, from), Column(s, from), UnitsBetween(s, from, until), style)
  }

  lemma {:induction false} OnOneLine(s: string, from: nat, until: nat)
    requires from <= until <= |s| && NoNewline(s, from, until)
    ensures Line(s, until) == Line(s, from)
    ensures Column(s, until) == Column(s, from) + UnitsBetween(s, from, until)
    ensures UnitsBetween(s, from, until) >= until - from
    decreases until
  {
    if from < until {
      OnOneLine(s, from, until - 1);
    }
  }

  /** The positions of the ends of a piece: on one line, as far apart as the piece is long, and that is not zero. */
  lemma {:induction false} PieceEnds(s: string, from: nat, until: nat)
    requires Length(s) < U32_LIMIT && from < until <= |s| && NoNewline(s, from, until)
    ensures OffsetToPosition(s, Offset(s, from)) == Position(Line(s, from), Column(s, from))
    ensures OffsetToPosition(s, Offset(s, until)) ==
              Position(Line(s, from), Column(s, from) + UnitsBetween(s, from, until))
    ensures UnitsBetween(s, from, until) > 0
  {
    OffsetsIncrease(s, from, until);
    OffsetsIncrease(s, until, |s|);
    OffsetToPositionIsPositionAt(s, Offset(s, from));
    OffsetToPositionIsPositionAt(s, Offset(s, until));
    IndexOfOffset(s, from);
    IndexOfOffset(s, until);
    OnOneLine(s, from, until);
  }

  /** `push_semantic_segment`: the saturating subtraction is exact and no segment is skipped for being empty. */
  method PushSegment(s: string, from: nat, until: nat, style: Style, output: seq<Segment>) returns (more: seq<Segment>)
    requires Length(s) < U32_LIMIT && from < until <= |s| && NoNewline(s, from, until)
    ensures more == output + [SegmentOf(s, from, until, style)]
    ensures more[|output|].length == |Utf16Text(s[from..until])|
  {
    UnitsBetweenCounts(s, from, until);
    PieceEnds(s, from, until);
    var startPosition := OffsetToPosition(s, Offset(s, from));
    var endPosition := OffsetToPosition(s, Offset(s, until));
    var length :=
      if endPosition.character > startPosition.character then endPosition.character - startPosition.character else 0;
    more := output;
    if length > 0 {
      more := more + [Segment(startPosition.line, startPosition.character, length, style)];
    }
  }

  predicate Within(s: string, pieces: seq<(nat, nat)>) {
    forall i :: 0 <= i < |pieces| ==> pieces[i].0 <= pieces[i].1 <= |s|
  }

  function SegmentsOf(s: string, pieces: seq<(nat, nat)>, style: Style): (segments: seq<Segment>)
    requires Within(s, pieces)
    ensures |segments| == |pieces|
  {
    if pieces == [] then []
    else [SegmentOf(s, pieces[0].0, pieces[0].1, style)] + SegmentsOf(s, pieces[1..], style)
  }

  lemma {:induction false} SegmentsOfAt(s: string, pieces: seq<(nat, nat)>, style: Style, i: nat)
    requires Within(s, pieces) && i < |pieces|
    ensures SegmentsOf(s, pieces, style)[i] == SegmentOf(s, pieces[i].0, pieces[i].1, style)
  {
    if i > 0 {
      SegmentsOfAt(s, pieces[1..], style, i - 1);
    }
  }

  /** A token with a visible style and a range the text has. */
  predicate Shown(s: string, token: Token) {
    token.style.Some? && token.start < token.end <= Length(s) && IsOffset(s, token.start) && IsOffset(s, token.end)
  }

  /** The scalar range of a token and its pieces. */
  function PiecesOf(s: string, token: Token): seq<(nat, nat)>
    requires Shown(s, token)
  {
    OffsetsOrdered(s, Index(s, token.start), Index(s, token.end));
    Pieces(s, Index(s, token.start), Index(s, token.start), Index(s, token.end))
  }

  lemma {:induction false} PiecesOfAreGood(s: string, token: Token)
    requires Shown(s, token)
    ensures Index(s, token.start) < Index(s, token.end) <= |s|
    ensures GoodPieces(s, PiecesOf(s, token), Index(s, token.start), Index(s, token.end))
  {
    OffsetsOrdered(s, Index(s, token.start), Index(s, token.end));
    PiecesAreGood(s, Index(s, token.start), Index(s, token.start), Index(s, token.end));
  }

  /** The segments one token is split into. */
  function SegmentsOfToken(s: string, token: Token): seq<Segment> {
    if Shown(s, token) then
      PiecesOfAreGood(s, token);
      SegmentsOf(s, PiecesOf(s, token), token.style.value)
    else []
  }

  /** All segments in the order they are pushed. */
  function Raw(s: string, tokens: seq<Token>): seq<Segment> {
    if tokens == [] then []
    else Raw(s, tokens[..|tokens| - 1]) + SegmentsOfToken(s, tokens[|tokens| - 1])
  }

  // ------------------------------------------------------------ order of segments

  predicate KeyLess(left: Segment, right: Segment) {
    left.line < right.line || (left.line == right.line && left.start < right.start)
  }

  predicate KeyAtMost(left: Segment, right: Segment) {
    left.line < right.line || (left.line == right.line && left.start <= right.start)
  }

  predicate SameKey(left: Segment, right: Segment) {
    left.line == right.line && left.start == right.start
  }

  /** Keys never decrease. */
  predicate Sorted(segments: seq<Segment>)
    decreases |segments|
  {
    var n := |segments|;
    n <= 1 || (Sorted(segments[..n - 1]) && KeyAtMost(segments[n - 2], segments[n - 1]))
  }

  /** Keys increase. */
  predicate StrictlySorted(segments: seq<Segment>)
    decreases |segments|
  {
    var n := |segments|;
    n <= 1 || (StrictlySorted(segments[..n - 1]) && KeyLess(segments[n - 2], segments[n - 1]))
  }

  lemma {:induction false} StrictlySortedPairs(segments: seq<Segment>, i: nat, j: nat)
    requires StrictlySorted(segments) && i < j < |segments|
    ensures KeyLess(segments[i], segments[j])
    decreases |segments|
  {
    var n := |segments|;
    if j < n - 1 {
      StrictlySortedPairs(segments[..n - 1], i, j);
    } else if i < n - 2 {
      StrictlySortedPairs(segments[..n - 1], i, n - 2);
    }
  }

  lemma {:induction false} StrictlySortedIsSorted(segments: seq<Segment>)
    requires StrictlySorted(segments)
    ensures Sorted(segments)
    decreases |segments|
  {
    if |segments| > 1 {
      StrictlySortedIsSorted(segments[..|segments| - 1]);
    }
  }

  function Insert(sorted: seq<Segment>, segment: Segment): (more: seq<Segment>)
    ensures |more| == |sorted| + 1
    decreases |sorted|
  {
    var n := |sorted|;
    if n == 0 || KeyAtMost(sorted[n - 1], segment) then sorted + [segment]
    else Insert(sorted[..n - 1], segment) + [sorted[n - 1]]
  }

  lemma {:induction false} DropLast(segments: seq<Segment>)
    requires segments != []
    ensures multiset(segments) == multiset(segments[..|segments| - 1]) + multiset{segments[|segments| - 1]}
  {
    assert segments == segments[..|segments| - 1] + [segments[|segments| - 1]];
  }

  lemma {:induction false} InsertSorts(sorted: seq<Segment>, segment: Segment)
    requires Sorted(sorted)
    ensures Sorted(Insert(sorted, segment))
    ensures Insert(sorted, segment)[|sorted|] == segment
              || (sorted != [] && Insert(sorted, segment)[|sorted|] == sorted[|sorted| - 1])
    decreases |sorted|
  {
    var n := |sorted|;
    var more := Insert(sorted, segment);
    if n == 0 || KeyAtMost(sorted[n - 1], segment) {
      assert more[..n] == sorted;
    } else {
      InsertSorts(sorted[..n - 1], segment);
      assert more[..n] == Insert(sorted[..n - 1], segment);
    }
  }

  lemma {:induction false} InsertAdds(sorted: seq<Segment>, segment: Segment)
    ensures multiset(Insert(sorted, segment)) == multiset(sorted) + multiset{segment}
    decreases |sorted|
  {
    var n := |sorted|;
    if n > 0 && !KeyAtMost(sorted[n - 1], segment) {
      InsertAdds(sorted[..n - 1], segment);
      DropLast(sorted);
    }
  }

  /** A list can always be put in order. */
  lemma {:induction false} SortExists(raw: seq<Segment>) returns (sorted: seq<Segment>)
    ensures Sorted(sorted) && multiset(sorted) == multiset(raw)
    decreases |raw|
  {
    if raw == [] {
      sorted := [];
    } else {
      var n := |raw| - 1;
      var before := SortExists(raw[..n]);
      InsertSorts(before, raw[n]);
      InsertAdds(before, raw[n]);
      sorted := Insert(before, raw[n]);
      assert raw == raw[..n] + [raw[n]];
    }
  }

  /** `dedup_by_key`: a segment is dropped when its key is that of the last one kept. */
  function Dedup(segments: seq<Segment>): (kept: seq<Segment>)
    ensures kept == [] <==> segments == []
    decreases |segments|
  {
    if segments == [] then []
    else
      var n := |segments| - 1;
      var kept := Dedup(segments[..n]);
      if kept != [] && SameKey(kept[|kept| - 1], segments[n]) then kept else kept + [segments[n]]
  }

  /** Deduplicating a sorted list leaves strictly increasing keys. */
  lemma {:induction false} DedupIsStrict(segments: seq<Segment>)
    requires Sorted(segments)
    ensures StrictlySorted(Dedup(segments))
    ensures segments != [] ==> SameKey(Dedup(segments)[|Dedup(segments)| - 1], segments[|segments| - 1])
    decreases |segments|
  {
    if segments != [] {
      var n := |segments| - 1;
      var kept := Dedup(segments[..n]);
      DedupIsStrict(segments[..n]);
      assert (kept + [segments[n]])[..|kept|] == kept;
    }
  }

  predicate HasKey(segments: seq<Segment>, key: Segment)
    decreases |segments|
  {
    segments != [] && (SameKey(segments[|segments| - 1], key) || HasKey(segments[..|segments| - 1], key))
  }

  /** What deduplication drops has the key of a segment it keeps, and it invents nothing. */
  lemma {:induction false} DedupKeepsKeys(segments: seq<Segment>, key: Segment)
    requires Sorted(segments)
    ensures HasKey(Dedup(segments), key) <==> HasKey(segments, key)
    ensures multiset(Dedup(segments)) <= multiset(segments)
    decreases |segments|
  {
    if segments != [] {
      var n := |segments| - 1;
      var kept := Dedup(segments[..n]);
      DedupKeepsKeys(segments[..n], key);
      assert (kept + [segments[n]])[..|kept|] == kept;
      assert segments == segments[..n] + [segments[n]];
    }
  }

  /** Where keys already increase there is nothing to drop. */
  lemma {:induction false} DedupOfStrict(segments: seq<Segment>)
    requires StrictlySorted(segments)
    ensures Dedup(segments) == segments
    decreases |segments|
  {
    if segments != [] {
      var n := |segments| - 1;
      DedupOfStrict(segments[..n]);
      assert segments == segments[..n] + [segments[n]];
    }
  }

  /** The last of a sorted list has the greatest key of all its members. */
  lemma {:induction false} LastIsGreatest(sorted: seq<Segment>, segment: Segment)
    requires Sorted(sorted) && segment in multiset(sorted)
    ensures KeyAtMost(segment, sorted[|sorted| - 1])
  {
    var i :| 0 <= i < |sorted| && sorted[i] == segment;
    SortedPairs(sorted, i, |sorted| - 1);
  }

  lemma {:induction false} LastOfStrict(strict: seq<Segment>, segment: Segment)
    requires StrictlySorted(strict) && segment in multiset(strict)
    requires SameKey(segment, strict[|strict| - 1])
    ensures segment == strict[|strict| - 1]
  {
    var i :| 0 <= i < |strict| && strict[i] == segment;
    if i < |strict| - 1 {
      StrictlySortedPairs(strict, i, |strict| - 1);
    }
  }

  lemma {:induction false} DropSame(left: seq<Segment>, right: seq<Segment>)
    requires left != [] && right != [] && multiset(left) == multiset(right)
    requires left[|left| - 1] == right[|right| - 1]
    ensures multiset(left[..|left| - 1]) == multiset(right[..|right| - 1])
  {
    DropLast(left);
    DropLast(right);
    var last := multiset{left[|left| - 1]};
    assert multiset(left[..|left| - 1]) == multiset(left) - last;
    assert multiset(right[..|right| - 1]) == multiset(right) - last;
  }

  /** A list with increasing keys and a sorted rearrangement of it end alike. */
  lemma {:induction false} SameLast(strict: seq<Segment>, sorted: seq<Segment>)
    requires StrictlySorted(strict) && Sorted(sorted) && multiset(strict) == multiset(sorted)
    requires strict != [] && sorted != []
    ensures strict[|strict| - 1] == sorted[|sorted| - 1]
  {
    var mine, other := strict[|strict| - 1], sorted[|sorted| - 1];
    assert mine in multiset(strict) && other in multiset(sorted);
    StrictlySortedIsSorted(strict);
    LastIsGreatest(sorted, mine);
    LastIsGreatest(strict, other);
    LastOfStrict(strict, other);
  }

  /** A list with increasing keys is its only sorted rearrangement. */
  lemma {:induction false} StrictOrderUnique(strict: seq<Segment>, sorted: seq<Segment>)
    requires StrictlySorted(strict) && Sorted(sorted) && multiset(strict) == multiset(sorted)
    ensures strict == sorted
    decreases |strict|
  {
    assert |strict| == |multiset(strict)| == |multiset(sorted)| == |sorted|;
    if strict != [] {
      var n := |strict| - 1;
      SameLast(strict, sorted);
      DropSame(strict, sorted);
      StrictOrderUnique(strict[..n], sorted[..n]);
      assert strict == strict[..n] + [strict[n]];
      assert sorted == sorted[..n] + [sorted[n]];
    }
  }

  lemma {:induction false} SortedPairs(segments: seq<Segment>, i: nat, j: nat)
    requires Sorted(segments) && i <= j < |segments|
    ensures KeyAtMost(segments[i], segments[j])
    decreases |segments|
  {
    var n := |segments|;
    if j < n - 1 {
      SortedPairs(segments[..n - 1], i, j);
    } else if i < n - 1 {
      SortedPairs(segments[..n - 1], i, n - 2);
    }
  }

  // ------------------------------------------------------------------- encoding

  /** Line and start of the last segment, or the start of the document. */
  function Cursor(segments: seq<Segment>): (nat, nat) {
    if segments == [] then (0, 0) else (segments[|segments| - 1].line, segments[|segments| - 1].start)
  }

  /** How a client reads the entries (LSP 3.17): each relative to the one before. */
  function Decode(data: seq<Delta>): seq<Segment>
    decreases |data|
  {
    if data == [] then []
    else
      var before := Decode(data[..|data| - 1]);
      var last := data[|data| - 1];
      var (line, start) := Cursor(before);
      before + [Segment(line + last.deltaLine, if last.deltaLine == 0 then start + last.deltaStart else last.deltaStart,
                        last.length, last.style)]
  }

  /** The last loop of `encode_semantic_tokens`; its subtractions never go below zero. */
  method EncodeSorted(segments: seq<Segment>) returns (data: seq<Delta>)
    requires Sorted(segments)
    ensures Decode(data) == segments
  {
    data := [];
    var previousLine, previousStart: nat := 0, 0;
    for i := 0 to |segments|
      invariant Decode(data) == segments[..i]
      invariant (previousLine, previousStart) == Cursor(segments[..i])
    {
      var segment := segments[i];
      if i > 0 {
        SortedPairs(segments, i - 1, i);
      }
      var deltaLine: nat := segment.line - previousLine;
      var deltaStart: nat := if deltaLine == 0 then segment.start - previousStart else segment.start;
      var delta := Delta(deltaLine, deltaStart, segment.length, segment.style);
      previousLine := segment.line;
      previousStart := segment.start;
      data := data + [delta];
    }
    assert segments[..|segments|] == segments;
  }

  // ------------------------------------------------------------------ the method

  /** The segments still to come when the loop over a token stands at `k`. */
  function Remaining(s: string, start: nat, k: nat, until: nat, style: Style): seq<Segment>
    requires start <= k <= until <= |s| && NoNewline(s, start, k)
  {
    PiecesAreGood(s, start, k, until);
    SegmentsOf(s, Pieces(s, start, k, until), style)
  }

  /** What the newline at `k` makes the loop push. */
  function Pushed(s: string, start: nat, k: nat, style: Style): seq<Segment>
    requires start <= k < |s|
  {
    var end := LineContentEnd(s, k);
    if start < end then [SegmentOf(s, start, end, style)] else []
  }

  lemma {:induction false} SegmentsOfPushed(s: string, start: nat, k: nat, rest: seq<(nat, nat)>, style: Style)
    requires start <= k < |s| && Within(s, rest)
    ensures Within(s, PushedPiece(s, start, k) + rest)
    ensures SegmentsOf(s, PushedPiece(s, start, k) + rest, style) ==
              Pushed(s, start, k, style) + SegmentsOf(s, rest, style)
  {
    var end := LineContentEnd(s, k);
    if start < end {
    } else {
      assert PushedPiece(s, start, k) + rest == rest;
    }
  }

  lemma {:induction false} RemainingAtNewline(s: string, start: nat, k: nat, until: nat, style: Style)
    requires start <= k < until <= |s| && NoNewline(s, start, k) && s[k] == '\n'
    ensures Remaining(s, start, k, until, style) ==
              Pushed(s, start, k, style) + Remaining(s, k + 1, k + 1, until, style)
  {
    PiecesAreGood(s, k + 1, k + 1, until);
    SegmentsOfPushed(s, start, k, Pieces(s, k + 1, k + 1, until), style);
  }

  lemma {:induction false} RemainingElsewhere(s: string, start: nat, k: nat, until: nat, style: Style)
    requires start <= k < until <= |s| && NoNewline(s, start, k) && s[k] != '\n'
    ensures NoNewline(s, start, k + 1)
    ensures Remaining(s, start, k, until, style) == Remaining(s, start, k + 1, until, style)
  {
  }

  /** `done` is what has been pushed when the loop over a token stands at `k`. */
  ghost predicate Reached(s: string, from: nat, start: nat, k: nat, until: nat, style: Style, done: seq<Segment>) {
    && from <= start <= k <= until <= |s| && NoNewline(s, start, k)
    && done + Remaining(s, start, k, until, style) == Remaining(s, from, from, until, style)
  }

  lemma {:induction false} Advance(s: string, from: nat, start: nat, k: nat, until: nat, style: Style,
                                   done: seq<Segment>)
    requires k < until && Reached(s, from, start, k, until, style, done)
    ensures if s[k] == '\n' then Reached(s, from, k + 1, k + 1, until, style, done + Pushed(s, start, k, style))
            else Reached(s, from, start, k + 1, until, style, done)
  {
    if s[k] == '\n' {
      RemainingAtNewline(s, start, k, until, style);
    } else {
      RemainingElsewhere(s, start, k, until, style);
    }
  }

  /** The loop's branch for the newline at `k`. */
  method PushLine(s: string, start: nat, k: nat, style: Style, output: seq<Segment>) returns (more: seq<Segment>)
    requires Length(s) < U32_LIMIT && start <= k < |s| && NoNewline(s, start, k) && s[k] == '\n'
    ensures more == output + Pushed(s, start, k, style)
  {
    more := output;
    var segmentEnd := k;
    if segmentEnd > 0 && s[segmentEnd - 1] == '\r' {
      segmentEnd := segmentEnd - 1;
    }
    if start < segmentEnd {
      more := PushSegment(s, start, segmentEnd, style, more);
    }
  }

  /** The loop over one token's text, pushing a segment at each line end and at the end. */
  method SplitRange(s: string, from: nat, until: nat, style: Style) returns (segments: seq<Segment>)
    requires Length(s) < U32_LIMIT && from < until <= |s|
    ensures segments == Remaining(s, from, from, until, style)
  {
    segments := [];
    var segmentStart: nat := from;
    for k := from to until
      invariant Reached(s, from, segmentStart, k, until, style, segments)
    {
      Advance(s, from, segmentStart, k, until, style, segments);
      if s[k] == '\n' {
        segments := PushLine(s, segmentStart, k, style, segments);
        segmentStart := k + 1;
      }
    }
    if segmentStart < until {
      segments := PushSegment(s, segmentStart, until, style, segments);
    }
  }

  // `encode_semantic_tokens`.  The client decodes the segments sorted and
  // deduplicated, with increasing starts; for tokens in order, simply the
  // segments in the order of the text.
  method EncodeSemanticTokens(s: string, tokens: seq<Token>) returns (data: seq<Delta>)
    requires Length(s) < U32_LIMIT
    ensures exists sorted :: Sorted(sorted) && multiset(sorted) == multiset(Raw(s, tokens))
              && Decode(data) == Dedup(sorted)
    ensures StrictlySorted(Decode(data))
    ensures InOrder(tokens) ==> Decode(data) == Raw(s, tokens)
  {
    var raw: seq<Segment> := [];
    for i := 0 to |tokens|
      invariant raw == Raw(s, tokens[..i])
    {
      assert tokens[..i + 1][..i] == tokens[..i];
      if Shown(s, tokens[i]) {
        PiecesOfAreGood(s, tokens[i]);
        var segments := SplitRange(s, Index(s, tokens[i].start), Index(s, tokens[i].end), tokens[i].style.value);
        raw := raw + segments;
      }
    }
    assert tokens[..|tokens|] == tokens;
    ghost var possible := SortExists(raw);
    var sorted :| Sorted(sorted) && multiset(sorted) == multiset(raw);
    if InOrder(tokens) {
      RawIncreases(s, tokens, |s|);
      StrictOrderUnique(raw, sorted);
      DedupOfStrict(raw);
    }
    var kept := Dedup(sorted);
    DedupIsStrict(sorted);
    StrictlySortedIsSorted(kept);
    data := EncodeSorted(kept);
  }

  // -------------------------------------------------------------------- results

  /** Tokens as a lexer produces them: in order and apart. */
  ghost predicate InOrder(tokens: seq<Token>) {
    forall i, j :: 0 <= i < j < |tokens| ==> tokens[i].end <= tokens[j].start
  }

  /** The last segment starts before scalar `k`. */
  predicate EndsBefore(segments: seq<Segment>, s: string, k: nat)
    requires k <= |s|
  {
    segments == [] ||
    Before(Position(segments[|segments| - 1].line, segments[|segments| - 1].start), PositionAt(s, k))
  }

  lemma {:induction false} AppendStrict(left: seq<Segment>, right: seq<Segment>)
    requires StrictlySorted(left) && StrictlySorted(right)
    requires left != [] && right != [] ==> KeyLess(left[|left| - 1], right[0])
    ensures StrictlySorted(left + right)
    decreases |right|
  {
    var n := |right|;
    if n == 0 {
      assert left + right == left;
    } else {
      AppendStrict(left, right[..n - 1]);
      assert (left + right)[..|left + right| - 1] == left + right[..n - 1];
    }
  }

  lemma {:induction false} PieceBefore(s: string, earlier: (nat, nat), later: (nat, nat), style: Style)
    requires earlier.0 < earlier.1 <= later.0 < later.1 <= |s|
    requires NoNewline(s, earlier.0, earlier.1) && NoNewline(s, later.0, later.1)
    ensures KeyLess(SegmentOf(s, earlier.0, earlier.1, style), SegmentOf(s, later.0, later.1, style))
  {
    PositionsIncrease(s, earlier.0, later.0);
  }

  lemma {:induction false} StrictFromNeighbours(segments: seq<Segment>)
    requires forall i :: 0 < i < |segments| ==> KeyLess(segments[i - 1], segments[i])
    ensures StrictlySorted(segments)
    decreases |segments|
  {
    if segments != [] {
      StrictFromNeighbours(segments[..|segments| - 1]);
    }
  }

  lemma {:induction false} NeighbourLess(s: string, pieces: seq<(nat, nat)>, style: Style, i: nat)
    requires Within(s, pieces) && 0 < i < |pieces|
    requires pieces[i - 1].0 < pieces[i - 1].1 <= pieces[i].0 < pieces[i].1
    requires NoNewline(s, pieces[i - 1].0, pieces[i - 1].1) && NoNewline(s, pieces[i].0, pieces[i].1)
    ensures KeyLess(SegmentsOf(s, pieces, style)[i - 1], SegmentsOf(s, pieces, style)[i])
  {
    SegmentsOfAt(s, pieces, style, i - 1);
    SegmentsOfAt(s, pieces, style, i);
    PieceBefore(s, pieces[i - 1], pieces[i], style);
  }

  /** The segments of one token come in order. */
  lemma {:induction false} SegmentsIncrease(s: string, pieces: seq<(nat, nat)>, style: Style, from: nat, until: nat)
    requires until <= |s| && GoodPieces(s, pieces, from, until)
    ensures StrictlySorted(SegmentsOf(s, pieces, style))
  {
    var segments := SegmentsOf(s, pieces, style);
    forall i | 0 < i < |segments| ensures KeyLess(segments[i - 1], segments[i]) {
      NeighbourLess(s, pieces, style, i);
    }
    StrictFromNeighbours(segments);
  }

  /** Segments of a token lie from its first scalar to before its last. */
  lemma {:induction false} SegmentsBetween(s: string, pieces: seq<(nat, nat)>, style: Style, from: nat, until: nat)
    requires until <= |s| && GoodPieces(s, pieces, from, until)
    ensures var segments := SegmentsOf(s, pieces, style);
            && EndsBefore(segments, s, until)
            && (segments != [] ==> AtMost(PositionAt(s, from), Position(segments[0].line, segments[0].start)))
  {
    var n := |pieces|;
    if n > 0 {
      SegmentsOfAt(s, pieces, style, 0);
      SegmentsOfAt(s, pieces, style, n - 1);
      PositionsOrdered(s, from, pieces[0].0);
      PositionsIncrease(s, pieces[n - 1].0, until);
    }
  }

  lemma {:induction false} BeforeLater(segments: seq<Segment>, s: string, k: nat, m: nat)
    requires k <= m <= |s| && EndsBefore(segments, s, k)
    ensures EndsBefore(segments, s, m)
  {
    PositionsOrdered(s, k, m);
  }

  lemma {:induction false} TokenIncreases(s: string, token: Token, k: nat)
    requires Shown(s, token) && k <= |s| && token.end <= Offset(s, k)
    ensures Index(s, token.start) <= k
    ensures var segments := SegmentsOfToken(s, token);
            && StrictlySorted(segments) && EndsBefore(segments, s, k)
            && (segments != [] ==>
                  AtMost(PositionAt(s, Index(s, token.start)), Position(segments[0].line, segments[0].start)))
  {
    var from, until := Index(s, token.start), Index(s, token.end);
    PiecesOfAreGood(s, token);
    SegmentsIncrease(s, PiecesOf(s, token), token.style.value, from, until);
    SegmentsBetween(s, PiecesOf(s, token), token.style.value, from, until);
    OffsetsOrdered(s, k, until);
    BeforeLater(SegmentsOfToken(s, token), s, until, k);
  }

  lemma {:induction false} AppendOrdered(left: seq<Segment>, right: seq<Segment>, s: string, from: nat, k: nat)
    requires from <= k <= |s| && StrictlySorted(left) && StrictlySorted(right)
    requires EndsBefore(left, s, from) && EndsBefore(right, s, k)
    requires right != [] ==> AtMost(PositionAt(s, from), Position(right[0].line, right[0].start))
    ensures StrictlySorted(left + right) && EndsBefore(left + right, s, k)
  {
    BeforeLater(left, s, from, k);
    AppendStrict(left, right);
  }

  /** The segments of tokens in order come in order, all before where the tokens end. */
  lemma {:induction false} RawIncreases(s: string, tokens: seq<Token>, k: nat)
    requires InOrder(tokens) && k <= |s|
    requires forall i :: 0 <= i < |tokens| && Shown(s, tokens[i]) ==> tokens[i].end <= Offset(s, k)
    ensures StrictlySorted(Raw(s, tokens)) && EndsBefore(Raw(s, tokens), s, k)
    decreases |tokens|
  {
    if tokens != [] {
      var n := |tokens| - 1;
      var before, token := tokens[..n], tokens[n];
      assert InOrder(before);
      var from := if Shown(s, token) then Index(s, token.start) else k;
      if Shown(s, token) {
        TokenIncreases(s, token, k);
      }
      RawIncreases(s, before, from);
      AppendOrdered(Raw(s, before), SegmentsOfToken(s, token), s, from, k);
    }
  }

  // `segment` is what scalars `from` to `until` of the token look like to the client: on one line, in
  // UTF-16 code units, without any of a line ending.
  ghost predicate RendersRange(s: string, token: Token, segment: Segment, from: nat, until: nat) {
    && from < until <= |s| && token.end <= Length(s) && IsOffset(s, token.start) && IsOffset(s, token.end)
    && token.start <= Offset(s, from) && Offset(s, until) <= token.end
    && (forall k :: from <= k < until ==>
          s[k] != '\n' && !(s[k] == '\r' && k + 1 < |s| && s[k + 1] == '\n' && Offset(s, k + 1) < token.end))
    && segment.line == multiset(s[..from])['\n']
    && segment.start == |Utf16Text(s[LineStart(s, from)..from])|
    && segment.length == |Utf16Text(s[from..until])| > 0
    && token.style == Some(segment.style)
  }

  ghost predicate Renders(s: string, token: Token, segment: Segment) {
    exists from: nat, until: nat :: RendersRange(s, token, segment, from, until)
  }

  lemma {:induction false} NoEndingsWithin(s: string, end: nat, from: nat, until: nat)
    requires from < until <= end <= |s| && forall k :: from <= k < until ==> !EndsLine(s, end, k)
    ensures forall k :: from <= k < until ==>
              s[k] != '\n' && !(s[k] == '\r' && k + 1 < |s| && s[k + 1] == '\n' && Offset(s, k + 1) < Offset(s, end))
  {
    forall k | from <= k < until
      ensures s[k] != '\n'
      ensures !(s[k] == '\r' && k + 1 < |s| && s[k + 1] == '\n' && Offset(s, k + 1) < Offset(s, end))
    {
      assert !EndsLine(s, end, k);
      OffsetsOrdered(s, k + 1, end);
    }
  }

  lemma {:induction false} PieceRenders(s: string, token: Token, from: nat, until: nat)
    requires Shown(s, token)
    requires Index(s, token.start) <= from < until <= Index(s, token.end) && NoNewline(s, from, until)
    requires forall k :: from <= k < until ==> !EndsLine(s, Index(s, token.end), k)
    ensures Renders(s, token, SegmentOf(s, from, until, token.style.value))
  {
    var segment, end := SegmentOf(s, from, until, token.style.value), Index(s, token.end);
    OnOneLine(s, from, until);
    UnitsBetweenCounts(s, from, until);
    PositionCounts(s, from, LineStart(s, from));
    OffsetsOrdered(s, Index(s, token.start), from);
    OffsetsOrdered(s, until, end);
    NoEndingsWithin(s, end, from, until);
    assert RendersRange(s, token, segment, from, until);
  }

  lemma {:induction false} TokenSegmentRenders(s: string, token: Token, segment: Segment)
    requires segment in SegmentsOfToken(s, token)
    ensures Renders(s, token, segment)
  {
    PiecesOfAreGood(s, token);
    var pieces := PiecesOf(s, token);
    var k :| 0 <= k < |pieces| && segment == SegmentsOf(s, pieces, token.style.value)[k];
    SegmentsOfAt(s, pieces, token.style.value, k);
    PiecesHaveNoEndings(s, Index(s, token.start), Index(s, token.start), Index(s, token.end));
    PieceRenders(s, token, pieces[k].0, pieces[k].1);
  }

  /** No segment crosses a line: each covers a stretch of one line inside its token. */
  lemma {:induction false} SegmentsStayOnLines(s: string, tokens: seq<Token>, segment: Segment)
    requires segment in Raw(s, tokens)
    ensures exists i :: 0 <= i < |tokens| && Renders(s, tokens[i], segment)
    decreases |tokens|
  {
    var n := |tokens| - 1;
    if segment in Raw(s, tokens[..n]) {
      SegmentsStayOnLines(s, tokens[..n], segment);
      var i :| 0 <= i < n && Renders(s, tokens[..n][i], segment);
      assert Renders(s, tokens[i], segment);
    } else {
      TokenSegmentRenders(s, tokens[n], segment);
    }
  }

  predicate Covers(segment: Segment, position: Position) {
    segment.line == position.line && segment.start <= position.character < segment.start + segment.length
  }

  lemma {:induction false} UnitsAdd(s: string, from: nat, k: nat, until: nat)
    requires from <= k <= until <= |s|
    ensures UnitsBetween(s, from, until) == UnitsBetween(s, from, k) + UnitsBetween(s, k, until)
    decreases until
  {
    if k < until {
      UnitsAdd(s, from, k, until - 1);
    }
  }

  lemma {:induction false} PieceCovers(s: string, from: nat, k: nat, until: nat, style: Style)
    requires from <= k < until <= |s| && NoNewline(s, from, until)
    ensures Covers(SegmentOf(s, from, until, style), PositionAt(s, k))
  {
    OnOneLine(s, from, k);
    OnOneLine(s, k, until);
    UnitsAdd(s, from, k, until);
  }

  lemma {:induction false} RawOfMore(s: string, tokens: seq<Token>, segment: Segment)
    requires tokens != []
    ensures segment in Raw(s, tokens[..|tokens| - 1]) ==> segment in Raw(s, tokens)
    ensures segment in SegmentsOfToken(s, tokens[|tokens| - 1]) ==> segment in Raw(s, tokens)
  {
  }

  /** What one token contributes stays in the list. */
  lemma {:induction false} RawKeeps(s: string, tokens: seq<Token>, token: Token, i: nat, segment: Segment)
    requires i < |tokens| && tokens[i] == token && segment in SegmentsOfToken(s, token)
    ensures segment in Raw(s, tokens)
    decreases |tokens|
  {
    var before := tokens[..|tokens| - 1];
    if i < |before| {
      RawKeeps(s, before, token, i, segment);
    }
    RawOfMore(s, tokens, segment);
  }

  /** Every scalar of a token with a style is covered by a segment of that style, line endings excepted. */
  lemma {:induction false} EveryScalarIsShown(s: string, tokens: seq<Token>, i: nat, from: nat, until: nat, k: nat,
                                              style: Style)
    requires i < |tokens| && from <= k < until <= |s|
    requires tokens[i] == Token(Offset(s, from), Offset(s, until), Some(style))
    requires s[k] != '\n' && !(s[k] == '\r' && k + 1 < until && s[k + 1] == '\n')
    ensures exists segment :: segment in Raw(s, tokens) && segment.style == style && Covers(segment, PositionAt(s, k))
  {
    TokenIsShown(s, tokens[i], from, until);
    var pieces := PiecesOf(s, tokens[i]);
    PiecesOfAreGood(s, tokens[i]);
    PiecesCover(s, from, from, until, k);
    var p :| 0 <= p < |pieces| && pieces[p].0 <= k < pieces[p].1;
    PieceCovers(s, pieces[p].0, k, pieces[p].1, style);
    SegmentsOfAt(s, pieces, style, p);
    RawKeeps(s, tokens, tokens[i], i, SegmentOf(s, pieces[p].0, pieces[p].1, style));
  }

  lemma {:induction false} TokenIsShown(s: string, token: Token, from: nat, until: nat)
    requires from < until <= |s| && token.start == Offset(s, from) && token.end == Offset(s, until) && token.style.Some?
    ensures Shown(s, token) && Index(s, token.start) == from && Index(s, token.end) == until
  {
    OffsetsOrdered(s, from, until);
    OffsetsOrdered(s, until, |s|);
    IndexOfOffset(s, from);
    IndexOfOffset(s, until);
  }
}

// `offset_to_position` and `position_to_offset` of `mux-compiler/src/lsp.rs`: UTF-8 byte offsets
// against UTF-16 positions.
module TextPositions {
  import opened Text

  /** Zero-based line, and UTF-16 code units into it. */
  datatype Position = Position(line: nat, character: nat)

  predicate AtMost(left: Position, right: Position) {
    left.line < right.line || (left.line == right.line && left.character <= right.character)
  }

  predicate Before(left: Position, right: Position) {
    AtMost(left, right) && left != right
  }

  const U32_LIMIT: nat := 0x1_0000_0000

  /** Newlines among the first `k` scalars. */
  function Line(s: string, k: nat): nat
    requires k <= |s|
  {
    if k == 0 then 0 else Line(s, k - 1) + if s[k - 1] == '\n' then 1 else 0
  }

  /** UTF-16 units between the last newline before `k` and `k`. */
  function Column(s: string, k: nat): nat
    requires k <= |s|
  {
    if k == 0 || s[k - 1] == '\n' then 0 else Column(s, k - 1) + Units(s[k - 1])
  }

  function PositionAt(s: string, k: nat): Position
    requires k <= |s|
  {
    Position(Line(s, k), Column(s, k))
  }

  /** Later scalars have later positions. */
  lemma {:induction false} PositionsIncrease(s: string, k: nat, m: nat)
    requires k < m <= |s|
    ensures Before(PositionAt(s, k), PositionAt(s, m))
    decreases m
  {
    if k < m - 1 {
      PositionsIncrease(s, k, m - 1);
    }
  }

  lemma {:induction false} PositionsOrdered(s: string, k: nat, m: nat)
    requires k <= |s| && m <= |s|
    ensures k <= m <==> AtMost(PositionAt(s, k), PositionAt(s, m))
    ensures k == m <==> PositionAt(s, k) == PositionAt(s, m)
  {
    if k < m {
      PositionsIncrease(s, k, m);
    } else if m < k {
      PositionsIncrease(s, m, k);
    }
  }

  // ---------------------------------------------------------- offset_to_position

  /** `rfind('\n')` among the first `k` scalars, plus one. */
  function LineStart(s: string, k: nat): (start: nat)
    requires k <= |s|
    ensures start <= k
    ensures start > 0 ==> s[start - 1] == '\n'
    ensures forall i :: start <= i < k ==> s[i] != '\n'
  {
    if k == 0 || s[k - 1] == '\n' then k else LineStart(s, k - 1)
  }

  ghost predicate NoNewline(s: string, from: nat, until: nat)
    requires until <= |s|
  {
    forall k :: from <= k < until ==> s[k] != '\n'
  }

  function NewlineBytes(bytes: seq<nat>): nat {
    if bytes == [] then 0
    else NewlineBytes(bytes[..|bytes| - 1]) + if bytes[|bytes| - 1] == 10 then 1 else 0
  }

  function UnitsBetween(s: string, start: nat, k: nat): nat
    requires start <= k <= |s|
    decreases k
  {
    if start == k then 0 else UnitsBetween(s, start, k - 1) + Units(s[k - 1])
  }

  function OffsetToPosition(s: string, offset: nat): Position {
    var k := Index(s, if offset < Length(s) then offset else Length(s));
    var start := LineStart(s, k);
    Position(NewlineBytes(BytesTo(s, start)) % U32_LIMIT, UnitsBetween(s, start, k) % U32_LIMIT)
  }

  /** The sums count the UTF-16 code units of the scalars. */
  lemma {:induction false} UnitsBetweenCounts(s: string, start: nat, k: nat)
    requires start <= k <= |s|
    ensures UnitsBetween(s, start, k) == |Utf16Text(s[start..k])|
    decreases k
  {
    if start < k {
      UnitsBetweenCounts(s, start, k - 1);
      assert s[start..k][..k - 1 - start] == s[start..k - 1];
    }
  }

  lemma {:induction false} LineCounts(s: string, k: nat)
    requires k <= |s|
    ensures Line(s, k) == multiset(s[..k])['\n']
    decreases k
  {
    if k > 0 {
      LineCounts(s, k - 1);
      assert s[..k] == s[..k - 1] + [s[k - 1]];
    }
  }

  // A position is the number of newlines before the scalar, and the number of UTF-16 code
  // units between the last of them and the scalar.
  lemma {:induction false} PositionCounts(s: string, k: nat, start: nat)
    requires start <= k <= |s| && (start == 0 || s[start - 1] == '\n') && NoNewline(s, start, k)
    ensures PositionAt(s, k) == Position(multiset(s[..k])['\n'], |Utf16Text(s[start..k])|)
  {
    LineStartUnique(s, k, start);
    LineStartPosition(s, k);
    UnitsBetweenCounts(s, start, k);
    LineCounts(s, k);
  }

  lemma {:induction false} LineStartUnique(s: string, k: nat, start: nat)
    requires start <= k <= |s| && (start == 0 || s[start - 1] == '\n') && NoNewline(s, start, k)
    ensures LineStart(s, k) == start
    decreases k
  {
    if start < k {
      LineStartUnique(s, k - 1, start);
    }
  }

  lemma {:induction false} NewlineBytesAppend(bytes: seq<nat>, more: seq<nat>)
    ensures NewlineBytes(bytes + more) == NewlineBytes(bytes) + NewlineBytes(more)
    decreases |more|
  {
    if more == [] {
      assert bytes + more == bytes;
    } else {
      assert (bytes + more)[..|bytes + more| - 1] == bytes + more[..|more| - 1];
      NewlineBytesAppend(bytes, more[..|more| - 1]);
    }
  }

  lemma {:induction false} NoNewlineBytes(bytes: seq<nat>)
    requires forall i :: 0 <= i < |bytes| ==> bytes[i] != 10
    ensures NewlineBytes(bytes) == 0
    decreases |bytes|
  {
    if bytes != [] {
      NoNewlineBytes(bytes[..|bytes| - 1]);
    }
  }

  lemma {:induction false} NewlineBytesOfScalar(c: char)
    ensures NewlineBytes(Utf8(c)) == if c == '\n' then 1 else 0
  {
    var bytes := Utf8(c);
    if c == '\n' {
      assert bytes[..0] == [];
    } else {
      NoNewlineBytes(bytes);
    }
  }

  lemma {:induction false} NewlineBytesStep(before: seq<nat>, c: char)
    ensures NewlineBytes(before + Utf8(c)) == NewlineBytes(before) + if c == '\n' then 1 else 0
  {
    NewlineBytesAppend(before, Utf8(c));
    NewlineBytesOfScalar(c);
  }

  lemma {:induction false} NewlineBytesAreLines(s: string, k: nat)
    requires k <= |s|
    ensures NewlineBytes(BytesTo(s, k)) == Line(s, k)
    decreases k
  {
    if k > 0 {
      NewlineBytesAreLines(s, k - 1);
      NewlineBytesStep(BytesTo(s, k - 1), s[k - 1]);
    }
  }

  lemma {:induction false} LineStartPosition(s: string, k: nat)
    requires k <= |s|
    ensures Line(s, LineStart(s, k)) == Line(s, k)
    ensures UnitsBetween(s, LineStart(s, k), k) == Column(s, k)
    decreases k
  {
    if k > 0 && s[k - 1] != '\n' {
      LineStartPosition(s, k - 1);
    }
  }

  lemma {:induction false} PositionsFit(s: string, k: nat)
    requires k <= |s|
    ensures Line(s, k) + Column(s, k) <= Offset(s, k)
    decreases k
  {
    if k > 0 {
      PositionsFit(s, k - 1);
    }
  }

  // In texts below 4 GiB the conversion yields the position of the scalar at or before the
  // offset: newlines before it, and UTF-16 code units of its line before it.
  lemma {:induction false} OffsetToPositionIsPositionAt(s: string, offset: nat)
    requires Length(s) < U32_LIMIT
    ensures var k := Index(s, if offset < Length(s) then offset else Length(s));
            OffsetToPosition(s, offset) ==
              Position(multiset(s[..k])['\n'], |Utf16Text(s[LineStart(s, k)..k])|)
    ensures OffsetToPosition(s, offset) == PositionAt(s, Index(s, if offset < Length(s) then offset else Length(s)))
  {
    var k := Index(s, if offset < Length(s) then offset else Length(s));
    NewlineBytesAreLines(s, LineStart(s, k));
    LineStartPosition(s, k);
    PositionsFit(s, k);
    OffsetsIncrease(s, k, |s|);
    SmallEnough(Line(s, k));
    SmallEnough(Column(s, k));
    PositionCounts(s, k, LineStart(s, k));
  }

  lemma {:induction false} SmallEnough(n: nat)
    requires n < U32_LIMIT
    ensures n % U32_LIMIT == n
  {
  }

  // ---------------------------------------------------------- position_to_offset

  /** Pieces that `split_inclusive('\n')` yields. */
  function LineCount(s: string): nat {
    Line(s, |s|) + if s != "" && s[|s| - 1] != '\n' then 1 else 0
  }

  /** Not behind a `\r` that belongs to a line ending or ends the text: positions a line can address. */
  predicate Addressable(s: string, k: nat)
    requires k <= |s|
  {
    !(k > 0 && s[k - 1] == '\r' && (k == |s| || s[k] == '\n'))
  }

  /** The last addressable index up to `k` that is not past `position`. */
  function LastAtMost(s: string, position: Position, k: nat): (index: nat)
    requires k <= |s|
    ensures index <= k && Addressable(s, index) && AtMost(PositionAt(s, index), position)
    ensures forall m :: index < m <= k ==> !(Addressable(s, m) && AtMost(PositionAt(s, m), position))
  {
    if Addressable(s, k) && AtMost(PositionAt(s, k), position) then k
    else
      assert k > 0;
      LastAtMost(s, position, k - 1)
  }

  // What a position stands for: the end of the text below the last line, otherwise the last
  // addressable index not past it.
  function Rounded(s: string, position: Position): (k: nat)
    ensures k <= |s|
  {
    if position.line >= LineCount(s) then |s| else LastAtMost(s, position, |s|)
  }

  lemma {:induction false} LastAtMostUnique(s: string, position: Position, k: nat)
    requires k <= |s| && Addressable(s, k) && AtMost(PositionAt(s, k), position)
    requires forall m :: k < m <= |s| ==> !(Addressable(s, m) && AtMost(PositionAt(s, m), position))
    ensures LastAtMost(s, position, |s|) == k
  {
  }

  /** The end of the line that starts at `start`: its newline, or the end of the text. */
  function LineEnd(s: string, start: nat): (end: nat)
    requires start <= |s|
    ensures start <= end <= |s|
    ensures end < |s| ==> s[end] == '\n'
    ensures forall i :: start <= i < end ==> s[i] != '\n'
    decreases |s| - start
  {
    if start == |s| || s[start] == '\n' then start else LineEnd(s, start + 1)
  }

  /** Where the content of that line ends, its line ending stripped. */
  function ContentEnd(s: string, start: nat): (end: nat)
    requires start <= |s|
    ensures start <= end <= |s|
  {
    var end := LineEnd(s, start);
    if end > start && s[end - 1] == '\r' then end - 1 else end
  }

  lemma {:induction false} WithinLine(s: string, start: nat, k: nat)
    requires start <= k <= |s| && k <= LineEnd(s, start)
    requires start == 0 || s[start - 1] == '\n'
    ensures Line(s, k) == Line(s, start)
    ensures Column(s, k) >= k - start && Column(s, start) == 0
    decreases k
  {
    if start < k {
      WithinLine(s, start, k - 1);
    }
  }

  /** Inside a line's content the answer is the last scalar whose column fits. */
  lemma {:induction false} RoundedWithin(s: string, position: Position, start: nat, k: nat)
    requires start <= |s| && (start == 0 || s[start - 1] == '\n') && start <= k <= ContentEnd(s, start)
    requires start < |s| && Line(s, start) == position.line && Column(s, k) <= position.character
    requires k < ContentEnd(s, start) ==> position.character < Column(s, k + 1)
    ensures Rounded(s, position) == k
  {
    var end := LineEnd(s, start);
    WithinLine(s, start, k);
    LineBelowCount(s, start);
    forall m | k < m <= |s| && Addressable(s, m) ensures !AtMost(PositionAt(s, m), position) {
      if k < ContentEnd(s, start) {
        WithinLine(s, start, k + 1);
        PositionsOrdered(s, k + 1, m);
      } else if m > end {
        WithinLine(s, start, end);
        PositionsOrdered(s, end + 1, m);
      }
    }
    LastAtMostUnique(s, position, k);
  }

  lemma {:induction false} LinesIncrease(s: string, k: nat, m: nat)
    requires k <= m <= |s|
    ensures Line(s, k) <= Line(s, m)
    decreases m
  {
    if k < m {
      LinesIncrease(s, k, m - 1);
    }
  }

  lemma {:induction false} LineBelowCount(s: string, start: nat)
    requires start < |s|
    ensures Line(s, start) < LineCount(s)
  {
    LinesIncrease(s, start, |s| - 1);
  }

  /** In texts below 4 GiB the 32-bit sum of UTF-16 lengths in the loop below does not overflow. */
  lemma {:induction false} SumsFit(s: string, k: nat)
    requires Length(s) < U32_LIMIT && k < |s|
    ensures Column(s, k) + Units(s[k]) < U32_LIMIT
  {
    PositionsFit(s, k);
    OffsetsIncrease(s, k + 1, |s|);
  }

  /** `position_to_offset`: `Rounded` is characterised by `RoundsDown` and `RoundsToLast`. */
  method PositionToOffset(s: string, position: Position) returns (offset: nat)
    ensures offset == Offset(s, Rounded(s, position))
  {
    var line, start, lineStart := 0, 0, 0;
    while start < |s|
      invariant start <= |s| && lineStart == Offset(s, start) && line <= position.line
      invariant start < |s| ==> line == Line(s, start) && (start == 0 || s[start - 1] == '\n')
      invariant start == |s| ==> line == LineCount(s)
      decreases |s| - start
    {
      var end := LineEnd(s, start);
      if line == position.line {
        offset := OffsetInLine(s, position, start, lineStart);
        return;
      }
      var next := if end < |s| then end + 1 else end;
      NextLine(s, start);
      start, lineStart, line := next, Offset(s, next), line + 1;
    }
    offset := Length(s);
  }

  lemma {:induction false} NextLine(s: string, start: nat)
    requires start < |s| && (start == 0 || s[start - 1] == '\n')
    ensures var end := LineEnd(s, start);
            && (end < |s| ==> Line(s, end + 1) == Line(s, start) + 1)
            && (end + 1 >= |s| ==> LineCount(s) == Line(s, start) + 1)
  {
    WithinLine(s, start, LineEnd(s, start));
  }

  /** The search inside the line the position names. */
  method OffsetInLine(s: string, position: Position, start: nat, lineStart: nat) returns (offset: nat)
    requires start < |s| && (start == 0 || s[start - 1] == '\n')
    requires lineStart == Offset(s, start) && Line(s, start) == position.line
    ensures offset == Offset(s, Rounded(s, position))
  {
    var contentEnd := ContentEnd(s, start);
    var k, utf16Offset, byteOffset := start, 0, 0;
    WithinLine(s, start, start);
    while k < contentEnd
      invariant start <= k <= contentEnd
      invariant utf16Offset == Column(s, k) && lineStart + byteOffset == Offset(s, k)
      invariant k > start ==> utf16Offset < position.character
      decreases contentEnd - k
    {
      WithinLine(s, start, k + 1);
      var width := Units(s[k]);
      if utf16Offset + width > position.character {
        RoundedWithin(s, position, start, k);
        return lineStart + byteOffset;
      }
      utf16Offset := utf16Offset + width;
      byteOffset := byteOffset + Width(s[k]);
      k := k + 1;
      if utf16Offset == position.character {
        RoundedAtColumn(s, position, start, k);
        return lineStart + byteOffset;
      }
    }
    RoundedWithin(s, position, start, contentEnd);
    return lineStart + byteOffset;
  }

  lemma {:induction false} RoundedAtColumn(s: string, position: Position, start: nat, k: nat)
    requires start < |s| && (start == 0 || s[start - 1] == '\n') && start <= k <= ContentEnd(s, start)
    requires Line(s, start) == position.line && Column(s, k) == position.character
    ensures Rounded(s, position) == k
  {
    if k < ContentEnd(s, start) {
      WithinLine(s, start, k + 1);
    }
    RoundedWithin(s, position, start, k);
  }

  // ------------------------------------------------------------------- results

  /** Offset to position and back is the identity on exactly the boundaries a line can address. */
  lemma {:induction false} RoundTrip(s: string, offset: nat)
    requires Length(s) < U32_LIMIT && offset <= Length(s) && IsOffset(s, offset)
    ensures Offset(s, Rounded(s, OffsetToPosition(s, offset))) == offset <==> Addressable(s, Index(s, offset))
  {
    var k := Index(s, offset);
    OffsetToPositionIsPositionAt(s, offset);
    var position := PositionAt(s, k);
    OffsetsOrdered(s, Rounded(s, position), k);
    if k < |s| {
      LineBelowCount(s, k);
    }
    if position.line < LineCount(s) {
      var r := LastAtMost(s, position, |s|);
      PositionsOrdered(s, r, k);
      PositionsOrdered(s, k, k);
    }
  }

  /** Any position, sensible or not, becomes a boundary of the text whose own position is not past it. */
  lemma {:induction false} RoundsDown(s: string, position: Position)
    ensures var k := Rounded(s, position);
            IsOffset(s, Offset(s, k)) && AtMost(PositionAt(s, k), position)
  {
    var k := Rounded(s, position);
    IndexOfOffset(s, k);
    if position.line >= LineCount(s) && s != "" && s[|s| - 1] == '\n' {
      assert Column(s, |s|) == 0;
    }
  }

  /** No addressable boundary not past the position lies behind the answer. */
  lemma {:induction false} RoundsToLast(s: string, position: Position, k: nat)
    requires k <= |s| && Addressable(s, k) && AtMost(PositionAt(s, k), position)
    ensures k <= Rounded(s, position)
  {
  }

  /** Later positions mean later offsets. */
  lemma {:induction false} Monotone(s: string, left: Position, right: Position)
    requires AtMost(left, right)
    ensures Offset(s, Rounded(s, left)) <= Offset(s, Rounded(s, right))
  {
    var k := Rounded(s, left);
    if left.line < LineCount(s) {
      RoundsToLast(s, right, k);
    }
    OffsetsIncrease(s, k, Rounded(s, right));
  }
}

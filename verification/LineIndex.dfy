/** The line index of `mux-compiler/src/source.rs`: a table of line starts, searched by bisection. */
module LineIndex {
  import opened Options
  import opened Text
  import opened TextPositions

  /** Scalar indices at which lines start, looking at the first `k` scalars. */
  function Starts(s: string, k: nat): (starts: seq<nat>)
    requires k <= |s|
    ensures |starts| == Line(s, k) + 1
  {
    if k == 0 then [0] else Starts(s, k - 1) + if s[k - 1] == '\n' then [k] else []
  }

  lemma {:induction false} LastStart(s: string, k: nat)
    requires k <= |s|
    ensures Starts(s, k)[Line(s, k)] == LineStart(s, k)
    decreases k
  {
    if k > 0 && s[k - 1] != '\n' {
      LastStart(s, k - 1);
    }
  }

  lemma {:induction false} StartsPrefix(s: string, k: nat, m: nat)
    requires k <= m <= |s|
    ensures Starts(s, k) <= Starts(s, m)
    ensures forall i :: |Starts(s, k)| <= i < |Starts(s, m)| ==> k < Starts(s, m)[i]
    decreases m
  {
    if k < m {
      StartsPrefix(s, k, m - 1);
    }
  }

  lemma {:induction false} StartsAreLineStarts(s: string, k: nat, i: nat)
    requires k <= |s| && i < |Starts(s, k)|
    ensures var start := Starts(s, k)[i]; start <= k && Line(s, start) == i && (start == 0 || s[start - 1] == '\n')
    decreases k
  {
    if k > 0 && i < |Starts(s, k - 1)| {
      StartsAreLineStarts(s, k - 1, i);
    }
  }

  /** `table` holds the byte offsets of all line starts. */
  ghost predicate IsIndex(s: string, table: seq<nat>) {
    && |table| == |Starts(s, |s|)|
    && forall i :: 0 <= i < |table| ==> Starts(s, |s|)[i] <= |s| && table[i] == Offset(s, Starts(s, |s|)[i])
  }

  /** `line_starts` */
  method LineStarts(s: string) returns (table: seq<nat>)
    ensures IsIndex(s, table)
  {
    table := [0];
    var offset := 0;
    for k := 0 to |s|
      invariant offset == Offset(s, k)
      invariant |table| == |Starts(s, k)|
      invariant forall i :: 0 <= i < |table| ==> Starts(s, k)[i] <= |s| && table[i] == Offset(s, Starts(s, k)[i])
    {
      offset := offset + Width(s[k]);
      if s[k] == '\n' {
        table := table + [offset];
      }
    }
  }

  /** Which entries of the table are at or before scalar `k`: those of its line and the lines above. */
  lemma {:induction false} EntriesUpTo(s: string, table: seq<nat>, k: nat, i: nat)
    requires IsIndex(s, table) && k <= |s| && i < |table|
    ensures table[i] <= Offset(s, k) <==> i <= Line(s, k)
  {
    StartsPrefix(s, k, |s|);
    OffsetsOrdered(s, Starts(s, |s|)[i], k);
    if i <= Line(s, k) {
      StartsAreLineStarts(s, k, i);
      assert Starts(s, |s|)[i] == Starts(s, k)[i];
    }
  }

  /** `partition_point(|&start| start <= byte)`: bisection for the first entry past `byte`. */
  method PartitionPoint(table: seq<nat>, byte: nat) returns (point: nat)
    requires forall i, j :: 0 <= i < j < |table| ==> table[i] <= table[j]
    ensures point <= |table|
    ensures forall i :: 0 <= i < |table| ==> (table[i] <= byte <==> i < point)
  {
    var low, high := 0, |table|;
    while low < high
      invariant low <= high <= |table|
      invariant forall i :: 0 <= i < low ==> table[i] <= byte
      invariant forall i :: high <= i < |table| ==> byte < table[i]
    {
      var middle := (low + high) / 2;
      if table[middle] <= byte {
        low := middle + 1;
      } else {
        high := middle;
      }
    }
    point := low;
  }

  lemma {:induction false} TableSorted(s: string, table: seq<nat>)
    requires IsIndex(s, table)
    ensures forall i, j :: 0 <= i < j < |table| ==> table[i] < table[j]
  {
    forall i, j | 0 <= i < j < |table| ensures table[i] < table[j] {
      var k := Starts(s, |s|)[j];
      StartsAreLineStarts(s, |s|, j);
      StartsAreLineStarts(s, |s|, i);
      OffsetsOrdered(s, Starts(s, |s|)[i], k);
      if k <= Starts(s, |s|)[i] {
        LinesIncrease(s, k, Starts(s, |s|)[i]);
      }
    }
  }

  /** Display width of the scalars from `start` to `k`. */
  function DisplayWidth(s: string, display: char -> nat, start: nat, k: nat): nat
    requires start <= k <= |s|
    decreases k
  {
    if start == k then 0 else DisplayWidth(s, display, start, k - 1) + display(s[k - 1])
  }

  /** It is each scalar's own width, added up over adjoining stretches. */
  lemma {:induction false} WidthsAdd(s: string, display: char -> nat, start: nat, k: nat, m: nat)
    requires start <= k <= m <= |s|
    ensures DisplayWidth(s, display, start, m) == DisplayWidth(s, display, start, k) + DisplayWidth(s, display, k, m)
    ensures m == start + 1 ==> DisplayWidth(s, display, start, m) == display(s[start])
    decreases m
  {
    if k < m {
      WidthsAdd(s, display, start, k, m - 1);
    }
  }

  lemma {:induction false} PointIsLine(s: string, table: seq<nat>, k: nat, point: nat)
    requires IsIndex(s, table) && k <= |s| && point <= |table|
    requires forall i :: 0 <= i < |table| ==> (table[i] <= Offset(s, k) <==> i < point)
    ensures point == Line(s, k) + 1
  {
    StartsPrefix(s, k, |s|);
    EntriesUpTo(s, table, k, Line(s, k));
    EntriesUpTo(s, table, k, point - 1);
  }

  /** `SourceText::line_col`; the display width of a character is a parameter. */
  method LineCol(s: string, table: seq<nat>, display: char -> nat, byte: nat) returns (line: nat, column: nat)
    requires IsIndex(s, table)
    ensures var k := Index(s, if byte < Length(s) then byte else Length(s));
            && line == Line(s, k) + 1
            && column == DisplayWidth(s, display, LineStart(s, k), k) + 1
  {
    var floor := FloorCharBoundary(s, if byte < Length(s) then byte else Length(s));
    var k := Index(s, if byte < Length(s) then byte else Length(s));
    TableSorted(s, table);
    var point := PartitionPoint(table, floor);
    PointIsLine(s, table, k, point);
    StartsPrefix(s, k, |s|);
    var lineIndex := point - 1;
    var lineStart := table[lineIndex];
    LastStart(s, k);
    assert lineStart == Offset(s, LineStart(s, k));
    IndexOfOffset(s, LineStart(s, k));
    line := lineIndex + 1;
    column := DisplayWidth(s, display, Index(s, lineStart), k) + 1;
  }

  /** The bisected line is the plainly counted one, the line that `offset_to_position` computes as well. */
  lemma {:induction false} SameLineAsPosition(s: string, byte: nat)
    requires Length(s) < U32_LIMIT
    ensures Line(s, Index(s, if byte < Length(s) then byte else Length(s))) == OffsetToPosition(s, byte).line
  {
    OffsetToPositionIsPositionAt(s, byte);
  }

  // -------------------------------------------------------------------- lines

  function StartOf(s: string, i: nat): (start: nat)
    ensures start <= |s|
  {
    if i < |Starts(s, |s|)| then
      StartsAreLineStarts(s, |s|, i);
      Starts(s, |s|)[i]
    else |s|
  }

  /** Where line `i` ends without its line ending. */
  function TextEnd(s: string, i: nat): (end: nat)
    ensures end <= |s|
  {
    var start, next := StartOf(s, i), StartOf(s, i + 1);
    if next > start && s[next - 1] == '\n' then
      if next - 1 > start && s[next - 2] == '\r' then next - 2 else next - 1
    else next
  }

  lemma {:induction false} NoNewlineInside(s: string, start: nat, m: nat)
    requires start <= m <= |s| && Line(s, m) == Line(s, start)
    ensures forall k :: start <= k < m ==> s[k] != '\n'
    decreases m
  {
    if start < m {
      LinesIncrease(s, start, m - 1);
      NoNewlineInside(s, start, m - 1);
    }
  }

  /** Between the starts of two neighbouring lines only the last scalar is a newline. */
  lemma {:induction false} NeighbouringStarts(s: string, start: nat, next: nat)
    requires 0 < next <= |s| && start <= |s|
    requires s[next - 1] == '\n' && Line(s, next) == Line(s, start) + 1
    ensures start < next
    ensures forall k :: start <= k < next - 1 ==> s[k] != '\n'
  {
    if next <= start {
      LinesIncrease(s, next, start);
    }
    assert Line(s, next - 1) == Line(s, start);
    NoNewlineInside(s, start, next - 1);
  }

  lemma {:induction false} StartOfLine(s: string, i: nat)
    requires i <= Line(s, |s|)
    ensures var start := StartOf(s, i); start <= |s| && Line(s, start) == i && (start == 0 || s[start - 1] == '\n')
  {
    StartsAreLineStarts(s, |s|, i);
  }

  lemma {:induction false} NextStart(s: string, i: nat)
    requires i <= Line(s, |s|)
    ensures i < Line(s, |s|) ==> Line(s, StartOf(s, i + 1)) == i + 1
    ensures i < Line(s, |s|) ==> StartOf(s, i + 1) > 0 && s[StartOf(s, i + 1) - 1] == '\n'
    ensures i == Line(s, |s|) ==> StartOf(s, i + 1) == |s|
  {
    if i < Line(s, |s|) {
      StartOfLine(s, i + 1);
    }
  }

  lemma {:induction false} LastLineBounds(s: string, start: nat)
    requires start <= |s| && Line(s, start) == Line(s, |s|)
    ensures NoNewline(s, start, |s|)
  {
    NoNewlineInside(s, start, |s|);
  }

  lemma {:induction false} InnerLineBounds(s: string, start: nat, next: nat)
    requires 0 < next <= |s| && start <= |s| && s[next - 1] == '\n' && Line(s, next) == Line(s, start) + 1
    ensures start < next && NoNewline(s, start, next - 1)
  {
    NeighbouringStarts(s, start, next);
  }

  /** Line `i` runs from its start to the next start; its last scalar is the newline, except on the last line. */
  lemma {:induction false} LineBounds(s: string, i: nat)
    requires i <= Line(s, |s|)
    ensures var start, next := StartOf(s, i), StartOf(s, i + 1);
            && start <= next
            && (i < Line(s, |s|) ==> start < next && s[next - 1] == '\n' && NoNewline(s, start, next - 1))
            && (i == Line(s, |s|) ==> next == |s| && NoNewline(s, start, next))
  {
    var start, next := StartOf(s, i), StartOf(s, i + 1);
    StartOfLine(s, i);
    NextStart(s, i);
    if i < Line(s, |s|) {
      InnerLineBounds(s, start, next);
    } else {
      LastLineBounds(s, start);
    }
  }

  predicate IsEnding(ending: string) {
    ending == ['\n'] || ending == ['\r', '\n']
  }

  /** The text of a line holds no newline; what follows it is a line ending, or nothing on the last line. */
  lemma {:induction false} LineShape(s: string, i: nat)
    requires i <= Line(s, |s|)
    ensures StartOf(s, i) <= TextEnd(s, i) <= StartOf(s, i + 1)
    ensures forall k :: StartOf(s, i) <= k < TextEnd(s, i) ==> s[k] != '\n'
    ensures if i < Line(s, |s|) then IsEnding(s[TextEnd(s, i)..StartOf(s, i + 1)])
            else TextEnd(s, i) == StartOf(s, i + 1)
  {
    LineBounds(s, i);
    var end, next := TextEnd(s, i), StartOf(s, i + 1);
    if i < Line(s, |s|) {
      assert s[end..next] == if end + 2 == next then ['\r', '\n'] else ['\n'];
    }
  }

  /** `Source::line_range` */
  method LineRange(s: string, table: seq<nat>, line: nat) returns (range: Option<(nat, nat)>)
    requires IsIndex(s, table)
    ensures range.None? <==> line == 0 || line > Line(s, |s|) + 1
    ensures range.Some? ==> range.value == (Offset(s, StartOf(s, line - 1)), Offset(s, TextEnd(s, line - 1)))
  {
    if line == 0 || line - 1 >= |table| {
      return None;
    }
    var index := line - 1;
    var start := table[index];
    var end := if index + 1 < |table| then table[index + 1] else Length(s);
    ghost var from, next := StartOf(s, index), StartOf(s, index + 1);
    assert start == Offset(s, from) && end == Offset(s, next);
    OffsetsOrdered(s, from, next);
    var bytes := Bytes(s);
    if end > start {
      LastByte(s, next, '\n');
      if bytes[end - 1] == '\n' as int {
        end := end - 1;
        OffsetsOrdered(s, from, next - 1);
        if end > start {
          LastByte(s, next - 1, '\r');
          if bytes[end - 1] == '\r' as int {
            end := end - 1;
          }
        }
      }
    }
    range := Some((start, end));
  }

  /** The byte before a boundary is an ASCII character exactly when that is the scalar before it. */
  lemma {:induction false} LastByte(s: string, k: nat, ascii: char)
    requires 0 < k <= |s| && ascii as int < 0x80
    ensures 0 < Offset(s, k) <= Length(s)
    ensures Bytes(s)[Offset(s, k) - 1] == ascii as int <==> s[k - 1] == ascii
  {
    OffsetsIncrease(s, k, |s|);
    IndexUnique(s, Offset(s, k) - 1, k - 1);
    AsciiByte(s, Offset(s, k) - 1, ascii);
  }

  function Slice(s: string, from: nat, to: nat): string {
    if from <= to <= |s| then s[from..to] else ""
  }

  /** Where a line starts, where its text ends, and where its ending ends. */
  datatype Cut = Cut(start: nat, end: nat, next: nat)

  /** The lines of the cuts, each followed by its ending. */
  function Reassembled(s: string, cuts: seq<Cut>): string {
    if cuts == [] then ""
    else
      var cut := cuts[|cuts| - 1];
      Reassembled(s, cuts[..|cuts| - 1]) + Slice(s, cut.start, cut.end) + Slice(s, cut.end, cut.next)
  }

  function Reach(cuts: seq<Cut>): nat {
    if cuts == [] then 0 else cuts[|cuts| - 1].next
  }

  /** Each line starts where the one before ended. */
  predicate Chained(s: string, cuts: seq<Cut>)
    decreases |cuts|
  {
    cuts == [] ||
    (var rest, cut := cuts[..|cuts| - 1], cuts[|cuts| - 1];
     Chained(s, rest) && cut.start == Reach(rest) && cut.start <= cut.end <= cut.next <= |s|)
  }

  lemma {:induction false} JoinSlices(s: string, a: nat, b: nat, c: nat)
    requires a <= b <= c <= |s|
    ensures s[..a] + Slice(s, a, b) + Slice(s, b, c) == s[..c]
  {
    assert s[..a] + s[a..b] == s[..b];
    assert s[..b] + s[b..c] == s[..c];
  }

  lemma {:induction false} ChainReassembles(s: string, cuts: seq<Cut>)
    requires Chained(s, cuts)
    ensures Reach(cuts) <= |s| && Reassembled(s, cuts) == s[..Reach(cuts)]
    decreases |cuts|
  {
    if cuts != [] {
      var cut := cuts[|cuts| - 1];
      ChainReassembles(s, cuts[..|cuts| - 1]);
      JoinSlices(s, cut.start, cut.end, cut.next);
    }
  }

  /** The first `n` lines of the index. */
  function LineCuts(s: string, n: nat): (cuts: seq<Cut>)
    ensures |cuts| == n
  {
    if n == 0 then [] else LineCuts(s, n - 1) + [Cut(StartOf(s, n - 1), TextEnd(s, n - 1), StartOf(s, n))]
  }

  lemma {:induction false} FirstStart(s: string, k: nat)
    requires k <= |s|
    ensures Starts(s, k)[0] == 0
    decreases k
  {
    if k > 0 {
      FirstStart(s, k - 1);
    }
  }

  lemma {:induction false} LineCutsChained(s: string, n: nat)
    requires n <= Line(s, |s|) + 1
    ensures Chained(s, LineCuts(s, n)) && Reach(LineCuts(s, n)) == StartOf(s, n)
    decreases n
  {
    if n == 0 {
      FirstStart(s, |s|);
    } else {
      LineCutsChained(s, n - 1);
      LineShape(s, n - 1);
      assert LineCuts(s, n)[..n - 1] == LineCuts(s, n - 1);
    }
  }

  /** All lines of the index (`line_count` of them) with their endings are the text. */
  lemma {:induction false} LinesReassemble(s: string, table: seq<nat>)
    requires IsIndex(s, table)
    ensures Reassembled(s, LineCuts(s, |table|)) == s
  {
    var n := |table|;
    LineCutsChained(s, n);
    ChainReassembles(s, LineCuts(s, n));
    assert StartOf(s, n) == |s|;
    assert s[..|s|] == s;
  }
}

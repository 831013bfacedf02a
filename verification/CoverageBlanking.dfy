/** How `extract_test_cases` of `mux-compiler/src/main.rs` blanks test declarations out of a source. */
module CoverageBlanking {
  import opened Text

  const NEWLINE: nat := 10
  const RETURN: nat := 13
  const SPACE: nat := 32

  function Spaces(n: nat): (spaces: string)
    ensures |spaces| == n && forall i :: 0 <= i < n ==> spaces[i] == ' '
  {
    if n == 0 then "" else Spaces(n - 1) + [' ']
  }

  /** Line endings stay; any other character becomes as many spaces as it has bytes. */
  function BlankCharacter(c: char): string {
    if c == '\n' || c == '\r' then [c] else Spaces(Width(c))
  }

  function BlankText(text: string): string {
    if text == "" then ""
    else BlankText(text[..|text| - 1]) + BlankCharacter(text[|text| - 1])
  }

  // ------------------------------------------------------------------ bytes

  lemma {:induction false} BytesOfOne(c: char)
    ensures Bytes([c]) == Utf8(c)
  {
    assert BytesTo([c], 0) == [];
    assert BytesTo([c], 1) == BytesTo([c], 0) + Utf8(c);
  }

  function BlankByte(byte: nat): nat {
    if byte == NEWLINE || byte == RETURN then byte else SPACE
  }

  ghost predicate BlankedAll(before: seq<nat>, after: seq<nat>) {
    |after| == |before| && forall o :: 0 <= o < |before| ==> after[o] == BlankByte(before[o])
  }

  lemma {:induction false} BlankedAppend(a: seq<nat>, blankA: seq<nat>, b: seq<nat>, blankB: seq<nat>)
    requires BlankedAll(a, blankA) && BlankedAll(b, blankB)
    ensures BlankedAll(a + b, blankA + blankB)
  {
  }

  lemma {:induction false} SpacesBytes(n: nat)
    ensures |Bytes(Spaces(n))| == n && forall o :: 0 <= o < n ==> Bytes(Spaces(n))[o] == SPACE
  {
    if n > 0 {
      SpacesBytes(n - 1);
      BytesAppend(Spaces(n - 1), [' ']);
      BytesOfOne(' ');
    }
  }

  lemma {:induction false} BlankCharacterBytes(c: char)
    ensures BlankedAll(Utf8(c), Bytes(BlankCharacter(c)))
  {
    if c == '\n' || c == '\r' {
      BytesOfOne(c);
    } else {
      SpacesBytes(Width(c));
      forall o | 0 <= o < |Utf8(c)| ensures Utf8(c)[o] != NEWLINE && Utf8(c)[o] != RETURN {
        if Width(c) == 1 {
          assert Utf8(c) == [c as int];
        }
      }
    }
  }

  lemma {:induction false} BlankOneMore(text: string, c: char)
    requires BlankedAll(Bytes(text), Bytes(BlankText(text)))
    ensures BlankedAll(Bytes(text + [c]), Bytes(BlankText(text + [c])))
  {
    BlankTextSnoc(text, c);
    BlankCharacterBytes(c);
    BytesSnoc(text, c);
    BytesAppend(BlankText(text), BlankCharacter(c));
    BlankedAppend(Bytes(text), Bytes(BlankText(text)), Utf8(c), Bytes(BlankCharacter(c)));
  }

  lemma {:induction false} BlankTextSnoc(text: string, c: char)
    ensures BlankText(text + [c]) == BlankText(text) + BlankCharacter(c)
  {
    assert (text + [c])[..|text|] == text;
  }

  /** Blanking a text blanks its bytes one by one. */
  lemma {:induction false} BlankTextBytes(text: string)
    ensures BlankedAll(Bytes(text), Bytes(BlankText(text)))
    decreases |text|
  {
    if text != "" {
      var n := |text| - 1;
      BlankTextBytes(text[..n]);
      BlankOneMore(text[..n], text[n]);
      assert text == text[..n] + [text[n]];
    }
  }

  // ------------------------------------------------------------------ ranges

  /** Ranges of test declarations: on character boundaries, in order and apart. */
  ghost predicate GoodRanges(source: string, ranges: seq<(nat, nat)>) {
    && (forall i :: 0 <= i < |ranges| ==>
          ranges[i].0 <= ranges[i].1 <= Length(source) && IsOffset(source, ranges[i].0)
          && IsOffset(source, ranges[i].1))
    && forall i, j :: 0 <= i < j < |ranges| ==> ranges[i].1 <= ranges[j].0
  }

  ghost predicate InRanges(ranges: seq<(nat, nat)>, o: nat) {
    exists i :: 0 <= i < |ranges| && ranges[i].0 <= o < ranges[i].1
  }

  /** Same bytes, except that inside the ranges all but line endings became spaces. */
  ghost predicate Blanked(before: seq<nat>, after: seq<nat>, ranges: seq<(nat, nat)>) {
    && |after| == |before|
    && forall o :: 0 <= o < |before| ==> after[o] == if InRanges(ranges, o) then BlankByte(before[o]) else before[o]
  }

  /** `replace_range` with offsets in bytes. */
  function ReplaceRange(text: string, start: nat, end: nat, replacement: string): string
    requires start <= end && IsOffset(text, start) && IsOffset(text, end)
  {
    OffsetsOrdered(text, Index(text, start), Index(text, end));
    text[..Index(text, start)] + replacement + text[Index(text, end)..]
  }

  lemma {:induction false} OffsetOfPrefix(x: string, y: string, k: nat)
    requires k <= |x|
    ensures Offset(x + y, k) == Offset(x, k)
    decreases k
  {
    if k > 0 {
      OffsetOfPrefix(x, y, k - 1);
    }
  }

  lemma {:induction false} PrefixLength(text: string, a: nat)
    requires a <= |text|
    ensures |Bytes(text[..a])| == Offset(text, a)
  {
    assert text[..a] + text[a..] == text;
    OffsetOfPrefix(text[..a], text[a..], a);
  }

  lemma {:induction false} SplitBytes(text: string, a: nat, b: nat)
    requires a <= b <= |text|
    ensures Bytes(text) == Bytes(text[..a]) + Bytes(text[a..b]) + Bytes(text[b..])
    ensures |Bytes(text[..a])| == Offset(text, a) && |Bytes(text[..a])| + |Bytes(text[a..b])| == Offset(text, b)
  {
    assert text[..a] + text[a..b] == text[..b];
    BytesAppend(text[..a], text[a..b]);
    assert text[..b] + text[b..] == text;
    BytesAppend(text[..b], text[b..]);
    PrefixLength(text, a);
    PrefixLength(text, b);
  }

  /** Blanking the scalars from `a` to `b` blanks exactly their bytes. */
  lemma {:induction false} BlankOne(text: string, a: nat, b: nat, done: seq<(nat, nat)>, original: seq<nat>)
    requires a <= b <= |text| && Blanked(original, Bytes(text), done)
    requires forall i :: 0 <= i < |done| ==> Offset(text, b) <= done[i].0
    ensures Blanked(original, Bytes(text[..a] + BlankText(text[a..b]) + text[b..]),
                    [(Offset(text, a), Offset(text, b))] + done)
  {
    var blank := BlankText(text[a..b]);
    SplitBytes(text, a, b);
    BlankTextBytes(text[a..b]);
    BytesAppend(text[..a], blank);
    BytesAppend(text[..a] + blank, text[b..]);
    var left, middle, right := Bytes(text[..a]), Bytes(text[a..b]), Bytes(text[b..]);
    var more := [(Offset(text, a), Offset(text, b))] + done;
    BlankSplice(original, left, middle, Bytes(blank), right, done, more);
  }

  lemma {:induction false} BlankSplice(original: seq<nat>, left: seq<nat>, middle: seq<nat>, blank: seq<nat>,
                                       right: seq<nat>, done: seq<(nat, nat)>, more: seq<(nat, nat)>)
    requires Blanked(original, left + middle + right, done) && BlankedAll(middle, blank)
    requires forall i :: 0 <= i < |done| ==> |left| + |middle| <= done[i].0
    requires more == [(|left|, |left| + |middle|)] + done
    ensures Blanked(original, left + blank + right, more)
  {
    forall o | 0 <= o < |original|
      ensures (left + blank + right)[o] == if InRanges(more, o) then BlankByte(original[o]) else original[o]
    {
      assert more[0] == (|left|, |left| + |middle|);
      assert forall i :: 0 <= i < |done| ==> more[i + 1] == done[i];
      assert InRanges(more, o) <==> |left| <= o < |left| + |middle| || InRanges(done, o);
      assert (left + middle + right)[o] == if InRanges(done, o) then BlankByte(original[o]) else original[o];
    }
  }

  // ------------------------------------------------------------------ the loop

  lemma {:induction false} IndexInPrefix(text: string, other: string, m: nat, k: nat)
    requires k <= m <= |text| && m <= |other| && text[..m] == other[..m]
    ensures Index(text, Offset(other, k)) == k && Offset(text, k) == Offset(other, k)
  {
    assert text[..m] + text[m..] == text && other[..m] + other[m..] == other;
    OffsetOfPrefix(text[..m], text[m..], k);
    OffsetOfPrefix(other[..m], other[m..], k);
    IndexOfOffset(text, k);
  }

  /** The ranges from the `k`th on are blanked; before `untouched` nothing has changed. */
  ghost predicate BlankedFrom(source: string, text: string, ranges: seq<(nat, nat)>, k: nat, untouched: nat) {
    && k <= |ranges| && untouched <= |source| && untouched <= |text| && text[..untouched] == source[..untouched]
    && (forall i :: 0 <= i < k ==> ranges[i].1 <= Offset(source, untouched))
    && Blanked(Bytes(source), Bytes(text), ranges[k..])
  }

  lemma {:induction false} SameOffsets(source: string, text: string, untouched: nat, offset: nat)
    requires untouched <= |source| && untouched <= |text| && text[..untouched] == source[..untouched]
    requires IsOffset(source, offset) && offset <= Offset(source, untouched)
    ensures Index(source, offset) <= untouched
    ensures Index(text, offset) == Index(source, offset) && IsOffset(text, offset)
  {
    OffsetsOrdered(source, Index(source, offset), untouched);
    IndexInPrefix(text, source, untouched, Index(source, offset));
  }

  lemma {:induction false} SameScalar(source: string, text: string, i: nat, untouched: nat)
    requires i < untouched <= |source| && untouched <= |text| && text[..untouched] == source[..untouched]
    ensures source[i] == text[i]
  {
    assert source[..untouched][i] == text[..untouched][i];
  }

  lemma {:induction false} SameText(source: string, text: string, a: nat, b: nat, untouched: nat)
    requires a <= b <= untouched <= |source| && untouched <= |text| && text[..untouched] == source[..untouched]
    ensures source[a..b] == text[a..b]
  {
    forall i | 0 <= i < b - a ensures source[a..b][i] == text[a..b][i] {
      SameScalar(source, text, a + i, untouched);
    }
  }

  lemma {:induction false} EarlierRanges(source: string, ranges: seq<(nat, nat)>, k: nat, a: nat)
    requires GoodRanges(source, ranges) && k < |ranges| && a <= |source| && ranges[k].0 == Offset(source, a)
    ensures forall i :: 0 <= i < k ==> ranges[i].1 <= Offset(source, a)
  {
  }

  lemma {:induction false} LaterRanges(source: string, ranges: seq<(nat, nat)>, k: nat, later: seq<(nat, nat)>)
    requires GoodRanges(source, ranges) && k < |ranges| && later == ranges[k + 1..]
    ensures forall i :: 0 <= i < |later| ==> ranges[k].1 <= later[i].0
    ensures ranges[k..] == [ranges[k]] + later
  {
  }

  lemma {:induction false} SplicedBytes(source: string, text: string, ranges: seq<(nat, nat)>, k: nat, a: nat, b: nat)
    requires GoodRanges(source, ranges) && k < |ranges| && a <= b <= |text|
    requires Blanked(Bytes(source), Bytes(text), ranges[k + 1..]) && ranges[k] == (Offset(text, a), Offset(text, b))
    ensures Blanked(Bytes(source), Bytes(text[..a] + BlankText(text[a..b]) + text[b..]), ranges[k..])
  {
    LaterRanges(source, ranges, k, ranges[k + 1..]);
    BlankOne(text, a, b, ranges[k + 1..], Bytes(source));
  }

  lemma {:induction false} SplicedFront(source: string, text: string, middle: string, rest: string, a: nat,
                                        untouched: nat)
    requires a <= untouched <= |source| && untouched <= |text| && text[..untouched] == source[..untouched]
    ensures a <= |text[..a] + middle + rest| && (text[..a] + middle + rest)[..a] == source[..a]
  {
    SameText(source, text, 0, a, untouched);
    assert text[..a] == text[0..a] && source[..a] == source[0..a];
    StillBefore(text, middle, rest, a);
  }

  lemma {:induction false} SplicedIsBlanked(source: string, text: string, ranges: seq<(nat, nat)>, k: nat, a: nat,
                                            b: nat, untouched: nat)
    requires GoodRanges(source, ranges) && k < |ranges| && BlankedFrom(source, text, ranges, k + 1, untouched)
    requires a <= b <= untouched && ranges[k] == (Offset(source, a), Offset(source, b))
    ensures BlankedFrom(source, text[..a] + BlankText(text[a..b]) + text[b..], ranges, k, a)
  {
    IndexInPrefix(text, source, untouched, a);
    IndexInPrefix(text, source, untouched, b);
    SplicedBytes(source, text, ranges, k, a, b);
    SplicedFront(source, text, BlankText(text[a..b]), text[b..], a, untouched);
    EarlierRanges(source, ranges, k, a);
  }

  lemma {:induction false} StillBefore(text: string, middle: string, rest: string, a: nat)
    requires a <= |text|
    ensures (text[..a] + middle + rest)[..a] == text[..a]
  {
  }

  /** One round of the loop: the offsets found in the original are still boundaries. */
  lemma {:induction false} RoundBlanks(source: string, text: string, ranges: seq<(nat, nat)>, k: nat, untouched: nat)
    requires GoodRanges(source, ranges) && k < |ranges| && BlankedFrom(source, text, ranges, k + 1, untouched)
    ensures var (start, end) := ranges[k];
            && Index(source, start) <= Index(source, end) && IsOffset(text, start) && IsOffset(text, end)
            && BlankedFrom(source, ReplaceRange(text, start, end,
                                                BlankText(source[Index(source, start)..Index(source, end)])),
                           ranges, k, Index(source, start))
  {
    var (start, end) := ranges[k];
    var a, b := Index(source, start), Index(source, end);
    OffsetsOrdered(source, a, b);
    SameOffsets(source, text, untouched, start);
    SameOffsets(source, text, untouched, end);
    SameText(source, text, a, b, untouched);
    SplicedIsBlanked(source, text, ranges, k, a, b, untouched);
  }

  /** The loop over the test ranges, last to first. */
  method BlankTests(source: string, ranges: seq<(nat, nat)>) returns (sourceWithoutTests: string)
    requires GoodRanges(source, ranges)
    ensures Blanked(Bytes(source), Bytes(sourceWithoutTests), ranges)
    ensures |Bytes(sourceWithoutTests)| == |Bytes(source)|
    ensures forall o :: 0 <= o < |Bytes(source)| ==>
              Bytes(sourceWithoutTests)[o] ==
              if InRanges(ranges, o) && Bytes(source)[o] != 10 && Bytes(source)[o] != 13 then 32 else Bytes(source)[o]
  {
    sourceWithoutTests := source;
    var k: nat := |ranges|;
    ghost var untouched: nat := |source|;
    assert source[..|source|] == source;
    while k > 0
      invariant BlankedFrom(source, sourceWithoutTests, ranges, k, untouched)
    {
      k := k - 1;
      RoundBlanks(source, sourceWithoutTests, ranges, k, untouched);
      var (start, end) := ranges[k];
      var blanked := BlankText(source[Index(source, start)..Index(source, end)]);
      sourceWithoutTests := ReplaceRange(sourceWithoutTests, start, end, blanked);
      untouched := Index(source, start);
    }
    assert ranges[0..] == ranges;
  }
}

// Source text as Unicode scalar values, with its UTF-8 bytes (RFC 3629, section
// 3) and UTF-16 lengths (RFC 2781, section 2.1).  Byte offsets are what the
// program works with; scalar indices are what the proofs work with.
module Text {
  import opened Collections

  // ------------------------------------------------------------------ encoding

  function Width(c: char): (width: nat)
    ensures 1 <= width <= 4
  {
    if c as int < 0x80 then 1 else if c as int < 0x800 then 2 else if c as int < 0x10000 then 3 else 4
  }

  function Units(c: char): (units: nat)
    ensures 1 <= units <= Width(c)
  {
    if c as int < 0x10000 then 1 else 2
  }

  /** The UTF-16 code units of a scalar, a surrogate pair from U+10000 on. */
  function Utf16(c: char): (units: seq<nat>)
    ensures |units| == Units(c)
  {
    var n := c as int;
    if n < 0x10000 then [n] else [0xD800 + (n - 0x10000) / 0x400, 0xDC00 + (n - 0x10000) % 0x400]
  }

  function Utf16Text(s: string): seq<nat> {
    if s == "" then [] else Utf16Text(s[..|s| - 1]) + Utf16(s[|s| - 1])
  }

  predicate Continuation(byte: nat) {
    0x80 <= byte < 0xC0
  }

  function Utf8(c: char): (bytes: seq<nat>)
    ensures |bytes| == Width(c)
    ensures !Continuation(bytes[0])
    ensures forall i :: 1 <= i < |bytes| ==> Continuation(bytes[i])
    ensures bytes[0] < 0x80 ==> bytes == [c as int]
    ensures c as int < 0x80 ==> bytes == [c as int]
  {
    var n := c as int;
    if n < 0x80 then [n]
    else if n < 0x800 then [0xC0 + n / 64, 0x80 + n % 64]
    else if n < 0x10000 then [0xE0 + n / 4096, 0x80 + n / 64 % 64, 0x80 + n % 64]
    else [0xF0 + n / 262144, 0x80 + n / 4096 % 64, 0x80 + n / 64 % 64, 0x80 + n % 64]
  }

  /** The bytes of the first `k` scalars. */
  function BytesTo(s: string, k: nat): (bytes: seq<nat>)
    requires k <= |s|
    ensures |bytes| == Offset(s, k)
  {
    if k == 0 then [] else BytesTo(s, k - 1) + Utf8(s[k - 1])
  }

  function Bytes(s: string): seq<nat> {
    BytesTo(s, |s|)
  }

  /** The byte offset of scalar index `k`. */
  function Offset(s: string, k: nat): (offset: nat)
    requires k <= |s|
  {
    if k == 0 then 0 else Offset(s, k - 1) + Width(s[k - 1])
  }

  function Length(s: string): nat {
    Offset(s, |s|)
  }

  lemma {:induction false} OffsetsIncrease(s: string, k: nat, m: nat)
    requires k <= m <= |s|
    ensures Offset(s, k) + (m - k) <= Offset(s, m)
    decreases m
  {
    if k < m {
      OffsetsIncrease(s, k, m - 1);
    }
  }

  lemma {:induction false} OffsetsOrdered(s: string, k: nat, m: nat)
    requires k <= |s| && m <= |s|
    ensures Offset(s, k) == Offset(s, m) <==> k == m
    ensures Offset(s, k) < Offset(s, m) <==> k < m
  {
    if k <= m {
      OffsetsIncrease(s, k, m);
    } else {
      OffsetsIncrease(s, m, k);
    }
  }

  lemma {:induction false} BytesOfPrefix(x: string, y: string, k: nat)
    requires k <= |x|
    ensures BytesTo(x + y, k) == BytesTo(x, k)
    decreases k
  {
    if k > 0 {
      BytesOfPrefix(x, y, k - 1);
    }
  }

  lemma {:induction false} BytesSnoc(text: string, c: char)
    ensures Bytes(text + [c]) == Bytes(text) + Utf8(c)
  {
    BytesOfPrefix(text, [c], |text|);
  }

  lemma {:induction false} BytesAppend(x: string, y: string)
    ensures Bytes(x + y) == Bytes(x) + Bytes(y)
    decreases |y|
  {
    if y == "" {
      assert x + y == x;
    } else {
      var n := |y| - 1;
      BytesAppend(x, y[..n]);
      assert x + y == (x + y[..n]) + [y[n]];
      BytesSnoc(x + y[..n], y[n]);
      assert y == y[..n] + [y[n]];
      BytesSnoc(y[..n], y[n]);
      Regroup(Bytes(x), Bytes(y[..n]), Utf8(y[n]));
    }
  }

  // ---------------------------------------------------------------- boundaries

  /** The scalar index at or before a byte offset. */
  function Index(s: string, offset: nat): (k: nat)
    ensures k <= |s|
    ensures Offset(s, k) <= offset
    ensures k < |s| ==> offset < Offset(s, k + 1)
  {
    IndexBelow(s, offset, |s|)
  }

  function IndexBelow(s: string, offset: nat, k: nat): (index: nat)
    requires k <= |s|
    ensures index <= k
    ensures Offset(s, index) <= offset
    ensures index < k ==> offset < Offset(s, index + 1)
  {
    if k == 0 || Offset(s, k) <= offset then k else IndexBelow(s, offset, k - 1)
  }

  /** `offset` is where some scalar starts, or the end. */
  predicate IsOffset(s: string, offset: nat) {
    Offset(s, Index(s, offset)) == offset
  }

  /** There is only one index between whose offset and the next one a byte offset lies. */
  lemma {:induction false} IndexUnique(s: string, offset: nat, k: nat)
    requires k <= |s| && Offset(s, k) <= offset && (k < |s| ==> offset < Offset(s, k + 1))
    ensures Index(s, offset) == k
  {
    var i := Index(s, offset);
    if i < k {
      OffsetsIncrease(s, i + 1, k);
    } else if k < i {
      OffsetsIncrease(s, k + 1, i);
    }
  }

  lemma {:induction false} IndexOfOffset(s: string, k: nat)
    requires k <= |s|
    ensures Index(s, Offset(s, k)) == k && IsOffset(s, Offset(s, k))
  {
    IndexUnique(s, Offset(s, k), k);
  }

  lemma {:induction false} BytesPrefix(s: string, k: nat, m: nat)
    requires k <= m <= |s|
    ensures Offset(s, k) <= Offset(s, m) && BytesTo(s, m)[..Offset(s, k)] == BytesTo(s, k)
    decreases m
  {
    if k < m {
      BytesPrefix(s, k, m - 1);
    }
  }

  lemma {:induction false} InPrefix(bytes: seq<nat>, prefix: seq<nat>, offset: nat)
    requires offset < |prefix| <= |bytes| && bytes[..|prefix|] == prefix
    ensures bytes[offset] == prefix[offset]
  {
  }

  lemma {:induction false} InSuffix(left: seq<nat>, right: seq<nat>, offset: nat)
    requires |left| <= offset < |left| + |right|
    ensures (left + right)[offset] == right[offset - |left|]
  {
  }

  /** Every byte belongs to the scalar its index names. */
  lemma {:induction false} ByteLocated(s: string, offset: nat)
    requires offset < Length(s)
    ensures var k := Index(s, offset);
            && k < |s| && offset - Offset(s, k) < Width(s[k])
            && Bytes(s)[offset] == Utf8(s[k])[offset - Offset(s, k)]
  {
    var k := Index(s, offset);
    BytesPrefix(s, k + 1, |s|);
    InPrefix(Bytes(s), BytesTo(s, k + 1), offset);
    InSuffix(BytesTo(s, k), Utf8(s[k]), offset);
  }

  /** `str::is_char_boundary`: a byte test. */
  predicate IsCharBoundary(bytes: seq<nat>, offset: nat) {
    offset == |bytes| || (offset < |bytes| && !Continuation(bytes[offset]))
  }

  /** The byte test finds exactly the offsets of scalars. */
  lemma {:induction false} BoundariesAreOffsets(s: string, offset: nat)
    requires offset <= Length(s)
    ensures IsCharBoundary(Bytes(s), offset) <==> IsOffset(s, offset)
  {
    if offset == Length(s) {
      IndexOfOffset(s, |s|);
    } else {
      ByteLocated(s, offset);
    }
  }

  lemma {:induction false} StepDown(s: string, offset: nat)
    requires offset <= Length(s) && !IsOffset(s, offset)
    ensures offset > 0 && Index(s, offset - 1) == Index(s, offset)
  {
    IndexUnique(s, offset - 1, Index(s, offset));
  }

  /** `floor_char_boundary` of both `source.rs` and `lsp.rs`. */
  method FloorCharBoundary(s: string, offset: nat) returns (floor: nat)
    requires offset <= Length(s)
    ensures floor == Offset(s, Index(s, offset))
  {
    var bytes := Bytes(s);
    floor := offset;
    BoundariesAreOffsets(s, floor);
    while !IsCharBoundary(bytes, floor)
      invariant floor <= offset && Index(s, floor) == Index(s, offset)
      invariant IsCharBoundary(bytes, floor) <==> IsOffset(s, floor)
      decreases floor
    {
      StepDown(s, floor);
      floor := floor - 1;
      BoundariesAreOffsets(s, floor);
    }
  }

  /** A byte is an ASCII character exactly where that character stands. */
  lemma {:induction false} AsciiByte(s: string, offset: nat, ascii: char)
    requires offset < Length(s) && ascii as int < 0x80
    ensures Index(s, offset) < |s|
    ensures Bytes(s)[offset] == ascii as int <==> IsOffset(s, offset) && s[Index(s, offset)] == ascii
  {
    ByteLocated(s, offset);
  }
}

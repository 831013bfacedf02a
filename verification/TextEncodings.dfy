// That the encodings of `Text` are the standard ones: decoders written from RFC 3629, section 3,
// and RFC 2781, section 2.2, read every text back.
module TextEncodings {
  import opened Options
  import opened Collections
  import opened Text

  /** The Unicode scalar with that number, if there is one. */
  function Scalar(n: nat): Option<char> {
    if n < 0xD800 || 0xE000 <= n < 0x110000 then Some(n as char) else None
  }

  // --------------------------------------------------------------------- UTF-8

  /** How many bytes a first byte announces; 0 if it cannot be one. */
  function Announced(lead: nat): nat {
    if lead < 0x80 then 1
    else if 0xC0 <= lead < 0xE0 then 2
    else if 0xE0 <= lead < 0xF0 then 3
    else if 0xF0 <= lead < 0xF8 then 4
    else 0
  }

  /** The number in the bits of a whole sequence: those of the first byte, then six of each further one. */
  function Bits(bytes: seq<nat>): nat {
    if |bytes| == 1 then bytes[0]
    else if |bytes| == 2 then bytes[0] % 32 * 64 + bytes[1] % 64
    else if |bytes| == 3 then (bytes[0] % 16 * 64 + bytes[1] % 64) * 64 + bytes[2] % 64
    else if |bytes| == 4 then ((bytes[0] % 8 * 64 + bytes[1] % 64) * 64 + bytes[2] % 64) * 64 + bytes[3] % 64
    else 0
  }

  /** The fewest bytes that hold a number. */
  function Fewest(n: nat): nat {
    if n < 0x80 then 1 else if n < 0x800 then 2 else if n < 0x10000 then 3 else 4
  }

  /** The scalar that one sequence of bytes stands for; longer sequences than need be are invalid. */
  function ScalarOf(bytes: seq<nat>): Option<char> {
    if (forall i :: 1 <= i < |bytes| ==> Continuation(bytes[i])) && |bytes| == Fewest(Bits(bytes)) then
      Scalar(Bits(bytes))
    else None
  }

  function DecodeUtf8(bytes: seq<nat>): Option<string>
    decreases |bytes|
  {
    if bytes == [] then Some("")
    else
      var width := Announced(bytes[0]);
      if width == 0 || width > |bytes| then None
      else
        var first, rest := ScalarOf(bytes[..width]), DecodeUtf8(bytes[width..]);
        if first.Some? && rest.Some? then Some([first.value] + rest.value) else None
  }

  /** A digit to base 64 and what is left. */
  lemma {:induction false} Digit64(n: nat)
    ensures n == n / 64 * 64 + n % 64 && (0x80 + n % 64) % 64 == n % 64
    ensures n / 64 / 64 == n / 4096 && n / 4096 / 64 == n / 262144
  {
  }

  lemma {:induction false} TwoBytesReadBack(n: nat)
    requires 0x80 <= n < 0x800
    ensures Bits([0xC0 + n / 64, 0x80 + n % 64]) == n
  {
    Digit64(n);
    assert n / 64 < 32;
    assert (0xC0 + n / 64) % 32 == n / 64;
  }

  lemma {:induction false} ThreeBytesReadBack(n: nat)
    requires 0x800 <= n < 0x10000
    ensures Bits([0xE0 + n / 4096, 0x80 + n / 64 % 64, 0x80 + n % 64]) == n
  {
    Digit64(n);
    Digit64(n / 64);
    assert n / 4096 < 16;
    assert (0xE0 + n / 4096) % 16 == n / 4096;
  }

  lemma {:induction false} FourBytesReadBack(n: nat)
    requires 0x10000 <= n < 0x110000
    ensures Bits([0xF0 + n / 262144, 0x80 + n / 4096 % 64, 0x80 + n / 64 % 64, 0x80 + n % 64]) == n
  {
    Digit64(n);
    Digit64(n / 64);
    Digit64(n / 4096);
    assert n / 262144 < 8;
    assert (0xF0 + n / 262144) % 8 == n / 262144;
  }

  lemma {:induction false} BitsReadBack(c: char)
    ensures Bits(Utf8(c)) == c as int
  {
    var n := c as int;
    if n < 0x80 {
    } else if n < 0x800 {
      TwoBytesReadBack(n);
    } else if n < 0x10000 {
      ThreeBytesReadBack(n);
    } else {
      FourBytesReadBack(n);
    }
  }

  lemma {:induction false} LeadAnnounces(c: char)
    ensures Announced(Utf8(c)[0]) == |Utf8(c)| && Utf8(c)[0] < 0x100
  {
  }

  lemma {:induction false} ScalarReadsBack(c: char)
    ensures Announced(Utf8(c)[0]) == |Utf8(c)| && ScalarOf(Utf8(c)) == Some(c)
    ensures forall i :: 0 <= i < |Utf8(c)| ==> Utf8(c)[i] < 0x100
  {
    BitsReadBack(c);
    LeadAnnounces(c);
  }

  lemma {:induction false} BytesFront(s: string)
    requires s != ""
    ensures Bytes(s) == Utf8(s[0]) + Bytes(s[1..])
  {
    assert s == [s[0]] + s[1..];
    BytesAppend([s[0]], s[1..]);
    BytesSnoc("", s[0]);
    assert [] + [s[0]] == [s[0]];
  }

  /** The bytes of a text are bytes, and decode to that text. */
  lemma {:induction false} Utf8ReadsBack(s: string)
    ensures DecodeUtf8(Bytes(s)) == Some(s)
    ensures forall i :: 0 <= i < |Bytes(s)| ==> Bytes(s)[i] < 0x100
    decreases |s|
  {
    if s != "" {
      var first, rest := Utf8(s[0]), Bytes(s[1..]);
      BytesFront(s);
      ScalarReadsBack(s[0]);
      Utf8ReadsBack(s[1..]);
      assert (first + rest)[..|first|] == first && (first + rest)[|first|..] == rest;
      assert [s[0]] + s[1..] == s;
    }
  }

  // -------------------------------------------------------------------- UTF-16

  predicate HighSurrogate(unit: nat) {
    0xD800 <= unit < 0xDC00
  }

  predicate LowSurrogate(unit: nat) {
    0xDC00 <= unit < 0xE000
  }

  function DecodeUtf16(units: seq<nat>): Option<string>
    decreases |units|
  {
    if units == [] then Some("")
    else if HighSurrogate(units[0]) then
      if |units| < 2 || !LowSurrogate(units[1]) then None
      else Joined(Scalar((units[0] - 0xD800) * 0x400 + (units[1] - 0xDC00) + 0x10000), DecodeUtf16(units[2..]))
    else if units[0] < 0x10000 then Joined(Scalar(units[0]), DecodeUtf16(units[1..]))
    else None
  }

  function Joined(first: Option<char>, rest: Option<string>): Option<string> {
    if first.Some? && rest.Some? then Some([first.value] + rest.value) else None
  }

  lemma {:induction false} Utf16Front(s: string)
    requires s != ""
    ensures Utf16Text(s) == Utf16(s[0]) + Utf16Text(s[1..])
    decreases |s|
  {
    var n := |s| - 1;
    if n > 0 {
      Utf16Front(s[..n]);
      assert s[..n][1..] == s[1..][..n - 1];
      Regroup(Utf16(s[0]), Utf16Text(s[1..][..n - 1]), Utf16(s[n]));
    } else {
      assert s[1..] == "" && s[..0] == "";
    }
  }

  lemma {:induction false} UnitsDecode(c: char, rest: seq<nat>)
    ensures DecodeUtf16(Utf16(c) + rest) == Joined(Some(c), DecodeUtf16(rest))
  {
    var units := Utf16(c) + rest;
    assert units[|Utf16(c)|..] == rest;
  }

  /** The code units of a text fit sixteen bits, and decode to that text. */
  lemma {:induction false} Utf16ReadsBack(s: string)
    ensures DecodeUtf16(Utf16Text(s)) == Some(s)
    ensures forall i :: 0 <= i < |Utf16Text(s)| ==> Utf16Text(s)[i] < 0x10000
    decreases |s|
  {
    if s != "" {
      Utf16Front(s);
      Utf16ReadsBack(s[1..]);
      UnitsDecode(s[0], Utf16Text(s[1..]));
      assert [s[0]] + s[1..] == s;
    }
  }
}

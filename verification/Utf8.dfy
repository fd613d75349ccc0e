/** Truncation of text to a number of bytes (src/lib/text.ts, src/worker/tool-executor.ts), over the
    encoding of sections 3 and 4 of RFC 3629. */
module Utf8 {
  import opened Wrappers

  type Scalar = c: int | 0 <= c <= 0x10FFFF && !(0xD800 <= c <= 0xDFFF)
  type Text = seq<Scalar>

  const BYTE_ORDER_MARK: Scalar := 0xFEFF
  const MARKER: Text :=
    [10, 91, 84, 79, 79, 76, 32, 79, 85, 84, 80, 85, 84, 32, 84, 82, 85, 78, 67, 65, 84, 69, 68, 93]

  // ----- The encoding -----

  /** The bits of a character in groups of six: 0x80 and the lowest group. */
  function TailOf(bits: nat): (b: Byte)
    ensures 0x80 <= b <= 0xBF && b - 0x80 == bits % 64
  {
    0x80 + bits % 64
  }

  function LeadOf(c: Scalar): Byte {
    if c < 0x80 then c
    else if c < 0x800 then 0xC0 + c / 64
    else if c < 0x10000 then 0xE0 + c / 64 / 64
    else 0xF0 + c / 64 / 64 / 64
  }

  function Width(c: Scalar): nat {
    if c < 0x80 then 1 else if c < 0x800 then 2 else if c < 0x10000 then 3 else 4
  }

  function Encode(c: Scalar): (bytes: seq<Byte>)
    ensures |bytes| == Width(c)
  {
    if c < 0x80 then [LeadOf(c)]
    else if c < 0x800 then [LeadOf(c), TailOf(c)]
    else if c < 0x10000 then [LeadOf(c), TailOf(c / 64), TailOf(c)]
    else [LeadOf(c), TailOf(c / 64 / 64), TailOf(c / 64), TailOf(c)]
  }

  function EncodeAll(text: Text): seq<Byte> {
    if text == [] then [] else Encode(text[0]) + EncodeAll(text[1..])
  }

  predicate Tail(b: Byte) {
    0x80 <= b <= 0xBF
  }

  /** The second byte's range, which leaves out overlong forms, surrogates and the end of the code space. */
  predicate Second(lead: Byte, b: Byte) {
    && Tail(b)
    && (lead == 0xE0 ==> b >= 0xA0) && (lead == 0xED ==> b <= 0x9F)
    && (lead == 0xF0 ==> b >= 0x90) && (lead == 0xF4 ==> b <= 0x8F)
  }

  /** How many bytes the lead byte announces; 0 for one that cannot lead. */
  function Announced(lead: Byte): nat {
    if lead < 0x80 then 1
    else if 0xC2 <= lead <= 0xDF then 2
    else if 0xE0 <= lead <= 0xEF then 3
    else if 0xF0 <= lead <= 0xF4 then 4
    else 0
  }

  function Assemble(width: nat, b0: int, b1: int, b2: int, b3: int): int {
    if width == 1 then b0
    else if width == 2 then (b0 - 0xC0) * 64 + (b1 - 0x80)
    else if width == 3 then (b0 - 0xE0) * 4096 + (b1 - 0x80) * 64 + (b2 - 0x80)
    else (b0 - 0xF0) * 262144 + (b1 - 0x80) * 4096 + (b2 - 0x80) * 64 + (b3 - 0x80)
  }

  /** The bytes begin with a character of n bytes, by the grammar of RFC 3629. */
  predicate WellFormed(bytes: seq<Byte>, n: nat) {
    && 1 <= n <= |bytes| && n <= 4 && n == Announced(bytes[0])
    && (n >= 2 ==> Second(bytes[0], bytes[1]))
    && (n >= 3 ==> Tail(bytes[2]))
    && (n >= 4 ==> Tail(bytes[3]))
  }

  /** The first character of the bytes and its length. */
  function DecodeOne(bytes: seq<Byte>): (r: Option<(Scalar, nat)>)
    ensures r.Some? ==> 1 <= r.value.1 <= |bytes|
  {
    if bytes == [] || !WellFormed(bytes, Announced(bytes[0])) then None
    else
      var n := Announced(bytes[0]);
      Some((Assemble(n, bytes[0], if n > 1 then bytes[1] else 0, if n > 2 then bytes[2] else 0,
                     if n > 3 then bytes[3] else 0), n))
  }

  /** A fatal decoder, before it drops a byte-order mark. */
  function Decode(bytes: seq<Byte>): Option<Text> {
    if bytes == [] then Some([])
    else
      var first := DecodeOne(bytes);
      if first.None? then None
      else
        var rest := Decode(bytes[first.value.1..]);
        if rest.None? then None else Some([first.value.0] + rest.value)
  }

  function DropMark(text: Text): Text {
    if text != [] && text[0] == BYTE_ORDER_MARK then text[1..] else text
  }

  /** TextDecoder with `fatal`: `None` is its exception. */
  function TextDecoderDecode(bytes: seq<Byte>): Option<Text> {
    var text := Decode(bytes);
    if text.None? then None else Some(DropMark(text.value))
  }

  /** The bytes of a character are well formed, announce their number, and assemble to it. */
  lemma EncodesWell(c: Scalar)
    ensures Announced(LeadOf(c)) == Width(c)
    ensures Width(c) >= 2 ==> Second(LeadOf(c), Encode(c)[1])
    ensures var e := Encode(c);
            c == Assemble(Width(c), e[0], if |e| > 1 then e[1] else 0, if |e| > 2 then e[2] else 0, if |e| > 3 then e[3] else 0)
  {
    var q, q', q'' := c / 64, c / 64 / 64, c / 64 / 64 / 64;
    assert c == 64 * q + c % 64 && q == 64 * q' + q % 64 && q' == 64 * q'' + q' % 64;
    if c >= 0x80 { SecondInRange(c); }
  }

  lemma SecondInRange(c: Scalar)
    requires c >= 0x80
    ensures Second(LeadOf(c), Encode(c)[1])
  {
    var q, q', q'' := c / 64, c / 64 / 64, c / 64 / 64 / 64;
    if 0x800 <= c < 0x10000 {
      assert q == 64 * q' + q % 64;
      if q' == 0 { assert q >= 32; }
      if q' == 13 { assert c < 0xD800 && q < 864; }
    } else if c >= 0x10000 {
      assert q' == 64 * q'' + q' % 64;
      if q'' == 0 { assert q' >= 16; }
      if q'' == 4 { assert q' <= 271; }
    }
  }

  /** A character's bytes decode to it whatever follows, and no shorter beginning of them decodes. */
  lemma DecodesOne(c: Scalar, rest: seq<Byte>)
    ensures DecodeOne(Encode(c) + rest) == Some((c, |Encode(c)|))
    ensures forall n :: 0 < n < |Encode(c)| ==> DecodeOne(Encode(c)[..n]).None?
  {
    EncodesWell(c);
    var bytes := Encode(c) + rest;
    assert bytes[0] == LeadOf(c);
    forall n | 0 < n < |Encode(c)| ensures DecodeOne(Encode(c)[..n]).None? {
      assert Encode(c)[..n][0] == LeadOf(c);
    }
  }

  // ----- Truncation -----

  /** How many whole characters fit into that many bytes. */
  function Fit(text: Text, bytes: nat): (n: nat)
    ensures n <= |text|
  {
    if text == [] || |Encode(text[0])| > bytes then 0 else 1 + Fit(text[1..], bytes - |Encode(text[0])|)
  }

  function Size(text: Text): nat {
    |EncodeAll(text)|
  }

  /** Exactly the longest prefix that fits: it fits, and one character more does not. At most three bytes
      are left over. */
  lemma {:induction false} FitIsLongest(text: Text, bytes: nat)
    ensures Size(text[..Fit(text, bytes)]) <= bytes
    ensures forall n :: Fit(text, bytes) < n <= |text| ==> Size(text[..n]) > bytes
    ensures bytes <= Size(text) ==> bytes - Size(text[..Fit(text, bytes)]) <= 3
  {
    if text != [] && |Encode(text[0])| <= bytes {
      var rest, left := text[1..], bytes - |Encode(text[0])|;
      FitIsLongest(rest, left);
      forall n | 0 < n <= |text| ensures Size(text[..n]) == |Encode(text[0])| + Size(rest[..n - 1]) {
        assert text[..n][1..] == rest[..n - 1];
      }
    } else if text != [] {
      forall n | 0 < n <= |text| ensures Size(text[..n]) > bytes {
        assert text[..n][0] == text[0];
      }
    }
  }

  lemma {:induction false} EncodeAllPrefix(text: Text, n: nat)
    requires n <= |text|
    ensures Size(text[..n]) <= Size(text) && EncodeAll(text)[..Size(text[..n])] == EncodeAll(text[..n])
  {
    if n > 0 {
      EncodeAllPrefix(text[1..], n - 1);
      assert text[..n][1..] == text[1..][..n - 1];
    }
  }

  /** Encoded text decodes to itself. */
  lemma {:induction false} DecodesAll(text: Text)
    ensures Decode(EncodeAll(text)) == Some(text)
  {
    if text != [] {
      DecodesOne(text[0], EncodeAll(text[1..]));
      assert EncodeAll(text)[|Encode(text[0])|..] == EncodeAll(text[1..]);
      DecodesAll(text[1..]);
      assert [text[0]] + text[1..] == text;
    }
  }

  /** Encoded text cut off inside a character does not decode. */
  lemma {:induction false} CutDoesNotDecode(text: Text, end: nat)
    requires Size(text[..Fit(text, end)]) < end <= Size(text)
    ensures Decode(EncodeAll(text)[..end]).None?
    decreases |text|
  {
    var first := Encode(text[0]);
    var bytes := EncodeAll(text)[..end];
    DecodesOne(text[0], EncodeAll(text[1..])[..if end < |first| then 0 else end - |first|]);
    if end < |first| {
      assert bytes == first[..end];
    } else {
      var n := Fit(text, end);
      assert text[..n][1..] == text[1..][..n - 1];
      assert bytes == first + EncodeAll(text[1..])[..end - |first|];
      assert bytes[|first|..] == EncodeAll(text[1..])[..end - |first|];
      CutDoesNotDecode(text[1..], end - |first|);
    }
  }

  /** Between two ends of characters the same prefix fits. */
  lemma FitStays(text: Text, end: nat, bytes: nat)
    requires Size(text[..Fit(text, bytes)]) <= end <= bytes
    ensures Fit(text, end) == Fit(text, bytes)
    decreases |text|
  {
    if text != [] && |Encode(text[0])| <= bytes {
      var n := Fit(text, bytes);
      assert text[..n][1..] == text[1..][..n - 1];
      FitStays(text[1..], end - |Encode(text[0])|, bytes - |Encode(text[0])|);
    }
  }

  /** What the limit leaves of so many bytes. */
  function Limit(size: nat, maxBytes: int): (limit: nat) {
    if maxBytes < 0 then 0 else Min(size, maxBytes)
  }

  /** Where the longest beginning of at most `end` bytes that decodes ends. */
  function DecodableEnd(buffer: seq<Byte>, end: nat): (best: nat)
    requires end <= |buffer|
    ensures best <= end && TextDecoderDecode(buffer[..best]).Some?
    ensures forall e :: best < e <= end ==> TextDecoderDecode(buffer[..e]).None?
  {
    if end == 0 || TextDecoderDecode(buffer[..end]).Some? then end else DecodableEnd(buffer, end - 1)
  }

  /** decodeUtf8Prefix, for any bytes: the longest beginning within the limit that decodes at all. */
  method DecodeUtf8Prefix(buffer: seq<Byte>, maxBytes: int) returns (r: Text)
    ensures Some(r) == TextDecoderDecode(buffer[..DecodableEnd(buffer, Limit(|buffer|, maxBytes))])
  {
    var end: nat := Limit(|buffer|, maxBytes);
    while end > 0
      invariant end <= |buffer|
      invariant DecodableEnd(buffer, end) == DecodableEnd(buffer, Limit(|buffer|, maxBytes))
    {
      var text := TextDecoderDecode(buffer[..end]);
      if text.Some? { return text.value; }
      end := end - 1;
    }
    return [];
  }

  /** For encoded text that beginning is the longest prefix of whole characters, less a leading
      byte-order mark, and the loop steps back at most three bytes. */
  lemma PrefixOfText(text: Text, maxBytes: int)
    ensures var bytes, limit := EncodeAll(text), Limit(Size(text), maxBytes);
            var end, prefix := DecodableEnd(bytes, limit), text[..Fit(text, limit)];
            && TextDecoderDecode(bytes[..end]) == Some(DropMark(prefix))
            && end == Size(prefix) && limit - end <= 3
  {
    var limit := Limit(Size(text), maxBytes);
    var prefix := text[..Fit(text, limit)];
    var best := Size(prefix);
    FitIsLongest(text, limit);
    EncodeAllPrefix(text, Fit(text, limit));
    DecodesAll(prefix);
    assert TextDecoderDecode(EncodeAll(text)[..best]).Some?;
    var end := DecodableEnd(EncodeAll(text), limit);
    if end > best {
      FitStays(text, end, limit);
      CutDoesNotDecode(text, end);
    }
  }

  /** truncateUtf8. */
  method TruncateUtf8(value: Text, maxBytes: int) returns (r: Text)
    ensures r == DropMark(value[..Fit(value, Limit(Size(value), maxBytes))])
  {
    r := DecodeUtf8Prefix(EncodeAll(value), maxBytes);
    PrefixOfText(value, maxBytes);
  }

  /** The prefix comes back whole exactly when it does not begin with a byte-order mark. */
  lemma WholeUnlessMarked(text: Text)
    ensures DropMark(text) == text <==> text == [] || text[0] != BYTE_ORDER_MARK
  {
  }

  lemma {:induction false} SizeOfConcat(a: Text, b: Text)
    ensures Size(a + b) == Size(a) + Size(b)
  {
    if a == [] {
      assert a + b == b;
    } else {
      SizeOfConcat(a[1..], b);
      assert (a + b)[1..] == a[1..] + b;
    }
  }

  lemma {:induction false} AsciiSize(text: Text)
    requires forall i :: 0 <= i < |text| ==> text[i] < 0x80
    ensures Size(text) == |text|
  {
    if text != [] { AsciiSize(text[1..]); }
  }

  lemma DropMarkShrinks(text: Text)
    ensures Size(DropMark(text)) <= Size(text)
  {
  }

  lemma MarkerSize()
    ensures Size(MARKER) == |MARKER| == 24
  {
    AsciiSize(MARKER);
  }

  /** A cut text behind which a marker is put. */
  lemma MarkedSize(value: Text, content: Text, marker: Text, limit: nat)
    requires limit <= Size(value) && content == DropMark(value[..Fit(value, limit)])
    ensures Size(content + marker) <= limit + Size(marker)
    ensures Size(content + marker) == Size(content) + Size(marker)
  {
    FitIsLongest(value, limit);
    DropMarkShrinks(value[..Fit(value, limit)]);
    SizeOfConcat(content, marker);
  }

  /** limitToolOutput, for its marker: short output passes unchanged. Long output is cut and marked, and
      then stays within the limit exactly when the limit leaves room for the marker. */
  method LimitToolOutput(value: Text, maxBytes: int, marker: Text) returns (r: Text)
    ensures Size(value) <= maxBytes ==> r == value
    ensures Size(value) > maxBytes ==> (Size(r) <= maxBytes <==> Size(marker) <= maxBytes)
    ensures Size(value) > maxBytes ==>
              var room := if maxBytes < Size(marker) then 0 else maxBytes - Size(marker);
              r == DropMark(value[..Fit(value, Min(Size(value), room))]) + marker
  {
    if |EncodeAll(value)| <= maxBytes { return value; }
    var contentLimit := if maxBytes < |EncodeAll(marker)| then 0 else maxBytes - |EncodeAll(marker)|;
    var content := TruncateUtf8(value, contentLimit);
    MarkedSize(value, content, marker, Min(Size(value), contentLimit));
    r := content + marker;
  }
}

/** Event file names: twelve digits, a digest, `.json`, and the order in which a directory listing sorts
    them (src/artifacts/task-journal.ts, src/workflow/journal.ts). */
module JournalNames {
  import opened Wrappers

  const SEQUENCE_DIGITS := 12
  const DIGEST_LENGTH := 64

  function Pow10(width: nat): nat {
    if width == 0 then 1 else 10 * Pow10(width - 1)
  }

  function DigitChar(d: nat): char
    requires d < 10
  {
    "0123456789"[d]
  }

  predicate IsDigit(c: char) {
    '0' <= c <= '9'
  }

  /** The number as exactly `width` decimal digits: `padStart(width, '0')` of a number that fits. */
  function Digits(n: nat, width: nat): (s: string)
    ensures |s| == width
  {
    if width == 0 then "" else Digits(n / 10, width - 1) + [DigitChar(n % 10)]
  }

  function DigitValue(c: char): nat
    requires IsDigit(c)
  {
    c as int - '0' as int
  }

  function Value(s: string): nat
    requires forall i :: 0 <= i < |s| ==> IsDigit(s[i])
  {
    if s == "" then 0 else 10 * Value(s[..|s| - 1]) + DigitValue(s[|s| - 1])
  }

  /** The order of Array.prototype.sort on strings: by code unit, a prefix first. */
  predicate Less(a: string, b: string) {
    if b == "" then false
    else if a == "" then true
    else if a[0] != b[0] then a[0] < b[0]
    else Less(a[1..], b[1..])
  }

  lemma {:induction false} LessAppend(a: string, b: string, s: string, t: string)
    requires |a| == |b| && Less(a, b)
    ensures Less(a + s, b + t)
  {
    assert (a + s)[0] == a[0] && (b + t)[0] == b[0];
    if a[0] == b[0] {
      LessAppend(a[1..], b[1..], s, t);
      assert (a + s)[1..] == a[1..] + s && (b + t)[1..] == b[1..] + t;
    }
  }

  lemma {:induction false} LessPrepend(a: string, s: string, t: string)
    requires Less(s, t)
    ensures Less(a + s, a + t)
  {
    if a == "" {
      assert a + s == s && a + t == t;
    } else {
      LessPrepend(a[1..], s, t);
      assert (a + s)[1..] == a[1..] + s && (a + t)[1..] == a[1..] + t;
    }
  }

  lemma {:induction false} LessAsymmetric(a: string, b: string)
    requires Less(a, b)
    ensures !Less(b, a) && a != b
  {
    if a != "" && a[0] == b[0] { LessAsymmetric(a[1..], b[1..]); }
  }

  /** Padded digits sort as the numbers do. */
  lemma {:induction false} DigitsSort(n: nat, m: nat, width: nat)
    requires n < m < Pow10(width)
    ensures Less(Digits(n, width), Digits(m, width))
  {
    if n / 10 < m / 10 {
      DigitsSort(n / 10, m / 10, width - 1);
      LessAppend(Digits(n / 10, width - 1), Digits(m / 10, width - 1), [DigitChar(n % 10)], [DigitChar(m % 10)]);
    } else {
      assert n / 10 == m / 10 && n % 10 < m % 10;
      LessPrepend(Digits(n / 10, width - 1), [DigitChar(n % 10)], [DigitChar(m % 10)]);
    }
  }

  lemma {:induction false} DigitsValue(n: nat, width: nat)
    requires n < Pow10(width)
    ensures forall i :: 0 <= i < width ==> IsDigit(Digits(n, width)[i])
    ensures Value(Digits(n, width)) == n
  {
    if width > 0 {
      DigitsValue(n / 10, width - 1);
      var s := Digits(n, width);
      assert s[..width - 1] == Digits(n / 10, width - 1);
    }
  }

  function Lower(c: char): char {
    if 'A' <= c <= 'Z' then (c as int + 32) as char else c
  }

  /** Letters keep their place in the alphabet, and everything else stays. */
  lemma LowerKeepsLetters(c: char)
    ensures 'A' <= c <= 'Z' ==> Lower(c) as int - 'a' as int == c as int - 'A' as int
    ensures !('A' <= c <= 'Z') ==> Lower(c) == c
  {
  }

  function LowerAll(s: string): (t: string)
    ensures |t| == |s|
  {
    seq(|s|, i requires 0 <= i < |s| => Lower(s[i]))
  }

  predicate IsHex(c: char) {
    IsDigit(c) || 'a' <= Lower(c) <= 'f'
  }

  predicate IsDigest(s: string) {
    |s| == DIGEST_LENGTH && forall i :: 0 <= i < |s| ==> IsHex(s[i]) && Lower(s[i]) == s[i]
  }

  function EventFileName(sequence: nat, sha256: string): string {
    Digits(sequence, SEQUENCE_DIGITS) + "-" + sha256 + ".json"
  }

  /** eventFilePattern, which ignores case: the sequence, and the digest in lower case. */
  function ParseName(name: string): Option<(nat, string)> {
    if && |name| == SEQUENCE_DIGITS + 1 + DIGEST_LENGTH + 5
       && (forall i :: 0 <= i < SEQUENCE_DIGITS ==> IsDigit(name[i]))
       && name[SEQUENCE_DIGITS] == '-'
       && (forall i :: SEQUENCE_DIGITS < i <= SEQUENCE_DIGITS + DIGEST_LENGTH ==> IsHex(name[i]))
       && LowerAll(name[SEQUENCE_DIGITS + 1 + DIGEST_LENGTH..]) == ".json"
    then Some((Value(name[..SEQUENCE_DIGITS]), LowerAll(name[SEQUENCE_DIGITS + 1..SEQUENCE_DIGITS + 1 + DIGEST_LENGTH])))
    else None
  }

  /** A written name is read back as what it was made from. */
  lemma NameRoundTrip(sequence: nat, sha256: string)
    requires sequence < Pow10(SEQUENCE_DIGITS) && IsDigest(sha256)
    ensures ParseName(EventFileName(sequence, sha256)) == Some((sequence, sha256))
  {
    var name, digits := EventFileName(sequence, sha256), Digits(sequence, SEQUENCE_DIGITS);
    DigitsValue(sequence, SEQUENCE_DIGITS);
    assert name[..SEQUENCE_DIGITS] == digits;
    assert forall i :: 0 <= i < SEQUENCE_DIGITS ==> name[i] == digits[i];
    assert name[SEQUENCE_DIGITS + 1..SEQUENCE_DIGITS + 1 + DIGEST_LENGTH] == sha256;
    assert LowerAll(sha256) == sha256;
    assert forall i :: 0 <= i < DIGEST_LENGTH ==> name[SEQUENCE_DIGITS + 1 + i] == sha256[i];
    forall i | SEQUENCE_DIGITS < i <= SEQUENCE_DIGITS + DIGEST_LENGTH ensures IsHex(name[i]) {
      assert name[i] == sha256[i - SEQUENCE_DIGITS - 1];
    }
    assert name[SEQUENCE_DIGITS + 1 + DIGEST_LENGTH..] == ".json";
  }

  /** Names sort by sequence, whatever their digests. */
  lemma NamesSort(i: nat, j: nat, a: string, b: string)
    requires i < j < Pow10(SEQUENCE_DIGITS)
    ensures Less(EventFileName(i, a), EventFileName(j, b))
  {
    DigitsSort(i, j, SEQUENCE_DIGITS);
    LessAppend(Digits(i, SEQUENCE_DIGITS), Digits(j, SEQUENCE_DIGITS), "-" + a + ".json", "-" + b + ".json");
    assert EventFileName(i, a) == Digits(i, SEQUENCE_DIGITS) + ("-" + a + ".json");
    assert EventFileName(j, b) == Digits(j, SEQUENCE_DIGITS) + ("-" + b + ".json");
  }

  /** A sorted directory listing. Names in a directory are distinct. */
  predicate Sorted(names: seq<string>) {
    forall i, j :: 0 <= i < j < |names| ==> Less(names[i], names[j])
  }

  predicate Lists(names: seq<string>, entries: set<string>) {
    && Sorted(names)
    && (forall name :: name in names ==> name in entries)
    && (forall name :: name in entries ==> name in names)
  }

  lemma FirstIsIn(a: seq<string>)
    requires a != []
    ensures a[0] in a
  {
  }

  /** A directory has only one sorted listing. */
  lemma {:induction false} ListingIsUnique(a: seq<string>, b: seq<string>, entries: set<string>)
    requires Lists(a, entries) && Lists(b, entries)
    ensures a == b
    decreases |a|
  {
    if a == [] {
      if b != [] { FirstIsIn(b); assert false; }
    } else {
      assert a[0] in a && a[0] in b;
      var j :| 0 <= j < |b| && b[j] == a[0];
      assert b[0] in b && b[0] in a;
      var i :| 0 <= i < |a| && a[i] == b[0];
      if i > 0 && j > 0 { LessAsymmetric(a[0], a[i]); }
      assert a[0] == b[0];
      TailLists(a, entries);
      TailLists(b, entries);
      ListingIsUnique(a[1..], b[1..], entries - {a[0]});
      assert a == [a[0]] + a[1..] && b == [b[0]] + b[1..];
    }
  }

  lemma TailLists(a: seq<string>, entries: set<string>)
    requires a != [] && Lists(a, entries)
    ensures Lists(a[1..], entries - {a[0]})
  {
    forall i | 0 < i < |a| ensures a[i] != a[0] { LessAsymmetric(a[0], a[i]); }
    assert forall name :: name in a <==> name == a[0] || name in a[1..];
  }
}

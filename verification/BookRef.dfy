/** Library-scoped book references (internal/server/bookref.go; the same decoder is repeated in
    internal/scheduler/tasks.go). */
module BookRef {
  import opened Wrappers
  import opened Base64Url

  const COLON: Byte := ':' as int
  const MAX_INT64: int := 0x7fff_ffff_ffff_ffff

  predicate IsDigit(c: Byte) {
    '0' as int <= c <= '9' as int
  }

  predicate AllDigits(s: Bytes) {
    forall i :: 0 <= i < |s| ==> IsDigit(s[i])
  }

  /** %d of a non-negative number. */
  function Digits(n: nat): (s: Bytes)
    ensures s != [] && AllDigits(s)
  {
    if n < 10 then ['0' as int + n] else Digits(n / 10) + ['0' as int + n % 10]
  }

  function Value(s: Bytes): nat
    requires AllDigits(s)
  {
    if s == [] then 0 else 10 * Value(s[..|s| - 1]) + (s[|s| - 1] - '0' as int)
  }

  /** strconv.ParseInt(s, 10, 64): optional sign, at least one digit, range of int64. */
  function ParseInt(s: Bytes): Option<int> {
    var signed := s != [] && (s[0] == '+' as int || s[0] == '-' as int);
    var digits := if signed then s[1..] else s;
    if digits == [] || !AllDigits(digits) then None
    else
      var v: int := if signed && s[0] == '-' as int then -(Value(digits) as int) else Value(digits);
      if -MAX_INT64 - 1 <= v <= MAX_INT64 then Some(v) else None
  }

  /** strings.Cut at the first colon: the position of the colon, or the length if there is none. */
  function FirstColon(s: Bytes): (k: nat)
    ensures k <= |s|
    ensures k < |s| ==> s[k] == COLON
    ensures forall i :: 0 <= i < k ==> s[i] != COLON
  {
    if s == [] || s[0] == COLON then 0 else 1 + FirstColon(s[1..])
  }

  function EncodeRef(libraryID: int, bookID: Bytes): Bytes {
    if libraryID <= 0 then bookID else Digits(libraryID) + [COLON] + Encode(bookID)
  }

  datatype Decoded = Decoded(libraryID: int, bookID: Bytes, scoped: bool)

  function DecodeRef(ref: Bytes): Decoded {
    var k := FirstColon(ref);
    if k == |ref| then Decoded(0, ref, false)
    else
      var id := ParseInt(ref[..k]);
      if id.None? || id.value <= 0 then Decoded(0, ref, false)
      else
        var raw := Decode(ref[k + 1..]);
        if raw.None? then Decoded(0, ref, false) else Decoded(id.value, raw.value, true)
  }

  lemma {:induction false} ValueOfDigits(n: nat)
    ensures Value(Digits(n)) == n
  {
    if n >= 10 {
      var s := Digits(n);
      ValueOfDigits(n / 10);
      assert s[..|s| - 1] == Digits(n / 10);
    } else {
      assert Digits(n)[..0] == [];
    }
  }

  lemma ParseOfDigits(n: nat)
    requires n <= MAX_INT64
    ensures ParseInt(Digits(n)) == Some(n)
  {
    ValueOfDigits(n);
    assert IsDigit(Digits(n)[0]);
  }

  lemma ParseUnsigned(s: Bytes)
    requires s != [] && AllDigits(s)
    ensures ParseInt(s) == if Value(s) <= 0x7fff_ffff_ffff_ffff then Some(Value(s)) else None
  {
    assert IsDigit(s[0]);
  }

  lemma ParseSigned(sign: Byte, s: Bytes)
    requires s != [] && AllDigits(s) && (sign == '+' as int || sign == '-' as int)
    ensures ParseInt([sign] + s) ==
      if sign == '+' as int then (if Value(s) <= 0x7fff_ffff_ffff_ffff then Some(Value(s)) else None)
      else (if Value(s) <= 0x8000_0000_0000_0000 then Some(-(Value(s) as int)) else None)
  {
    assert ([sign] + s)[1..] == s;
  }

  /** What ParseInt reads: a decimal number with or without a sign, if it fits in 64 bits. */
  lemma ParseIntMeans(n: nat)
    ensures ParseInt(Digits(n)) == if n <= 0x7fff_ffff_ffff_ffff then Some(n) else None
    ensures ParseInt(['+' as int] + Digits(n)) == if n <= 0x7fff_ffff_ffff_ffff then Some(n) else None
    ensures ParseInt(['-' as int] + Digits(n)) == if n <= 0x8000_0000_0000_0000 then Some(-(n as int)) else None
  {
    var s := Digits(n);
    ValueOfDigits(n);
    ParseUnsigned(s);
    ParseSigned('+' as int, s);
    ParseSigned('-' as int, s);
  }

  /** Anything else is no number: the empty text, a sign alone, and any text with another character in it. */
  lemma ParseIntRefuses(s: Bytes)
    ensures |s| == 0 || s == ['+' as int] || s == ['-' as int] ==> ParseInt(s) == None
    ensures (exists i :: 0 < i < |s| && !IsDigit(s[i])) || (s != [] && !IsDigit(s[0]) && s[0] !in {'+' as int, '-' as int}) ==> ParseInt(s) == None
  {
    if i :| 0 < i < |s| && !IsDigit(s[i]) { assert s[1..][i - 1] == s[i]; }
  }

  /** A reference has no negative library: a text that begins with a minus sign is a raw id. */
  lemma NegativeIsNoReference(text: Bytes)
    requires text != [] && text[0] == '-' as int
    ensures DecodeRef(text) == Decoded(0, text, false)
  {
    var k := FirstColon(text);
    if k > 0 { assert text[..k][0] == text[0]; }
  }

  /** Every positive library id and every byte string survive the round trip. */
  lemma DecodeInvertsEncodeRef(libraryID: int, bookID: Bytes)
    requires 0 < libraryID <= MAX_INT64
    ensures DecodeRef(EncodeRef(libraryID, bookID)) == Decoded(libraryID, bookID, true)
  {
    var left, right := Digits(libraryID), Encode(bookID);
    var ref := left + [COLON] + right;
    forall i | 0 <= i < |left| ensures left[i] != COLON { assert IsDigit(left[i]); }
    ParseOfDigits(libraryID);
    DecodeInvertsEncode(bookID);
    ReferenceIsScoped(ref, left, right);
  }

  /** Distinct pairs have distinct references. */
  lemma EncodeRefIsInjective(libraryID: int, bookID: Bytes, libraryID2: int, bookID2: Bytes)
    requires 0 < libraryID <= MAX_INT64 && 0 < libraryID2 <= MAX_INT64
    requires EncodeRef(libraryID, bookID) == EncodeRef(libraryID2, bookID2)
    ensures libraryID == libraryID2 && bookID == bookID2
  {
    DecodeInvertsEncodeRef(libraryID, bookID);
    DecodeInvertsEncodeRef(libraryID2, bookID2);
  }

  /** The text reads as a reference: up to its first colon a positive int64 in decimal, with or
      without a plus sign, and after it unpadded base64. */
  ghost predicate ReadsAsReference(text: Bytes) {
    exists left: Bytes, right: Bytes ::
      && text == left + [COLON] + right && COLON !in left
      && ParseInt(left).Some? && ParseInt(left).value > 0 && Decode(right).Some?
  }

  lemma FirstColonOf(left: Bytes, right: Bytes)
    requires COLON !in left
    ensures FirstColon(left + [COLON] + right) == |left|
  {
    var text := left + [COLON] + right;
    assert text[|left|] == COLON;
    forall i | 0 <= i < |left| ensures text[i] != COLON { assert text[i] == left[i]; }
  }

  lemma ReferenceIsScoped(text: Bytes, left: Bytes, right: Bytes)
    requires text == left + [COLON] + right && COLON !in left
    requires ParseInt(left).Some? && ParseInt(left).value > 0 && Decode(right).Some?
    ensures DecodeRef(text) == Decoded(ParseInt(left).value, Decode(right).value, true)
  {
    FirstColonOf(left, right);
    assert text[..|left|] == left && text[|left| + 1..] == right;
  }

  lemma ScopedIffReadsAsReference(text: Bytes)
    ensures DecodeRef(text).scoped <==> ReadsAsReference(text)
    ensures !DecodeRef(text).scoped ==> DecodeRef(text) == Decoded(0, text, false)
    ensures DecodeRef(text).scoped ==> DecodeRef(text).libraryID > 0
  {
    if DecodeRef(text).scoped {
      var k := FirstColon(text);
      assert text == text[..k] + [COLON] + text[k + 1..];
    } else if ReadsAsReference(text) {
      var left: Bytes, right: Bytes :|
        text == left + [COLON] + right && COLON !in left &&
        ParseInt(left).Some? && ParseInt(left).value > 0 && Decode(right).Some?;
      ReferenceIsScoped(text, left, right);
    }
  }

  /** Without a library the raw id is its own reference.  It reads back as itself exactly when it
      does not happen to read as a reference, and then the library comes back as zero. */
  lemma UnscopedRoundTripIff(libraryID: int, bookID: Bytes)
    requires libraryID <= 0
    ensures DecodeRef(EncodeRef(libraryID, bookID)) == Decoded(0, bookID, false) <==> !ReadsAsReference(bookID)
    ensures (DecodeRef(EncodeRef(libraryID, bookID)).libraryID == libraryID &&
             DecodeRef(EncodeRef(libraryID, bookID)).bookID == bookID) <==> libraryID == 0 && !ReadsAsReference(bookID)
  {
    ScopedIffReadsAsReference(bookID);
  }

  /** A raw id can read as a reference: "5:eA" is also the reference of book "x" in library 5. */
  lemma RawIdCanReadAsReference()
    ensures var raw: Bytes := ['5' as int, COLON, 'e' as int, 'A' as int];
      ReadsAsReference(raw) && EncodeRef(0, raw) == EncodeRef(5, ['x' as int])
  {
    var x: Bytes := ['x' as int];
    var raw: Bytes := ['5' as int, COLON, 'e' as int, 'A' as int];
    assert Digits(5) == ['5' as int];
    assert EncodeRef(5, x) == raw;
    DecodeInvertsEncodeRef(5, x);
    ScopedIffReadsAsReference(raw);
  }
}

/** The URL-safe base64 alphabet without padding (sections 3.2 and 5 of RFC 4648), as Go's
    base64.RawURLEncoding implements it: the decoder skips CR and LF, rejects every other byte
    outside the alphabet, and ignores the unused low bits of a partial last group. */
module Base64Url {
  import opened Wrappers

  type Byte = x: int | 0 <= x < 256 witness 0

  /** A Go string: any bytes. */
  type Bytes = seq<Byte>

  type Sextet = x: int | 0 <= x < 64 witness 0

  function Symbol(v: Sextet): Byte {
    if v < 26 then 'A' as int + v
    else if v < 52 then 'a' as int + (v - 26)
    else if v < 62 then '0' as int + (v - 52)
    else if v == 62 then '-' as int
    else '_' as int
  }

  predicate IsSymbol(c: Byte) {
    'A' as int <= c <= 'Z' as int || 'a' as int <= c <= 'z' as int || '0' as int <= c <= '9' as int ||
    c == '-' as int || c == '_' as int
  }

  function SymbolValue(c: Byte): (v: Sextet)
    requires IsSymbol(c)
    ensures Symbol(v) == c
  {
    if 'A' as int <= c <= 'Z' as int then c - 'A' as int
    else if 'a' as int <= c <= 'z' as int then c - 'a' as int + 26
    else if '0' as int <= c <= '9' as int then c - '0' as int + 52
    else if c == '-' as int then 62
    else 63
  }

  function Encode(src: Bytes): Bytes {
    if |src| == 0 then []
    else if |src| == 1 then [Symbol(src[0] / 4), Symbol((src[0] % 4) * 16)]
    else if |src| == 2 then [Symbol(src[0] / 4), Symbol((src[0] % 4) * 16 + src[1] / 16), Symbol((src[1] % 16) * 4)]
    else
      [Symbol(src[0] / 4), Symbol((src[0] % 4) * 16 + src[1] / 16),
       Symbol((src[1] % 16) * 4 + src[2] / 64), Symbol(src[2] % 64)] + Encode(src[3..])
  }

  predicate IsNewline(c: Byte) {
    c == 10 || c == 13
  }

  function Strip(s: Bytes): Bytes {
    if s == [] then [] else (if IsNewline(s[0]) then [] else [s[0]]) + Strip(s[1..])
  }

  function Decode(s: Bytes): Option<Bytes> {
    var t := Strip(s);
    if forall i :: 0 <= i < |t| ==> IsSymbol(t[i]) then DecodeGroups(t) else None
  }

  /** The three bytes carried by four sextets. */
  function Packed(v0: Sextet, v1: Sextet, v2: Sextet, v3: Sextet): Bytes {
    [v0 * 4 + v1 / 16, (v1 % 16) * 16 + v2 / 4, (v2 % 4) * 64 + v3]
  }

  function DecodeGroups(t: Bytes): Option<Bytes>
    requires forall i :: 0 <= i < |t| ==> IsSymbol(t[i])
  {
    if |t| == 0 then Some([])
    else if |t| == 1 then None
    else
      var v0, v1 := SymbolValue(t[0]), SymbolValue(t[1]);
      var a: Byte := v0 * 4 + v1 / 16;
      if |t| == 2 then Some([a])
      else
        var v2 := SymbolValue(t[2]);
        var b: Byte := (v1 % 16) * 16 + v2 / 4;
        if |t| == 3 then Some([a, b])
        else
          match DecodeGroups(t[4..])
          case None => None
          case Some(rest) => Some(Packed(v0, v1, v2, SymbolValue(t[3])) + rest)
  }

  lemma SymbolInverse(v: Sextet)
    ensures IsSymbol(Symbol(v)) && SymbolValue(Symbol(v)) == v && !IsNewline(Symbol(v))
  {
  }

  lemma {:induction false} StripSymbols(t: Bytes)
    requires forall i :: 0 <= i < |t| ==> IsSymbol(t[i])
    ensures Strip(t) == t
  {
    if t != [] {
      StripSymbols(t[1..]);
      assert t == [t[0]] + t[1..];
    }
  }

  lemma GroupStep(t: Bytes, rest: Bytes)
    requires |t| == |rest| + 4 && t[4..] == rest && forall i :: 0 <= i < |t| ==> IsSymbol(t[i])
    ensures forall i :: 0 <= i < |rest| ==> IsSymbol(rest[i])
    ensures DecodeGroups(rest).Some? ==>
              DecodeGroups(t) == Some(Packed(SymbolValue(t[0]), SymbolValue(t[1]), SymbolValue(t[2]), SymbolValue(t[3])) + DecodeGroups(rest).value)
  {
    forall i | 0 <= i < |rest| ensures IsSymbol(rest[i]) { assert t[i + 4] == rest[i]; }
  }

  lemma FullGroup(v0: Sextet, v1: Sextet, v2: Sextet, v3: Sextet, rest: Bytes)
    requires forall i :: 0 <= i < |rest| ==> IsSymbol(rest[i])
    ensures var t := [Symbol(v0), Symbol(v1), Symbol(v2), Symbol(v3)] + rest;
      && (forall i :: 0 <= i < |t| ==> IsSymbol(t[i]))
      && (DecodeGroups(rest).Some? ==> DecodeGroups(t) == Some(Packed(v0, v1, v2, v3) + DecodeGroups(rest).value))
  {
    var t := [Symbol(v0), Symbol(v1), Symbol(v2), Symbol(v3)] + rest;
    SymbolInverse(v0); SymbolInverse(v1); SymbolInverse(v2); SymbolInverse(v3);
    forall i | 4 <= i < |t| ensures t[i] == rest[i - 4] {}
    assert t[4..] == rest;
    GroupStep(t, rest);
  }

  lemma RepackedThird(b: Byte, c: Byte)
    ensures (((b % 16) * 4 + c / 64) % 4) * 64 + c % 64 == c
  {
  }

  lemma Repacked(a: Byte, b: Byte, c: Byte)
    ensures Packed(a / 4, (a % 4) * 16 + b / 16, (b % 16) * 4 + c / 64, c % 64) == [a, b, c]
  {
    RepackedTwo(a, b);
    RepackedSecond(b, c);
    RepackedThird(b, c);
  }

  lemma RepackedSecond(b: Byte, c: Byte)
    ensures ((b % 16) * 4 + c / 64) / 4 == b % 16
  {
  }

  lemma RepackedTwo(a: Byte, b: Byte)
    ensures (a / 4) * 4 + ((a % 4) * 16 + b / 16) / 16 == a
    ensures (((a % 4) * 16 + b / 16) % 16) * 16 + ((b % 16) * 4) / 4 == b
  {
  }

  lemma LastTwo(a: Byte, b: Byte)
    ensures var e := Encode([a, b]); (forall i :: 0 <= i < |e| ==> IsSymbol(e[i])) && DecodeGroups(e) == Some([a, b])
  {
    SymbolInverse(a / 4);
    SymbolInverse((a % 4) * 16 + b / 16);
    SymbolInverse((b % 16) * 4);
    RepackedTwo(a, b);
  }

  lemma LastOne(a: Byte)
    ensures var e := Encode([a]); (forall i :: 0 <= i < |e| ==> IsSymbol(e[i])) && DecodeGroups(e) == Some([a])
  {
    SymbolInverse(a / 4);
    SymbolInverse((a % 4) * 16);
  }

  /** What it means that src survives encoding and decoding group by group. */
  predicate Survives(src: Bytes) {
    (forall i :: 0 <= i < |Encode(src)| ==> IsSymbol(Encode(src)[i])) && DecodeGroups(Encode(src)) == Some(src)
  }

  lemma EncodeThree(a: Byte, b: Byte, c: Byte, rest: Bytes)
    ensures Encode([a, b, c] + rest) ==
            [Symbol(a / 4), Symbol((a % 4) * 16 + b / 16), Symbol((b % 16) * 4 + c / 64), Symbol(c % 64)] + Encode(rest)
  {
    var src := [a, b, c] + rest;
    assert src[0] == a && src[1] == b && src[2] == c && src[3..] == rest;
  }

  lemma ThreeMore(a: Byte, b: Byte, c: Byte, rest: Bytes)
    requires Survives(rest)
    ensures Survives([a, b, c] + rest)
  {
    FullGroup(a / 4, (a % 4) * 16 + b / 16, (b % 16) * 4 + c / 64, c % 64, Encode(rest));
    Repacked(a, b, c);
    EncodeThree(a, b, c, rest);
  }

  lemma {:induction false} GroupsInvertEncode(src: Bytes)
    ensures Survives(src)
  {
    if |src| == 1 {
      assert src == [src[0]];
      LastOne(src[0]);
    } else if |src| == 2 {
      assert src == [src[0], src[1]];
      LastTwo(src[0], src[1]);
    } else if |src| > 2 {
      GroupsInvertEncode(src[3..]);
      assert src == [src[0], src[1], src[2]] + src[3..];
      ThreeMore(src[0], src[1], src[2], src[3..]);
    }
  }

  lemma DecodeInvertsEncode(src: Bytes)
    ensures Decode(Encode(src)) == Some(src)
  {
    GroupsInvertEncode(src);
    StripSymbols(Encode(src));
  }
}

/** `URI.encode_www_form_component`: the city is taken as its UTF-8 bytes and
    each byte is written out by the application/x-www-form-urlencoded byte
    serializer of section 5 of the WHATWG URL Standard. `*`, `-`, `.`, `_`,
    digits and ASCII letters stand for themselves, the space byte becomes
    `+` and every other byte becomes `%` and two upper-case hex digits.
    A strict decoder is the partner: on bytes and on strings alike it
    accepts exactly the encoder's outputs and gives back what was encoded. */
module FormEncoding {
  import opened Strings

  type Byte = b: int | 0 <= b < 256

  // ---------------------------------------------------------------------
  // UTF-8, the byte view of a Ruby string in its default encoding

  predicate IsScalar(n: int) {
    0 <= n < 0xD800 || 0xE000 <= n < 0x11_0000
  }

  predicate IsContinuation(b: Byte) {
    0x80 <= b < 0xC0
  }

  /** The UTF-8 bytes of one character. */
  function CharBytes(c: char): (bs: seq<Byte>)
    ensures 1 <= |bs| <= 4
  {
    var n := c as int;
    var q1 := n / 64;
    var q2 := q1 / 64;
    var q3 := q2 / 64;
    if n < 0x80 then [n]
    else if n < 0x800 then [0xC0 + q1, 0x80 + n % 64]
    else if n < 0x1_0000 then [0xE0 + q2, 0x80 + q1 % 64, 0x80 + n % 64]
    else [0xF0 + q3, 0x80 + q2 % 64, 0x80 + q1 % 64, 0x80 + n % 64]
  }

  function Utf8Encode(s: string): seq<Byte>
  {
    if s == [] then [] else CharBytes(s[0]) + Utf8Encode(s[1..])
  }

  function Cont(b: Byte): nat
    requires IsContinuation(b)
  {
    b - 0x80
  }

  /** Decodes the first character of `bs` and says how many bytes it took.
      Overlong forms, surrogates and values above U+10FFFF are rejected, so
      only the shortest encoding of a character is accepted. */
  function DecodeFirst(bs: seq<Byte>): (r: Option<(char, nat)>)
    requires bs != []
    ensures r.Some? ==> 1 <= r.value.1 <= |bs|
  {
    var b0 := bs[0];
    if b0 < 0x80 then Some((b0 as char, 1))
    else if 0xC0 <= b0 < 0xE0 && |bs| >= 2 && IsContinuation(bs[1]) then
      var v := (b0 - 0xC0) * 64 + Cont(bs[1]);
      if 0x80 <= v && IsScalar(v) then Some((v as char, 2)) else None
    else if 0xE0 <= b0 < 0xF0 && |bs| >= 3 && IsContinuation(bs[1]) && IsContinuation(bs[2]) then
      var v := ((b0 - 0xE0) * 64 + Cont(bs[1])) * 64 + Cont(bs[2]);
      if 0x800 <= v && IsScalar(v) then Some((v as char, 3)) else None
    else if 0xF0 <= b0 < 0xF8 && |bs| >= 4 && IsContinuation(bs[1]) && IsContinuation(bs[2])
         && IsContinuation(bs[3]) then
      var v := (((b0 - 0xF0) * 64 + Cont(bs[1])) * 64 + Cont(bs[2])) * 64 + Cont(bs[3]);
      if 0x1_0000 <= v && IsScalar(v) then Some((v as char, 4)) else None
    else None
  }

  function Utf8Decode(bs: seq<Byte>): Option<string>
    decreases |bs|
  {
    if bs == [] then Some("")
    else
      match DecodeFirst(bs)
      case None => None
      case Some((c, k)) =>
        match Utf8Decode(bs[k..])
        case None => None
        case Some(s) => Some([c] + s)
  }

  lemma DecodeFirstChar(c: char, rest: seq<Byte>)
    ensures DecodeFirst(CharBytes(c) + rest) == Some((c, |CharBytes(c)|))
  {
    var n := c as int;
    var bs := CharBytes(c) + rest;
    var q1 := n / 64;
    var q2 := q1 / 64;
    var q3 := q2 / 64;
    assert n == q1 * 64 + n % 64 && q1 == q2 * 64 + q1 % 64 && q2 == q3 * 64 + q2 % 64;
    if n < 0x80 {
    } else if n < 0x800 {
      assert bs[0] == 0xC0 + q1 && bs[1] == 0x80 + n % 64;
    } else if n < 0x1_0000 {
      assert bs[0] == 0xE0 + q2 && bs[1] == 0x80 + q1 % 64 && bs[2] == 0x80 + n % 64;
    } else {
      assert bs[0] == 0xF0 + q3 && bs[1] == 0x80 + q2 % 64 && bs[2] == 0x80 + q1 % 64;
      assert bs[3] == 0x80 + n % 64;
    }
  }

  /** Decoding the UTF-8 bytes of a string gives the string back. */
  lemma {:induction false} Utf8RoundTrip(s: string)
    ensures Utf8Decode(Utf8Encode(s)) == Some(s)
  {
    if s != [] {
      var head := CharBytes(s[0]);
      var bs := Utf8Encode(s);
      DecodeFirstChar(s[0], Utf8Encode(s[1..]));
      assert bs[|head|..] == Utf8Encode(s[1..]);
      Utf8RoundTrip(s[1..]);
      assert [s[0]] + s[1..] == s;
    }
  }

  lemma DivMod64(a: nat, r: nat)
    requires r < 64
    ensures (a * 64 + r) / 64 == a && (a * 64 + r) % 64 == r
  {
  }

  /** The bytes a decoded character took are that character's UTF-8 bytes. */
  lemma DecodeFirstBytes(bs: seq<Byte>, c: char, k: nat)
    requires bs != [] && DecodeFirst(bs) == Some((c, k))
    ensures CharBytes(c) == bs[..k]
  {
    var b0 := bs[0];
    if b0 < 0x80 {
    } else if 0xC0 <= b0 < 0xE0 {
      DivMod64(b0 - 0xC0, Cont(bs[1]));
    } else if 0xE0 <= b0 < 0xF0 {
      var q1 := (b0 - 0xE0) * 64 + Cont(bs[1]);
      DivMod64(q1, Cont(bs[2]));
      DivMod64(b0 - 0xE0, Cont(bs[1]));
    } else {
      var q2 := (b0 - 0xF0) * 64 + Cont(bs[1]);
      var q1 := q2 * 64 + Cont(bs[2]);
      DivMod64(q1, Cont(bs[3]));
      DivMod64(q2, Cont(bs[2]));
      DivMod64(b0 - 0xF0, Cont(bs[1]));
    }
  }

  /** One step of an accepted decoding: the first character, then the rest. */
  lemma Utf8DecodeStep(bs: seq<Byte>) returns (c: char, k: nat, rest: string)
    requires bs != [] && Utf8Decode(bs).Some?
    ensures 1 <= k <= |bs| && DecodeFirst(bs) == Some((c, k))
    ensures Utf8Decode(bs[k..]) == Some(rest)
    ensures Utf8Decode(bs).value == [c] + rest
  {
    c, k := DecodeFirst(bs).value.0, DecodeFirst(bs).value.1;
    rest := Utf8Decode(bs[k..]).value;
  }

  /** A character's bytes in front of the encoding of the rest encode both. */
  lemma EncodeJoin(bs: seq<Byte>, k: nat, c: char, rest: string)
    requires k <= |bs| && CharBytes(c) == bs[..k] && Utf8Encode(rest) == bs[k..]
    ensures Utf8Encode([c] + rest) == bs
  {
    assert ([c] + rest)[0] == c && ([c] + rest)[1..] == rest;
    assert bs == bs[..k] + bs[k..];
  }

  /** Whatever the UTF-8 decoder accepts is the encoding of what it returns. */
  lemma {:induction false} Utf8DecodeSound(bs: seq<Byte>, s: string)
    requires Utf8Decode(bs) == Some(s)
    ensures Utf8Encode(s) == bs
    decreases |bs|
  {
    if bs != [] {
      var c, k, rest := Utf8DecodeStep(bs);
      DecodeFirstBytes(bs, c, k);
      Utf8DecodeSound(bs[k..], rest);
      EncodeJoin(bs, k, c, rest);
    }
  }

  // ---------------------------------------------------------------------
  // The urlencoded byte serializer

  /** The bytes that the serializer leaves as they are. */
  predicate Unreserved(b: Byte) {
    b == 0x2A || b == 0x2D || b == 0x2E || 0x30 <= b <= 0x39 || 0x41 <= b <= 0x5A
    || b == 0x5F || 0x61 <= b <= 0x7A
  }

  /** The characters an encoded component is made of: `[*-._0-9A-Za-z+%]`. */
  predicate InEncodedAlphabet(c: char) {
    c == '*' || c == '-' || c == '.' || c == '_' || '0' <= c <= '9' || 'A' <= c <= 'Z'
    || 'a' <= c <= 'z' || c == '+' || c == '%'
  }

  predicate IsHexDigit(c: char) {
    '0' <= c <= '9' || 'A' <= c <= 'F'
  }

  function HexDigit(d: nat): (c: char)
    requires d < 16
    ensures IsHexDigit(c)
  {
    if d < 10 then ('0' as int + d) as char else ('A' as int + d - 10) as char
  }

  function HexValue(c: char): (d: nat)
    requires IsHexDigit(c)
    ensures d < 16
  {
    if c <= '9' then c as int - '0' as int else c as int - 'A' as int + 10
  }

  function EncodeByte(b: Byte): string {
    if Unreserved(b) then [b as char]
    else if b == 0x20 then "+"
    else ['%', HexDigit(b / 16), HexDigit(b % 16)]
  }

  function EncodeBytes(bs: seq<Byte>): (r: string)
    ensures forall i :: 0 <= i < |r| ==> InEncodedAlphabet(r[i])
  {
    if bs == [] then "" else EncodeByte(bs[0]) + EncodeBytes(bs[1..])
  }

  /** `URI.encode_www_form_component(s)` */
  function EncodeComponent(s: string): string {
    EncodeBytes(Utf8Encode(s))
  }

  function Prepend(b: Byte, r: Option<seq<Byte>>): Option<seq<Byte>> {
    match r
    case None => None
    case Some(bs) => Some([b] + bs)
  }

  /** The inverse of EncodeBytes: `+` is the space byte, `%XX` a byte the
      serializer would escape, an alphabet character an unreserved byte;
      anything else is not an encoder output. */
  function DecodeBytes(e: string): Option<seq<Byte>>
    decreases |e|
  {
    if e == [] then Some([])
    else if e[0] == '+' then Prepend(0x20, DecodeBytes(e[1..]))
    else if e[0] == '%' then
      if |e| >= 3 && IsHexDigit(e[1]) && IsHexDigit(e[2]) then
        var b := HexValue(e[1]) * 16 + HexValue(e[2]);
        if !Unreserved(b) && b != 0x20 then Prepend(b, DecodeBytes(e[3..])) else None
      else None
    else if e[0] as int < 256 && Unreserved(e[0] as int) then Prepend(e[0] as int, DecodeBytes(e[1..]))
    else None
  }

  function DecodeComponent(e: string): Option<string> {
    match DecodeBytes(e)
    case None => None
    case Some(bs) => Utf8Decode(bs)
  }

  lemma DecodeByteAhead(b: Byte, rest: string)
    ensures DecodeBytes(EncodeByte(b) + rest) == Prepend(b, DecodeBytes(rest))
  {
    var e := EncodeByte(b) + rest;
    if Unreserved(b) {
      assert e[0] == b as char && e[1..] == rest;
    } else if b == 0x20 {
      assert e[0] == '+' && e[1..] == rest;
    } else {
      assert e[0] == '%' && e[1] == HexDigit(b / 16) && e[2] == HexDigit(b % 16) && e[3..] == rest;
      assert HexValue(HexDigit(b / 16)) == b / 16 && HexValue(HexDigit(b % 16)) == b % 16;
    }
  }

  /** Decoding an encoded byte string gives the bytes back. */
  lemma {:induction false} DecodeEncodeBytes(bs: seq<Byte>)
    ensures DecodeBytes(EncodeBytes(bs)) == Some(bs)
  {
    if bs != [] {
      DecodeByteAhead(bs[0], EncodeBytes(bs[1..]));
      DecodeEncodeBytes(bs[1..]);
      assert [bs[0]] + bs[1..] == bs;
    }
  }

  /** The first token of an accepted string is the encoding of one byte. */
  lemma DecodeHead(e: string) returns (b: Byte, k: nat)
    requires e != [] && DecodeBytes(e).Some?
    ensures 1 <= k <= |e| && EncodeByte(b) == e[..k]
    ensures DecodeBytes(e[k..]).Some?
    ensures DecodeBytes(e) == Prepend(b, DecodeBytes(e[k..]))
  {
    if e[0] == '+' {
      b, k := 0x20, 1;
    } else if e[0] == '%' {
      b, k := HexValue(e[1]) * 16 + HexValue(e[2]), 3;
      assert HexDigit(b / 16) == e[1] && HexDigit(b % 16) == e[2];
    } else {
      b, k := e[0] as int, 1;
      assert (b as char) == e[0];
    }
  }

  /** Whatever the decoder accepts is the encoding of what it returns, so the
      encoder's outputs are exactly the strings the decoder accepts. */
  lemma {:induction false} EncodeDecodeBytes(e: string, bs: seq<Byte>)
    requires DecodeBytes(e) == Some(bs)
    ensures EncodeBytes(bs) == e
    decreases |e|
  {
    if e != [] {
      var b, k := DecodeHead(e);
      var rest := DecodeBytes(e[k..]).value;
      EncodeDecodeBytes(e[k..], rest);
      assert bs == [b] + rest && bs[1..] == rest;
      assert e == e[..k] + e[k..];
    }
  }

  lemma EncodedBytesIff(e: string, bs: seq<Byte>)
    ensures DecodeBytes(e) == Some(bs) <==> EncodeBytes(bs) == e
  {
    if DecodeBytes(e) == Some(bs) {
      EncodeDecodeBytes(e, bs);
    }
    if EncodeBytes(bs) == e {
      DecodeEncodeBytes(bs);
    }
  }

  /** URI.encode_www_form_component: the result uses only `[*-._0-9A-Za-z+%]`,
      never a space, and decodes to the original string. */
  lemma EncodeComponentRoundTrip(s: string)
    ensures forall i :: 0 <= i < |EncodeComponent(s)| ==> InEncodedAlphabet(EncodeComponent(s)[i])
    ensures ' ' !in EncodeComponent(s)
    ensures DecodeComponent(EncodeComponent(s)) == Some(s)
  {
    DecodeEncodeBytes(Utf8Encode(s));
    Utf8RoundTrip(s);
  }

  /** The strict decoder accepts `e` and gives `s` exactly when `e` is the
      encoding of `s`. */
  lemma EncodedComponentIff(e: string, s: string)
    ensures DecodeComponent(e) == Some(s) <==> EncodeComponent(s) == e
  {
    if DecodeComponent(e) == Some(s) {
      var bs := DecodeBytes(e).value;
      Utf8DecodeSound(bs, s);
      EncodedBytesIff(e, bs);
    }
    if EncodeComponent(s) == e {
      EncodeComponentRoundTrip(s);
    }
  }

  /** The overlong two-byte form of U+0000 is not an encoder output. */
  lemma OverlongRejected()
    ensures DecodeComponent("%C0%80") == None
  {
    var e := "%C0%80";
    assert HexValue('C') == 12 && HexValue('8') == 8 && HexValue('0') == 0;
    var t := "%80";
    assert t[0] == '%' && t[1] == '8' && t[2] == '0' && |t| == 3;
    assert DecodeBytes(t[3..]) == Some([]);
    assert DecodeBytes(t) == Prepend(0x80, Some([]));
    assert e[0] == '%' && e[1] == 'C' && e[2] == '0' && e[3..] == t;
    assert DecodeBytes(e) == Prepend(0xC0, DecodeBytes(t));
    var bs := DecodeBytes(e).value;
    assert |bs| == 2 && bs[0] == 0xC0 && bs[1] == 0x80;
    assert DecodeFirst(bs) == None;
  }

  /** A space becomes `+`, an unreserved ASCII character stays, and any other
      byte `b` becomes `%` with its two upper-case hex digits. */
  lemma EncodeAsciiChar(c: char)
    requires c as int < 0x80
    ensures c == ' ' ==> EncodeComponent([c]) == "+"
    ensures Unreserved(c as int) ==> EncodeComponent([c]) == [c]
    ensures !Unreserved(c as int) && c != ' ' ==>
      EncodeComponent([c]) == ['%', HexDigit(c as int / 16), HexDigit(c as int % 16)]
  {
    assert Utf8Encode([c]) == [c as int];
    assert EncodeComponent([c]) == EncodeByte(c as int) + EncodeBytes([]);
  }
}

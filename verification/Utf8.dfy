/** UTF-8 as defined in RFC 3629: section 3 gives the encoding of one character, section 4
    the byte sequences that are well formed. */
module Utf8 {
  import opened Basics

  /** A Unicode scalar value. */
  newtype Char = c: int | 0 <= c < 0xD800 || 0xE000 <= c < 0x11_0000

  function Encode(ch: Char): (r: seq<byte>)
    ensures 1 <= |r| <= 4
  {
    var c := ch as int;
    if c < 0x80 then [c as byte]
    else if c < 0x800 then [(0xC0 + c / 64) as byte, (0x80 + c % 64) as byte]
    else if c < 0x1_0000 then [(0xE0 + c / 4096) as byte, (0x80 + c / 64 % 64) as byte, (0x80 + c % 64) as byte]
    else [(0xF0 + c / 262144) as byte, (0x80 + c / 4096 % 64) as byte,
          (0x80 + c / 64 % 64) as byte, (0x80 + c % 64) as byte]
  }

  function EncodeAll(text: seq<Char>): seq<byte> {
    if text == [] then [] else Encode(text[0]) + EncodeAll(text[1..])
  }

  predicate Tail(s: seq<byte>, i: nat) { i < |s| && 0x80 <= s[i] <= 0xBF }

  /** The length of the well-formed character s begins with, 0 if there is none. */
  function CharLen(s: seq<byte>): (n: nat)
    ensures n <= 4 && n <= |s|
  {
    if s == [] then 0
    else if s[0] <= 0x7F then 1
    else if 0xC2 <= s[0] <= 0xDF then if Tail(s, 1) then 2 else 0
    else if 0xE0 <= s[0] <= 0xEF then
      if Tail(s, 1) && Tail(s, 2) && (s[0] == 0xE0 ==> s[1] >= 0xA0) && (s[0] == 0xED ==> s[1] <= 0x9F) then 3 else 0
    else if 0xF0 <= s[0] <= 0xF4 then
      if Tail(s, 1) && Tail(s, 2) && Tail(s, 3)
         && (s[0] == 0xF0 ==> s[1] >= 0x90) && (s[0] == 0xF4 ==> s[1] <= 0x8F) then 4 else 0
    else 0
  }

  /** The bytes are a sequence of well-formed characters. */
  predicate Valid(s: seq<byte>) {
    s == [] || (CharLen(s) > 0 && Valid(s[CharLen(s)..]))
  }

  function Decode(s: seq<byte>): Char
    requires CharLen(s) > 0
  {
    var n := CharLen(s);
    if n == 1 then s[0] as Char
    else if n == 2 then ((s[0] as int - 0xC0) * 64 + (s[1] as int - 0x80)) as Char
    else if n == 3 then
      ((s[0] as int - 0xE0) * 4096 + (s[1] as int - 0x80) * 64 + (s[2] as int - 0x80)) as Char
    else
      ((s[0] as int - 0xF0) * 262144 + (s[1] as int - 0x80) * 4096
       + (s[2] as int - 0x80) * 64 + (s[3] as int - 0x80)) as Char
  }

  function DecodeAll(s: seq<byte>): seq<Char>
    requires Valid(s)
  {
    if s == [] then [] else [Decode(s)] + DecodeAll(s[CharLen(s)..])
  }

  /** c in base 64. */
  lemma Base64(c: nat)
    ensures c == c / 64 * 64 + c % 64
    ensures c / 64 == c / 4096 * 64 + c / 64 % 64
    ensures c / 4096 == c / 262144 * 64 + c / 4096 % 64
  {
  }

  /** An encoded character is read back, whatever follows it. */
  lemma DecodeEncode(ch: Char, rest: seq<byte>)
    ensures CharLen(Encode(ch) + rest) == |Encode(ch)| && Decode(Encode(ch) + rest) == ch
  {
    var c := ch as int;
    var e, s := Encode(ch), Encode(ch) + rest;
    assert forall i | 0 <= i < |e| :: s[i] == e[i];
    Base64(c);
    if c < 0x80 {
    } else if c < 0x800 {
      assert |e| == 2;
    } else if c < 0x1_0000 {
      assert |e| == 3;
      assert c / 4096 == 0 ==> c / 64 % 64 >= 0x20;
      assert c / 4096 == 0xD ==> c / 64 % 64 <= 0x1F;
    } else {
      assert |e| == 4;
      assert c / 262144 == 0 ==> c / 4096 % 64 >= 0x10;
      assert c / 262144 == 4 ==> c / 4096 % 64 <= 0xF;
    }
  }

  /** Three digits in base 64 below a leading one. */
  lemma FromBase64(a: nat, x: nat, y: nat, z: nat)
    requires x < 64 && y < 64 && z < 64
    ensures var c := a * 262144 + x * 4096 + y * 64 + z;
            c / 262144 == a && c / 4096 % 64 == x && c / 64 % 64 == y && c % 64 == z
            && c / 4096 == a * 64 + x && c / 64 == a * 4096 + x * 64 + y
  {
  }

  lemma EncodeDecode(s: seq<byte>)
    requires CharLen(s) > 0
    ensures Encode(Decode(s)) == s[..CharLen(s)]
  {
    var n := CharLen(s);
    if n == 1 {
    } else if n == 2 {
      FromBase64(0, 0, s[0] as int - 0xC0, s[1] as int - 0x80);
    } else if n == 3 {
      FromBase64(0, s[0] as int - 0xE0, s[1] as int - 0x80, s[2] as int - 0x80);
    } else {
      FromBase64(s[0] as int - 0xF0, s[1] as int - 0x80, s[2] as int - 0x80, s[3] as int - 0x80);
    }
  }

  lemma {:induction false} EncodedIsValid(text: seq<Char>)
    ensures Valid(EncodeAll(text)) && DecodeAll(EncodeAll(text)) == text
  {
    if text != [] {
      var s := EncodeAll(text);
      DecodeEncode(text[0], EncodeAll(text[1..]));
      assert s[CharLen(s)..] == EncodeAll(text[1..]);
      EncodedIsValid(text[1..]);
    }
  }

  lemma EncodeFirst(c: Char, rest: seq<Char>, head: seq<byte>, tail: seq<byte>)
    requires Encode(c) == head && EncodeAll(rest) == tail
    ensures EncodeAll([c] + rest) == head + tail
  {
    assert ([c] + rest)[1..] == rest;
  }

  lemma DecodeFirst(s: seq<byte>)
    requires Valid(s) && s != []
    ensures CharLen(s) > 0 && Valid(s[CharLen(s)..])
    ensures DecodeAll(s) == [Decode(s)] + DecodeAll(s[CharLen(s)..])
  {
  }

  lemma Halves(s: seq<byte>, n: nat)
    requires n <= |s|
    ensures s == s[..n] + s[n..]
  {
  }

  lemma {:induction false} ValidIsEncoded(s: seq<byte>)
    requires Valid(s)
    ensures EncodeAll(DecodeAll(s)) == s
    decreases |s|, 1
  {
    if s != [] {
      DecodeFirst(s);
      ValidIsEncodedStep(s, CharLen(s));
    }
  }

  lemma {:induction false} ValidIsEncodedStep(s: seq<byte>, n: nat)
    requires 0 < n == CharLen(s) && Valid(s[n..]) && Valid(s)
    requires DecodeAll(s) == [Decode(s)] + DecodeAll(s[n..])
    ensures EncodeAll(DecodeAll(s)) == s
    decreases |s|, 0
  {
    EncodeDecode(s);
    ValidIsEncoded(s[n..]);
    EncodeFirst(Decode(s), DecodeAll(s[n..]), s[..n], s[n..]);
    Halves(s, n);
  }

  /** The well-formed byte sequences are the encoded texts. */
  lemma ValidIffEncoded(s: seq<byte>)
    ensures Valid(s) <==> exists text :: EncodeAll(text) == s
  {
    if Valid(s) {
      ValidIsEncoded(s);
    }
    forall text | EncodeAll(text) == s ensures Valid(s) {
      EncodedIsValid(text);
    }
  }
}

/** The byte sequences SafeJson takes for text are exactly the encodings of section 3 of RFC 3629. */
module Utf8Text {
  import opened Common
  import opened SafeJson

  predicate IsScalar(c: int) { 0 <= c < 0xD800 || 0xE000 <= c < 0x110000 }

  function Encoded(c: int): (r: Bytes)
    requires IsScalar(c)
  {
    if c < 0x80 then [c as Byte]
    else if c < 0x800 then [(0xC0 + c / 64) as Byte, (0x80 + c % 64) as Byte]
    else if c < 0x10000 then [(0xE0 + c / 4096) as Byte, (0x80 + c / 64 % 64) as Byte, (0x80 + c % 64) as Byte]
    else [(0xF0 + c / 262144) as Byte, (0x80 + c / 4096 % 64) as Byte, (0x80 + c / 64 % 64) as Byte, (0x80 + c % 64) as Byte]
  }

  predicate AreScalars(text: seq<int>) { forall k | 0 <= k < |text| :: IsScalar(text[k]) }

  function EncodedText(text: seq<int>): Bytes
    requires AreScalars(text)
  {
    if text == [] then [] else Encoded(text[0]) + EncodedText(text[1..])
  }

  lemma ShortIsRead(b: Bytes, i: nat, c: int)
    requires IsScalar(c) && c < 0x800 && At(b, i, Encoded(c))
    ensures i < |b| && CharLength(b, i) == |Encoded(c)|
  {
    AtIndex(b, i, Encoded(c), 0);
    if c >= 0x80 { AtIndex(b, i, Encoded(c), 1); }
  }

  lemma LongIsRead(b: Bytes, i: nat, c: int)
    requires IsScalar(c) && c >= 0x800 && At(b, i, Encoded(c))
    ensures i < |b| && CharLength(b, i) == |Encoded(c)|
  {
    AtIndex(b, i, Encoded(c), 0);
    AtIndex(b, i, Encoded(c), 1);
    AtIndex(b, i, Encoded(c), 2);
    if c >= 0x10000 { AtIndex(b, i, Encoded(c), 3); }
  }

  /** An encoded character is one the reader recognises, and as long as it was made. */
  lemma EncodedIsRead(b: Bytes, i: nat, c: int)
    requires IsScalar(c) && At(b, i, Encoded(c))
    ensures i < |b| && CharLength(b, i) == |Encoded(c)|
  {
    if c < 0x800 { ShortIsRead(b, i, c); } else { LongIsRead(b, i, c); }
  }

  /** A character the reader recognises is an encoded one. */
  lemma ReadIsEncoded(b: Bytes, i: nat) returns (c: int)
    requires i < |b| && CharLength(b, i) > 0
    ensures IsScalar(c) && Encoded(c) == b[i..i + CharLength(b, i)]
  {
    var n := CharLength(b, i);
    if n == 1 {
      assert b[i..i + n] == [b[i]];
      c := b[i] as int;
    } else if n == 2 {
      assert b[i..i + n] == [b[i], b[i + 1]];
      c := TwoBytes(b[i], b[i + 1]);
    } else if n == 3 {
      assert b[i..i + n] == [b[i], b[i + 1], b[i + 2]];
      c := ThreeBytes(b[i], b[i + 1], b[i + 2]);
    } else {
      assert b[i..i + n] == [b[i], b[i + 1], b[i + 2], b[i + 3]];
      c := FourBytes(b[i], b[i + 1], b[i + 2], b[i + 3]);
    }
  }

  lemma TwoBytes(x: Byte, y: Byte) returns (c: int)
    requires 0xC2 <= x <= 0xDF && 0x80 <= y <= 0xBF
    ensures IsScalar(c) && Encoded(c) == [x, y]
  {
    c := (x as int - 0xC0) * 64 + (y as int - 0x80);
  }

  lemma ThreeBytes(x: Byte, y: Byte, z: Byte) returns (c: int)
    requires 0xE0 <= x <= 0xEF && 0x80 <= y <= 0xBF && 0x80 <= z <= 0xBF
    requires (x == 0xE0 ==> y >= 0xA0) && (x == 0xED ==> y <= 0x9F)
    ensures IsScalar(c) && Encoded(c) == [x, y, z]
  {
    var high := (x as int - 0xE0) * 64 + (y as int - 0x80);
    c := high * 64 + (z as int - 0x80);
    assert c / 64 == high && c / 4096 == high / 64;
  }

  lemma FourBytes(w: Byte, x: Byte, y: Byte, z: Byte) returns (c: int)
    requires 0xF0 <= w <= 0xF4 && 0x80 <= x <= 0xBF && 0x80 <= y <= 0xBF && 0x80 <= z <= 0xBF
    requires (w == 0xF0 ==> x >= 0x90) && (w == 0xF4 ==> x <= 0x8F)
    ensures IsScalar(c) && Encoded(c) == [w, x, y, z]
  {
    var top := (w as int - 0xF0) * 64 + (x as int - 0x80);
    var high := top * 64 + (y as int - 0x80);
    c := high * 64 + (z as int - 0x80);
    assert c / 64 == high && c / 4096 == top && c / 262144 == top / 64;
  }

  lemma {:induction false} TextIsEncoded(b: Bytes, i: nat) returns (text: seq<int>)
    requires i <= |b| && IsTextFrom(b, i)
    ensures AreScalars(text) && EncodedText(text) == b[i..]
    decreases |b| - i
  {
    if i == |b| {
      text := [];
    } else {
      var n := CharLength(b, i);
      var c := ReadIsEncoded(b, i);
      var rest := TextIsEncoded(b, i + n);
      text := [c] + rest;
      assert text[1..] == rest;
      assert b[i..] == b[i..i + n] + b[i + n..];
    }
  }

  lemma {:induction false} EncodedIsText(text: seq<int>, b: Bytes, i: nat)
    requires AreScalars(text) && i <= |b| && EncodedText(text) == b[i..]
    ensures IsTextFrom(b, i)
    decreases |text|
  {
    if text != [] {
      var e := Encoded(text[0]);
      StartsThere(b, i, e, EncodedText(text[1..]));
      EncodedIsRead(b, i, text[0]);
      EncodedIsText(text[1..], b, i + |e|);
    }
  }

  lemma StartsThere(b: Bytes, i: nat, first: Bytes, rest: Bytes)
    requires i <= |b| && b[i..] == first + rest
    ensures At(b, i, first) && i + |first| <= |b| && b[i + |first|..] == rest
  {
    assert |b[i..]| == |first| + |rest|;
    forall k | 0 <= k < |first| ensures first[k] == b[i + k] { assert first[k] == b[i..][k]; }
    assert b[i + |first|..] == b[i..][|first|..];
  }

  /** Bytes are text if and only if they encode some sequence of characters. */
  lemma IsTextIff(b: Bytes)
    ensures IsText(b) <==> exists text: seq<int> :: AreScalars(text) && EncodedText(text) == b
  {
    assert b[0..] == b;
    if IsText(b) {
      var text := TextIsEncoded(b, 0);
      assert AreScalars(text) && EncodedText(text) == b;
    }
    forall text: seq<int> | AreScalars(text) && EncodedText(text) == b ensures IsText(b) { EncodedIsText(text, b, 0); }
  }
}

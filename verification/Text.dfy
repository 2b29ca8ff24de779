/**
 * Texts as the program holds them, in UTF-16 code units, and as it writes them: UTF-8 (RFC 3629) and the strings of
 * JSON (RFC 8259, section 7). The readers are written from those documents; what the writers of the components
 * produce is proved against them.
 */
module Text {
  import opened Prelude

  type Unit = x: int | 0 <= x < 65536

  predicate High(u: Unit) {
    0xd800 <= u < 0xdc00
  }

  predicate Low(u: Unit) {
    0xdc00 <= u < 0xe000
  }

  predicate Pair(text: seq<Unit>) {
    |text| >= 2 && High(text[0]) && Low(text[1])
  }

  /** The characters of a text: surrogate pairs, and single units otherwise. */
  function Characters(text: seq<Unit>): seq<seq<Unit>> {
    if text == [] then []
    else if Pair(text) then [text[..2]] + Characters(text[2..])
    else [text[..1]] + Characters(text[1..])
  }

  predicate IsCharacter(c: seq<Unit>) {
    |c| == 1 || (|c| == 2 && Pair(c))
  }

  // ---- UTF-8

  predicate Scalar(point: nat) {
    point < 0xd800 || 0xe000 <= point < 0x110000
  }

  function Utf8Of(point: nat): (bytes: seq<Byte>)
    requires point < 0x110000
    ensures 1 <= |bytes| <= 4
  {
    if point < 0x80 then [point]
    else if point < 0x800 then [0xc0 + point / 64, 0x80 + point % 64]
    else if point < 0x10000 then [0xe0 + point / 64 / 64, 0x80 + point / 64 % 64, 0x80 + point % 64]
    else [0xf0 + point / 64 / 64 / 64, 0x80 + point / 64 / 64 % 64, 0x80 + point / 64 % 64, 0x80 + point % 64]
  }

  function Over(x: int, base: int): nat
    requires base <= x
  {
    x - base
  }

  predicate Continues(bytes: seq<Byte>, count: nat) {
    |bytes| > count && forall i :: 1 <= i <= count ==> 0x80 <= bytes[i] < 0xc0
  }

  /** The character at the start of the bytes and how many it takes, by section 4 of RFC 3629. */
  function ReadPoint(bytes: seq<Byte>): (r: Option<(nat, nat)>)
    ensures r.Some? ==> 1 <= r.value.1 <= 4 && r.value.1 <= |bytes| && Scalar(r.value.0) && (r.value.0 >= 0x10000 ==> r.value.1 == 4)
  {
    if bytes == [] then None
    else if bytes[0] < 0x80 then Some((bytes[0], 1))
    else if 0xc0 <= bytes[0] < 0xe0 && Continues(bytes, 1) then
      var point := Over(bytes[0], 0xc0) * 64 + Over(bytes[1], 0x80);
      if 0x80 <= point then Some((point, 2)) else None
    else if 0xe0 <= bytes[0] < 0xf0 && Continues(bytes, 2) then
      var point := Over(bytes[0], 0xe0) * 4096 + Over(bytes[1], 0x80) * 64 + Over(bytes[2], 0x80);
      if 0x800 <= point && Scalar(point) then Some((point, 3)) else None
    else if 0xf0 <= bytes[0] < 0xf8 && Continues(bytes, 3) then
      var point := Over(bytes[0], 0xf0) * 262144 + Over(bytes[1], 0x80) * 4096 + Over(bytes[2], 0x80) * 64 + Over(bytes[3], 0x80);
      if 0x10000 <= point && Scalar(point) then Some((point, 4)) else None
    else None
  }

  lemma ReadsPoint(point: nat, rest: seq<Byte>)
    requires Scalar(point)
    ensures ReadPoint(Utf8Of(point) + rest) == Some((point, |Utf8Of(point)|))
  {
    hide ReadPoint;
    if point < 0x80 {
      ReadsOne(point, rest);
    } else if point < 0x800 {
      ReadsTwo(point, point / 64, point % 64, rest);
    } else if point < 0x10000 {
      ReadsThree(point, point / 64 / 64, point / 64 % 64, point % 64, rest);
    } else {
      ReadsFour(point, point / 64 / 64 / 64, point / 64 / 64 % 64, point / 64 % 64, point % 64, rest);
    }
  }

  lemma ReadsOne(point: nat, rest: seq<Byte>)
    requires point < 0x80
    ensures ReadPoint([point] + rest) == Some((point, 1))
  {
  }

  lemma ReadsTwo(point: nat, a: nat, b: nat, rest: seq<Byte>)
    requires a < 32 && b < 64 && point == a * 64 + b && 0x80 <= point
    ensures ReadPoint([0xc0 + a, 0x80 + b] + rest) == Some((point, 2))
  {
  }

  lemma ReadsThree(point: nat, a: nat, b: nat, c: nat, rest: seq<Byte>)
    requires a < 16 && b < 64 && c < 64 && point == a * 4096 + b * 64 + c && 0x800 <= point && Scalar(point)
    ensures ReadPoint([0xe0 + a, 0x80 + b, 0x80 + c] + rest) == Some((point, 3))
  {
  }

  lemma ReadsFour(point: nat, a: nat, b: nat, c: nat, d: nat, rest: seq<Byte>)
    requires a < 8 && b < 64 && c < 64 && d < 64 && point == a * 262144 + b * 4096 + c * 64 + d && 0x10000 <= point && Scalar(point)
    ensures ReadPoint([0xf0 + a, 0x80 + b, 0x80 + c, 0x80 + d] + rest) == Some((point, 4))
  {
  }

  /** The units of a code point, by section 3.9 of the Unicode Standard: the offset beyond 0xffff in two halves of ten bits. */
  function UnitsOf(point: nat): (units: seq<Unit>)
    requires point < 0x110000
    ensures 1 <= |units| <= 2 && (|units| == 2 <==> point >= 0x10000)
  {
    if point < 0x10000 then [point] else [0xd800 + (point - 0x10000) / 1024, 0xdc00 + (point - 0x10000) % 1024]
  }

  function PointOf(c: seq<Unit>): (point: nat)
    requires IsCharacter(c)
    ensures point < 0x110000
  {
    if |c| == 1 then c[0] else 0x10000 + Over(c[0], 0xd800) * 0x400 + Over(c[1], 0xdc00)
  }

  lemma PointUnits(c: seq<Unit>)
    requires IsCharacter(c)
    ensures UnitsOf(PointOf(c)) == c
  {
  }

  predicate Lone(c: seq<Unit>) {
    |c| == 1 && (High(c[0]) || Low(c[0]))
  }

  lemma PointScalar(c: seq<Unit>)
    requires IsCharacter(c) && !Lone(c)
    ensures Scalar(PointOf(c))
  {
  }

  /** A text as UTF-8; a surrogate without its other half becomes U+FFFD, as the encoder writes it. */
  function Utf8(text: seq<Unit>): seq<Byte> {
    if text == [] then []
    else if Pair(text) then Utf8Of(PointOf(text[..2])) + Utf8(text[2..])
    else Utf8Of(Repaired(text[0])) + Utf8(text[1..])
  }

  function Repaired(u: Unit): Unit {
    if High(u) || Low(u) then 0xfffd else u
  }

  function Mended(text: seq<Unit>): seq<Unit> {
    if text == [] then []
    else if Pair(text) then text[..2] + Mended(text[2..])
    else [Repaired(text[0])] + Mended(text[1..])
  }

  /** The text of all characters that are complete at the start of the bytes. */
  function Whole(bytes: seq<Byte>): seq<Unit> {
    var p := ReadPoint(bytes);
    if p.None? then [] else UnitsOf(p.value.0) + Whole(bytes[p.value.1..])
  }

  lemma {:induction false} WholeOfUtf8(text: seq<Unit>)
    ensures Whole(Utf8(text)) == Mended(text)
  {
    if text != [] {
      var first := if Pair(text) then text[..2] else [Repaired(text[0])];
      var rest := text[if Pair(text) then 2 else 1..];
      WholeOfUtf8(rest);
      PointScalar(first);
      PointUnits(first);
      ReadsPoint(PointOf(first), Utf8(rest));
      hide ReadPoint, Utf8Of, PointOf, UnitsOf;
      assert Utf8(text) == Utf8Of(PointOf(first)) + Utf8(rest);
      assert Utf8(text)[|Utf8Of(PointOf(first))|..] == Utf8(rest);
    }
  }

  lemma PointOfMore(bytes: seq<Byte>, more: seq<Byte>)
    ensures ReadPoint(bytes).Some? || |bytes| >= 4 ==> ReadPoint(bytes + more) == ReadPoint(bytes)
  {
  }

  /** More bytes complete more characters: at most one for each byte and one more unit for a pair that was begun. */
  lemma {:induction false} WholeGrows(bytes: seq<Byte>, more: seq<Byte>)
    ensures Whole(bytes) <= Whole(bytes + more) && |Whole(bytes + more)| <= |Whole(bytes)| + |more| + 2
    decreases |bytes|
  {
    PointOfMore(bytes, more);
    var p := ReadPoint(bytes);
    if p.Some? {
      WholeGrows(bytes[p.value.1..], more);
      assert (bytes + more)[p.value.1..] == bytes[p.value.1..] + more;
    } else if |bytes| < 4 {
      WholeFits(bytes + more);
      if ReadPoint(bytes + more).Some? {
        var q := ReadPoint(bytes + more).value;
        WholeFits((bytes + more)[q.1..]);
        LongerPoint(bytes, more);
      }
    }
  }

  /** A character that was not complete takes more than the bytes there were. */
  lemma LongerPoint(bytes: seq<Byte>, more: seq<Byte>)
    requires ReadPoint(bytes).None? && ReadPoint(bytes + more).Some?
    ensures ReadPoint(bytes + more).value.1 > |bytes|
  {
    assert forall k :: 0 <= k < |bytes| ==> (bytes + more)[k] == bytes[k];
  }

  lemma {:induction false} WholeFits(bytes: seq<Byte>)
    ensures |Whole(bytes)| <= |bytes|
  {
    if ReadPoint(bytes).Some? {
      WholeFits(bytes[ReadPoint(bytes).value.1..]);
    }
  }

  // ---- Strings of JSON

  function HexValue(b: Byte): Option<nat> {
    if 48 <= b < 58 then Some(b - 48) else if 65 <= b < 71 then Some(b - 55) else if 97 <= b < 103 then Some(b - 87) else None
  }

  function Hex4(bytes: seq<Byte>): Option<Unit>
    requires |bytes| >= 4
  {
    var a, b, c, d := HexValue(bytes[0]), HexValue(bytes[1]), HexValue(bytes[2]), HexValue(bytes[3]);
    if a.Some? && b.Some? && c.Some? && d.Some? then Hexadecimal(a.value, b.value, c.value, d.value) else None
  }

  function Hexadecimal(a: nat, b: nat, c: nat, d: nat): Option<Unit> {
    var n := ((a * 16 + b) * 16 + c) * 16 + d;
    if n < 65536 then Some(n) else None
  }

  function ShortEscape(b: Byte): Option<Unit> {
    if b == 34 || b == 92 || b == 47 then Some(b)
    else if b == 98 then Some(8)
    else if b == 102 then Some(12)
    else if b == 110 then Some(10)
    else if b == 114 then Some(13)
    else if b == 116 then Some(9)
    else None
  }

  /** The units that the next character of a string stands for, and the bytes it takes; None at the closing quote. */
  function ReadCharacter(bytes: seq<Byte>): (r: Option<(seq<Unit>, nat)>)
    ensures r.Some? ==> 1 <= r.value.1 <= |bytes|
  {
    if bytes == [] || bytes[0] < 32 || bytes[0] == 34 then None
    else if bytes[0] != 92 then
      var p := ReadPoint(bytes);
      if p.None? then None else Some((UnitsOf(p.value.0), p.value.1))
    else if |bytes| >= 6 && bytes[1] == 117 then
      var u := Hex4(bytes[2..6]);
      if u.None? then None else Some(([u.value], 6))
    else if |bytes| >= 2 && ShortEscape(bytes[1]).Some? then Some(([ShortEscape(bytes[1]).value], 2))
    else None
  }

  /** The text of a string, from behind its opening quote, and the bytes after its closing one. */
  function ReadString(bytes: seq<Byte>): Option<(seq<Unit>, seq<Byte>)> {
    if bytes != [] && bytes[0] == 34 then Some(([], bytes[1..]))
    else
      var c := ReadCharacter(bytes);
      if c.None? then None
      else
        var rest := ReadString(bytes[c.value.1..]);
        if rest.None? then None else Some((c.value.0 + rest.value.0, rest.value.1))
  }

  /** Bytes that read as these units wherever they stand in a string. */
  ghost predicate ReadsAs(bytes: seq<Byte>, units: seq<Unit>) {
    forall rest :: ReadCharacter(bytes + rest) == Some((units, |bytes|))
  }

  /** Such bytes are few, and none is a control. */
  lemma ReadsAsShort(bytes: seq<Byte>, units: seq<Unit>)
    requires ReadsAs(bytes, units)
    ensures 1 <= |bytes| <= 6 && forall i :: 0 <= i < |bytes| ==> bytes[i] >= 32
  {
    assert bytes + [] == bytes;
    assert ReadCharacter(bytes + []) == Some((units, |bytes|));
    if bytes[0] == 92 && |bytes| == 6 {
      assert forall i :: 0 <= i < 4 ==> HexValue(bytes[2..6][i]).Some? && bytes[2..6][i] == bytes[i + 2];
    } else if bytes[0] != 92 {
      PointBytes(bytes);
    }
  }

  lemma PointBytes(bytes: seq<Byte>)
    requires ReadPoint(bytes).Some?
    ensures forall i :: 1 <= i < ReadPoint(bytes).value.1 ==> bytes[i] >= 32
  {
  }

  lemma ReadsNext(bytes: seq<Byte>, units: seq<Unit>, rest: seq<Byte>)
    requires ReadsAs(bytes, units) && ReadString(rest).Some?
    ensures ReadString(bytes + rest) == Some((units + ReadString(rest).value.0, ReadString(rest).value.1))
  {
    assert ReadCharacter(bytes + rest) == Some((units, |bytes|));
    assert (bytes + rest)[|bytes|..] == rest;
    assert bytes + rest != [] && (bytes + rest)[0] != 34;
  }

  function Ascii(s: string): (bytes: seq<Byte>)
    ensures |bytes| == |s| && forall i :: 0 <= i < |s| && s[i] < '\U{80}' ==> bytes[i] == s[i] as int
  {
    seq(|s|, i requires 0 <= i < |s| => if s[i] < '\U{80}' then s[i] as int else 63)
  }

  function HexDigit(n: nat): Byte
    requires n < 16
  {
    if n < 10 then 48 + n else 87 + n
  }

  /** The six bytes of \\uXXXX. */
  function HexEscape(u: Unit): seq<Byte> {
    [92, 117, HexDigit(u / 16 / 16 / 16), HexDigit(u / 16 / 16 % 16), HexDigit(u / 16 % 16), HexDigit(u % 16)]
  }

  lemma HexEscapeReads(u: Unit)
    ensures ReadsAs(HexEscape(u), [u])
  {
    var a, b, c, d := u / 16 / 16 / 16, u / 16 / 16 % 16, u / 16 % 16, u % 16;
    HexReads(a, b, c, d);
    hide Hex4, HexDigit;
    forall rest ensures ReadCharacter(HexEscape(u) + rest) == Some(([u], 6)) {
      var bytes := HexEscape(u) + rest;
      assert bytes[2..6] == [HexDigit(a), HexDigit(b), HexDigit(c), HexDigit(d)];
    }
  }

  lemma HexReads(a: nat, b: nat, c: nat, d: nat)
    requires a < 16 && b < 16 && c < 16 && d < 16
    ensures Hex4([HexDigit(a), HexDigit(b), HexDigit(c), HexDigit(d)]) == Some(((a * 16 + b) * 16 + c) * 16 + d)
  {
    DigitReads();
    hide HexDigit, HexValue;
  }

  lemma DigitReads()
    ensures forall n: nat :: n < 16 ==> HexValue(HexDigit(n)) == Some(n)
  {
  }
}

/**
 The opaque list cursor: the row's time and id joined by "|" and written in unpadded
 URL-safe base64. Formatting and parsing of times belongs to Go's library and is a parameter.
 */
module Cursor {
  import opened Prelude

  type Sextet = x: int | 0 <= x < 64

  const PIPE: Byte := 124

  /** RFC 3339 text of a time with nanoseconds, its parser, and the range of times, years 0 to 9999, that it can write. */
  datatype TimeText = TimeText(first: int, last: int, format: int -> Bytes, parse: Bytes -> Option<int>)

  predicate Writable(tt: TimeText, t: int) {
    tt.first <= t <= tt.last
  }

  ghost predicate Lawful(tt: TimeText) {
    forall t {:trigger tt.format(t)} :: Writable(tt, t) ==> PIPE !in tt.format(t) && tt.parse(tt.format(t)) == Some(t)
  }

  // ---------- Base64 ----------

  function EncodeChar(v: Sextet): Byte {
    if v < 26 then 65 + v
    else if v < 52 then 97 + (v - 26)
    else if v < 62 then 48 + (v - 52)
    else if v == 62 then 45
    else 95
  }

  function DecodeChar(c: Byte): Option<Sextet> {
    if 65 <= c <= 90 then Some(c - 65)
    else if 97 <= c <= 122 then Some(c - 97 + 26)
    else if 48 <= c <= 57 then Some(c - 48 + 52)
    else if c == 45 then Some(62)
    else if c == 95 then Some(63)
    else None
  }

  /** Three bytes become four sextets; a rest of two becomes three and a rest of one becomes two. */
  function Pack(b: Bytes): seq<Sextet> {
    if |b| == 0 then []
    else if |b| == 1 then [b[0] / 4, b[0] % 4 * 16]
    else if |b| == 2 then [b[0] / 4, b[0] % 4 * 16 + b[1] / 16, b[1] % 16 * 4]
    else [b[0] / 4, b[0] % 4 * 16 + b[1] / 16, b[1] % 16 * 4 + b[2] / 64, b[2] % 64] + Pack(b[3..])
  }

  function FirstByte(a: int, b: int): (r: Byte)
    requires 0 <= a < 64 && 0 <= b < 64
  {
    a * 4 + b / 16
  }

  function SecondByte(b: int, c: int): (r: Byte)
    requires 0 <= b < 64 && 0 <= c < 64
  {
    b % 16 * 16 + c / 4
  }

  function ThirdByte(c: int, d: int): (r: Byte)
    requires 0 <= c < 64 && 0 <= d < 64
  {
    c % 4 * 64 + d
  }

  /** Surplus bits of the last sextet are ignored; a lone sextet is corrupt. */
  function Unpack(v: seq<Sextet>): Option<Bytes> {
    if |v| == 0 then Some([])
    else if |v| == 1 then None
    else if |v| == 2 then Some([FirstByte(v[0], v[1])])
    else if |v| == 3 then Some([FirstByte(v[0], v[1]), SecondByte(v[1], v[2])])
    else
      var rest := Unpack(v[4..]);
      if rest.None? then None
      else Some([FirstByte(v[0], v[1]), SecondByte(v[1], v[2]), ThirdByte(v[2], v[3])] + rest.value)
  }

  function EncodeAll(v: seq<Sextet>): Bytes {
    if v == [] then [] else [EncodeChar(v[0])] + EncodeAll(v[1..])
  }

  /** Line breaks are skipped, any other byte outside the alphabet is corrupt. */
  function DecodeAll(text: Bytes): Option<seq<Sextet>> {
    if text == [] then Some([])
    else
      var rest := DecodeAll(text[1..]);
      if rest.None? then None
      else if text[0] == 10 || text[0] == 13 then rest
      else if DecodeChar(text[0]).None? then None
      else Some([DecodeChar(text[0]).value] + rest.value)
  }

  function Base64(b: Bytes): Bytes {
    EncodeAll(Pack(b))
  }

  function Unbase64(text: Bytes): Option<Bytes> {
    var v := DecodeAll(text);
    if v.None? then None else Unpack(v.value)
  }

  /** Cutting three bytes into sextets and joining them again is exact, also when the tail is padded with zeros. */
  lemma CutAndJoin(a: Byte, b: Byte, c: Byte)
    ensures FirstByte(a / 4, a % 4 * 16 + b / 16) == a && FirstByte(a / 4, a % 4 * 16) == a
    ensures SecondByte(a % 4 * 16 + b / 16, b % 16 * 4 + c / 64) == b && SecondByte(a % 4 * 16 + b / 16, b % 16 * 4) == b
    ensures ThirdByte(b % 16 * 4 + c / 64, c % 64) == c
  {
  }

  lemma UnpackGroup(w: Sextet, x: Sextet, y: Sextet, z: Sextet, tail: seq<Sextet>, rest: Bytes)
    requires Unpack(tail) == Some(rest)
    ensures Unpack([w, x, y, z] + tail) == Some([FirstByte(w, x), SecondByte(x, y), ThirdByte(y, z)] + rest)
  {
    assert ([w, x, y, z] + tail)[4..] == tail;
  }

  lemma UnpackTail(w: Sextet, x: Sextet, y: Sextet)
    ensures Unpack([w, x]) == Some([FirstByte(w, x)])
    ensures Unpack([w, x, y]) == Some([FirstByte(w, x), SecondByte(x, y)])
  {
  }

  lemma UnpackOne(a: Byte)
    ensures Unpack(Pack([a])) == Some([a])
  {
    var w, x := a / 4, a % 4 * 16;
    assert Pack([a]) == [w, x];
    UnpackTail(w, x, 0);
    CutAndJoin(a, 0, 0);
  }

  lemma UnpackTwo(a: Byte, b: Byte)
    ensures Unpack(Pack([a, b])) == Some([a, b])
  {
    var w, x, y := a / 4, a % 4 * 16 + b / 16, b % 16 * 4;
    assert Pack([a, b]) == [w, x, y];
    UnpackTail(w, x, y);
    CutAndJoin(a, b, 0);
  }

  lemma {:induction false} UnpackPack(b: Bytes)
    ensures Unpack(Pack(b)) == Some(b)
  {
    if |b| == 0 {
    } else if |b| == 1 {
      UnpackOne(b[0]);
      assert b == [b[0]];
    } else if |b| == 2 {
      UnpackTwo(b[0], b[1]);
      assert b == [b[0], b[1]];
    } else {
      UnpackPack(b[3..]);
      var w, x, y, z := b[0] / 4, b[0] % 4 * 16 + b[1] / 16, b[1] % 16 * 4 + b[2] / 64, b[2] % 64;
      assert Pack(b) == [w, x, y, z] + Pack(b[3..]);
      UnpackGroup(w, x, y, z, Pack(b[3..]), b[3..]);
      CutAndJoin(b[0], b[1], b[2]);
      assert b == [b[0], b[1], b[2]] + b[3..];
    }
  }

  lemma {:induction false} DecodeEncodeAll(v: seq<Sextet>)
    ensures DecodeAll(EncodeAll(v)) == Some(v)
    ensures |EncodeAll(v)| == |v|
  {
    if v != [] {
      DecodeEncodeAll(v[1..]);
      var text := EncodeAll(v);
      assert text[0] == EncodeChar(v[0]) && text[1..] == EncodeAll(v[1..]);
      assert DecodeChar(EncodeChar(v[0])) == Some(v[0]);
      assert v == [v[0]] + v[1..];
    }
  }

  /** Base64 loses nothing: every byte string comes back. */
  lemma Base64RoundTrip(b: Bytes)
    ensures Unbase64(Base64(b)) == Some(b)
    ensures b != [] ==> Base64(b) != []
  {
    UnpackPack(b);
    DecodeEncodeAll(Pack(b));
  }

  /** Letters, digits, minus and underscore. */
  predicate UrlSafe(c: Byte) {
    65 <= c <= 90 || 97 <= c <= 122 || 48 <= c <= 57 || c == 45 || c == 95
  }

  lemma {:induction false} EncodeAllIsSafe(v: seq<Sextet>)
    ensures forall i :: 0 <= i < |EncodeAll(v)| ==> UrlSafe(EncodeAll(v)[i])
  {
    if v != [] { EncodeAllIsSafe(v[1..]); }
  }

  /** The text is unpadded and safe in a URL. */
  lemma Base64IsUrlSafe(b: Bytes)
    ensures forall i :: 0 <= i < |Base64(b)| ==> UrlSafe(Base64(b)[i])
  {
    EncodeAllIsSafe(Pack(b));
  }

  /** The number that four digits in a base stand for. */
  function Number(base: int, w: int, x: int, y: int, z: int): int {
    ((w * base + x) * base + y) * base + z
  }

  /** Three bytes and their four sextets are the same 24-bit number, high bits first. */
  lemma PackIsBigEndian(a: Byte, b: Byte, c: Byte, rest: Bytes)
    ensures var v := Pack([a, b, c] + rest);
      && |v| >= 4 && v[4..] == Pack(rest)
      && Number(64, v[0], v[1], v[2], v[3]) == Number(256, 0, a, b, c)
  {
    var all := [a, b, c] + rest;
    assert all[3..] == rest;
  }

  /** The sextets stand for A to Z, a to z, 0 to 9, minus and underscore, in this order. */
  lemma AlphabetIsOrdered(v: Sextet, w: Sextet)
    requires v < w
    ensures EncodeChar(0) == 65 && EncodeChar(25) == 90 && EncodeChar(26) == 97 && EncodeChar(51) == 122
    ensures EncodeChar(52) == 48 && EncodeChar(61) == 57 && EncodeChar(62) == 45 && EncodeChar(63) == 95
    ensures (w <= 25 || 26 <= v <= w <= 51 || 52 <= v <= w <= 61) ==> EncodeChar(w) - EncodeChar(v) == w - v
  {
  }

  // ---------- The cursor ----------

  function EncodeCursor(tt: TimeText, t: int, id: Bytes): Bytes {
    Base64(tt.format(t) + [PIPE] + id)
  }

  /** Index of the first "|", or the length if there is none. */
  function FirstPipe(b: Bytes): (i: nat)
    ensures i <= |b| && PIPE !in b[..i] && (i < |b| ==> b[i] == PIPE)
  {
    if b == [] || b[0] == PIPE then 0
    else
      var i := FirstPipe(b[1..]);
      assert b[..1 + i] == [b[0]] + b[1..][..i];
      1 + i
  }

  /** Split at the first "|" only, so that the id keeps all of its own. */
  function DecodeCursor(tt: TimeText, text: Bytes): Option<(int, Bytes)> {
    var b := Unbase64(text);
    if b.None? then None
    else
      var i := FirstPipe(b.value);
      if i == |b.value| then None
      else
        var t := tt.parse(b.value[..i]);
        if t.None? then None else Some((t.value, b.value[i + 1..]))
  }

  /** Every cursor comes back to its time and id, also when the id itself holds "|", and is never empty. */
  lemma CursorRoundTrip(tt: TimeText, t: int, id: Bytes)
    requires Lawful(tt) && Writable(tt, t)
    ensures DecodeCursor(tt, EncodeCursor(tt, t, id)) == Some((t, id))
    ensures EncodeCursor(tt, t, id) != []
  {
    var text := tt.format(t);
    var b := text + [PIPE] + id;
    Base64RoundTrip(b);
    var i := FirstPipe(b);
    assert b[|text|] == PIPE;
    assert i == |text|;
    assert b[..|text|] == text && b[|text| + 1..] == id;
  }

  /** A cursor is rejected exactly when it is corrupt base64, holds no "|", or its time does not parse. */
  lemma CursorIsRejectedIff(tt: TimeText, text: Bytes)
    ensures DecodeCursor(tt, text).None? <==>
      || Unbase64(text).None?
      || PIPE !in Unbase64(text).value
      || exists i: nat | i < |Unbase64(text).value| ::
           && Unbase64(text).value[i] == PIPE && PIPE !in Unbase64(text).value[..i]
           && tt.parse(Unbase64(text).value[..i]).None?
  {
    if Unbase64(text).Some? {
      var b := Unbase64(text).value;
      var k := FirstPipe(b);
      if k == |b| { assert b[..k] == b; }
      forall i: nat | i < |b| && b[i] == PIPE && PIPE !in b[..i] ensures i == k {
      }
    }
  }
}

/** UTF-8 as defined in section 3 of RFC 3629: each Unicode scalar value is
    written as one to four octets. `Encode` is what Python's
    `str.encode("utf-8")` computes on text of scalar values (a `char` cannot
    be a lone surrogate, on which Python raises); `Decode` accepts exactly
    the well-formed octet sequences of section 4 of the same RFC and
    inverts `Encode`. */
module Utf8 {
  import opened Text

  newtype byte = x: int | 0 <= x < 256

  predicate IsContinuation(b: byte) { 0x80 <= b < 0xC0 }

  /** The octets of one scalar value. */
  function EncodeChar(c: char): (bs: seq<byte>)
    ensures 1 <= |bs| <= 4
  {
    var n := c as int;
    if n < 0x80 then
      [n as byte]
    else if n < 0x800 then
      [(0xC0 + n / 64) as byte, (0x80 + n % 64) as byte]
    else if n < 0x10000 then
      [(0xE0 + n / 4096) as byte, (0x80 + (n / 64) % 64) as byte, (0x80 + n % 64) as byte]
    else
      [(0xF0 + n / 262144) as byte, (0x80 + (n / 4096) % 64) as byte,
       (0x80 + (n / 64) % 64) as byte, (0x80 + n % 64) as byte]
  }

  function Encode(s: string): (bs: seq<byte>)
    ensures |s| <= |bs| <= 4 * |s|
  {
    if s == [] then [] else EncodeChar(s[0]) + Encode(s[1..])
  }

  /** The scalar value at the front of `bs` and the number of octets it
      occupies, or None when the front is not a well-formed sequence
      (a stray continuation octet, a truncated sequence, an overlong form,
      a surrogate, or a value above U+10FFFF). */
  function DecodeFirst(bs: seq<byte>): (r: Option<(char, nat)>)
    ensures r.Some? ==> 1 <= r.value.1 <= |bs| && r.value.1 <= 4
  {
    if bs == [] then None
    else
      var b0 := bs[0] as int;
      if b0 < 0x80 then Some((b0 as char, 1))
      else if 0xC2 <= b0 < 0xE0 then
        if |bs| < 2 || !IsContinuation(bs[1]) then None
        else
          var n := (b0 - 0xC0) * 64 + (bs[1] as int - 0x80);
          Some((n as char, 2))
      else if 0xE0 <= b0 < 0xF0 then
        if |bs| < 3 || !IsContinuation(bs[1]) || !IsContinuation(bs[2]) then None
        else
          var n := (b0 - 0xE0) * 4096 + (bs[1] as int - 0x80) * 64 + (bs[2] as int - 0x80);
          if n < 0x800 || (0xD800 <= n < 0xE000) then None else Some((n as char, 3))
      else if 0xF0 <= b0 < 0xF5 then
        if |bs| < 4 || !IsContinuation(bs[1]) || !IsContinuation(bs[2]) || !IsContinuation(bs[3]) then None
        else
          var n := (b0 - 0xF0) * 262144 + (bs[1] as int - 0x80) * 4096
                 + (bs[2] as int - 0x80) * 64 + (bs[3] as int - 0x80);
          if n < 0x10000 || n >= 0x110000 then None else Some((n as char, 4))
      else None
  }

  function Decode(bs: seq<byte>): (r: Option<string>)
    ensures r.Some? ==> |r.value| <= |bs| <= 4 * |r.value|
    decreases |bs|
  {
    if bs == [] then Some("")
    else match DecodeFirst(bs)
      case None => None
      case Some((c, k)) =>
        match Decode(bs[k..])
        case None => None
        case Some(rest) => Some([c] + rest)
  }

  /** Decoding the front of an encoded scalar value gives that value back. */
  lemma DecodeFirstEncodeChar(c: char, rest: seq<byte>)
    ensures DecodeFirst(EncodeChar(c) + rest) == Some((c, |EncodeChar(c)|))
  {
    var n := c as int;
    if n < 0x80 {
    } else if n < 0x800 {
      assert (n / 64) * 64 + n % 64 == n;
    } else if n < 0x10000 {
      DecodeFirstThreeOctets(c, rest);
    } else {
      DecodeFirstFourOctets(c, rest);
    }
  }

  lemma DecodeFirstThreeOctets(c: char, rest: seq<byte>)
    requires 0x800 <= c as int < 0x10000
    ensures DecodeFirst(EncodeChar(c) + rest) == Some((c, 3))
  {
    var n := c as int;
    assert (n / 4096) * 4096 + ((n / 64) % 64) * 64 + n % 64 == n by {
      assert n / 64 == (n / 4096) * 64 + (n / 64) % 64;
    }
  }

  lemma DecodeFirstFourOctets(c: char, rest: seq<byte>)
    requires 0x10000 <= c as int
    ensures DecodeFirst(EncodeChar(c) + rest) == Some((c, 4))
  {
    var n := c as int;
    assert (n / 262144) * 262144 + ((n / 4096) % 64) * 4096 + ((n / 64) % 64) * 64 + n % 64 == n by {
      assert n / 4096 == (n / 262144) * 64 + (n / 4096) % 64;
      assert n / 64 == (n / 4096) * 64 + (n / 64) % 64;
    }
  }

  /** Encoding is undone by decoding: every string survives the trip
      through UTF-8 octets unchanged. */
  lemma {:induction false} DecodeEncode(s: string)
    ensures Decode(Encode(s)) == Some(s)
  {
    if s != [] {
      var head := EncodeChar(s[0]);
      var tail := Encode(s[1..]);
      DecodeFirstEncodeChar(s[0], tail);
      assert (head + tail)[|head|..] == tail;
      DecodeEncode(s[1..]);
      assert [s[0]] + s[1..] == s;
    }
  }

  lemma DivMod64(q: int, r: int)
    requires 0 <= r < 64
    ensures (q * 64 + r) / 64 == q && (q * 64 + r) % 64 == r
  {
  }

  /** The octets a decoded scalar value came from are its encoding. */
  lemma EncodeCharDecodeFirst(bs: seq<byte>)
    requires DecodeFirst(bs).Some?
    ensures EncodeChar(DecodeFirst(bs).value.0) == bs[..DecodeFirst(bs).value.1]
  {
    var b0 := bs[0] as int;
    if b0 < 0x80 {
    } else if b0 < 0xE0 {
      DivMod64(b0 - 0xC0, bs[1] as int - 0x80);
    } else if b0 < 0xF0 {
      EncodeThreeOctets(bs);
    } else {
      EncodeFourOctets(bs);
    }
  }

  lemma EncodeThreeOctets(bs: seq<byte>)
    requires DecodeFirst(bs).Some? && 0xE0 <= bs[0] < 0xF0
    ensures EncodeChar(DecodeFirst(bs).value.0) == bs[..3]
  {
    var x, y, z := bs[0] as int - 0xE0, bs[1] as int - 0x80, bs[2] as int - 0x80;
    var n := x * 4096 + y * 64 + z;
    assert n == (x * 64 + y) * 64 + z;
    DivMod64(x * 64 + y, z);
    DivMod64(x, y);
    assert n / 4096 == (n / 64) / 64;
  }

  lemma EncodeFourOctets(bs: seq<byte>)
    requires DecodeFirst(bs).Some? && 0xF0 <= bs[0]
    ensures EncodeChar(DecodeFirst(bs).value.0) == bs[..4]
  {
    var w, x, y, z := bs[0] as int - 0xF0, bs[1] as int - 0x80, bs[2] as int - 0x80, bs[3] as int - 0x80;
    var n := w * 262144 + x * 4096 + y * 64 + z;
    assert n == ((w * 64 + x) * 64 + y) * 64 + z;
    DivMod64((w * 64 + x) * 64 + y, z);
    DivMod64(w * 64 + x, y);
    DivMod64(w, x);
    assert n / 4096 == (n / 64) / 64;
    assert n / 262144 == ((n / 64) / 64) / 64;
  }

  /** Decoding succeeds only on octets that some string encodes to, so the
      two functions are mutually inverse on well-formed input. */
  lemma {:induction false} EncodeDecode(bs: seq<byte>)
    requires Decode(bs).Some?
    ensures Encode(Decode(bs).value) == bs
    decreases |bs|
  {
    if bs != [] {
      var c, k, rest := DecodeStep(bs);
      EncodeDecode(bs[k..]);
      EncodeCons(c, rest);
      assert bs == bs[..k] + bs[k..];
    }
  }

  lemma EncodeCons(c: char, s: string)
    ensures Encode([c] + s) == EncodeChar(c) + Encode(s)
  {
    assert ([c] + s)[1..] == s;
  }

  /** Decoding a non-empty sequence decodes its first scalar value `c`,
      whose encoding is the first `k` octets, then the rest. */
  lemma DecodeStep(bs: seq<byte>) returns (c: char, k: nat, rest: string)
    requires bs != [] && Decode(bs).Some?
    ensures 1 <= k <= |bs| && EncodeChar(c) == bs[..k]
    ensures Decode(bs[k..]) == Some(rest) && Decode(bs) == Some([c] + rest)
  {
    c, k := DecodeFirst(bs).value.0, DecodeFirst(bs).value.1;
    rest := Decode(bs[k..]).value;
    EncodeCharDecodeFirst(bs);
  }

  /** U+1F601, the character the large-patch fixture repeats, takes four octets. */
  lemma EncodeGrinningFace()
    ensures EncodeChar('\U{1F601}') == [0xF0, 0x9F, 0x98, 0x81]
  {
  }

  function Repeat(c: char, n: nat): (s: string)
    ensures |s| == n
    ensures forall i :: 0 <= i < n ==> s[i] == c
  {
    if n == 0 then "" else [c] + Repeat(c, n - 1)
  }

  /** A run of `n` copies of `c` encodes to exactly `n` times the octets of
      one `c`: nothing is truncated however long the run. */
  lemma {:induction false} EncodeRepeatLength(c: char, n: nat)
    ensures |Encode(Repeat(c, n))| == n * |EncodeChar(c)|
  {
    if n > 0 {
      assert Repeat(c, n) == [c] + Repeat(c, n - 1);
      EncodeCons(c, Repeat(c, n - 1));
      EncodeRepeatLength(c, n - 1);
    }
  }

  /** The million-emoji body of the large-patch fixture: four million
      octets, decoded back to the same text. */
  lemma LargeUtf8Thing()
    ensures |Encode(Repeat('\U{1F601}', 1000000))| == 4000000
    ensures Decode(Encode(Repeat('\U{1F601}', 1000000))) == Some(Repeat('\U{1F601}', 1000000))
  {
    EncodeGrinningFace();
    EncodeRepeatLength('\U{1F601}', 1000000);
    DecodeEncode(Repeat('\U{1F601}', 1000000));
  }
}

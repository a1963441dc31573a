/**
 * Base64 as the browser's `atob` decodes it (the "forgiving-base64 decode"
 * of the WHATWG Infra standard) and as a client encodes it (section 4 of
 * RFC 4648, with padding). The alphabet is that of RFC 4648 section 4,
 * Table 1: `A`-`Z`, `a`-`z`, `0`-`9`, `+`, `/`.
 */
module Base64 {
  import opened Wrappers

  type Byte = b: int | 0 <= b < 256
  type Sextet = v: int | 0 <= v < 64

  /** The value of `c` in the base64 alphabet, if it belongs to it. */
  function SextetOf(c: char): Option<Sextet> {
    if 'A' <= c <= 'Z' then Some(c as int - 'A' as int)
    else if 'a' <= c <= 'z' then Some(c as int - 'a' as int + 26)
    else if '0' <= c <= '9' then Some(c as int - '0' as int + 52)
    else if c == '+' then Some(62)
    else if c == '/' then Some(63)
    else None
  }

  /** The alphabet character of a sextet value. */
  function CharOf(v: Sextet): (c: char)
    ensures SextetOf(c) == Some(v)
  {
    if v < 26 then ('A' as int + v) as char
    else if v < 52 then ('a' as int + (v - 26)) as char
    else if v < 62 then ('0' as int + (v - 52)) as char
    else if v == 62 then '+'
    else '/'
  }

  /** Each alphabet character is the character of its own value. */
  lemma CharOfSextetOf(c: char)
    requires SextetOf(c).Some?
    ensures CharOf(SextetOf(c).value) == c
  {
  }

  /** ASCII whitespace: TAB, LF, FF, CR and SPACE. */
  predicate IsAsciiWhitespace(c: char) {
    c == '\t' || c == '\n' || c == '\U{000C}' || c == '\r' || c == ' '
  }

  function StripWhitespace(s: string): (r: string)
    ensures forall k :: 0 <= k < |r| ==> !IsAsciiWhitespace(r[k])
    ensures (forall k :: 0 <= k < |s| ==> !IsAsciiWhitespace(s[k])) ==> r == s
    decreases |s|
  {
    if s == [] then []
    else (if IsAsciiWhitespace(s[0]) then [] else [s[0]]) + StripWhitespace(s[1..])
  }

  /** Removes one or two trailing `=`. */
  function DropPadding(d: string): string {
    if |d| >= 2 && d[|d| - 2] == '=' && d[|d| - 1] == '=' then d[..|d| - 2]
    else if |d| >= 1 && d[|d| - 1] == '=' then d[..|d| - 1]
    else d
  }

  /** The values of the characters of `d`, or `None` if one is outside the alphabet. */
  function Sextets(d: string): (r: Option<seq<Sextet>>)
    ensures r.Some? <==> forall k :: 0 <= k < |d| ==> SextetOf(d[k]).Some?
    ensures r.Some? ==> |r.value| == |d| && forall k :: 0 <= k < |d| ==> SextetOf(d[k]) == Some(r.value[k])
    decreases |d|
  {
    if d == [] then Some([])
    else
      match (SextetOf(d[0]), Sextets(d[1..]))
      case (Some(v), Some(vs)) => Some([v] + vs)
      case _ => None
  }

  /** Four sextets (24 bits) make three bytes. */
  function DecodeQuad(c0: Sextet, c1: Sextet, c2: Sextet, c3: Sextet): seq<Byte> {
    [c0 * 4 + c1 / 16, (c1 % 16) * 16 + c2 / 4, (c2 % 4) * 64 + c3]
  }

  /**
   * The bytes of a run of sextets; a final group of 3 (18 bits) gives two
   * bytes, a final group of 2 (12 bits) one byte, the leftover bits dropped.
   */
  function DecodeSextets(vs: seq<Sextet>): (bs: seq<Byte>)
    requires |vs| % 4 != 1
    ensures |bs| == |vs| * 6 / 8
    decreases |vs|
  {
    if |vs| >= 4 then DecodeQuad(vs[0], vs[1], vs[2], vs[3]) + DecodeSextets(vs[4..])
    else if |vs| == 3 then
      var b0: Byte := vs[0] as int * 4 + vs[1] as int / 16;
      var b1: Byte := (vs[1] as int % 16) * 16 + vs[2] as int / 4;
      [b0, b1]
    else if |vs| == 2 then
      var b0: Byte := vs[0] as int * 4 + vs[1] as int / 16;
      [b0]
    else []
  }

  /**
   * `atob(s)`: `None` where `atob` throws. Whitespace is removed; when the
   * length is then a multiple of four, up to two trailing `=` are removed;
   * a length of one more than a multiple of four, or a character outside
   * the alphabet, is a failure.
   */
  function Decode(s: string): Option<seq<Byte>> {
    var d := StripWhitespace(s);
    var e := if |d| % 4 == 0 then DropPadding(d) else d;
    if |e| % 4 == 1 then None
    else
      match Sextets(e)
      case None => None
      case Some(vs) => Some(DecodeSextets(vs))
  }

  /** The sextets of a run of bytes, without padding. */
  function EncodeSextets(bs: seq<Byte>): (vs: seq<Sextet>)
    ensures |vs| == |bs| / 3 * 4 + (if |bs| % 3 == 0 then 0 else |bs| % 3 + 1)
    decreases |bs|
  {
    if |bs| >= 3 then
      [bs[0] / 4, (bs[0] % 4) * 16 + bs[1] / 16, (bs[1] % 16) * 4 + bs[2] / 64, bs[2] % 64]
      + EncodeSextets(bs[3..])
    else if |bs| == 2 then [bs[0] / 4, (bs[0] % 4) * 16 + bs[1] / 16, (bs[1] % 16) * 4]
    else if |bs| == 1 then [bs[0] / 4, (bs[0] % 4) * 16]
    else []
  }

  function Chars(vs: seq<Sextet>): (s: string)
    ensures |s| == |vs| && forall k :: 0 <= k < |vs| ==> s[k] == CharOf(vs[k])
    decreases |vs|
  {
    if vs == [] then [] else [CharOf(vs[0])] + Chars(vs[1..])
  }

  /** The `=` padding that completes the last group of four characters. */
  function Padding(n: nat): string {
    if n % 3 == 1 then "==" else if n % 3 == 2 then "=" else ""
  }

  /** Padded base64 of `bs` (what `btoa` produces). */
  function Encode(bs: seq<Byte>): (s: string)
    ensures |s| % 4 == 0
    ensures forall k :: 0 <= k < |s| ==> SextetOf(s[k]).Some? || s[k] == '='
  {
    Chars(EncodeSextets(bs)) + Padding(|bs|)
  }

  lemma QuadRoundTrip(b0: Byte, b1: Byte, b2: Byte)
    ensures DecodeQuad(b0 / 4, (b0 % 4) * 16 + b1 / 16, (b1 % 16) * 4 + b2 / 64, b2 % 64) == [b0, b1, b2]
  {
    DivMod16(b0 % 4, b1);
    DivMod4(b1 % 16, b2);
  }

  /** `(h * 16 + b / 16) / 16 == h` and `(h * 16 + b / 16) % 16 == b / 16` for a small `h`. */
  lemma DivMod16(h: int, b: Byte)
    requires 0 <= h < 16
    ensures (h * 16 + b / 16) / 16 == h && (h * 16 + b / 16) % 16 == b / 16
  {
  }

  /** `(h * 4 + b / 64) / 4 == h` and `(h * 4 + b / 64) % 4 == b / 64` for a small `h`. */
  lemma DivMod4(h: int, b: Byte)
    requires 0 <= h < 16
    ensures (h * 4 + b / 64) / 4 == h && (h * 4 + b / 64) % 4 == b / 64
  {
  }

  /** Decoding the sextets of the encoding gives back the bytes. */
  lemma {:induction false} SextetsRoundTrip(bs: seq<Byte>)
    ensures |EncodeSextets(bs)| % 4 != 1
    ensures DecodeSextets(EncodeSextets(bs)) == bs
    decreases |bs|
  {
    var vs := EncodeSextets(bs);
    if |bs| >= 3 {
      SextetsRoundTrip(bs[3..]);
      QuadRoundTrip(bs[0], bs[1], bs[2]);
      assert vs[4..] == EncodeSextets(bs[3..]);
      assert bs == [bs[0], bs[1], bs[2]] + bs[3..];
    } else if |bs| == 2 {
      DivMod16(bs[0] % 4, bs[1]);
      DivMod4(bs[1] % 16, 0);
    } else if |bs| == 1 {
      DivMod16(bs[0] % 4, 0);
    }
  }

  /** Reading the characters of an encoded run of sextets gives back the sextets. */
  lemma SextetsOfChars(vs: seq<Sextet>)
    ensures Sextets(Chars(vs)) == Some(vs)
  {
    var r := Sextets(Chars(vs));
    assert r.Some?;
    assert r.value == vs;
  }

  /** An encoding holds no whitespace, so `atob` strips nothing from it. */
  lemma EncodeHasNoWhitespace(bs: seq<Byte>)
    ensures StripWhitespace(Encode(bs)) == Encode(bs)
  {
    var s := Encode(bs);
    forall k | 0 <= k < |s|
      ensures !IsAsciiWhitespace(s[k])
    {
      assert SextetOf(s[k]).Some? || s[k] == '=';
    }
  }

  /** Up to two `=` after a text that does not end in `=` are removed, and nothing else. */
  lemma DropPaddingOf(body: string, pad: string)
    requires pad == "" || pad == "=" || pad == "=="
    requires pad != "" ==> |body| >= 1
    requires |body| >= 1 ==> body[|body| - 1] != '='
    ensures DropPadding(body + pad) == body
  {
    var d := body + pad;
    if pad == "==" {
      assert d[..|d| - 2] == body;
    } else if pad == "=" {
      assert d[|d| - 2] == body[|body| - 1];
      assert d[..|d| - 1] == body;
    } else {
      assert d == body;
    }
  }

  /** Removing the padding of an encoding leaves its alphabet characters. */
  lemma DropPaddingOfEncode(bs: seq<Byte>)
    ensures DropPadding(Encode(bs)) == Chars(EncodeSextets(bs))
  {
    var vs := EncodeSextets(bs);
    var body := Chars(vs);
    if |bs| % 3 != 0 {
      assert |vs| >= 1;
    }
    if |body| >= 1 {
      assert SextetOf(body[|body| - 1]) == Some(vs[|vs| - 1]);
    }
    DropPaddingOf(body, Padding(|bs|));
  }

  /** `atob(btoa(x)) == x` for every byte string `x`. */
  lemma DecodeEncode(bs: seq<Byte>)
    ensures Decode(Encode(bs)) == Some(bs)
  {
    var vs := EncodeSextets(bs);
    EncodeHasNoWhitespace(bs);
    DropPaddingOfEncode(bs);
    SextetsRoundTrip(bs);
    SextetsOfChars(vs);
    assert |Encode(bs)| % 4 == 0;
  }

  /** `atob(String(undefined))`, that is `atob("undefined")`, throws: nine characters. */
  lemma UndefinedIsNotBase64()
    ensures Decode("undefined") == None
  {
    var u := "undefined";
    assert forall k :: 0 <= k < |u| ==> 'a' <= u[k] <= 'z';
    assert StripWhitespace(u) == u;
    assert |u| % 4 == 1;
  }
}

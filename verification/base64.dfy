/**
 * The base64 text encoding that carries file chunks over the signalling
 * channel.  The sender encodes with the alphabet and padding of section 4 of
 * RFC 4648 (what a browser writes after "base64," in a data URL, RFC 2397);
 * the receiver decodes with `atob`, which runs the "forgiving-base64 decode"
 * algorithm of the WHATWG Infra standard: ASCII whitespace is ignored, one or
 * two trailing '=' are dropped when the length is a multiple of four, a
 * length of 1 modulo 4 or a character outside the alphabet is a failure, and
 * leftover bits of a final partial group are discarded.
 *
 * Both directions go through 6-bit values: bytes <-> sextets is the
 * arithmetic of 24-bit groups, sextets <-> characters is the alphabet.
 */
module Base64 {
  import opened Wrappers

  type Byte = x: int | 0 <= x < 256

  /** A 6-bit value, the unit a base64 character stands for. */
  type Sextet = x: int | 0 <= x < 64

  // ---------------------------------------------------------------- the alphabet

  predicate IsAlphabetChar(c: char) {
    ('A' <= c <= 'Z') || ('a' <= c <= 'z') || ('0' <= c <= '9') || c == '+' || c == '/'
  }

  /** The character of the RFC 4648 alphabet (its Table 1) for a 6-bit value. */
  function EncodeSextet(v: Sextet): (c: char)
    ensures IsAlphabetChar(c) && c != '=' && SextetOf(c) == v
  {
    if v < 26 then ('A' as int + v) as char
    else if v < 52 then ('a' as int + (v - 26)) as char
    else if v < 62 then ('0' as int + (v - 52)) as char
    else if v == 62 then '+'
    else '/'
  }

  function SextetOf(c: char): Sextet
    requires IsAlphabetChar(c)
  {
    if 'A' <= c <= 'Z' then c as int - 'A' as int
    else if 'a' <= c <= 'z' then c as int - 'a' as int + 26
    else if '0' <= c <= '9' then c as int - '0' as int + 52
    else if c == '+' then 62
    else 63
  }

  predicate AllAlphabet(s: string) {
    forall i :: 0 <= i < |s| ==> IsAlphabetChar(s[i])
  }

  function SextetChars(vs: seq<Sextet>): (s: string)
    ensures |s| == |vs| && AllAlphabet(s)
  {
    seq(|vs|, i requires 0 <= i < |vs| => EncodeSextet(vs[i]))
  }

  function CharSextets(s: string): (vs: seq<Sextet>)
    requires AllAlphabet(s)
    ensures |vs| == |s|
  {
    seq(|s|, i requires 0 <= i < |s| => SextetOf(s[i]))
  }

  /** The ASCII whitespace set of the WHATWG Infra standard: TAB, LF, FF, CR, SPACE. */
  predicate IsAsciiWhitespace(c: char) {
    c == '\t' || c == '\n' || c == '\U{000C}' || c == '\r' || c == ' '
  }

  // ---------------------------------------------------------------- 24-bit groups

  /** Three bytes become four sextets; a final group of two or one bytes becomes three or two. */
  function ToSextets(bs: seq<Byte>): seq<Sextet> {
    if |bs| >= 3 then
      [bs[0] / 4, (bs[0] % 4) * 16 + bs[1] / 16, (bs[1] % 16) * 4 + bs[2] / 64, bs[2] % 64] + ToSextets(bs[3..])
    else if |bs| == 2 then
      [bs[0] / 4, (bs[0] % 4) * 16 + bs[1] / 16, (bs[1] % 16) * 4]
    else if |bs| == 1 then
      [bs[0] / 4, (bs[0] % 4) * 16]
    else []
  }

  /** Four sextets become three bytes; a final group of three or two becomes two or one, the spare bits dropped. */
  function FromSextets(vs: seq<Sextet>): seq<Byte>
    requires |vs| % 4 != 1
  {
    if |vs| < 2 then []
    else
      var b0: Byte := vs[0] as int * 4 + vs[1] as int / 16;
      if |vs| == 2 then [b0]
      else
        var b1: Byte := (vs[1] as int % 16) * 16 + vs[2] as int / 4;
        if |vs| == 3 then [b0, b1]
        else
          var b2: Byte := (vs[2] as int % 4) * 64 + vs[3] as int;
          [b0, b1, b2] + FromSextets(vs[4..])
  }

  // ---------------------------------------------------------------- encoding and decoding

  function Padding(n: nat): string {
    if n % 3 == 1 then "==" else if n % 3 == 2 then "=" else ""
  }

  /** The encoding without its '=' padding. */
  function EncodeUnpadded(bs: seq<Byte>): string {
    SextetChars(ToSextets(bs))
  }

  /** Base64 as section 4 of RFC 4648 defines it, padded to a multiple of four characters. */
  function Encode(bs: seq<Byte>): string {
    EncodeUnpadded(bs) + Padding(|bs|)
  }

  function RemoveWhitespace(s: string): (r: string)
    ensures forall i :: 0 <= i < |r| ==> !IsAsciiWhitespace(r[i])
  {
    if s == [] then []
    else if IsAsciiWhitespace(s[0]) then RemoveWhitespace(s[1..])
    else [s[0]] + RemoveWhitespace(s[1..])
  }

  /** Step 2 of forgiving-base64 decode: drop one or two trailing '=' when the length is a multiple of four. */
  function StripPadding(s: string): string {
    if |s| % 4 == 0 && |s| >= 2 && s[|s| - 1] == '=' && s[|s| - 2] == '=' then s[..|s| - 2]
    else if |s| % 4 == 0 && |s| >= 1 && s[|s| - 1] == '=' then s[..|s| - 1]
    else s
  }

  /** The WHATWG forgiving-base64 decode, which `atob` runs; None is the failure `atob` throws on. */
  function ForgivingDecode(s: string): Option<seq<Byte>> {
    var t := StripPadding(RemoveWhitespace(s));
    if |t| % 4 == 1 then None
    else if !AllAlphabet(t) then None
    else Some(FromSextets(CharSextets(t)))
  }

  /** `atob`: the decoded bytes as a "binary string", one character per byte. */
  function Atob(s: string): (r: Option<string>)
    ensures r.Some? <==> ForgivingDecode(s).Some?
    ensures r.Some? ==> |r.value| == |ForgivingDecode(s).value|
                        && forall i :: 0 <= i < |r.value| ==> r.value[i] as int == ForgivingDecode(s).value[i]
  {
    match ForgivingDecode(s)
    case None => None
    case Some(bs) => Some(seq(|bs|, i requires 0 <= i < |bs| => bs[i] as char))
  }

  /**
   * `_base64ToArrayBuffer`: run `atob` and copy each character code into a
   * fresh byte array.  A failure of `atob` is the exception the source lets
   * escape to its caller, here None.
   */
  method Base64ToArrayBuffer(base64: string) returns (r: Option<seq<Byte>>)
    ensures r == ForgivingDecode(base64)
  {
    var binary := Atob(base64);
    if binary.None? {
      return None;
    }
    var binaryString := binary.value;
    var bytes := new Byte[|binaryString|];
    var i := 0;
    while i < |binaryString|
      invariant 0 <= i <= |binaryString|
      invariant forall k :: 0 <= k < i ==> bytes[k] == binaryString[k] as int
    {
      bytes[i] := binaryString[i] as int;
      i := i + 1;
    }
    assert bytes[..] == ForgivingDecode(base64).value;
    r := Some(bytes[..]);
  }

  // ---------------------------------------------------------------- data URLs

  /** A browser's `FileReader.readAsDataURL` on an untyped slice (RFC 2397). */
  function DataUrl(bs: seq<Byte>): string {
    "data:application/octet-stream;base64," + Encode(bs)
  }

  /** JavaScript's `s.split(',')[1]`: the text between the first and the second comma, if any comma. */
  function SecondCommaField(s: string): Option<string> {
    if ',' !in s then None else Some(UpToComma(AfterComma(s)))
  }

  function AfterComma(s: string): (r: string)
    requires ',' in s
    ensures |r| < |s|
  {
    if s[0] == ',' then s[1..] else AfterComma(s[1..])
  }

  function UpToComma(s: string): string {
    if s == [] || s[0] == ',' then [] else [s[0]] + UpToComma(s[1..])
  }

  /** The payload `split(',')[1]` cuts out of the slice's data URL. */
  function DataUrlPayload(chunk: seq<Byte>): Option<string> {
    SecondCommaField(DataUrl(chunk))
  }

  /** `_readChunkAsBase64`: read the slice as a data URL and keep its payload. */
  method ReadChunkAsBase64(chunk: seq<Byte>) returns (base64: string)
    ensures base64 == Encode(chunk)
  {
    var payload := DataUrlPayload(chunk);
    ReadChunkIsEncode(chunk);
    base64 := payload.value;
  }

  // ---------------------------------------------------------------- properties

  /** Three bytes make four sextets per group; a final group of one or two bytes makes two or three. */
  lemma {:induction false} ToSextetsLength(bs: seq<Byte>)
    ensures |ToSextets(bs)| == 4 * (|bs| / 3) + (if |bs| % 3 == 0 then 0 else |bs| % 3 + 1)
    decreases |bs|
  {
    if |bs| >= 3 {
      ToSextetsLength(bs[3..]);
    }
  }

  /** Regrouping the sextets of some bytes gives those bytes back. */
  lemma {:induction false} FromToSextets(bs: seq<Byte>)
    ensures |ToSextets(bs)| % 4 != 1 && FromSextets(ToSextets(bs)) == bs
    decreases |bs|
  {
    ToSextetsLength(bs);
    var vs := ToSextets(bs);
    if |bs| >= 3 {
      FromToSextets(bs[3..]);
      assert vs[4..] == ToSextets(bs[3..]);
      assert bs == bs[..3] + bs[3..];
    }
  }

  lemma CharSextetsInverse(vs: seq<Sextet>)
    ensures CharSextets(SextetChars(vs)) == vs
  {
  }

  /**
   * The encoded text is a whole number of four-character groups, one group
   * per three bytes (the last one padded), drawn from the alphabet and '='.
   */
  lemma EncodeShape(bs: seq<Byte>)
    ensures var s := Encode(bs);
      && |s| == 4 * ((|bs| + 2) / 3)
      && forall i :: 0 <= i < |s| ==> IsAlphabetChar(s[i]) || s[i] == '='
  {
    ToSextetsLength(bs);
    var s := Encode(bs);
    var u := EncodeUnpadded(bs);
    forall i | 0 <= i < |s| ensures IsAlphabetChar(s[i]) || s[i] == '=' {
      if i >= |u| { assert s[i] == Padding(|bs|)[i - |u|]; }
    }
  }

  lemma {:induction false} NoWhitespaceUnchanged(s: string)
    requires forall i :: 0 <= i < |s| ==> !IsAsciiWhitespace(s[i])
    ensures RemoveWhitespace(s) == s
  {
    if s != [] {
      NoWhitespaceUnchanged(s[1..]);
    }
  }

  /** Removing the '=' padding of a group-aligned text built from the alphabet leaves the unpadded text. */
  lemma StripPaddingAppended(u: string, p: string)
    requires AllAlphabet(u)
    requires (p == "" && |u| % 4 == 0) || (p == "=" && |u| % 4 == 3) || (p == "==" && |u| % 4 == 2)
    ensures StripPadding(u + p) == u
  {
    var s := u + p;
    if p == "==" {
      assert s[..|s| - 2] == u;
    } else if p == "=" {
      assert s[|s| - 2] == u[|u| - 1];
      assert s[..|s| - 1] == u;
    } else {
      assert s == u;
      assert |u| > 0 ==> !IsAlphabetChar('=');
    }
  }

  lemma StripPaddingOfEncode(bs: seq<Byte>)
    ensures StripPadding(Encode(bs)) == EncodeUnpadded(bs)
  {
    ToSextetsLength(bs);
    StripPaddingAppended(EncodeUnpadded(bs), Padding(|bs|));
  }

  /** What `atob` recovers from what the sender's data URL carries: the very bytes that were encoded. */
  lemma DecodeEncode(bs: seq<Byte>)
    ensures ForgivingDecode(Encode(bs)) == Some(bs)
  {
    var s := Encode(bs);
    EncodeShape(bs);
    assert forall i :: 0 <= i < |s| ==> !IsAsciiWhitespace(s[i]);
    NoWhitespaceUnchanged(s);
    StripPaddingOfEncode(bs);
    FromToSextets(bs);
    CharSextetsInverse(ToSextets(bs));
  }

  lemma {:induction false} AfterCommaOfPrefix(p: string, rest: string)
    requires ',' !in p
    ensures ',' in p + [','] + rest && AfterComma(p + [','] + rest) == rest
  {
    assert (p + [','] + rest)[|p|] == ',';
    if p != [] {
      assert (p + [','] + rest)[1..] == p[1..] + [','] + rest;
      AfterCommaOfPrefix(p[1..], rest);
    }
  }

  lemma {:induction false} UpToCommaNoComma(s: string)
    requires ',' !in s
    ensures UpToComma(s) == s
  {
    if s != [] {
      UpToCommaNoComma(s[1..]);
    }
  }

  /** The payload cut out of the data URL is exactly the RFC 4648 encoding of the slice. */
  lemma ReadChunkIsEncode(chunk: seq<Byte>)
    ensures DataUrlPayload(chunk) == Some(Encode(chunk))
  {
    var header := "data:application/octet-stream;base64";
    var e := Encode(chunk);
    assert DataUrl(chunk) == header + [','] + e;
    AfterCommaOfPrefix(header, e);
    EncodeShape(chunk);
    UpToCommaNoComma(e);
  }
}

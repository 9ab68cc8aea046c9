/** The base 64 encoding of section 4 of RFC 4648, the URL and filename safe
    alphabet of its section 5, and the two decoders the system relies on:
    the browser's forgiving decoder behind `atob` and the URL decoder of
    `java.util.Base64`. Bytes are integers in 0..255. */
module Base64 {
  import opened Wrappers

  type Byte = x: int | 0 <= x < 256

  type Sextet = x: int | 0 <= x < 64

  /** Table 1 of RFC 4648: the character that stands for a 6-bit value. */
  function CharOf(v: Sextet): (c: char)
    ensures IsAlphabetChar(c)
  {
    if v < 26 then ('A' as int + v) as char
    else if v < 52 then ('a' as int + (v - 26)) as char
    else if v < 62 then ('0' as int + (v - 52)) as char
    else if v == 62 then '+'
    else '/'
  }

  predicate IsAlphabetChar(c: char) {
    ('A' <= c <= 'Z') || ('a' <= c <= 'z') || ('0' <= c <= '9') || c == '+' || c == '/'
  }

  /** Table 1 read backwards. */
  function ValueOf(c: char): (v: Sextet)
    requires IsAlphabetChar(c)
    ensures CharOf(v) == c
  {
    if 'A' <= c <= 'Z' then c as int - 'A' as int
    else if 'a' <= c <= 'z' then c as int - 'a' as int + 26
    else if '0' <= c <= '9' then c as int - '0' as int + 52
    else if c == '+' then 62
    else 63
  }

  lemma ValueOfCharOf(v: Sextet)
    ensures ValueOf(CharOf(v)) == v
  {
  }

  predicate AllAlphabet(s: seq<char>) {
    forall i | 0 <= i < |s| :: IsAlphabetChar(s[i])
  }

  /** The four sextets of a 24-bit group x y z, most significant first. */
  function Sextet1(x: Byte): Sextet { x / 4 }

  function Sextet2(x: Byte, y: Byte): Sextet { x % 4 * 16 + y / 16 }

  function Sextet3(y: Byte, z: Byte): Sextet { y % 16 * 4 + z / 64 }

  function Sextet4(z: Byte): Sextet { z % 64 }

  /** The four characters of one 24-bit group. */
  function GroupChars(x: Byte, y: Byte, z: Byte): seq<char> {
    [CharOf(Sextet1(x)), CharOf(Sextet2(x, y)), CharOf(Sextet3(y, z)), CharOf(Sextet4(z))]
  }

  /** The encoded characters of section 4 of RFC 4648, before padding: every
      24-bit group gives four characters, a final 8-bit quantum two and a
      final 16-bit quantum three (the missing bits are zero). */
  function EncodeQuanta(b: seq<Byte>): (s: seq<char>)
    ensures AllAlphabet(s) && |s| % 4 != 1
    decreases |b|
  {
    if |b| == 0 then []
    else if |b| == 1 then [CharOf(Sextet1(b[0])), CharOf(Sextet2(b[0], 0))]
    else if |b| == 2 then [CharOf(Sextet1(b[0])), CharOf(Sextet2(b[0], b[1])), CharOf(Sextet3(b[1], 0))]
    else
      var rest := EncodeQuanta(b[3..]);
      assert (|rest| + 4) % 4 == |rest| % 4;
      GroupChars(b[0], b[1], b[2]) + rest
  }

  /** Encoding n bytes gives the ceiling of 4n/3 characters; the final
      quantum has two characters when n mod 3 is 1 and three when it is 2. */
  lemma {:induction false} EncodeQuantaLength(b: seq<Byte>)
    ensures |EncodeQuanta(b)| == (4 * |b| + 2) / 3
    ensures |EncodeQuanta(b)| % 4 == (if |b| % 3 == 0 then 0 else |b| % 3 + 1)
    decreases |b|
  {
    if |b| >= 3 {
      EncodeQuantaLength(b[3..]);
      QuantaLengthStep(|b|, |EncodeQuanta(b[3..])|);
    }
  }

  /** One more 24-bit group adds four characters and leaves the final quantum as it was. */
  lemma QuantaLengthStep(n: nat, m: nat)
    requires n >= 3 && m == (4 * (n - 3) + 2) / 3
    ensures m + 4 == (4 * n + 2) / 3
    ensures (n - 3) % 3 == n % 3 && (m + 4) % 4 == m % 4
  {
    var k, r := (n - 3) / 3, (n - 3) % 3;
    assert n - 3 == 3 * k + r && n == 3 * (k + 1) + r;
    if r == 0 {
      assert m == 4 * k && (4 * n + 2) / 3 == 4 * k + 4;
    } else if r == 1 {
      assert m == 4 * k + 2 && (4 * n + 2) / 3 == 4 * k + 6;
    } else {
      assert m == 4 * k + 3 && (4 * n + 2) / 3 == 4 * k + 7;
    }
  }

  /** The pad characters that complete the final quantum (section 4 of RFC 4648, cases 2 and 3). */
  function Padding(n: nat): string {
    if n % 3 == 1 then "==" else if n % 3 == 2 then "=" else ""
  }

  /** Base 64 of section 4 of RFC 4648 with padding: what `btoa` produces for
      a binary string. */
  function Encode(b: seq<Byte>): (s: seq<char>)
    ensures |s| % 4 == 0 && |s| == 4 * ((|b| + 2) / 3)
  {
    EncodeQuantaLength(b);
    PaddedLength(|b|);
    EncodeQuanta(b) + Padding(|b|)
  }

  lemma PaddedLength(n: nat)
    ensures (4 * n + 2) / 3 + |Padding(n)| == 4 * ((n + 2) / 3)
    ensures (4 * ((n + 2) / 3)) % 4 == 0
  {
    var k, r := n / 3, n % 3;
    assert n == 3 * k + r;
    if r == 0 {
      assert (4 * n + 2) / 3 == 4 * k;
      assert (n + 2) / 3 == k;
    } else if r == 1 {
      assert (4 * n + 2) / 3 == 4 * k + 2;
      assert (n + 2) / 3 == k + 1;
    } else {
      assert (4 * n + 2) / 3 == 4 * k + 3;
      assert (n + 2) / 3 == k + 1;
    }
  }

  /** Reverses EncodeQuanta. Bits below the last whole byte of a final
      partial quantum are dropped, as `atob` and `java.util.Base64` do. */
  function DecodeQuanta(s: seq<char>): (b: seq<Byte>)
    requires AllAlphabet(s) && |s| % 4 != 1
    decreases |s|
  {
    if |s| == 0 then []
    else if |s| == 2 then [FirstByte(ValueOf(s[0]), ValueOf(s[1]))]
    else if |s| == 3 then
      [FirstByte(ValueOf(s[0]), ValueOf(s[1])), SecondByte(ValueOf(s[1]), ValueOf(s[2]))]
    else
      assert (|s| - 4) % 4 == |s| % 4;
      DecodeGroupChars(s[0], s[1], s[2], s[3]) + DecodeQuanta(s[4..])
  }

  /** The three bytes of four alphabet characters. */
  function DecodeGroupChars(a: char, b: char, c: char, d: char): seq<Byte>
    requires IsAlphabetChar(a) && IsAlphabetChar(b) && IsAlphabetChar(c) && IsAlphabetChar(d)
  {
    [FirstByte(ValueOf(a), ValueOf(b)), SecondByte(ValueOf(b), ValueOf(c)), ThirdByte(ValueOf(c), ValueOf(d))]
  }

  /** The byte held by the first sextet and the top two bits of the second. */
  function FirstByte(a: Sextet, b: Sextet): Byte {
    a * 4 + b / 16
  }

  /** The byte held by the low four bits of the second sextet and the top four of the third. */
  function SecondByte(b: Sextet, c: Sextet): Byte {
    b % 16 * 16 + c / 4
  }

  /** The byte held by the low two bits of the third sextet and the fourth. */
  function ThirdByte(c: Sextet, d: Sextet): Byte {
    c % 4 * 64 + d
  }

  /** The forgiving decoder that `atob` applies, on bytes: with a length that
      is a multiple of four, one or two trailing pad characters are dropped;
      a remaining length of 1 modulo 4 or any character outside the alphabet
      is an error. */
  function Decode(s: seq<char>): (r: Option<seq<Byte>>)
  {
    var data := StripPadding(s);
    if |data| % 4 == 1 || !AllAlphabet(data) then None
    else Some(DecodeQuanta(data))
  }

  /** The data part of the forgiving decoder's input, its trailing pad characters dropped. */
  function StripPadding(s: seq<char>): seq<char> {
    if |s| % 4 == 0 && |s| >= 2 && s[|s| - 2..] == "==" then s[..|s| - 2]
    else if |s| % 4 == 0 && |s| >= 1 && s[|s| - 1] == '=' then s[..|s| - 1]
    else s
  }

  /** One 24-bit group: the four sextets read back give the three bytes. */
  lemma GroupRoundTrip(x: Byte, y: Byte, z: Byte)
    ensures FirstByte(Sextet1(x), Sextet2(x, y)) == x
    ensures SecondByte(Sextet2(x, y), Sextet3(y, z)) == y
    ensures ThirdByte(Sextet3(y, z), Sextet4(z)) == z
  {
  }

  lemma DecodeGroup(x: Byte, y: Byte, z: Byte)
    ensures DecodeGroupChars(CharOf(Sextet1(x)), CharOf(Sextet2(x, y)), CharOf(Sextet3(y, z)), CharOf(Sextet4(z)))
         == [x, y, z]
  {
    ValueOfCharOf(Sextet1(x));
    ValueOfCharOf(Sextet2(x, y));
    ValueOfCharOf(Sextet3(y, z));
    ValueOfCharOf(Sextet4(z));
    GroupRoundTrip(x, y, z);
  }

  /** A final quantum of one or two bytes survives the round trip. */
  lemma DecodeFinal(b: seq<Byte>)
    requires 1 <= |b| <= 2
    ensures DecodeQuanta(EncodeQuanta(b)) == b
  {
    if |b| == 1 {
      DecodeFinalOne(b[0]);
      assert b == [b[0]];
    } else {
      DecodeFinalTwo(b[0], b[1]);
      assert b == [b[0], b[1]];
    }
  }

  lemma DecodeFinalOne(x: Byte)
    ensures DecodeQuanta([CharOf(Sextet1(x)), CharOf(Sextet2(x, 0))]) == [x]
  {
    ValueOfCharOf(Sextet1(x));
    ValueOfCharOf(Sextet2(x, 0));
    GroupRoundTrip(x, 0, 0);
  }

  lemma DecodeFinalTwo(x: Byte, y: Byte)
    ensures DecodeQuanta([CharOf(Sextet1(x)), CharOf(Sextet2(x, y)), CharOf(Sextet3(y, 0))]) == [x, y]
  {
    ValueOfCharOf(Sextet1(x));
    ValueOfCharOf(Sextet2(x, y));
    ValueOfCharOf(Sextet3(y, 0));
    GroupRoundTrip(x, y, 0);
  }

  /** Decoding a group of four characters followed by more characters. */
  lemma DecodeQuantaGroup(g: seq<char>, rest: seq<char>)
    requires |g| == 4 && AllAlphabet(g) && AllAlphabet(rest) && |rest| % 4 != 1
    ensures AllAlphabet(g + rest) && |g + rest| % 4 != 1
    ensures DecodeQuanta(g + rest) == DecodeGroupChars(g[0], g[1], g[2], g[3]) + DecodeQuanta(rest)
  {
    var s := g + rest;
    assert s[0] == g[0] && s[1] == g[1] && s[2] == g[2] && s[3] == g[3];
    assert s[4..] == rest;
  }

  lemma SplitGroup(b: seq<Byte>)
    requires |b| >= 3
    ensures b == [b[0], b[1], b[2]] + b[3..]
  {
    assert b[..3] == [b[0], b[1], b[2]];
    assert b == b[..3] + b[3..];
  }

  lemma {:induction false} DecodeEncodeQuanta(b: seq<Byte>)
    ensures DecodeQuanta(EncodeQuanta(b)) == b
    decreases |b|
  {
    if |b| == 0 {
    } else if |b| < 3 {
      DecodeFinal(b);
    } else {
      var rest := EncodeQuanta(b[3..]);
      var g := GroupChars(b[0], b[1], b[2]);
      assert EncodeQuanta(b) == g + rest;
      DecodeQuantaGroup(g, rest);
      assert DecodeGroupChars(g[0], g[1], g[2], g[3]) == [b[0], b[1], b[2]] by {
        DecodeGroup(b[0], b[1], b[2]);
      }
      assert DecodeQuanta(rest) == b[3..] by {
        DecodeEncodeQuanta(b[3..]);
      }
      SplitGroup(b);
    }
  }

  /** A final quantum of four characters carries no padding to drop. */
  lemma StripNoPad(q: seq<char>)
    requires AllAlphabet(q) && |q| % 4 == 0
    ensures StripPadding(q) == q
  {
    if |q| >= 1 {
      var last := q[|q| - 1];
      assert IsAlphabetChar(last);
      assert |q| >= 2 ==> q[|q| - 2..][1] == last;
    }
  }

  /** "==" completes a final quantum of two characters. */
  lemma StripTwoPads(q: seq<char>)
    requires |q| % 4 == 2
    ensures StripPadding(q + "==") == q
  {
    var s := q + "==";
    assert |s| % 4 == 0;
    assert s[|s| - 2..] == "==";
    assert s[..|s| - 2] == q;
  }

  /** "=" completes a final quantum of three characters. */
  lemma StripOnePad(q: seq<char>)
    requires AllAlphabet(q) && |q| % 4 == 3
    ensures StripPadding(q + "=") == q
  {
    var s := q + "=";
    assert |s| % 4 == 0;
    var c := q[|q| - 1];
    assert IsAlphabetChar(c);
    assert s[|s| - 2..][0] == c;
    assert s[|s| - 1] == '=';
    assert s[..|s| - 1] == q;
  }

  /** Round trip of section 4 of RFC 4648: decoding the padded encoding gives the bytes back. */
  lemma DecodeEncode(b: seq<Byte>)
    ensures Decode(Encode(b)) == Some(b)
  {
    var q := EncodeQuanta(b);
    DecodeEncodeQuanta(b);
    EncodeQuantaLength(b);
    if |b| % 3 == 0 {
      assert Encode(b) == q;
      StripNoPad(q);
    } else if |b| % 3 == 1 {
      assert Encode(b) == q + "==";
      StripTwoPads(q);
    } else {
      assert Encode(b) == q + "=";
      StripOnePad(q);
    }
  }

  // ---------------------------------------------------------------------
  // Character-by-character rewriting, as JavaScript's `replace(/x/g, ...)`.

  /** Every occurrence of `from` replaced by `to`. */
  function ReplaceAll(s: seq<char>, from: char, to: char): (r: seq<char>)
    ensures |r| == |s|
    ensures forall i | 0 <= i < |s| :: r[i] == (if s[i] == from then to else s[i])
  {
    seq(|s|, i requires 0 <= i < |s| => if s[i] == from then to else s[i])
  }

  /** Every occurrence of `c` deleted, the rest kept in order. */
  function RemoveAll(s: seq<char>, c: char): (r: seq<char>)
    ensures c !in r
    ensures forall d | d != c :: d in r <==> d in s
    ensures |r| <= |s|
  {
    if s == [] then []
    else (if s[0] == c then [] else [s[0]]) + RemoveAll(s[1..], c)
  }

  lemma {:induction false} RemoveAllAppend(s: seq<char>, t: seq<char>, c: char)
    ensures RemoveAll(s + t, c) == RemoveAll(s, c) + RemoveAll(t, c)
    decreases |s|
  {
    if s != [] {
      assert (s + t)[1..] == s[1..] + t;
      RemoveAllAppend(s[1..], t, c);
    } else {
      assert s + t == t;
    }
  }

  lemma {:induction false} RemoveAllAbsent(s: seq<char>, c: char)
    requires c !in s
    ensures RemoveAll(s, c) == s
    decreases |s|
  {
    if s != [] {
      RemoveAllAbsent(s[1..], c);
      assert s == [s[0]] + s[1..];
    }
  }

  // ---------------------------------------------------------------------
  // The URL and filename safe alphabet of section 5 of RFC 4648.

  /** Section 5: '-' for value 62 and '_' for 63. */
  function ToUrlAlphabet(s: seq<char>): seq<char> {
    ReplaceAll(ReplaceAll(s, '+', '-'), '/', '_')
  }

  /** The reverse mapping, as `base64UrlDecode` applies it. */
  function FromUrlAlphabet(s: seq<char>): seq<char> {
    ReplaceAll(ReplaceAll(s, '-', '+'), '_', '/')
  }

  predicate IsUrlChar(c: char) {
    ('A' <= c <= 'Z') || ('a' <= c <= 'z') || ('0' <= c <= '9') || c == '-' || c == '_'
  }

  predicate AllUrl(s: seq<char>) {
    forall i | 0 <= i < |s| :: IsUrlChar(s[i])
  }

  lemma UrlAlphabetRoundTrip(s: seq<char>)
    requires AllAlphabet(s)
    ensures AllUrl(ToUrlAlphabet(s))
    ensures FromUrlAlphabet(ToUrlAlphabet(s)) == s
  {
  }

  lemma FromUrlAlphabetOfUrl(s: seq<char>)
    requires AllUrl(s)
    ensures AllAlphabet(FromUrlAlphabet(s))
  {
  }

  /** `Base64.getUrlEncoder().withoutPadding().encodeToString(b)`. */
  function JavaUrlEncode(b: seq<Byte>): (s: seq<char>)
    ensures AllUrl(s) && '=' !in s
    ensures |s| == (4 * |b| + 2) / 3
  {
    EncodeQuantaLength(b);
    UrlAlphabetRoundTrip(EncodeQuanta(b));
    ToUrlAlphabet(EncodeQuanta(b))
  }

  /** The index of the first `c` in `s`, or |s| when there is none. */
  function IndexOfChar(s: seq<char>, c: char): (i: nat)
    ensures i <= |s| && (i < |s| ==> s[i] == c) && c !in s[..i]
  {
    if s == [] then 0
    else if s[0] == c then 0
    else
      var j := 1 + IndexOfChar(s[1..], c);
      assert s[..j] == [s[0]] + s[1..][..j - 1];
      j
  }

  /** `Base64.getUrlDecoder().decode(s)`: characters of the RFC 4648 section 5
      alphabet; padding is optional, but when present it must complete the
      final quantum exactly ("==" after two characters, "=" after three) and
      nothing may follow it; a final quantum of one character is an error.
      None stands for the IllegalArgumentException it throws. */
  function JavaUrlDecode(s: seq<char>): (r: Option<seq<Byte>>)
    ensures r.Some? ==> AllUrl(s[..IndexOfChar(s, '=')]) && |s[..IndexOfChar(s, '=')]| % 4 != 1
    ensures '=' !in s && AllUrl(s) && |s| % 4 != 1 ==> r.Some?
  {
    var i := IndexOfChar(s, '=');
    var core, rest := s[..i], s[i..];
    if !AllUrl(core) || |core| % 4 == 1 then None
    else if rest == [] || (|core| % 4 == 2 && rest == "==") || (|core| % 4 == 3 && rest == "=") then
      FromUrlAlphabetOfUrl(core);
      Some(DecodeQuanta(FromUrlAlphabet(core)))
    else None
  }

  /** Round trip of the server's codec: every unpadded URL-safe encoding
      decodes to the bytes it was made from. */
  lemma JavaUrlRoundTrip(b: seq<Byte>)
    ensures JavaUrlDecode(JavaUrlEncode(b)) == Some(b)
  {
    var s := JavaUrlEncode(b);
    var q := EncodeQuanta(b);
    assert IndexOfChar(s, '=') == |s|;
    assert s[..|s|] == s;
    UrlAlphabetRoundTrip(q);
    DecodeEncodeQuanta(b);
  }

  /** Every string the server's encoder can produce is in its own canonical form. */
  lemma JavaUrlEncodeInjective(a: seq<Byte>, b: seq<Byte>)
    requires JavaUrlEncode(a) == JavaUrlEncode(b)
    ensures a == b
  {
    JavaUrlRoundTrip(a);
    JavaUrlRoundTrip(b);
  }

  // ---------------------------------------------------------------------
  // JavaScript binary strings: one UTF-16 code unit below 256 per byte.

  predicate IsBinaryString(s: seq<char>) {
    forall i | 0 <= i < |s| :: s[i] as int < 256
  }

  /** `String.fromCharCode` applied to each byte. */
  function Latin1(b: seq<Byte>): (s: seq<char>)
    ensures |s| == |b| && IsBinaryString(s)
    ensures forall i | 0 <= i < |b| :: s[i] as int == b[i]
  {
    seq(|b|, i requires 0 <= i < |b| => b[i] as char)
  }

  /** `charCodeAt` applied to each code unit of a binary string. */
  function Codes(s: seq<char>): (b: seq<Byte>)
    requires IsBinaryString(s)
    ensures |b| == |s|
  {
    seq(|s|, i requires 0 <= i < |s| => s[i] as int)
  }

  /** `btoa`: None is the InvalidCharacterError thrown for a code unit above 255. */
  function Btoa(data: seq<char>): (r: Option<seq<char>>)
    ensures r.Some? <==> IsBinaryString(data)
  {
    if IsBinaryString(data) then Some(Encode(Codes(data))) else None
  }

  /** `atob`: None is the InvalidCharacterError thrown for malformed input. */
  function Atob(data: seq<char>): (r: Option<seq<char>>)
    ensures r.Some? <==> Decode(data).Some?
    ensures r.Some? ==> r.value == Latin1(Decode(data).value)
  {
    match Decode(data)
    case None => None
    case Some(b) => Some(Latin1(b))
  }

  lemma CodesLatin1(b: seq<Byte>)
    ensures Codes(Latin1(b)) == b
  {
  }
}

/** The base64url helpers of the browser composable `usePasskey`:
    `base64UrlEncode` turns a buffer into unpadded URL-safe text through a
    binary string and `btoa`; `base64UrlDecode` restores the standard
    alphabet and the padding, calls `atob` and copies the code units into a
    fresh byte array. */
module UsePasskey {
  import opened Wrappers
  import opened Base64

  /** What `base64UrlEncode` returns for the bytes: the padded encoding of
      section 4 of RFC 4648 with '+' and '/' replaced and every '=' removed. */
  function EncodeUrl(b: seq<Byte>): seq<char> {
    RemoveAll(ToUrlAlphabet(Encode(b)), '=')
  }

  /** `'='.repeat(n)`. */
  function Pads(n: nat): (r: seq<char>)
    ensures |r| == n && forall i | 0 <= i < n :: r[i] == '='
  {
    seq(n, _ => '=')
  }

  /** The padded standard-alphabet text that `base64UrlDecode` hands to `atob`. */
  function Padded(s: seq<char>): (r: seq<char>)
    ensures |r| % 4 == 0 && |s| <= |r| < |s| + 4
    ensures r[..|s|] == FromUrlAlphabet(s)
    ensures forall i | |s| <= i < |r| :: r[i] == '='
  {
    var base64 := FromUrlAlphabet(s);
    base64 + Pads((4 - |base64| % 4) % 4)
  }

  /** The bytes `base64UrlDecode` returns, or None when `atob` throws. */
  function DecodeUrl(s: seq<char>): Option<seq<Byte>> {
    Decode(Padded(s))
  }

  method Base64UrlEncode(bytes: array<Byte>) returns (text: string)
    ensures text == EncodeUrl(bytes[..])
  {
    var binary := "";
    for i := 0 to bytes.Length
      invariant binary == Latin1(bytes[..i])
    {
      binary := binary + [bytes[i] as char];
    }
    assert bytes[..bytes.Length] == bytes[..];
    CodesLatin1(bytes[..]);
    var encoded := Btoa(binary).value;
    text := RemoveAll(ReplaceAll(ReplaceAll(encoded, '+', '-'), '/', '_'), '=');
  }

  method Base64UrlDecode(text: string) returns (r: Option<array<Byte>>)
    ensures r.None? <==> DecodeUrl(text).None?
    ensures r.Some? ==> fresh(r.value) && r.value[..] == DecodeUrl(text).value
  {
    var base64 := ReplaceAll(ReplaceAll(text, '-', '+'), '_', '/');
    var padded := base64 + Pads((4 - |base64| % 4) % 4);
    assert padded == Padded(text);
    var decoded := Atob(padded);
    if decoded.None? {
      return None;
    }
    var binary := decoded.value;
    var bytes := new Byte[|binary|];
    for i := 0 to |binary|
      invariant bytes[..i] == Codes(binary[..i])
    {
      bytes[i] := binary[i] as int;
    }
    assert bytes[..] == Codes(binary) by {
      assert bytes[..] == bytes[..|binary|];
      assert binary[..|binary|] == binary;
    }
    assert Codes(binary) == DecodeUrl(text).value by {
      assert binary == Latin1(DecodeUrl(text).value);
      CodesLatin1(DecodeUrl(text).value);
    }
    return Some(bytes);
  }

  /** The encoder's output uses only the URL-safe alphabet: never '+', '/' or '='. */
  lemma EncodeUrlAlphabet(b: seq<Byte>)
    ensures AllUrl(EncodeUrl(b))
    ensures '+' !in EncodeUrl(b) && '/' !in EncodeUrl(b) && '=' !in EncodeUrl(b)
  {
    EncodeUrlIsJavaUrlEncode(b);
  }

  /** The browser's encoder and the server's `getUrlEncoder().withoutPadding()`
      produce the same text. */
  lemma EncodeUrlIsJavaUrlEncode(b: seq<Byte>)
    ensures EncodeUrl(b) == JavaUrlEncode(b)
  {
    var q := EncodeQuanta(b);
    var p := Padding(|b|);
    assert Encode(b) == q + p;
    assert ToUrlAlphabet(q + p) == ToUrlAlphabet(q) + p;
    RemoveAllAppend(ToUrlAlphabet(q), p, '=');
    assert RemoveAll(p, '=') == [] by {
      if p == "==" {
        assert p[1..] == "=";
      }
    }
    UrlAlphabetRoundTrip(q);
    RemoveAllAbsent(ToUrlAlphabet(q), '=');
  }

  /** The length of the output is the ceiling of 4n/3. */
  lemma EncodeUrlLength(b: seq<Byte>)
    ensures |EncodeUrl(b)| == (4 * |b| + 2) / 3
  {
    EncodeUrlIsJavaUrlEncode(b);
  }

  /** The round trip of the two helpers: every byte sequence survives
      `base64UrlDecode(base64UrlEncode(b))`. */
  lemma DecodeUrlEncodeUrl(b: seq<Byte>)
    ensures DecodeUrl(EncodeUrl(b)) == Some(b)
  {
    var q := EncodeQuanta(b);
    var s := EncodeUrl(b);
    assert FromUrlAlphabet(s) == q by {
      EncodeUrlIsJavaUrlEncode(b);
      UrlAlphabetRoundTrip(q);
    }
    assert Padded(s) == q + Pads((4 - |q| % 4) % 4);
    RestoredPadding(b);
    assert Padded(s) == Encode(b);
    DecodeEncode(b);
  }

  /** The padding `base64UrlDecode` appends is the padding the encoder removed. */
  lemma RestoredPadding(b: seq<Byte>)
    ensures Pads((4 - |EncodeQuanta(b)| % 4) % 4) == Padding(|b|)
  {
    EncodeQuantaLength(b);
    var p := Pads((4 - |EncodeQuanta(b)| % 4) % 4);
    if |b| % 3 == 1 {
      assert p == [p[0], p[1]];
    } else if |b| % 3 == 2 {
      assert p == [p[0]];
    }
  }

  /** Text from the server's encoder decodes in the browser to the server's bytes
      (the challenge and the user handle of the options). */
  lemma DecodeUrlJavaUrlEncode(b: seq<Byte>)
    ensures DecodeUrl(JavaUrlEncode(b)) == Some(b)
  {
    EncodeUrlIsJavaUrlEncode(b);
    DecodeUrlEncodeUrl(b);
  }

  /** Text from the browser's encoder decodes on the server to the browser's bytes
      (the credential id and the authenticator's responses). */
  lemma JavaUrlDecodeEncodeUrl(b: seq<Byte>)
    ensures JavaUrlDecode(EncodeUrl(b)) == Some(b)
  {
    EncodeUrlIsJavaUrlEncode(b);
    JavaUrlRoundTrip(b);
  }
}

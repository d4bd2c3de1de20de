/**
 Hexadecimal text and the IV / tag / ciphertext envelope of the encrypted database columns.
 The AES-256-GCM cipher, SHA-256 and PBKDF2 are parameters; a std::string's bytes are its chars.
 */
module CryptoHelper {
  import opened Basics

  // ---------- Hexadecimal ----------

  function HexDigit(n: nat): (c: char)
    requires n < 16
    ensures HexValue(c) == Some(n) && IsLowerHex(c)
  {
    if n < 10 then (n + '0' as int) as char else (n - 10 + 'a' as int) as char
  }

  function HexValue(c: char): (v: Option<nat>)
    ensures v.Some? ==> v.value < 16
  {
    if '0' <= c <= '9' then Some(c as int - '0' as int)
    else if 'a' <= c <= 'f' then Some(c as int - 'a' as int + 10)
    else if 'A' <= c <= 'F' then Some(c as int - 'A' as int + 10)
    else None
  }

  predicate IsLowerHex(c: char) {
    '0' <= c <= '9' || 'a' <= c <= 'f'
  }

  predicate LowerHexText(s: string) {
    |s| % 2 == 0 && forall c <- s :: IsLowerHex(c)
  }

  function HexPair(b: byte): (s: string)
    ensures |s| == 2
  {
    [HexDigit(b / 16), HexDigit(b % 16)]
  }

  function Hex(data: seq<byte>): (s: string)
    ensures |s| == 2 * |data|
  {
    if data == [] then "" else HexPair(data[0]) + Hex(data[1..])
  }

  // strtol(text, NULL, 16), as far as texts of at most two characters can show it.

  predicate IsSpace(c: char) {
    c == ' ' || '\t' <= c <= '\r'
  }

  function ParseDigits(s: string, acc: nat): nat {
    if s == "" || HexValue(s[0]).None? then acc
    else ParseDigits(s[1..], 16 * acc + HexValue(s[0]).value)
  }

  function ParseSigned(s: string): int {
    if s == "" then 0
    else if s[0] == '-' then 0 - ParseDigits(s[1..], 0)
    else if s[0] == '+' then ParseDigits(s[1..], 0)
    else ParseDigits(s, 0)
  }

  function Strtol16(s: string): int {
    if s != "" && IsSpace(s[0]) then Strtol16(s[1..]) else ParseSigned(s)
  }

  /** The conversion to unsigned char keeps the value modulo 256. */
  function ParseByte(s: string): byte {
    Strtol16(s) % 256
  }

  function Unhex(s: string): (b: seq<byte>)
    ensures |b| == (|s| + 1) / 2
  {
    if s == "" then []
    else var k := if |s| == 1 then 1 else 2;
         [ParseByte(s[..k])] + Unhex(s[k..])
  }

  method ToHex(data: seq<byte>) returns (s: string)
    ensures s == Hex(data)
  {
    s := "";
    for i := 0 to |data|
      invariant s + Hex(data[i..]) == Hex(data)
    {
      assert data[i..][1..] == data[i + 1..];
      s := s + HexPair(data[i]);
    }
  }

  lemma UnhexFrom(hex: string, i: nat, next: nat)
    requires i < |hex| && next == if i + 2 <= |hex| then i + 2 else |hex|
    ensures Unhex(hex[i..]) == [ParseByte(hex[i..next])] + Unhex(hex[next..])
  {
    hide ParseByte;
    var rest := hex[i..];
    assert rest[..next - i] == hex[i..next] && rest[next - i..] == hex[next..];
  }

  method FromHex(hex: string) returns (bytes: seq<byte>)
    ensures bytes == Unhex(hex)
  {
    bytes := [];
    var i := 0;
    assert hex[0..] == hex;
    while i < |hex|
      invariant 0 <= i <= |hex| + 1
      invariant bytes + Unhex(hex[if i <= |hex| then i else |hex|..]) == Unhex(hex)
    {
      hide ParseByte, Unhex;
      var next := if i + 2 <= |hex| then i + 2 else |hex|;
      var byteString := hex[i..next];
      UnhexFrom(hex, i, next);
      bytes := bytes + [ParseByte(byteString)];
      i := i + 2;
    }
  }

  lemma ParsePair(s: string)
    requires |s| == 2 && HexValue(s[0]).Some? && HexValue(s[1]).Some?
    ensures ParseByte(s) == 16 * HexValue(s[0]).value + HexValue(s[1]).value
  {
    var hi, lo := HexValue(s[0]).value, HexValue(s[1]).value;
    assert !IsSpace(s[0]) && s[0] != '-' && s[0] != '+';
    assert s[1..][1..] == "" && s[1..][0] == s[1];
    assert ParseDigits(s[1..], hi) == 16 * hi + lo;
    assert ParseDigits(s, 0) == ParseDigits(s[1..], hi);
  }

  lemma ParseHexPair(b: byte)
    ensures ParseByte(HexPair(b)) == b
  {
    ParsePair(HexPair(b));
  }

  lemma {:induction false} HexIsLower(data: seq<byte>)
    ensures LowerHexText(Hex(data))
  {
    if data != [] {
      HexIsLower(data[1..]);
      forall c | c in Hex(data) ensures IsLowerHex(c) {
        assert c in HexPair(data[0]) || c in Hex(data[1..]);
      }
    }
  }

  lemma LowerPair(s: string)
    requires |s| == 2 && IsLowerHex(s[0]) && IsLowerHex(s[1])
    ensures HexPair(ParseByte(s)) == s
  {
    ParsePair(s);
    LowerDigit(s[0]);
    LowerDigit(s[1]);
    TwoDigits(HexValue(s[0]).value, HexValue(s[1]).value);
  }

  lemma TwoDigits(hi: nat, lo: nat)
    requires lo < 16
    ensures (16 * hi + lo) / 16 == hi && (16 * hi + lo) % 16 == lo
  {
  }

  lemma LowerDigit(c: char)
    requires IsLowerHex(c)
    ensures HexDigit(HexValue(c).value) == c
  {
  }

  lemma {:induction false} LowerHexSurvives(s: string)
    requires LowerHexText(s)
    ensures Hex(Unhex(s)) == s
  {
    if s != "" {
      var pair, rest := s[..2], s[2..];
      LowerPair(pair);
      LowerHexSurvives(rest);
      hide ParseByte, HexPair;
      assert s == pair + rest;
      assert Unhex(s)[0] == ParseByte(pair) && Unhex(s)[1..] == Unhex(rest);
    }
  }

  /** Decoding then encoding gives the text back exactly for lower-case hex text of even length. */
  lemma HexOfUnhexIff(s: string)
    ensures Hex(Unhex(s)) == s <==> LowerHexText(s)
  {
    HexIsLower(Unhex(s));
    if LowerHexText(s) {
      LowerHexSurvives(s);
    }
  }

  lemma AppendAssociates<T>(a: seq<T>, b: seq<T>, c: seq<T>)
    ensures a + b + c == a + (b + c)
  {
  }

  lemma UnhexPair(pair: string, rest: string)
    requires |pair| == 2
    ensures Unhex(pair + rest) == [ParseByte(pair)] + Unhex(rest)
  {
    hide ParseByte;
    assert (pair + rest)[..2] == pair && (pair + rest)[2..] == rest;
  }

  lemma {:induction false} UnhexAppend(data: seq<byte>, rest: string)
    ensures Unhex(Hex(data) + rest) == data + Unhex(rest)
  {
    hide ParseByte, HexPair, Unhex;
    if data == [] {
      assert Hex(data) + rest == rest;
    } else {
      AppendAssociates(HexPair(data[0]), Hex(data[1..]), rest);
      UnhexPair(HexPair(data[0]), Hex(data[1..]) + rest);
      ParseHexPair(data[0]);
      UnhexAppend(data[1..], rest);
      AppendAssociates([data[0]], data[1..], Unhex(rest));
      assert data == [data[0]] + data[1..];
    }
  }

  lemma UnhexOfHex(data: seq<byte>)
    ensures Unhex(Hex(data)) == data
  {
    UnhexAppend(data, "");
    assert Hex(data) + "" == Hex(data);
  }

  // ---------- The AEAD interface ----------

  datatype Sealed = Sealed(tag: seq<byte>, text: seq<byte>)

  /** AES-256-GCM without associated data: seal(key, iv, plaintext), open(key, iv, sealed). */
  datatype Aead = Aead(seal: (string, seq<byte>, string) -> Sealed, open: (string, seq<byte>, Sealed) -> Option<string>)
  {
    /** 16-byte tags, ciphertext as long as the plaintext, and decryption inverts encryption. */
    ghost predicate Sound() {
      forall key, iv, p :: KeyAndIv(key, iv) ==>
        var c := seal(key, iv, p);
        |c.tag| == 16 && |c.text| == |p| && open(key, iv, c) == Some(p)
    }

    predicate KeyAndIv(key: string, iv: seq<byte>) {
      |key| == 32 && |iv| == 12
    }
  }

  datatype CryptoError = BadKeySize | TooShort | LibraryFailure | BadTag

  /** `libraryOk` is false when the random generator or a cipher call reports an error. */
  function Encrypt(a: Aead, plaintext: string, key: string, iv: seq<byte>, libraryOk: bool): Result<string, CryptoError> {
    if |key| != 32 then Err(BadKeySize)
    else if !libraryOk then Err(LibraryFailure)
    else var c := a.seal(key, iv, plaintext);
         Ok(Hex(iv) + Hex(c.tag) + Hex(c.text))
  }

  function Decrypt(a: Aead, hexText: string, key: string, libraryOk: bool): Result<string, CryptoError> {
    if |key| != 32 then Err(BadKeySize)
    else if |hexText| < 56 then Err(TooShort)
    else if !libraryOk then Err(LibraryFailure)
    else
      var data := Unhex(hexText);
      match a.open(key, data[..12], Sealed(data[12..28], data[28..]))
      case Some(p) => Ok(p)
      case None => Err(BadTag)
  }

  method EncryptAES256GCM(a: Aead, plaintext: string, key: string, iv: seq<byte>, libraryOk: bool)
    returns (r: Result<string, CryptoError>)
    ensures r == Encrypt(a, plaintext, key, iv, libraryOk)
  {
    if |key| != 32 {
      return Err(BadKeySize);
    }
    if !libraryOk {
      return Err(LibraryFailure);
    }
    var c := a.seal(key, iv, plaintext);
    var ivHex := ToHex(iv);
    var tagHex := ToHex(c.tag);
    var textHex := ToHex(c.text);
    r := Ok(ivHex + tagHex + textHex);
  }

  method DecryptAES256GCM(a: Aead, hexText: string, key: string, libraryOk: bool)
    returns (r: Result<string, CryptoError>)
    ensures r == Decrypt(a, hexText, key, libraryOk)
  {
    if |key| != 32 {
      return Err(BadKeySize);
    }
    if |hexText| < (12 + 16) * 2 {
      return Err(TooShort);
    }
    if !libraryOk {
      return Err(LibraryFailure);
    }
    var data := FromHex(hexText);
    var iv := new byte[12](i requires 0 <= i < 12 => data[i]);
    var tag := new byte[16](i requires 0 <= i < 16 => data[12 + i]);
    assert iv[..] == data[..12] && tag[..] == data[12..28];
    var plain := a.open(key, iv[..], Sealed(tag[..], data[28..]));
    if plain.Some? {
      r := Ok(plain.value);
    } else {
      r := Err(BadTag);
    }
  }

  lemma UnhexThree(a: seq<byte>, b: seq<byte>, c: seq<byte>)
    ensures Unhex(Hex(a) + Hex(b) + Hex(c)) == a + b + c
  {
    AppendAssociates(Hex(a), Hex(b), Hex(c));
    UnhexAppend(a, Hex(b) + Hex(c));
    UnhexAppend(b, Hex(c));
    UnhexOfHex(c);
    AppendAssociates(a, b, c);
  }

  lemma LowerAppend(a: string, b: string)
    requires LowerHexText(a) && LowerHexText(b)
    ensures LowerHexText(a + b)
  {
  }

  lemma SliceThree(a: seq<byte>, b: seq<byte>, c: seq<byte>)
    ensures var d := a + b + c;
            d[..|a|] == a && d[|a|..|a| + |b|] == b && d[|a| + |b|..] == c
  {
  }

  /** The envelope has 56 + 2n characters and splits back into exactly the parts it was made of. */
  lemma EnvelopeSplits(iv: seq<byte>, c: Sealed)
    requires |iv| == 12 && |c.tag| == 16
    ensures var text := Hex(iv) + Hex(c.tag) + Hex(c.text);
            && |text| == 56 + 2 * |c.text|
            && Unhex(text)[..12] == iv && Unhex(text)[12..28] == c.tag && Unhex(text)[28..] == c.text
            && LowerHexText(text)
  {
    UnhexThree(iv, c.tag, c.text);
    SliceThree(iv, c.tag, c.text);
    HexIsLower(iv);
    HexIsLower(c.tag);
    HexIsLower(c.text);
    LowerAppend(Hex(iv), Hex(c.tag));
    LowerAppend(Hex(iv) + Hex(c.tag), Hex(c.text));
  }

  lemma DecryptNeedsLibrary(a: Aead, hexText: string, key: string)
    ensures Decrypt(a, hexText, key, false).Err?
  {
  }

  /** Encryption fails only for a wrong key size or a library error; what it yields decrypts to the plaintext. */
  lemma EncryptThenDecrypt(a: Aead, p: string, key: string, iv: seq<byte>, libraryOk: bool)
    requires a.Sound() && |iv| == 12
    ensures Encrypt(a, p, key, iv, libraryOk).Ok? <==> |key| == 32 && libraryOk
    ensures Encrypt(a, p, key, iv, libraryOk).Ok? ==>
              var text := Encrypt(a, p, key, iv, libraryOk).value;
              && |text| == 56 + 2 * |p| && LowerHexText(text) && Decrypt(a, text, key, true) == Ok(p)
              && Unhex(text)[..12] == iv && Unhex(text)[12..28] == a.seal(key, iv, p).tag
              && Unhex(text)[28..] == a.seal(key, iv, p).text
  {
    if |key| == 32 && libraryOk {
      assert a.KeyAndIv(key, iv);
      EnvelopeSplits(iv, a.seal(key, iv, p));
    }
  }

  /** Decryption yields a plaintext only if the cipher opens the three parts of the text under the key. */
  lemma DecryptIff(a: Aead, hexText: string, key: string, p: string, libraryOk: bool)
    ensures Decrypt(a, hexText, key, libraryOk) == Ok(p) <==>
              && |key| == 32 && |hexText| >= 56 && libraryOk
              && (var data := Unhex(hexText); a.open(key, data[..12], Sealed(data[12..28], data[28..])) == Some(p))
    ensures Decrypt(a, hexText, key, libraryOk) == Err(TooShort) <==> |key| == 32 && |hexText| < 56
    ensures Decrypt(a, hexText, key, libraryOk) == Err(BadKeySize) <==> |key| != 32
  {
  }
}

/** The text format of an API secret: a prefix and 32 random bytes in unpadded base64url (RFC 4648, sections 3.5 and 5). */
module SecretFormat {
  import opened Wrappers

  const SECRET_PREFIX: string := "moyro_"
  const SECRET_BYTES: nat := 32
  const ENCODED_CHARS: nat := 43

  type Byte = b: int | 0 <= b < 256
  type Sextet = v: int | 0 <= v < 64

  function CharOf(v: Sextet): char {
    if v < 26 then (65 + v) as char
    else if v < 52 then (97 + v - 26) as char
    else if v < 62 then (48 + v - 52) as char
    else if v == 62 then '-' else '_'
  }

  function ValueOf(c: char): Option<Sextet> {
    if 'A' <= c <= 'Z' then Some(c as int - 65)
    else if 'a' <= c <= 'z' then Some(c as int - 97 + 26)
    else if '0' <= c <= '9' then Some(c as int - 48 + 52)
    else if c == '-' then Some(62)
    else if c == '_' then Some(63)
    else None
  }

  lemma CharHasValue(v: Sextet)
    ensures ValueOf(CharOf(v)) == Some(v)
  {
  }

  lemma ValueHasChar(c: char)
    requires ValueOf(c).Some?
    ensures CharOf(ValueOf(c).value) == c && c != '\r' && c != '\n'
  {
  }

  /** The alphabet in the order of its values: capitals, small letters, digits, hyphen, underscore. */
  lemma Alphabet(v: Sextet)
    ensures CharOf(0) == 'A' && CharOf(26) == 'a' && CharOf(52) == '0' && CharOf(62) == '-' && CharOf(63) == '_'
    ensures 0 < v < 62 && v != 26 && v != 52 ==> CharOf(v) as int == CharOf(v - 1) as int + 1
  {
  }

  /** Three bytes as four sextets, and back. */
  function Split(a: Byte, b: Byte, c: Byte): (Sextet, Sextet, Sextet, Sextet) {
    (a / 4, a % 4 * 16 + b / 16, b % 16 * 4 + c / 64, c % 64)
  }

  function Join(p: Sextet, q: Sextet, r: Sextet, s: Sextet): (Byte, Byte, Byte) {
    (p * 4 + q / 16, q % 16 * 16 + r / 4, r % 4 * 64 + s)
  }

  lemma SplitJoin(a: Byte, b: Byte, c: Byte)
    ensures var s := Split(a, b, c); Join(s.0, s.1, s.2, s.3) == (a, b, c)
  {
    assert a / 4 * 4 + a % 4 == a && b / 16 * 16 + b % 16 == b && c / 64 * 64 + c % 64 == c;
    assert (a % 4 * 16 + b / 16) / 16 == a % 4 && (a % 4 * 16 + b / 16) % 16 == b / 16;
    assert (b % 16 * 4 + c / 64) / 4 == b % 16 && (b % 16 * 4 + c / 64) % 4 == c / 64;
  }

  /** The sextets are the digits in base 64 of the number that the bytes make in base 256. */
  lemma SplitIsTheSameNumber(a: Byte, b: Byte, c: Byte)
    ensures var s := Split(a, b, c); s.0 * 262_144 + s.1 * 4096 + s.2 * 64 + s.3 == a * 65_536 + b * 256 + c
  {
    assert a / 4 * 4 + a % 4 == a && b / 16 * 16 + b % 16 == b && c / 64 * 64 + c % 64 == c;
  }

  lemma JoinSplit(p: Sextet, q: Sextet, r: Sextet, s: Sextet)
    ensures var b := Join(p, q, r, s); Split(b.0, b.1, b.2) == (p, q, r, s)
  {
    assert q / 16 * 16 + q % 16 == q && r / 4 * 4 + r % 4 == r;
    assert (p * 4 + q / 16) / 4 == p && (p * 4 + q / 16) % 4 == q / 16;
    assert (q % 16 * 16 + r / 4) / 16 == q % 16 && (q % 16 * 16 + r / 4) % 16 == r / 4;
    assert (r % 4 * 64 + s) / 64 == r % 4 && (r % 4 * 64 + s) % 64 == s;
  }

  /** `base64.RawURLEncoding.EncodeToString`. */
  function Encode(bytes: seq<Byte>): string {
    if |bytes| == 0 then ""
    else if |bytes| == 1 then
      var s := Split(bytes[0], 0, 0);
      [CharOf(s.0), CharOf(s.1)]
    else if |bytes| == 2 then
      var s := Split(bytes[0], bytes[1], 0);
      [CharOf(s.0), CharOf(s.1), CharOf(s.2)]
    else
      var s := Split(bytes[0], bytes[1], bytes[2]);
      [CharOf(s.0), CharOf(s.1), CharOf(s.2), CharOf(s.3)] + Encode(bytes[3..])
  }

  /** The strict decoder on text without line breaks: trailing bits must be zero. */
  function Decode(text: string): Option<seq<Byte>> {
    if |text| == 0 then Some([])
    else if |text| == 1 then None
    else
      var p, q := ValueOf(text[0]), ValueOf(text[1]);
      if p.None? || q.None? then None
      else if |text| == 2 then
        if q.value % 16 == 0 then Some([Join(p.value, q.value, 0, 0).0]) else None
      else
        var r := ValueOf(text[2]);
        if r.None? then None
        else if |text| == 3 then
          var b := Join(p.value, q.value, r.value, 0);
          if r.value % 4 == 0 then Some([b.0, b.1]) else None
        else
          var s, rest := ValueOf(text[3]), Decode(text[4..]);
          if s.None? || rest.None? then None
          else
            var b := Join(p.value, q.value, r.value, s.value);
            Some([b.0, b.1, b.2] + rest.value)
  }

  /** The decoder ignores carriage returns and line feeds anywhere in its input. */
  function WithoutBreaks(text: string): (t: string)
    ensures |t| <= |text|
  {
    if text == "" then ""
    else if text[0] == '\r' || text[0] == '\n' then WithoutBreaks(text[1..])
    else [text[0]] + WithoutBreaks(text[1..])
  }

  function GenerateSecret(random: seq<Byte>): string {
    SECRET_PREFIX + Encode(random)
  }

  predicate ValidSecretFormat(secret: string) {
    && SECRET_PREFIX <= secret && |secret| == |SECRET_PREFIX| + ENCODED_CHARS
    && var decoded := Decode(WithoutBreaks(secret[|SECRET_PREFIX|..]));
       decoded.Some? && |decoded.value| == SECRET_BYTES
  }

  lemma {:induction false} EncodedLength(bytes: seq<Byte>)
    ensures |Encode(bytes)| == (|bytes| * 4 + 2) / 3
  {
    if |bytes| >= 3 {
      EncodedLength(bytes[3..]);
    }
  }

  lemma {:induction false} DecodeEncode(bytes: seq<Byte>)
    ensures Decode(Encode(bytes)) == Some(bytes)
  {
    if |bytes| == 1 {
      DecodeOne(bytes[0]);
      assert bytes == [bytes[0]];
    } else if |bytes| == 2 {
      DecodeTwo(bytes[0], bytes[1]);
      assert bytes == [bytes[0], bytes[1]];
    } else if |bytes| >= 3 {
      DecodeGroup(bytes[0], bytes[1], bytes[2]);
      DecodeEncode(bytes[3..]);
      assert Encode(bytes)[4..] == Encode(bytes[3..]);
      assert bytes == [bytes[0], bytes[1], bytes[2]] + bytes[3..];
    }
  }

  lemma DecodeOne(a: Byte)
    ensures Decode(Encode([a])) == Some([a])
  {
    DecodeGroup(a, 0, 0);
    var s := Split(a, 0, 0);
    var text := [CharOf(s.0), CharOf(s.1)];
    assert Encode([a]) == text && Join(s.0, s.1, 0, 0).0 == a;
  }

  lemma DecodeTwo(a: Byte, b: Byte)
    ensures Decode(Encode([a, b])) == Some([a, b])
  {
    DecodeGroup(a, b, 0);
    var s := Split(a, b, 0);
    var text := [CharOf(s.0), CharOf(s.1), CharOf(s.2)];
    assert Encode([a, b]) == text && Join(s.0, s.1, s.2, 0) == (a, b, 0);
  }

  lemma DecodeGroup(a: Byte, b: Byte, c: Byte)
    ensures var s := Split(a, b, c);
            && ValueOf(CharOf(s.0)) == Some(s.0) && ValueOf(CharOf(s.1)) == Some(s.1)
            && ValueOf(CharOf(s.2)) == Some(s.2) && ValueOf(CharOf(s.3)) == Some(s.3)
            && Join(s.0, s.1, s.2, s.3) == (a, b, c)
            && (c == 0 ==> s.2 % 4 == 0 && s.3 == 0) && (b == 0 && c == 0 ==> s.1 % 16 == 0 && s.2 == 0)
  {
    var s := Split(a, b, c);
    SplitJoin(a, b, c);
    CharHasValue(s.0);
    CharHasValue(s.1);
    CharHasValue(s.2);
    CharHasValue(s.3);
  }

  /** Each three bytes are written as four characters whose values are the digits in base 64 of the number they make. */
  lemma EncodedGroup(bytes: seq<Byte>)
    requires |bytes| >= 3
    ensures |Encode(bytes)| >= 4 && Encode(bytes)[4..] == Encode(bytes[3..])
    ensures var t := Encode(bytes);
            && ValueOf(t[0]).Some? && ValueOf(t[1]).Some? && ValueOf(t[2]).Some? && ValueOf(t[3]).Some?
            && ValueOf(t[0]).value * 262_144 + ValueOf(t[1]).value * 4096 + ValueOf(t[2]).value * 64 + ValueOf(t[3]).value
               == bytes[0] as int * 65_536 + bytes[1] as int * 256 + bytes[2]
  {
    DecodeGroup(bytes[0], bytes[1], bytes[2]);
    SplitIsTheSameNumber(bytes[0], bytes[1], bytes[2]);
  }

  /** One or two bytes at the end are written as the front of the group that zero bytes would complete. */
  lemma EncodedEnd(a: Byte, b: Byte)
    ensures Encode([a]) == Encode([a, 0, 0])[..2] && Encode([a, b]) == Encode([a, b, 0])[..3]
  {
    assert [a, b, 0][3..] == [] && [a, 0, 0][3..] == [];
  }

  /** Values of two and three characters whose spare bits are zero come from one and two bytes. */
  lemma BackToTwo(text: string)
    requires |text| == 2 && Decode(text).Some?
    ensures Encode(Decode(text).value) == text
  {
    ValueHasChar(text[0]);
    ValueHasChar(text[1]);
    JoinSplit(ValueOf(text[0]).value, ValueOf(text[1]).value, 0, 0);
  }

  lemma BackToThree(text: string)
    requires |text| == 3 && Decode(text).Some?
    ensures Encode(Decode(text).value) == text
  {
    ValueHasChar(text[0]);
    ValueHasChar(text[1]);
    ValueHasChar(text[2]);
    JoinSplit(ValueOf(text[0]).value, ValueOf(text[1]).value, ValueOf(text[2]).value, 0);
  }

  lemma BackToGroup(p: Sextet, q: Sextet, r: Sextet, s: Sextet, rest: seq<Byte>)
    ensures var b := Join(p, q, r, s);
            Encode([b.0, b.1, b.2] + rest) == [CharOf(p), CharOf(q), CharOf(r), CharOf(s)] + Encode(rest)
  {
    var b := Join(p, q, r, s);
    JoinSplit(p, q, r, s);
    assert ([b.0, b.1, b.2] + rest)[3..] == rest;
  }

  lemma DecodedGroup(text: string)
    requires |text| >= 4 && Decode(text).Some?
    ensures ValueOf(text[0]).Some? && ValueOf(text[1]).Some? && ValueOf(text[2]).Some? && ValueOf(text[3]).Some?
    ensures var b := Join(ValueOf(text[0]).value, ValueOf(text[1]).value, ValueOf(text[2]).value, ValueOf(text[3]).value);
            Decode(text[4..]).Some? && Decode(text).value == [b.0, b.1, b.2] + Decode(text[4..]).value
  {
  }

  /** Strict decoding accepts only what the encoder produces. */
  lemma {:induction false} EncodeDecode(text: string)
    requires Decode(text).Some?
    ensures Encode(Decode(text).value) == text
  {
    if |text| == 2 {
      BackToTwo(text);
    } else if |text| == 3 {
      BackToThree(text);
    } else if |text| >= 4 {
      DecodedGroup(text);
      EncodeDecode(text[4..]);
      LongTextBack(text);
    }
  }

  lemma LongTextBack(text: string)
    requires |text| >= 4 && Decode(text).Some?
    requires Decode(text[4..]).Some? && Encode(Decode(text[4..]).value) == text[4..]
    ensures Encode(Decode(text).value) == text
  {
    DecodedGroup(text);
    var p, q, r, s := ValueOf(text[0]).value, ValueOf(text[1]).value, ValueOf(text[2]).value, ValueOf(text[3]).value;
    BackToGroup(p, q, r, s, Decode(text[4..]).value);
    FourChars(text);
    assert text == [CharOf(p), CharOf(q), CharOf(r), CharOf(s)] + text[4..];
  }

  lemma FourChars(text: string)
    requires |text| >= 4
    ensures forall i | 0 <= i < 4 :: ValueOf(text[i]).Some? ==> CharOf(ValueOf(text[i]).value) == text[i]
  {
    forall i | 0 <= i < 4 && ValueOf(text[i]).Some? ensures CharOf(ValueOf(text[i]).value) == text[i] {
      ValueHasChar(text[i]);
    }
  }

  lemma {:induction false} BreaksShorten(text: string)
    ensures |WithoutBreaks(text)| == |text| ==> WithoutBreaks(text) == text
  {
    if text != "" {
      BreaksShorten(text[1..]);
    }
  }

  lemma {:induction false} EncodeHasNoBreaks(bytes: seq<Byte>)
    ensures WithoutBreaks(Encode(bytes)) == Encode(bytes)
  {
    forall i | 0 <= i < |Encode(bytes)| ensures Encode(bytes)[i] != '\r' && Encode(bytes)[i] != '\n' {
      EncodedAlphabet(bytes, i);
      ValueHasChar(Encode(bytes)[i]);
    }
    NoBreaksNoChange(Encode(bytes));
  }

  lemma {:induction false} EncodedAlphabet(bytes: seq<Byte>, i: nat)
    requires i < |Encode(bytes)|
    ensures ValueOf(Encode(bytes)[i]).Some?
  {
    var a: Byte := bytes[0];
    var b: Byte := if |bytes| > 1 then bytes[1] else 0;
    var c: Byte := if |bytes| > 2 then bytes[2] else 0;
    DecodeGroup(a, b, c);
    if |bytes| >= 3 && i >= 4 {
      EncodedAlphabet(bytes[3..], i - 4);
    }
  }

  lemma {:induction false} NoBreaksNoChange(text: string)
    requires forall i | 0 <= i < |text| :: text[i] != '\r' && text[i] != '\n'
    ensures WithoutBreaks(text) == text
  {
    if text != "" {
      NoBreaksNoChange(text[1..]);
    }
  }

  /** The accepted texts are exactly the generated ones, and each comes from one 32-byte value. */
  lemma FormatAcceptsExactlySecrets(secret: string)
    ensures ValidSecretFormat(secret) <==>
            exists random: seq<Byte> :: |random| == 32 && secret == "moyro_" + Encode(random)
    ensures forall x: seq<Byte>, y: seq<Byte> ::
              secret == GenerateSecret(x) && secret == GenerateSecret(y) ==> x == y
  {
    if ValidSecretFormat(secret) {
      var body := secret[|SECRET_PREFIX|..];
      var random := Decode(WithoutBreaks(body)).value;
      EncodeDecode(WithoutBreaks(body));
      EncodedLength(random);
      BreaksShorten(body);
      assert secret == GenerateSecret(random);
    }
    forall random: seq<Byte> | |random| == SECRET_BYTES && secret == GenerateSecret(random)
      ensures ValidSecretFormat(secret)
    {
      EncodedLength(random);
      EncodeHasNoBreaks(random);
      DecodeEncode(random);
      assert secret[|SECRET_PREFIX|..] == Encode(random);
    }
    forall x: seq<Byte>, y: seq<Byte> | secret == GenerateSecret(x) && secret == GenerateSecret(y) ensures x == y {
      DecodeEncode(x);
      DecodeEncode(y);
      assert secret[|SECRET_PREFIX|..] == Encode(x) && secret[|SECRET_PREFIX|..] == Encode(y);
    }
  }
}

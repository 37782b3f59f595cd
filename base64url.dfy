/** base64url encoding as the browser build does it (browser/helpers/base64url.js):
    `btoa` produces standard base64 with padding (RFC 4648 section 4), and
    `fromBase64` rewrites it into the URL-safe alphabet of RFC 4648 section 5
    without padding. `btoa` is written out here; the rewrite is proved equal
    to a direct unpadded base64url encoder, which in turn has a decoder. */
module Base64Url {
  import opened Js
  import opened Errors

  type byte = x: int | 0 <= x < 256

  /** The character for a 6-bit value in the alphabet of RFC 4648 section 4. */
  function StdChar(i: nat): (c: char)
    requires i < 64
  {
    if i < 26 then ('A' as int + i) as char
    else if i < 52 then ('a' as int + (i - 26)) as char
    else if i < 62 then ('0' as int + (i - 52)) as char
    else if i == 62 then '+'
    else '/'
  }

  /** The character for a 6-bit value in the alphabet of RFC 4648 section 5. */
  function UrlChar(i: nat): (c: char)
    requires i < 64
  {
    if i == 62 then '-' else if i == 63 then '_' else StdChar(i)
  }

  predicate IsStdChar(c: char)
  {
    ('A' <= c <= 'Z') || ('a' <= c <= 'z') || ('0' <= c <= '9') || c == '+' || c == '/'
  }

  predicate IsUrlChar(c: char)
  {
    ('A' <= c <= 'Z') || ('a' <= c <= 'z') || ('0' <= c <= '9') || c == '-' || c == '_'
  }

  /** The 6-bit value of a character of the RFC 4648 section 5 alphabet. */
  function UrlValue(c: char): (i: nat)
    requires IsUrlChar(c)
    ensures i < 64 && UrlChar(i) == c
  {
    if 'A' <= c <= 'Z' then c as int - 'A' as int
    else if 'a' <= c <= 'z' then c as int - 'a' as int + 26
    else if '0' <= c <= '9' then c as int - '0' as int + 52
    else if c == '-' then 62
    else 63
  }

  lemma UrlValueOfChar(i: nat)
    requires i < 64
    ensures IsUrlChar(UrlChar(i)) && UrlValue(UrlChar(i)) == i
  {
  }

  /** The four 6-bit groups of three octets b0 b1 b2, most significant first. */
  function Sextet0(b0: byte): (i: nat)
    ensures i < 64
  {
    b0 / 4
  }

  function Sextet1(b0: byte, b1: byte): (i: nat)
    ensures i < 64
  {
    (b0 % 4) * 16 + b1 / 16
  }

  function Sextet2(b1: byte, b2: byte): (i: nat)
    ensures i < 64
  {
    (b1 % 16) * 4 + b2 / 64
  }

  function Sextet3(b2: byte): (i: nat)
    ensures i < 64
  {
    b2 % 64
  }

  /** Standard base64 with `=` padding, RFC 4648 section 4: every three octets
      become four characters, and a final group of one or two octets becomes
      two or three characters followed by `==` or `=`. */
  function Base64(b: seq<byte>): (r: string)
    ensures |r| == 4 * ((|b| + 2) / 3)
    decreases |b|
  {
    if |b| == 0 then ""
    else if |b| == 1 then
      [StdChar(Sextet0(b[0])), StdChar(Sextet1(b[0], 0)), '=', '=']
    else if |b| == 2 then
      [StdChar(Sextet0(b[0])), StdChar(Sextet1(b[0], b[1])), StdChar(Sextet2(b[1], 0)), '=']
    else
      [StdChar(Sextet0(b[0])), StdChar(Sextet1(b[0], b[1])),
       StdChar(Sextet2(b[1], b[2])), StdChar(Sextet3(b[2]))] + Base64(b[3..])
  }

  lemma StdCharIsStd(i: nat)
    requires i < 64
    ensures IsStdChar(StdChar(i))
  {
  }

  /** Characters of the standard alphabet or `=`. */
  predicate StdOrPad(s: string)
  {
    forall i :: 0 <= i < |s| ==> IsStdChar(s[i]) || s[i] == '='
  }

  predicate NoPad(s: string)
  {
    forall i :: 0 <= i < |s| ==> s[i] != '='
  }

  lemma {:induction false} Base64AlphabetTail(b: seq<byte>)
    requires |b| == 1 || |b| == 2
    ensures StdOrPad(Base64(b))
  {
    StdCharIsStd(Sextet0(b[0]));
    if |b| == 1 {
      StdCharIsStd(Sextet1(b[0], 0));
    } else {
      StdCharIsStd(Sextet1(b[0], b[1]));
      StdCharIsStd(Sextet2(b[1], 0));
    }
  }

  lemma {:induction false} Base64AlphabetGroup(b: seq<byte>)
    requires |b| >= 3
    ensures Base64(b) == [StdChar(Sextet0(b[0])), StdChar(Sextet1(b[0], b[1])),
                          StdChar(Sextet2(b[1], b[2])), StdChar(Sextet3(b[2]))] + Base64(b[3..])
    ensures StdOrPad(Base64(b[3..])) ==> StdOrPad(Base64(b))
    ensures NoPad(Base64(b[3..])) ==> NoPad(Base64(b))
  {
    var group := [StdChar(Sextet0(b[0])), StdChar(Sextet1(b[0], b[1])),
                  StdChar(Sextet2(b[1], b[2])), StdChar(Sextet3(b[2]))];
    StdCharIsStd(Sextet0(b[0]));
    StdCharIsStd(Sextet1(b[0], b[1]));
    StdCharIsStd(Sextet2(b[1], b[2]));
    StdCharIsStd(Sextet3(b[2]));
    assert StdOrPad(group) && NoPad(group);
  }

  /** Every character is of the standard alphabet or `=`, and there is no
      `=` when the length is a multiple of 3. */
  lemma {:induction false} Base64Alphabet(b: seq<byte>)
    ensures forall i :: 0 <= i < |Base64(b)| ==> IsStdChar(Base64(b)[i]) || Base64(b)[i] == '='
    ensures |b| % 3 == 0 ==> forall i :: 0 <= i < |Base64(b)| ==> Base64(b)[i] != '='
    decreases |b|
  {
    if |b| == 1 || |b| == 2 {
      Base64AlphabetTail(b);
    } else if |b| >= 3 {
      Base64Alphabet(b[3..]);
      assert StdOrPad(Base64(b[3..]));
      assert |b| % 3 == 0 ==> |b[3..]| % 3 == 0 && NoPad(Base64(b[3..]));
      Base64AlphabetGroup(b);
    }
  }

  /** Unpadded base64url, RFC 4648 sections 3.2 and 5, computed directly:
      the reference the rewrite below is proved against. */
  function Base64UrlNoPad(b: seq<byte>): (r: string)
    decreases |b|
  {
    if |b| == 0 then ""
    else if |b| == 1 then
      [UrlChar(Sextet0(b[0])), UrlChar(Sextet1(b[0], 0))]
    else if |b| == 2 then
      [UrlChar(Sextet0(b[0])), UrlChar(Sextet1(b[0], b[1])), UrlChar(Sextet2(b[1], 0))]
    else
      [UrlChar(Sextet0(b[0])), UrlChar(Sextet1(b[0], b[1])),
       UrlChar(Sextet2(b[1], b[2])), UrlChar(Sextet3(b[2]))] + Base64UrlNoPad(b[3..])
  }

  /** base64url output has ceil(4n/3) characters, all from the URL-safe alphabet. */
  lemma {:induction false} Base64UrlNoPadShape(b: seq<byte>)
    ensures |Base64UrlNoPad(b)| == (4 * |b| + 2) / 3
    ensures forall i :: 0 <= i < |Base64UrlNoPad(b)| ==> IsUrlChar(Base64UrlNoPad(b)[i])
    decreases |b|
  {
    if |b| >= 3 {
      Base64UrlNoPadShape(b[3..]);
    }
  }

  /** `s.replace(/c/g, '')` */
  function RemoveAll(s: string, c: char): (r: string)
    decreases |s|
  {
    if s == [] then [] else (if s[0] == c then [] else [s[0]]) + RemoveAll(s[1..], c)
  }

  /** `s.replace(/a/g, b)` for a one-character pattern. */
  function ReplaceAll(s: string, a: char, b: char): (r: string)
  {
    seq(|s|, i requires 0 <= i < |s| => if s[i] == a then b else s[i])
  }

  /** `fromBase64`: drop the padding, then map `+` to `-` and `/` to `_`.
      The result is the one-pass rewrite: it has no `=`, `+` or `/`, and it
      is shorter than the input by the number of `=` characters. */
  function FromBase64(s: string): (r: string)
    ensures r == Translate(s)
    ensures |r| == |s| - Count(s, '=')
    ensures forall i :: 0 <= i < |r| ==> r[i] != '=' && r[i] != '+' && r[i] != '/'
  {
    FromBase64IsTranslate(s);
    TranslateShape(s);
    ReplaceAll(ReplaceAll(RemoveAll(s, '='), '+', '-'), '/', '_')
  }

  /** One character of the rewrite. */
  function UrlSafe(c: char): char
  {
    if c == '+' then '-' else if c == '/' then '_' else c
  }

  /** The rewrite in one left-to-right pass: each character but `=` kept in
      order, in its URL-safe form. */
  function Translate(s: string): (r: string)
    decreases |s|
  {
    if s == [] then [] else (if s[0] == '=' then [] else [UrlSafe(s[0])]) + Translate(s[1..])
  }

  function Count(s: string, c: char): (n: nat)
    decreases |s|
  {
    if s == [] then 0 else (if s[0] == c then 1 else 0) + Count(s[1..], c)
  }

  lemma ReplaceAllConcat(s: string, t: string, a: char, b: char)
    ensures ReplaceAll(s + t, a, b) == ReplaceAll(s, a, b) + ReplaceAll(t, a, b)
  {
  }

  /** The three chained replacements are the one-pass rewrite. */
  lemma {:induction false} FromBase64IsTranslate(s: string)
    ensures ReplaceAll(ReplaceAll(RemoveAll(s, '='), '+', '-'), '/', '_') == Translate(s)
    decreases |s|
  {
    if s != [] {
      FromBase64IsTranslate(s[1..]);
      var head: string := if s[0] == '=' then [] else [s[0]];
      assert RemoveAll(s, '=') == head + RemoveAll(s[1..], '=');
      ReplaceAllConcat(head, RemoveAll(s[1..], '='), '+', '-');
      ReplaceAllConcat(ReplaceAll(head, '+', '-'), ReplaceAll(RemoveAll(s[1..], '='), '+', '-'), '/', '_');
    }
  }

  lemma {:induction false} TranslateShape(s: string)
    ensures |Translate(s)| == |s| - Count(s, '=')
    ensures forall i :: 0 <= i < |Translate(s)| ==>
              Translate(s)[i] != '=' && Translate(s)[i] != '+' && Translate(s)[i] != '/'
    decreases |s|
  {
    if s != [] {
      TranslateShape(s[1..]);
    }
  }

  lemma {:induction false} TranslateConcat(s: string, t: string)
    ensures Translate(s + t) == Translate(s) + Translate(t)
    decreases |s|
  {
    if s == [] {
      assert s + t == t;
    } else {
      var head: string := if s[0] == '=' then [] else [UrlSafe(s[0])];
      assert (s + t)[0] == s[0];
      assert (s + t)[1..] == s[1..] + t;
      TranslateConcat(s[1..], t);
      calc {
        Translate(s + t);
        head + Translate(s[1..] + t);
        head + (Translate(s[1..]) + Translate(t));
        (head + Translate(s[1..])) + Translate(t);
        Translate(s) + Translate(t);
      }
    }
  }

  lemma UrlSafeStdChar(i: nat)
    requires i < 64
    ensures UrlSafe(StdChar(i)) == UrlChar(i) && StdChar(i) != '='
  {
  }

  /** Without padding, the rewrite maps character by character. */
  lemma {:induction false} TranslateUnpadded(s: string)
    requires forall i :: 0 <= i < |s| ==> s[i] != '='
    ensures Translate(s) == seq(|s|, i requires 0 <= i < |s| => UrlSafe(s[i]))
    decreases |s|
  {
    if s != [] {
      TranslateUnpadded(s[1..]);
    }
  }

  lemma TranslateStdChars(x: seq<nat>)
    requires forall k :: 0 <= k < |x| ==> x[k] < 64
    ensures Translate(seq(|x|, k requires 0 <= k < |x| => StdChar(x[k])))
            == seq(|x|, k requires 0 <= k < |x| => UrlChar(x[k]))
  {
    var s := seq(|x|, k requires 0 <= k < |x| => StdChar(x[k]));
    forall k | 0 <= k < |x| ensures s[k] != '=' && UrlSafe(s[k]) == UrlChar(x[k]) {
      UrlSafeStdChar(x[k]);
    }
    TranslateUnpadded(s);
  }

  lemma TranslatePadding(n: nat)
    ensures Translate(seq(n, _ => '=')) == ""
  {
    if n > 0 {
      assert seq(n, _ => '=')[1..] == seq(n - 1, _ => '=');
      TranslatePadding(n - 1);
    }
  }

  /** Rewriting padded RFC 4648 section 4 output gives exactly unpadded
      RFC 4648 section 5 output. */
  lemma FromBase64OfBase64(b: seq<byte>)
    ensures FromBase64(Base64(b)) == Base64UrlNoPad(b)
  {
    TranslateOfBase64(b);
  }

  lemma TranslateLastGroup(x: seq<nat>, pad: nat)
    requires forall k :: 0 <= k < |x| ==> x[k] < 64
    ensures Translate(seq(|x|, k requires 0 <= k < |x| => StdChar(x[k])) + seq(pad, _ => '='))
            == seq(|x|, k requires 0 <= k < |x| => UrlChar(x[k]))
  {
    TranslateConcat(seq(|x|, k requires 0 <= k < |x| => StdChar(x[k])), seq(pad, _ => '='));
    TranslateStdChars(x);
    TranslatePadding(pad);
  }

  /** A final group of one or two octets: its characters, then the padding. */
  lemma {:induction false} TranslateOfBase64Tail(b: seq<byte>)
    requires |b| == 1 || |b| == 2
    ensures Translate(Base64(b)) == Base64UrlNoPad(b)
  {
    if |b| == 1 {
      var x: seq<nat> := [Sextet0(b[0]), Sextet1(b[0], 0)];
      assert Base64(b) == seq(|x|, k requires 0 <= k < |x| => StdChar(x[k])) + seq(2, _ => '=');
      TranslateLastGroup(x, 2);
      assert Base64UrlNoPad(b) == seq(|x|, k requires 0 <= k < |x| => UrlChar(x[k]));
    } else {
      var x: seq<nat> := [Sextet0(b[0]), Sextet1(b[0], b[1]), Sextet2(b[1], 0)];
      assert Base64(b) == seq(|x|, k requires 0 <= k < |x| => StdChar(x[k])) + seq(1, _ => '=');
      TranslateLastGroup(x, 1);
      assert Base64UrlNoPad(b) == seq(|x|, k requires 0 <= k < |x| => UrlChar(x[k]));
    }
  }

  lemma TranslateChar(c: char, t: string)
    requires c != '='
    ensures Translate([c] + t) == [UrlSafe(c)] + Translate(t)
  {
    assert ([c] + t)[1..] == t;
  }

  /** Four characters other than `=` map one to one. */
  lemma TranslateFour(c0: char, c1: char, c2: char, c3: char, rest: string)
    requires c0 != '=' && c1 != '=' && c2 != '=' && c3 != '='
    ensures Translate([c0, c1, c2, c3] + rest)
            == [UrlSafe(c0), UrlSafe(c1), UrlSafe(c2), UrlSafe(c3)] + Translate(rest)
  {
    TranslateChar(c3, rest);
    TranslateChar(c2, [c3] + rest);
    TranslateChar(c1, [c2] + ([c3] + rest));
    TranslateChar(c0, [c1] + ([c2] + ([c3] + rest)));
    assert [c0, c1, c2, c3] + rest == [c0] + ([c1] + ([c2] + ([c3] + rest)));
  }

  /** A full group of three octets, followed by the rest. */
  lemma {:induction false} TranslateOfBase64Group(b: seq<byte>)
    requires |b| >= 3 && Translate(Base64(b[3..])) == Base64UrlNoPad(b[3..])
    ensures Translate(Base64(b)) == Base64UrlNoPad(b)
  {
    var x0, x1, x2, x3 := Sextet0(b[0]), Sextet1(b[0], b[1]), Sextet2(b[1], b[2]), Sextet3(b[2]);
    Base64AlphabetGroup(b);
    UrlSafeStdChar(x0);
    UrlSafeStdChar(x1);
    UrlSafeStdChar(x2);
    UrlSafeStdChar(x3);
    TranslateFour(StdChar(x0), StdChar(x1), StdChar(x2), StdChar(x3), Base64(b[3..]));
  }

  lemma {:induction false} TranslateOfBase64(b: seq<byte>)
    ensures Translate(Base64(b)) == Base64UrlNoPad(b)
    decreases |b|
  {
    if |b| == 1 || |b| == 2 {
      TranslateOfBase64Tail(b);
    } else if |b| >= 3 {
      TranslateOfBase64(b[3..]);
      TranslateOfBase64Group(b);
    }
  }

  /** JavaScript's binary strings: one character per octet, code 0 to 255. */
  predicate IsBinaryString(s: string)
  {
    forall i :: 0 <= i < |s| ==> s[i] as int < 256
  }

  /** `String.fromCharCode(...bytes)` */
  function BinaryString(b: seq<byte>): (s: string)
    ensures |s| == |b| && IsBinaryString(s)
    ensures forall i :: 0 <= i < |s| ==> s[i] as int == b[i]
  {
    seq(|b|, i requires 0 <= i < |b| => b[i] as char)
  }

  /** The octets of a binary string. */
  function CharCodes(s: string): (b: seq<byte>)
    requires IsBinaryString(s)
    ensures BinaryString(b) == s
  {
    seq(|s|, i requires 0 <= i < |s| => s[i] as int)
  }

  lemma CharCodesOfBinaryString(b: seq<byte>)
    ensures CharCodes(BinaryString(b)) == b
  {
  }

  /** `btoa(s)`: standard base64 of the string's character codes; a character
      above U+00FF raises an InvalidCharacterError. */
  function Btoa(s: string): (r: Result<string>)
    ensures r.Ok? <==> IsBinaryString(s)
  {
    if IsBinaryString(s) then Ok(Base64(CharCodes(s)))
    else Throw(InvalidCharacterError("Invalid character"))
  }

  /** What `encode` accepts: a byte array (`typeof input === 'object'`) or a string. */
  datatype EncodeInput = ByteArray(bytes: seq<byte>) | Text(s: string)

  /** `encode(input)`: a byte array is first turned into its binary string.
      The result is the unpadded base64url of the octets; a byte array is
      always encoded, a string exactly when it is a binary string. */
  function Encode(input: EncodeInput): (r: Result<string>)
    ensures input.ByteArray? ==> r == Ok(Base64UrlNoPad(input.bytes))
    ensures input.Text? ==> (r.Ok? <==> IsBinaryString(input.s))
    ensures input.Text? && IsBinaryString(input.s) ==> r == Ok(Base64UrlNoPad(CharCodes(input.s)))
    ensures r.Throw? ==> r.thrown.InvalidCharacterError?
  {
    var text := match input
      case ByteArray(b) => (CharCodesOfBinaryString(b); BinaryString(b))
      case Text(s) => s;
    FromBase64OfBinaryString(text);
    match Btoa(text)
    case Ok(b64) => Ok(FromBase64(b64))
    case Throw(e) => Throw(e)
  }

  lemma FromBase64OfBinaryString(s: string)
    ensures IsBinaryString(s) ==> FromBase64(Base64(CharCodes(s))) == Base64UrlNoPad(CharCodes(s))
  {
    if IsBinaryString(s) {
      FromBase64OfBase64(CharCodes(s));
    }
  }

  /** A byte array and the binary string of the same bytes encode alike. */
  lemma EncodeBytes(b: seq<byte>)
    ensures Encode(ByteArray(b)) == Encode(Text(BinaryString(b)))
  {
    CharCodesOfBinaryString(b);
  }

  /** A string that is not a binary string makes `encode` throw. */
  lemma EncodeRejectsWideCharacters(s: string, i: nat)
    requires i < |s| && s[i] as int >= 256
    ensures Encode(Text(s)).Throw? && Encode(Text(s)).thrown.InvalidCharacterError?
  {
  }

  /** Octets rebuilt from 6-bit values v0 v1 v2 v3. */
  function Octet0(v0: nat, v1: nat): (b: byte)
    requires v0 < 64 && v1 < 64
  {
    v0 * 4 + v1 / 16
  }

  function Octet1(v1: nat, v2: nat): (b: byte)
    requires v1 < 64 && v2 < 64
  {
    (v1 % 16) * 16 + v2 / 4
  }

  function Octet2(v2: nat, v3: nat): (b: byte)
    requires v2 < 64 && v3 < 64
  {
    (v2 % 4) * 64 + v3
  }

  predicate AllUrlChars(s: string)
  {
    forall i :: 0 <= i < |s| ==> IsUrlChar(s[i])
  }

  /** Decoding of unpadded base64url; `None` for a length that is 1 more than
      a multiple of 4 or a character outside the alphabet. */
  function DecodeNoPad(s: string): (r: Option<seq<byte>>)
    decreases |s|
  {
    if |s| == 0 then Some([])
    else if |s| == 1 || !AllUrlChars(if |s| < 4 then s else s[..4]) then None
    else if |s| == 2 then
      Some([Octet0(UrlValue(s[0]), UrlValue(s[1]))])
    else if |s| == 3 then
      Some([Octet0(UrlValue(s[0]), UrlValue(s[1])), Octet1(UrlValue(s[1]), UrlValue(s[2]))])
    else
      match DecodeNoPad(s[4..])
      case None => None
      case Some(rest) =>
        Some([Octet0(UrlValue(s[0]), UrlValue(s[1])), Octet1(UrlValue(s[1]), UrlValue(s[2])),
              Octet2(UrlValue(s[2]), UrlValue(s[3]))] + rest)
  }

  lemma GroupArithmetic(b0: byte, b1: byte, b2: byte)
    ensures Octet0(Sextet0(b0), Sextet1(b0, b1)) == b0
    ensures Octet1(Sextet1(b0, b1), Sextet2(b1, b2)) == b1
    ensures Octet2(Sextet2(b1, b2), Sextet3(b2)) == b2
  {
    assert Sextet1(b0, b1) / 16 == b0 % 4;
    assert Sextet1(b0, b1) % 16 == b1 / 16;
    assert Sextet2(b1, b2) / 4 == b1 % 16;
    assert Sextet2(b1, b2) % 4 == b2 / 64;
  }

  lemma DecodeTwo(c0: char, c1: char)
    requires IsUrlChar(c0) && IsUrlChar(c1)
    ensures DecodeNoPad([c0, c1]) == Some([Octet0(UrlValue(c0), UrlValue(c1))])
  {
    assert AllUrlChars([c0, c1]);
  }

  lemma DecodeThree(c0: char, c1: char, c2: char)
    requires IsUrlChar(c0) && IsUrlChar(c1) && IsUrlChar(c2)
    ensures DecodeNoPad([c0, c1, c2])
            == Some([Octet0(UrlValue(c0), UrlValue(c1)), Octet1(UrlValue(c1), UrlValue(c2))])
  {
    assert AllUrlChars([c0, c1, c2]);
  }

  lemma DecodeFour(c0: char, c1: char, c2: char, c3: char, t: string, rest: seq<byte>)
    requires IsUrlChar(c0) && IsUrlChar(c1) && IsUrlChar(c2) && IsUrlChar(c3)
    requires DecodeNoPad(t) == Some(rest)
    ensures DecodeNoPad([c0, c1, c2, c3] + t)
            == Some([Octet0(UrlValue(c0), UrlValue(c1)), Octet1(UrlValue(c1), UrlValue(c2)),
                     Octet2(UrlValue(c2), UrlValue(c3))] + rest)
  {
    var s := [c0, c1, c2, c3] + t;
    assert s[..4] == [c0, c1, c2, c3];
    assert AllUrlChars(s[..4]);
    assert s[4..] == t;
  }

  lemma DecodeOneOctet(b0: byte)
    ensures DecodeNoPad(Base64UrlNoPad([b0])) == Some([b0])
  {
    var x0, x1 := Sextet0(b0), Sextet1(b0, 0);
    assert Base64UrlNoPad([b0]) == [UrlChar(x0), UrlChar(x1)];
    UrlValueOfChar(x0);
    UrlValueOfChar(x1);
    GroupArithmetic(b0, 0, 0);
    DecodeTwo(UrlChar(x0), UrlChar(x1));
  }

  lemma DecodeTwoOctets(b0: byte, b1: byte)
    ensures DecodeNoPad(Base64UrlNoPad([b0, b1])) == Some([b0, b1])
  {
    var x0, x1, x2 := Sextet0(b0), Sextet1(b0, b1), Sextet2(b1, 0);
    assert Base64UrlNoPad([b0, b1]) == [UrlChar(x0), UrlChar(x1), UrlChar(x2)];
    UrlValueOfChar(x0);
    UrlValueOfChar(x1);
    UrlValueOfChar(x2);
    GroupArithmetic(b0, b1, 0);
    DecodeThree(UrlChar(x0), UrlChar(x1), UrlChar(x2));
  }

  lemma DecodeThreeOctets(b0: byte, b1: byte, b2: byte, t: string, rest: seq<byte>)
    requires DecodeNoPad(t) == Some(rest)
    ensures DecodeNoPad([UrlChar(Sextet0(b0)), UrlChar(Sextet1(b0, b1)),
                         UrlChar(Sextet2(b1, b2)), UrlChar(Sextet3(b2))] + t)
            == Some([b0, b1, b2] + rest)
  {
    var x0, x1, x2, x3 := Sextet0(b0), Sextet1(b0, b1), Sextet2(b1, b2), Sextet3(b2);
    UrlValueOfChar(x0);
    UrlValueOfChar(x1);
    UrlValueOfChar(x2);
    UrlValueOfChar(x3);
    GroupArithmetic(b0, b1, b2);
    DecodeFour(UrlChar(x0), UrlChar(x1), UrlChar(x2), UrlChar(x3), t, rest);
  }

  /** Decoding undoes unpadded base64url encoding. */
  lemma {:induction false} DecodeEncode(b: seq<byte>)
    ensures DecodeNoPad(Base64UrlNoPad(b)) == Some(b)
    decreases |b|
  {
    if |b| == 1 {
      assert b == [b[0]];
      DecodeOneOctet(b[0]);
    } else if |b| == 2 {
      assert b == [b[0], b[1]];
      DecodeTwoOctets(b[0], b[1]);
    } else if |b| >= 3 {
      DecodeEncode(b[3..]);
      DecodeThreeOctets(b[0], b[1], b[2], Base64UrlNoPad(b[3..]), b[3..]);
      assert [b[0], b[1], b[2]] + b[3..] == b;
    }
  }

  /** Different byte strings have different encodings. */
  lemma Base64UrlNoPadInjective(a: seq<byte>, b: seq<byte>)
    requires Base64UrlNoPad(a) == Base64UrlNoPad(b)
    ensures a == b
  {
    DecodeEncode(a);
    DecodeEncode(b);
  }
}

/** Unpadded URL-safe base64 (sections 3.5 and 5 of RFC 4648), encoded and decoded strictly. */
module Base64Url {
  import opened Bytes
  import opened Text

  type Sextet = n: nat | n < 64

  // ----- The alphabet -----

  function Letter(n: Sextet): char {
    if n < 26 then ('A' as int + n) as char
    else if n < 52 then ('a' as int + n - 26) as char
    else if n < 62 then ('0' as int + n - 52) as char
    else if n == 62 then '-' else '_'
  }

  /** The decoder's alphabet, which still has `+` and `/` beside their URL-safe forms. */
  function LooseValue(c: char): Option<Sextet> {
    if 'A' <= c <= 'Z' then Some(c as int - 'A' as int)
    else if 'a' <= c <= 'z' then Some(c as int - 'a' as int + 26)
    else if '0' <= c <= '9' then Some(c as int - '0' as int + 52)
    else if c == '-' || c == '+' then Some(62)
    else if c == '_' || c == '/' then Some(63)
    else None
  }

  predicate IsLetter(c: char) {
    LooseValue(c).Some? && c != '+' && c != '/'
  }

  lemma LetterValue(n: Sextet)
    ensures IsLetter(Letter(n)) && LooseValue(Letter(n)) == Some(n)
  {
  }

  lemma ValueLetter(c: char)
    requires IsLetter(c)
    ensures Letter(LooseValue(c).value) == c
  {
  }

  // ----- Three bytes are four sextets -----

  function Sextet1(x: Byte): Sextet { x / 4 }

  function Sextet2(x: Byte, y: Byte): Sextet { x % 4 * 16 + y / 16 }

  function Sextet3(y: Byte, z: Byte): Sextet { y % 16 * 4 + z / 64 }

  function Sextet4(z: Byte): Sextet { z % 64 }

  function Byte1(a: Sextet, b: Sextet): Byte { a * 4 + b / 16 }

  function Byte2(b: Sextet, c: Sextet): Byte { b % 16 * 16 + c / 4 }

  function Byte3(c: Sextet, d: Sextet): Byte { c % 4 * 64 + d }

  lemma BytesAgain(x: Byte, y: Byte, z: Byte)
    ensures Byte1(Sextet1(x), Sextet2(x, y)) == x
    ensures Byte2(Sextet2(x, y), Sextet3(y, z)) == y
    ensures Byte3(Sextet3(y, z), Sextet4(z)) == z
  {
  }

  lemma SextetsAgain(a: Sextet, b: Sextet, c: Sextet, d: Sextet)
    ensures Sextet1(Byte1(a, b)) == a
    ensures Sextet2(Byte1(a, b), Byte2(b, c)) == b
    ensures Sextet3(Byte2(b, c), Byte3(c, d)) == c
    ensures Sextet4(Byte3(c, d)) == d
    ensures b % 16 == 0 ==> Sextet2(Byte1(a, b), 0) == b
    ensures c % 4 == 0 ==> Sextet3(Byte2(b, c), 0) == c
  {
  }

  // ----- _b64encode -----

  function Encode(b: Bytes): string {
    if b == [] then ""
    else if |b| == 1 then [Letter(Sextet1(b[0])), Letter(Sextet2(b[0], 0))]
    else if |b| == 2 then [Letter(Sextet1(b[0])), Letter(Sextet2(b[0], b[1])), Letter(Sextet3(b[1], 0))]
    else
      [Letter(Sextet1(b[0])), Letter(Sextet2(b[0], b[1])), Letter(Sextet3(b[1], b[2])), Letter(Sextet4(b[2]))]
      + Encode(b[3..])
  }

  lemma {:induction false} EncodedLength(b: Bytes)
    ensures |Encode(b)| == (|b| * 4 + 2) / 3
  {
    if |b| >= 3 {
      EncodedLength(b[3..]);
    }
  }

  // ----- _b64decode_strict -----

  /** `base64.b64decode` of whole groups of four: the bits behind the last byte are dropped, whatever they are. */
  function LooseDecode(s: string): Option<Bytes>
    requires |s| % 4 == 0
  {
    if s == "" then Some([])
    else
      var a, b, c, d := LooseValue(s[0]), LooseValue(s[1]), LooseValue(s[2]), LooseValue(s[3]);
      if a.None? || b.None? then None
      else if |s| == 4 && s[2] == '=' && s[3] == '=' then Some([Byte1(a.value, b.value)])
      else if c.None? then None
      else if |s| == 4 && s[3] == '=' then Some([Byte1(a.value, b.value), Byte2(b.value, c.value)])
      else if d.None? || LooseDecode(s[4..]).None? then None
      else
        Some([Byte1(a.value, b.value), Byte2(b.value, c.value), Byte3(c.value, d.value)] + LooseDecode(s[4..]).value)
  }

  function Padding(n: nat): nat {
    (4 - n % 4) % 4
  }

  function DecodeStrict(value: string): Option<Bytes> {
    if value == "" || (exists c :: c in value && c as int >= 128) || Padding(|value|) == 3 then None
    else
      var raw := LooseDecode(value + Repeat('=', Padding(|value|)));
      if raw.None? || Encode(raw.value) != value then None else raw
  }

  // ----- Round trip -----

  lemma TwoLetters(a: Sextet, b: Sextet)
    ensures LooseDecode([Letter(a), Letter(b)] + "==") == Some([Byte1(a, b)])
  {
    hide LooseValue, Letter, Byte1;
    LetterValue(a);
    LetterValue(b);
  }

  lemma ThreeLetters(a: Sextet, b: Sextet, c: Sextet)
    ensures LooseDecode([Letter(a), Letter(b), Letter(c)] + "=") == Some([Byte1(a, b), Byte2(b, c)])
  {
    hide LooseValue, Letter, Byte1, Byte2;
    LetterValue(a);
    LetterValue(b);
    LetterValue(c);
    NotPadding(c);
  }

  lemma FourLetters(a: Sextet, b: Sextet, c: Sextet, d: Sextet, rest: string)
    requires |rest| % 4 == 0 && LooseDecode(rest).Some?
    ensures LooseDecode([Letter(a), Letter(b), Letter(c), Letter(d)] + rest)
         == Some([Byte1(a, b), Byte2(b, c), Byte3(c, d)] + LooseDecode(rest).value)
  {
    hide LooseValue, Letter, Byte1, Byte2, Byte3;
    LetterValue(a);
    LetterValue(b);
    LetterValue(c);
    LetterValue(d);
    NotPadding(c);
    NotPadding(d);
    assert ([Letter(a), Letter(b), Letter(c), Letter(d)] + rest)[4..] == rest;
  }

  lemma {:induction false} EncodeThenDecode(b: Bytes)
    ensures Padding(|Encode(b)|) != 3
    ensures LooseDecode(Encode(b) + Repeat('=', Padding(|Encode(b)|))) == Some(b)
  {
    hide LooseValue, Letter, Repeat, LooseDecode, Byte1, Byte2, Byte3, Sextet1, Sextet2, Sextet3, Sextet4;
    var s := Encode(b);
    var pad := Repeat('=', Padding(|s|));
    if b == [] {
      assert s + pad == "";
      NothingDecodes();
    } else if |b| == 1 {
      BytesAgain(b[0], 0, 0);
      assert pad == "==";
      TwoLetters(Sextet1(b[0]), Sextet2(b[0], 0));
      assert b == [b[0]];
    } else if |b| == 2 {
      BytesAgain(b[0], b[1], 0);
      assert pad == "=";
      ThreeLetters(Sextet1(b[0]), Sextet2(b[0], b[1]), Sextet3(b[1], 0));
      assert b == [b[0], b[1]];
    } else {
      BytesAgain(b[0], b[1], b[2]);
      EncodeThenDecode(b[3..]);
      assert |s| == 4 + |Encode(b[3..])|;
      assert s + pad == s[..4] + (Encode(b[3..]) + pad);
      FourLetters(Sextet1(b[0]), Sextet2(b[0], b[1]), Sextet3(b[1], b[2]), Sextet4(b[2]), Encode(b[3..]) + pad);
      assert b == [b[0], b[1], b[2]] + b[3..];
    }
  }

  lemma NothingDecodes()
    ensures LooseDecode("") == Some([])
  {
  }

  lemma NotPadding(n: Sextet)
    ensures Letter(n) != '=' && Letter(n) as int < 128
  {
  }

  lemma {:induction false} EncodedIsAscii(b: Bytes)
    ensures forall c :: c in Encode(b) ==> IsLetter(c) && c as int < 128
  {
    hide LooseValue;
    if b != [] {
      var s := Encode(b);
      if |b| >= 3 {
        EncodedIsAscii(b[3..]);
      }
      forall c | c in s
        ensures IsLetter(c) && c as int < 128
      {
        if !(|b| >= 3 && c in Encode(b[3..])) {
          var n: Sextet :| c == Letter(n);
          LetterValue(n);
          NotPadding(n);
        }
      }
    }
  }

  /** Decoding gives `b` exactly on the encoding of `b`; only the empty encoding is turned away. */
  lemma DecodesExactly(value: string, b: Bytes)
    ensures DecodeStrict(value) == Some(b) <==> b != [] && value == Encode(b)
  {
    hide LooseDecode, Padding, Repeat;
    if b != [] && value == Encode(b) {
      EncodeThenDecode(b);
      EncodedIsAscii(b);
      EncodedLength(b);
    }
  }

  /** No two accepted strings decode alike. */
  lemma DecodingIsInjective(v: string, w: string)
    requires DecodeStrict(v).Some? && DecodeStrict(v) == DecodeStrict(w)
    ensures v == w
  {
    DecodesExactly(v, DecodeStrict(v).value);
    DecodesExactly(w, DecodeStrict(v).value);
  }

  // ----- Which strings are accepted -----

  /** The bits of the last letter that no byte uses are zero. */
  predicate ZeroTail(value: string)
    requires value != "" && IsLetter(value[|value| - 1])
  {
    var last := LooseValue(value[|value| - 1]).value;
    (|value| % 4 == 2 ==> last % 16 == 0) && (|value| % 4 == 3 ==> last % 4 == 0)
  }

  predicate Canonical(value: string) {
    value != "" && (forall c :: c in value ==> IsLetter(c)) && |value| % 4 != 1 && ZeroTail(value)
  }

  /** The bytes of a canonical string. */
  lemma {:induction false} CanonicalIsEncoding(value: string) returns (b: Bytes)
    requires Canonical(value)
    ensures b != [] && Encode(b) == value
  {
    hide LooseValue, Letter, Byte1, Byte2, Byte3, Sextet1, Sextet2, Sextet3, Sextet4;
    assert forall i :: 0 <= i < |value| ==> IsLetter(value[i]) by { assert forall i :: 0 <= i < |value| ==> value[i] in value; }
    hide IsLetter;
    var x := ValueOf(value[0]);
    var y := ValueOf(value[1]);
    if |value| == 2 {
      SextetsAgain(x, y, 0, 0);
      TailOf(value, y);
      b := [Byte1(x, y)];
    } else {
      var z := ValueOf(value[2]);
      if |value| == 3 {
        SextetsAgain(x, y, z, 0);
        TailOf(value, z);
        b := [Byte1(x, y), Byte2(y, z)];
      } else {
        var w := ValueOf(value[3]);
        SextetsAgain(x, y, z, w);
        var tail: Bytes := [];
        if |value| > 4 {
          CanonicalTail(value);
          tail := CanonicalIsEncoding(value[4..]);
        }
        b := [Byte1(x, y), Byte2(y, z), Byte3(z, w)] + tail;
        assert b[3..] == tail;
        assert value == value[..4] + value[4..];
      }
    }
  }

  lemma ValueOf(c: char) returns (n: Sextet)
    requires IsLetter(c)
    ensures Letter(n) == c && LooseValue(c) == Some(n)
  {
    n := LooseValue(c).value;
    ValueLetter(c);
  }

  lemma TailOf(value: string, n: Sextet)
    requires Canonical(value) && LooseValue(value[|value| - 1]) == Some(n)
    ensures |value| % 4 == 2 ==> n % 16 == 0
    ensures |value| % 4 == 3 ==> n % 4 == 0
  {
    hide LooseValue;
  }

  lemma CanonicalTail(value: string)
    requires Canonical(value) && |value| > 4
    ensures Canonical(value[4..])
  {
    hide LooseValue, ZeroTail, IsLetter;
    var rest := value[4..];
    assert forall c :: c in rest ==> c in value;
    assert rest[|rest| - 1] in rest;
    FourInFront(value, rest);
    assert |rest| % 4 == |value| % 4;
  }

  /** Four more letters in front change neither the last letter nor the length modulo four. */
  lemma FourInFront(s: string, rest: string)
    requires |s| == 4 + |rest| && s[4..] == rest && rest != "" && IsLetter(rest[|rest| - 1])
    ensures s[|s| - 1] == rest[|rest| - 1]
    ensures ZeroTail(s) <==> ZeroTail(rest)
  {
    hide LooseValue;
    assert s[4..][|rest| - 1] == s[|s| - 1];
    assert |s| % 4 == |rest| % 4;
  }

  lemma {:induction false} EncodedTail(b: Bytes)
    requires b != []
    ensures Encode(b) != "" && IsLetter(Encode(b)[|Encode(b)| - 1]) && ZeroTail(Encode(b))
  {
    hide LooseValue, Letter, IsLetter, Sextet1;
    if |b| == 1 {
      LetterValue(Sextet2(b[0], 0));
    } else if |b| == 2 {
      LetterValue(Sextet3(b[1], 0));
    } else if |b| == 3 {
      LetterValue(Sextet4(b[2]));
      assert Encode(b) == [Letter(Sextet1(b[0])), Letter(Sextet2(b[0], b[1])), Letter(Sextet3(b[1], b[2])), Letter(Sextet4(b[2]))];
    } else {
      hide ZeroTail;
      EncodedTail(b[3..]);
      FourInFront(Encode(b), Encode(b[3..]));
    }
  }

  lemma EncodingIsCanonical(b: Bytes)
    requires b != []
    ensures Canonical(Encode(b))
  {
    hide LooseValue, Letter, IsLetter, ZeroTail, Encode;
    EncodedIsAscii(b);
    EncodedLength(b);
    EncodedTail(b);
  }

  /** Accepted: letters of the URL-safe alphabet only, a possible length, and zero tail bits. */
  lemma AcceptsCanonical(value: string)
    ensures DecodeStrict(value).Some? <==> Canonical(value)
  {
    hide DecodeStrict, Canonical;
    if DecodeStrict(value).Some? {
      DecodesExactly(value, DecodeStrict(value).value);
      EncodingIsCanonical(DecodeStrict(value).value);
    }
    if Canonical(value) {
      var b := CanonicalIsEncoding(value);
      DecodesExactly(value, b);
    }
  }
}

/** A cursor's payload determines the request and the offset it was written for, so it can be read back. */
module CursorPayload {
  import opened Bytes
  import opened Text
  import opened Cursor

  // ----- Escaped text ends where it ends -----

  lemma HexValue(n: nat)
    requires n < 16
    ensures Hex(n) as int == if n < 10 then 48 + n else 87 + n
  {
  }

  /** How an escaped character starts: itself, or a backslash. */
  lemma EscapedStarts(c: char)
    ensures Escaped(c) != "" && (Escaped(c)[0] == '\\' || Escaped(c) == [c]) && Escaped(c)[0] != '"'
    ensures Escaped(c)[0] == '\\' ==> |Escaped(c)| >= 2
  {
  }

  /** The character behind a backslash says which of the escapes it is. */
  predicate IsShort(c: char) {
    c == '"' || c == '\\' || c == '\n' || c == '\r' || c == '\t' || c as int == 8 || c as int == 12
  }

  lemma EscapesApart(c: char, d: char)
    requires Escaped(c)[0] == '\\' && Escaped(d)[0] == '\\' && Escaped(c)[1] == Escaped(d)[1]
    ensures |Escaped(c)| == |Escaped(d)| && IsShort(c) == IsShort(d)
    ensures IsShort(c) ==> c == d
    ensures !IsShort(c) ==> c as int < 32 && d as int < 32 && |Escaped(c)| == 6
  {
  }

  lemma LongEscapesApart(c: char, d: char)
    requires !IsShort(c) && !IsShort(d) && c as int < 32 && d as int < 32 && Escaped(c) == Escaped(d)
    ensures c == d
  {
    HexValue(c as int / 16);
    HexValue(c as int % 16);
    HexValue(d as int / 16);
    HexValue(d as int % 16);
    assert Escaped(c)[4] == Hex(c as int / 16) && Escaped(c)[5] == Hex(c as int % 16);
    assert Escaped(d)[4] == Hex(d as int / 16) && Escaped(d)[5] == Hex(d as int % 16);
  }

  lemma EqualParts(a: string, x: string, b: string, y: string)
    requires a + x == b + y && |a| == |b|
    ensures a == b && x == y
  {
    assert (a + x)[..|a|] == a && (b + y)[..|b|] == b;
    assert (a + x)[|a|..] == x && (b + y)[|b|..] == y;
  }

  /** No escaped character is the beginning of another. */
  lemma CharactersApart(c: char, x: string, d: char, y: string)
    requires Escaped(c) + x == Escaped(d) + y
    ensures c == d && x == y
  {
    hide Escaped;
    EscapedStarts(c);
    EscapedStarts(d);
    assert (Escaped(c) + x)[0] == Escaped(c)[0] && (Escaped(d) + y)[0] == Escaped(d)[0];
    if Escaped(c)[0] == '\\' {
      BackslashIsEscaped(c, d);
      assert (Escaped(c) + x)[1] == Escaped(c)[1] && (Escaped(d) + y)[1] == Escaped(d)[1];
      EscapesApart(c, d);
      EqualParts(Escaped(c), x, Escaped(d), y);
      if !IsShort(c) {
        LongEscapesApart(c, d);
      }
    } else {
      BackslashIsEscaped(d, c);
      EqualParts(Escaped(c), x, Escaped(d), y);
    }
  }

  /** A character that is written as itself is no backslash. */
  lemma BackslashIsEscaped(c: char, d: char)
    ensures Escaped(c)[0] == '\\' && Escaped(d)[0] == '\\' ==> |Escaped(c)| >= 2 && |Escaped(d)| >= 2
    ensures Escaped(d)[0] != '\\' ==> Escaped(d) == [d]
  {
  }

  /** Two texts, each up to its closing quote. */
  lemma {:induction false} TextsApart(a: string, x: string, b: string, y: string)
    requires EscapedText(a) + "\"" + x == EscapedText(b) + "\"" + y
    ensures a == b && x == y
  {
    hide Escaped;
    if a != "" {
      EscapedStarts(a[0]);
    }
    if b != "" {
      EscapedStarts(b[0]);
    }
    if a == "" || b == "" {
      QuoteFirst(a, x);
      QuoteFirst(b, y);
      EqualParts(EscapedText(a) + "\"", x, EscapedText(b) + "\"", y);
    } else {
      var u, v := EscapedText(a[1..]) + "\"" + x, EscapedText(b[1..]) + "\"" + y;
      assert EscapedText(a) + "\"" + x == Escaped(a[0]) + u;
      assert EscapedText(b) + "\"" + y == Escaped(b[0]) + v;
      CharactersApart(a[0], u, b[0], v);
      TextsApart(a[1..], x, b[1..], y);
    }
  }

  /** Only the empty text has its closing quote first. */
  lemma QuoteFirst(a: string, x: string)
    ensures (EscapedText(a) + "\"" + x)[0] == '"' <==> a == ""
  {
    hide Escaped;
    if a != "" {
      EscapedStarts(a[0]);
      assert (EscapedText(a) + "\"" + x)[0] == Escaped(a[0])[0];
    }
  }

  /** Two numbers, each up to the comma behind it. */
  lemma NumbersApart(n: nat, x: string, m: nat, y: string)
    requires Decimal(n) + "," + x == Decimal(m) + "," + y
    ensures n == m && x == y
  {
    hide Decimal;
    DigitsBefore(n, x);
    DigitsBefore(m, y);
    EqualParts(Decimal(n), "," + x, Decimal(m), "," + y) by {
      Regroup(Decimal(n), ",", x);
      Regroup(Decimal(m), ",", y);
    }
    assert ("," + x)[1..] == x && ("," + y)[1..] == y;
    DecimalRoundTrip(n);
    DecimalRoundTrip(m);
  }

  lemma DigitsBefore(n: nat, x: string)
    ensures Span(Decimal(n) + "," + x, IsAsciiDigit) == |Decimal(n)|
  {
    hide Decimal;
    DecimalRoundTrip(n);
    SpanIs(Decimal(n) + "," + x, IsAsciiDigit, |Decimal(n)|);
  }

  /** No two requests, and no two offsets of one request, share a payload. */
  lemma PayloadIsInjective(operation: string, offset: nat, fingerprint: string, operation': string, offset': nat, fingerprint': string)
    requires Payload(operation, offset, fingerprint) == Payload(operation', offset', fingerprint')
    ensures operation == operation' && offset == offset' && fingerprint == fingerprint'
  {
    hide EscapedText, Decimal, Payload;
    PayloadParts(operation, offset, fingerprint);
    PayloadParts(operation', offset', fingerprint');
    EqualParts("{\"f\":\"", BehindOpening(operation, offset, fingerprint), "{\"f\":\"", BehindOpening(operation', offset', fingerprint'));
    TextsApart(fingerprint, BehindText(operation, offset), fingerprint', BehindText(operation', offset'));
    EqualParts(",\"n\":", BehindKey(operation, offset), ",\"n\":", BehindKey(operation', offset'));
    NumbersApart(offset, BehindNumber(operation), offset', BehindNumber(operation'));
    EqualParts("\"o\":\"", EscapedText(operation) + "\"" + "}", "\"o\":\"", EscapedText(operation') + "\"" + "}");
    TextsApart(operation, "}", operation', "}");
  }

  function BehindNumber(operation: string): string {
    "\"o\":\"" + (EscapedText(operation) + "\"" + "}")
  }

  function BehindKey(operation: string, offset: nat): string {
    Decimal(offset) + "," + BehindNumber(operation)
  }

  function BehindText(operation: string, offset: nat): string {
    ",\"n\":" + BehindKey(operation, offset)
  }

  function BehindOpening(operation: string, offset: nat, fingerprint: string): string {
    EscapedText(fingerprint) + "\"" + BehindText(operation, offset)
  }

  lemma PayloadParts(operation: string, offset: nat, fingerprint: string)
    ensures Payload(operation, offset, fingerprint) == "{\"f\":\"" + BehindOpening(operation, offset, fingerprint)
  {
    hide EscapedText, Decimal;
    var f, n, o := EscapedText(fingerprint), Decimal(offset), EscapedText(operation);
    assert "\",\"n\":" == "\"" + ",\"n\":" && ",\"o\":\"" == "," + "\"o\":\"" && "\"}" == "\"" + "}";
  }

  // ----- Bytes -----

  lemma {:induction false} BytesApart(s: string, t: string)
    requires IsAscii(s) && IsAscii(t) && AsciiBytes(s) == AsciiBytes(t)
    ensures s == t
  {
    AsciiLength(s);
    AsciiLength(t);
    if s != "" {
      assert AsciiBytes(s)[0] == AsciiBytes(t)[0] && AsciiBytes(s)[1..] == AsciiBytes(t)[1..];
      BytesApart(s[1..], t[1..]);
      assert s == [s[0]] + s[1..] && t == [t[0]] + t[1..];
    }
  }

  // ----- What the theorems assume of the libraries can be met -----

  /** The bytes are the payload of this request and offset. */
  ghost predicate IsPayload(b: Bytes, operation: string, offset: nat, fingerprint: string) {
    && Plain(operation, fingerprint) && IsAscii(Payload(operation, offset, fingerprint))
    && b == AsciiBytes(Payload(operation, offset, fingerprint))
  }

  /** Reads payloads, and takes all else for something that is no JSON. */
  ghost function ReadPayload(b: Bytes): Loaded {
    if exists operation, offset: nat, fingerprint :: IsPayload(b, operation, offset, fingerprint) then
      var operation, offset: nat, fingerprint :| IsPayload(b, operation, offset, fingerprint);
      Object(JsonText(operation), JsonInt(offset), JsonText(fingerprint))
    else NotJson
  }

  lemma ReadsPayload(b: Bytes, operation: string, offset: nat, fingerprint: string)
    requires IsPayload(b, operation, offset, fingerprint)
    ensures ReadPayload(b) == Object(JsonText(operation), JsonInt(offset), JsonText(fingerprint))
  {
    hide Payload, AsciiBytes, IsAscii;
    forall operation', offset': nat, fingerprint' | IsPayload(b, operation', offset', fingerprint')
      ensures operation' == operation && offset' == offset && fingerprint' == fingerprint
    {
      BytesApart(Payload(operation, offset, fingerprint), Payload(operation', offset', fingerprint'));
      PayloadIsInjective(operation, offset, fingerprint, operation', offset', fingerprint');
    }
  }

  /** Whatever digests the signing key gives, there is a reader that makes the libraries sound. */
  lemma SoundExists(mac: string -> Bytes) returns (g: Libraries)
    requires forall body :: |mac(body)| == MAC_BYTES
    ensures g.mac == mac && Sound(g)
  {
    hide Payload, AsciiBytes, IsAscii, ReadPayload, Plain;
    g := Libraries(mac, b => ReadPayload(b));
    forall operation, offset: nat, fingerprint |
      Plain(operation, fingerprint) && IsAscii(Payload(operation, offset, fingerprint))
      ensures g.loads(AsciiBytes(Payload(operation, offset, fingerprint)))
           == Object(JsonText(operation), JsonInt(offset), JsonText(fingerprint))
    {
      ReadsPayload(AsciiBytes(Payload(operation, offset, fingerprint)), operation, offset, fingerprint);
    }
  }
}

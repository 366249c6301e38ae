/** Signed pagination cursors: `body.signature`, both in strict URL-safe base64. */
module Cursor {
  import opened Bytes
  import opened Text
  import Base64Url

  const MAX_LENGTH := 512
  const MAX_OFFSET := 100_000
  const MAC_BYTES := 16

  // ----- The payload: {"f":...,"n":...,"o":...}, keys sorted, no spaces -----

  predicate IsAscii(s: string) {
    forall i :: 0 <= i < |s| ==> s[i] as int < 128
  }

  function Hex(n: nat): char
    requires n < 16
  {
    "0123456789abcdef"[n]
  }

  /** One character inside a JSON string, as `json.dumps` writes it. */
  function Escaped(c: char): string {
    if c == '"' then "\\\""
    else if c == '\\' then "\\\\"
    else if c == '\n' then "\\n"
    else if c == '\r' then "\\r"
    else if c == '\t' then "\\t"
    else if c as int == 8 then "\\b"
    else if c as int == 12 then "\\f"
    else if c as int < 32 then "\\u00" + [Hex(c as int / 16), Hex(c as int % 16)]
    else [c]
  }

  function EscapedText(s: string): string {
    if s == "" then "" else Escaped(s[0]) + EscapedText(s[1..])
  }

  function Payload(operation: string, offset: nat, fingerprint: string): string {
    "{\"f\":\"" + EscapedText(fingerprint) + "\",\"n\":" + Decimal(offset) + ",\"o\":\"" + EscapedText(operation) + "\"}"
  }

  /** The bytes of ASCII text. */
  function AsciiBytes(s: string): Bytes
    requires IsAscii(s)
  {
    if s == "" then [] else [s[0] as int] + AsciiBytes(s[1..])
  }

  // ----- What the libraries do -----

  datatype JsonValue = JsonText(text: string) | JsonInt(number: int) | JsonOther

  /** `json.loads` of the decoded bytes: an object with exactly the keys o, n and f, or something else. */
  datatype Loaded = NotJson | OtherShape | Object(o: JsonValue, n: JsonValue, f: JsonValue)

  /** `mac` is the truncated digest of a cursor body under the signing key of one API token. */
  datatype Libraries = Libraries(mac: string -> Bytes, loads: Bytes -> Loaded)

  predicate Plain(operation: string, fingerprint: string) {
    IsAscii(operation) && IsAscii(fingerprint)
  }

  /** Digests have their length, and loading what was dumped gives it back. */
  ghost predicate Sound(g: Libraries) {
    && (forall body :: |g.mac(body)| == MAC_BYTES)
    && (forall operation, offset: nat, fingerprint {:trigger Payload(operation, offset, fingerprint)} ::
        Plain(operation, fingerprint) && IsAscii(Payload(operation, offset, fingerprint)) ==>
          g.loads(AsciiBytes(Payload(operation, offset, fingerprint)))
          == Object(JsonText(operation), JsonInt(offset), JsonText(fingerprint)))
  }

  // ----- encode_cursor and decode_cursor -----

  datatype Rejection =
    | OffsetOutOfRange | TooLong | NotTwoParts | BadSignatureSegment | WrongSignature | BadBodySegment
    | BadJson | BadShape | BadOffset | OtherRequest

  function Signed(g: Libraries, body: string): string {
    body + "." + Base64Url.Encode(g.mac(body))
  }

  function EncodeCursor(g: Libraries, operation: string, offset: int, fingerprint: string): Result<string, Rejection>
    requires Plain(operation, fingerprint)
  {
    if !(0 <= offset <= MAX_OFFSET) then Err(OffsetOutOfRange)
    else
      PayloadIsAscii(operation, offset, fingerprint);
      var cursor := Signed(g, Base64Url.Encode(AsciiBytes(Payload(operation, offset, fingerprint))));
      if |cursor| > MAX_LENGTH then Err(TooLong) else Ok(cursor)
  }

  function DecodeCursor(g: Libraries, cursor: string, operation: string, fingerprint: string): Result<nat, Rejection> {
    if cursor == "" || |cursor| > MAX_LENGTH then Err(TooLong)
    else
      var parts := Split(cursor, '.');
      if |parts| != 2 then Err(NotTwoParts)
      else
        var (body, signature) := (parts[0], parts[1]);
        var mac := Base64Url.DecodeStrict(signature);
        if mac.None? then Err(BadSignatureSegment)
        else if mac.value != g.mac(body) then Err(WrongSignature)
        else if Base64Url.DecodeStrict(body).None? then Err(BadBodySegment)
        else
          match g.loads(Base64Url.DecodeStrict(body).value)
          case NotJson => Err(BadJson)
          case OtherShape => Err(BadShape)
          case Object(o, n, f) =>
            if !n.JsonInt? || !(0 <= n.number <= MAX_OFFSET) then Err(BadOffset)
            else if o != JsonText(operation) || f != JsonText(fingerprint) then Err(OtherRequest)
            else Ok(n.number)
  }

  // ----- Payload text -----

  lemma EscapedIsAscii(c: char)
    requires c as int < 128
    ensures IsAscii(Escaped(c)) && Escaped(c) != ""
    ensures c as int >= 32 && c != '"' && c != '\\' ==> |Escaped(c)| == 1
  {
  }

  lemma {:induction false} EscapedTextIsAscii(s: string)
    requires IsAscii(s)
    ensures IsAscii(EscapedText(s))
  {
    hide Escaped;
    if s != "" {
      EscapedIsAscii(s[0]);
      EscapedTextIsAscii(s[1..]);
    }
  }

  lemma {:induction false} DecimalIsAscii(n: nat)
    ensures IsAscii(Decimal(n))
  {
    DecimalRoundTrip(n);
  }

  lemma PayloadIsAscii(operation: string, offset: nat, fingerprint: string)
    requires Plain(operation, fingerprint)
    ensures IsAscii(Payload(operation, offset, fingerprint))
  {
    hide EscapedText, Decimal;
    EscapedTextIsAscii(operation);
    EscapedTextIsAscii(fingerprint);
    DecimalIsAscii(offset);
  }

  lemma {:induction false} AsciiLength(s: string)
    requires IsAscii(s)
    ensures |AsciiBytes(s)| == |s|
  {
    if s != "" {
      AsciiLength(s[1..]);
    }
  }

  // ----- Round trip and binding -----

  lemma NoDot(b: Bytes)
    ensures '.' !in Base64Url.Encode(b)
  {
    Base64Url.EncodedIsAscii(b);
  }

  /** What a decoded cursor was: the only accepted text with its body. */
  lemma {:induction false} SignedSplits(g: Libraries, body: string)
    requires '.' !in body
    ensures Split(Signed(g, body), '.') == [body, Base64Url.Encode(g.mac(body))]
  {
    hide Base64Url.Encode;
    NoDot(g.mac(body));
    SplitWhole(body, '.');
    SplitWhole(Base64Url.Encode(g.mac(body)), '.');
    SplitConcat(body, '.', Base64Url.Encode(g.mac(body)));
    assert body + "." + Base64Url.Encode(g.mac(body)) == body + ['.'] + Base64Url.Encode(g.mac(body));
  }

  /** A cursor decodes under its own request to its own offset, and under every other request it is rejected. */
  lemma CursorRoundTrip(g: Libraries, operation: string, offset: int, fingerprint: string, operation': string, fingerprint': string)
    requires Sound(g) && Plain(operation, fingerprint)
    requires EncodeCursor(g, operation, offset, fingerprint).Ok?
    ensures DecodeCursor(g, EncodeCursor(g, operation, offset, fingerprint).value, operation', fingerprint')
         == if operation' == operation && fingerprint' == fingerprint then Ok(offset) else Err(OtherRequest)
  {
    hide Payload, Base64Url.Encode, Base64Url.DecodeStrict, AsciiBytes, IsAscii, Split;
    PayloadIsAscii(operation, offset, fingerprint);
    var text := AsciiBytes(Payload(operation, offset, fingerprint));
    var body := Base64Url.Encode(text);
    NoDot(text);
    SignedSplits(g, body);
    PayloadNotEmpty(operation, offset, fingerprint);
    AsciiLength(Payload(operation, offset, fingerprint));
    Base64Url.DecodesExactly(body, text);
    assert |g.mac(body)| == MAC_BYTES;
    Base64Url.DecodesExactly(Base64Url.Encode(g.mac(body)), g.mac(body));
  }

  lemma PayloadNotEmpty(operation: string, offset: nat, fingerprint: string)
    ensures |Payload(operation, offset, fingerprint)| > 0
  {
    hide EscapedText, Decimal;
  }

  /** `cursor` is `body` with that body's own signature, and `body` says this request and this offset. */
  ghost predicate Genuine(g: Libraries, cursor: string, body: string, operation: string, offset: nat, fingerprint: string) {
    && cursor == Signed(g, body) && Base64Url.DecodeStrict(body).Some?
    && g.loads(Base64Url.DecodeStrict(body).value) == Object(JsonText(operation), JsonInt(offset), JsonText(fingerprint))
  }

  /** Every accepted cursor is genuine for the request it is accepted under, and its offset is in range. */
  lemma AcceptedIsGenuine(g: Libraries, cursor: string, operation: string, fingerprint: string)
    requires DecodeCursor(g, cursor, operation, fingerprint).Ok?
    ensures exists body :: Genuine(g, cursor, body, operation, DecodeCursor(g, cursor, operation, fingerprint).value, fingerprint)
    ensures DecodeCursor(g, cursor, operation, fingerprint).value <= 100_000 && |cursor| <= 512
  {
    hide Base64Url.Encode, Base64Url.DecodeStrict, Split;
    var parts := Split(cursor, '.');
    TwoParts(cursor);
    Base64Url.DecodesExactly(parts[1], g.mac(parts[0]));
    assert Genuine(g, cursor, parts[0], operation, DecodeCursor(g, cursor, operation, fingerprint).value, fingerprint);
  }

  lemma TwoParts(cursor: string)
    requires |Split(cursor, '.')| == 2
    ensures cursor == Split(cursor, '.')[0] + "." + Split(cursor, '.')[1]
  {
    hide Split;
    JoinSplit(cursor, '.');
  }

  // ----- Length -----

  /** A cursor is turned away unread exactly if it is empty or has more than 512 characters. */
  lemma OnlyLengthIsUnread(g: Libraries, cursor: string, operation: string, fingerprint: string)
    ensures DecodeCursor(g, cursor, operation, fingerprint) == Err(TooLong) <==> cursor == "" || |cursor| > 512
  {
    hide Base64Url.DecodeStrict, Split;
  }

  /** Nothing in the text needs escaping. */
  predicate NeedsNoEscape(s: string) {
    forall i :: 0 <= i < |s| ==> 32 <= s[i] as int < 127 && s[i] != '"' && s[i] != '\\'
  }

  lemma {:induction false} EscapedLength(s: string)
    requires NeedsNoEscape(s)
    ensures |EscapedText(s)| == |s|
  {
    hide Escaped;
    if s != "" {
      EscapedIsAscii(s[0]);
      EscapedLength(s[1..]);
    }
  }

  lemma OneDigitMore(n: nat, digits: nat)
    requires |Decimal(n / 10)| <= digits
    ensures |Decimal(n)| <= digits + 1
  {
  }

  lemma OffsetDigits(n: nat)
    requires n <= MAX_OFFSET
    ensures |Decimal(n)| <= 6
  {
    assert |Decimal(n / 10 / 10 / 10 / 10 / 10)| <= 1;
    OneDigitMore(n / 10 / 10 / 10 / 10, 1);
    OneDigitMore(n / 10 / 10 / 10, 2);
    OneDigitMore(n / 10 / 10, 3);
    OneDigitMore(n / 10, 4);
    OneDigitMore(n, 5);
  }

  /** Search and tree cursors, with their 32-character fingerprints, stay far below the limit at every offset. */
  lemma CursorsFit(g: Libraries, operation: string, offset: int, fingerprint: string)
    requires Sound(g) && Plain(operation, fingerprint)
    requires operation == "search" || operation == "tree"
    requires |fingerprint| == 32 && NeedsNoEscape(fingerprint)
    ensures EncodeCursor(g, operation, offset, fingerprint).Ok? <==> 0 <= offset <= 100_000
    ensures EncodeCursor(g, operation, offset, fingerprint).Ok? ==> |EncodeCursor(g, operation, offset, fingerprint).value| <= 109
  {
    if 0 <= offset <= MAX_OFFSET {
      PayloadIsAscii(operation, offset, fingerprint);
      var text := Payload(operation, offset, fingerprint);
      assert |text| <= 64 by {
        hide EscapedText, Decimal;
        EscapedLength(operation);
        EscapedLength(fingerprint);
        OffsetDigits(offset);
      }
      hide Payload, Base64Url.Encode, AsciiBytes, IsAscii;
      AsciiLength(text);
      var body := Base64Url.Encode(AsciiBytes(text));
      Base64Url.EncodedLength(AsciiBytes(text));
      assert |g.mac(body)| == MAC_BYTES;
      Base64Url.EncodedLength(g.mac(body));
    }
  }
}

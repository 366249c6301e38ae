/** Characters, lines and decimal numbers: the string vocabulary every other module shares. */
module Text {

  datatype Option<+T> = None | Some(value: T)

  /** A value, or the first error the Gateway raises instead of it. */
  datatype Result<+T, +E> = Ok(value: T) | Err(error: E) {
    predicate IsFailure() {
      Err?
    }

    function PropagateFailure<U>(): Result<U, E>
      requires Err?
    {
      Err(error)
    }

    function Extract(): T
      requires Ok?
    {
      value
    }
  }

  // ----- Character classes -----

  /** What Python's `str.strip`, `str.isspace` and the regex class `\s` call whitespace. */
  predicate IsSpace(c: char) {
    var n := c as int;
    || 9 <= n <= 13 || 0x1c <= n <= 0x20 || n == 0x85 || n == 0xa0 || n == 0x1680
    || 0x2000 <= n <= 0x200a || n == 0x2028 || n == 0x2029 || n == 0x202f || n == 0x205f || n == 0x3000
  }

  /** The only indentation Markdown knows. */
  predicate IsBlank(c: char) {
    c == ' ' || c == '\t'
  }

  /** C0 and C1 control characters. */
  predicate IsControl(c: char) {
    var n := c as int;
    n <= 0x1f || 0x7f <= n <= 0x9f
  }

  /** Control characters other than tab and newline. */
  predicate IsCodeControl(c: char) {
    IsControl(c) && c != '\t' && c != '\n'
  }

  /** Every character some reader may treat as a line break. */
  predicate IsLineBreak(c: char) {
    var n := c as int;
    10 <= n <= 13 || 0x1c <= n <= 0x1e || n == 0x85 || n == 0x2028 || n == 0x2029
  }

  // ----- Strings -----

  function Repeat(c: char, n: nat): (r: string)
    ensures |r| == n
    ensures forall i :: 0 <= i < n ==> r[i] == c
  {
    seq(n, _ => c)
  }

  /** Length of the longest prefix made of `p` characters. */
  function Span(s: string, p: char -> bool): (n: nat)
    ensures n <= |s|
    ensures n < |s| ==> !p(s[n])
  {
    if s == "" || !p(s[0]) then 0 else 1 + Span(s[1..], p)
  }

  /** `^[class]*$`: every character is a `p` character. */
  predicate Only(s: string, p: char -> bool) {
    Span(s, p) == |s|
  }

  lemma {:induction false} SpanAt(s: string, p: char -> bool, i: nat)
    requires i < Span(s, p)
    ensures p(s[i])
  {
    if i > 0 {
      SpanAt(s[1..], p, i - 1);
    }
  }

  /** `Span` is the only length with its two properties. */
  lemma {:induction false} SpanIs(s: string, p: char -> bool, n: nat)
    requires n <= |s| && (forall i :: 0 <= i < n ==> p(s[i])) && (n < |s| ==> !p(s[n]))
    ensures Span(s, p) == n
  {
    if n > 0 {
      SpanIs(s[1..], p, n - 1);
    }
  }

  function StripLeft(s: string): (r: string)
    ensures r == "" || !IsSpace(r[0])
    ensures |r| <= |s| && r == s[|s| - |r|..]
  {
    s[Span(s, IsSpace)..]
  }

  function StripRight(s: string): (r: string)
    ensures r == "" || !IsSpace(r[|r| - 1])
    ensures r <= s
    ensures forall i :: |r| <= i < |s| ==> IsSpace(s[i])
  {
    if s == "" || !IsSpace(s[|s| - 1]) then s
    else StripRight(s[..|s| - 1])
  }

  function Strip(s: string): string {
    StripRight(StripLeft(s))
  }

  /** No whitespace at either end: what `Strip` leaves alone. */
  predicate Trimmed(s: string) {
    s != "" ==> !IsSpace(s[0]) && !IsSpace(s[|s| - 1])
  }

  lemma StripTrims(s: string)
    ensures Trimmed(Strip(s))
    ensures forall c :: c in Strip(s) ==> c in s
    ensures Trimmed(s) ==> Strip(s) == s
  {
    var left := StripLeft(s);
    assert Strip(s) <= left;
    if Trimmed(s) {
      assert Span(s, IsSpace) == 0 by { SpanIs(s, IsSpace, 0); }
    }
  }

  /** `re.sub` of one character class by one string. */
  function Replace(s: string, p: char -> bool, with: char -> string): string {
    if s == "" then ""
    else (if p(s[0]) then with(s[0]) else [s[0]]) + Replace(s[1..], p, with)
  }

  /** `re.sub(class, "", s)`. */
  function Remove(s: string, p: char -> bool): string {
    if s == "" then ""
    else if p(s[0]) then Remove(s[1..], p)
    else [s[0]] + Remove(s[1..], p)
  }

  lemma {:induction false} RemoveChars(s: string, p: char -> bool)
    ensures forall c :: c in Remove(s, p) ==> c in s && !p(c)
    ensures (forall c :: c in s ==> !p(c)) ==> Remove(s, p) == s
  {
    if s != "" {
      RemoveChars(s[1..], p);
      assert s[0] in s;
    }
  }

  lemma {:induction false} RemoveConcat(a: string, b: string, p: char -> bool)
    ensures Remove(a + b, p) == Remove(a, p) + Remove(b, p)
  {
    if a == "" {
      assert a + b == b;
    } else {
      assert (a + b)[1..] == a[1..] + b;
      RemoveConcat(a[1..], b, p);
    }
  }

  /** The last part moves over to the front of what follows. */
  lemma Regroup<T>(a: seq<T>, b: seq<T>, c: seq<T>)
    ensures a + (b + c) == (a + b) + c
  {
  }

  /** Python's `sep.join(parts)`. */
  function Join(parts: seq<string>, sep: string): string {
    if parts == [] then ""
    else if |parts| == 1 then parts[0]
    else parts[0] + sep + Join(parts[1..], sep)
  }

  /** Python's `s.split(sep)` for a one-character separator: never empty. */
  function Split(s: string, sep: char): (r: seq<string>)
    ensures |r| >= 1
  {
    if s == "" then [""]
    else
      var rest := Split(s[1..], sep);
      if s[0] == sep then [""] + rest
      else [[s[0]] + rest[0]] + rest[1..]
  }

  lemma {:induction false} SplitChars(s: string, sep: char, k: nat, c: char)
    requires k < |Split(s, sep)| && c in Split(s, sep)[k]
    ensures c in s && c != sep
  {
    if s != "" {
      if s[0] == sep {
        SplitChars(s[1..], sep, k - 1, c);
      } else if k > 0 {
        SplitChars(s[1..], sep, k, c);
      } else if c != s[0] {
        SplitChars(s[1..], sep, 0, c);
      }
    }
  }

  function Lines(s: string): (r: seq<string>)
    ensures |r| >= 1
  {
    Split(s, '\n')
  }

  lemma SplitWhole(s: string, sep: char)
    requires sep !in s
    ensures Split(s, sep) == [s]
  {
    if s != "" {
      SplitWhole(s[1..], sep);
      assert [s[0]] + s[1..] == s;
    }
  }

  /** Growing the first part of `x + y` grows the first part of `x`. */
  lemma GrowFirst(c: char, x: seq<string>, y: seq<string>)
    requires x != []
    ensures [[c] + (x + y)[0]] + (x + y)[1..] == ([[c] + x[0]] + x[1..]) + y
  {
    assert (x + y)[1..] == x[1..] + y;
  }

  lemma {:induction false} SplitConcat(a: string, sep: char, b: string)
    ensures Split(a + [sep] + b, sep) == Split(a, sep) + Split(b, sep)
  {
    var s := a + [sep] + b;
    if a == "" {
      assert s[1..] == b;
    } else {
      SplitConcat(a[1..], sep, b);
      assert s[1..] == a[1..] + [sep] + b;
      if a[0] == sep {
        Regroup([""], Split(a[1..], sep), Split(b, sep));
      } else {
        GrowFirst(a[0], Split(a[1..], sep), Split(b, sep));
      }
    }
  }

  lemma {:induction false} SplitJoin(parts: seq<string>, sep: char)
    requires parts != [] && forall k :: 0 <= k < |parts| ==> sep !in parts[k]
    ensures Split(Join(parts, [sep]), sep) == parts
  {
    SplitWhole(parts[0], sep);
    if |parts| > 1 {
      SplitJoin(parts[1..], sep);
      SplitConcat(parts[0], sep, Join(parts[1..], [sep]));
      assert [parts[0]] + parts[1..] == parts;
    }
  }

  /** A character in front of the first part is one in front of the join. */
  lemma JoinGrown(c: char, parts: seq<string>, sep: string)
    requires parts != []
    ensures Join([[c] + parts[0]] + parts[1..], sep) == [c] + Join(parts, sep)
  {
    var grown := [[c] + parts[0]] + parts[1..];
    assert grown[1..] == parts[1..];
    if |parts| > 1 {
      var rest := Join(parts[1..], sep);
      assert ([c] + parts[0]) + sep + rest == [c] + (parts[0] + sep + rest);
    }
  }

  lemma {:induction false} JoinSplit(s: string, sep: char)
    ensures Join(Split(s, sep), [sep]) == s
  {
    if s != "" {
      JoinSplit(s[1..], sep);
      var rest := Split(s[1..], sep);
      assert [s[0]] + s[1..] == s;
      if s[0] == sep {
        assert ([""] + rest)[1..] == rest;
        assert "" + [sep] + s[1..] == s;
      } else {
        JoinGrown(s[0], rest, [sep]);
      }
    }
  }

  /** Appending after the last part of a non-empty join. */
  lemma {:induction false} JoinAppend(parts: seq<string>, last: string, sep: string)
    requires parts != []
    ensures Join(parts + [last], sep) == Join(parts, sep) + sep + last
  {
    if |parts| == 1 {
      assert (parts + [last])[1..] == [last];
    } else {
      JoinAppend(parts[1..], last, sep);
      assert (parts + [last])[1..] == parts[1..] + [last];
    }
  }

  /** Python's `part in s`. */
  predicate Contains(s: string, part: string) {
    |part| <= |s| && (s[..|part|] == part || (s != "" && Contains(s[1..], part)))
  }

  // ----- Decimal numbers: Python's `str(n)` for n >= 0 -----

  function Digit(d: nat): (c: char)
    requires d < 10
    ensures '0' <= c <= '9' && c as int == 48 + d
  {
    "0123456789"[d]
  }

  function Decimal(n: nat): (r: string)
    ensures r != ""
  {
    if n < 10 then [Digit(n)] else Decimal(n / 10) + [Digit(n % 10)]
  }

  predicate IsAsciiDigit(c: char) {
    '0' <= c <= '9'
  }

  /** Python's `int(s)` for a string of ASCII digits. */
  function DecimalValue(s: string): nat {
    if s == "" || !IsAsciiDigit(s[|s| - 1]) then 0
    else 10 * DecimalValue(s[..|s| - 1]) + (s[|s| - 1] as int - 48)
  }

  lemma {:induction false} DecimalRoundTrip(n: nat)
    ensures DecimalValue(Decimal(n)) == n
    ensures forall i :: 0 <= i < |Decimal(n)| ==> IsAsciiDigit(Decimal(n)[i])
  {
    if n >= 10 {
      DecimalRoundTrip(n / 10);
      assert Decimal(n)[..|Decimal(n)| - 1] == Decimal(n / 10);
    }
  }
}

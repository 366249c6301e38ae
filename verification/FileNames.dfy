/** Titles to file names, and the candidate names of a new note. */
module FileNames {
  import opened Text
  import opened Escape

  // ----- sanitise_title (Unicode NFC, its first step, is taken as already applied) -----

  datatype TitleError = EmptyTitle | ReservedName

  const MAX_STEM_LENGTH := 100

  predicate IsDotOrSpace(c: char) {
    c == '.' || c == ' '
  }

  /** `s.strip(". ")` */
  function StripDots(s: string): string {
    StripDotsRight(s[Span(s, IsDotOrSpace)..])
  }

  function StripDotsRight(s: string): (r: string)
    ensures r <= s
    ensures r != "" ==> !IsDotOrSpace(r[|r| - 1])
  {
    if s != "" && IsDotOrSpace(s[|s| - 1]) then StripDotsRight(s[..|s| - 1]) else s
  }

  predicate IsForbidden(c: char) {
    c in "/\\:*?\"<>|"
  }

  function Dash(c: char): string {
    "-"
  }

  function UpperAscii(s: string): string {
    if s == "" then ""
    else [if 'a' <= s[0] <= 'z' then (s[0] as int - 32) as char else s[0]] + UpperAscii(s[1..])
  }

  /** CON, PRN, AUX, NUL, COM1 to COM9, LPT1 to LPT9. */
  predicate IsReserved(s: string) {
    || s == "CON" || s == "PRN" || s == "AUX" || s == "NUL"
    || (|s| == 4 && (s[..3] == "COM" || s[..3] == "LPT") && '1' <= s[3] <= '9')
  }

  function CleanTitle(title: string): string {
    var visible := Remove(title, IsControl);
    var safe := Replace(visible, IsForbidden, Dash);
    var dotless := StripDots(Strip(Collapse(safe, IsSpace, ' ')));
    StripDots(if |dotless| > MAX_STEM_LENGTH then dotless[..MAX_STEM_LENGTH] else dotless)
  }

  function SanitiseTitle(title: string): Result<string, TitleError> {
    var stem := CleanTitle(title);
    if stem == "" then Err(EmptyTitle)
    else if IsReserved(UpperAscii(Split(stem, '.')[0])) then Err(ReservedName)
    else Ok(stem)
  }

  /** What every stem has: no way to name a hidden file, a directory or a path. */
  predicate IsStem(stem: string) {
    1 <= |stem| <= MAX_STEM_LENGTH && !IsDotOrSpace(stem[0]) && !IsDotOrSpace(stem[|stem| - 1]) && SafeChars(stem)
  }

  lemma StripDotsChars(s: string)
    ensures |StripDots(s)| <= |s|
    ensures forall c :: c in StripDots(s) ==> c in s
    ensures StripDots(s) != "" ==> !IsDotOrSpace(StripDots(s)[0]) && !IsDotOrSpace(StripDots(s)[|StripDots(s)| - 1])
  {
  }

  lemma {:induction false} ReplaceChars(s: string)
    ensures forall c :: c in Replace(s, IsForbidden, Dash) ==> c == '-' || (c in s && !IsForbidden(c))
  {
    if s != "" {
      ReplaceChars(s[1..]);
    }
  }

  /** Nothing that a file name must not hold. */
  predicate SafeChars(s: string) {
    forall c :: c in s ==> !IsForbidden(c) && !IsControl(c)
  }

  lemma SomeOfSafe(s: string, t: string)
    requires SafeChars(s) && forall c :: c in t ==> c in s
    ensures SafeChars(t)
  {
  }

  lemma CollapsedIsSafe(title: string)
    ensures SafeChars(Collapse(Replace(Remove(title, IsControl), IsForbidden, Dash), IsSpace, ' '))
  {
    hide Collapse, Replace, Remove, IsSpace;
    var visible := Remove(title, IsControl);
    RemoveChars(title, IsControl);
    ReplaceChars(visible);
    CollapseChars(Replace(visible, IsForbidden, Dash), IsSpace, ' ');
  }

  /** Whatever is left of a title is safe. */
  lemma CleanIsStem(title: string)
    ensures CleanTitle(title) != "" ==> IsStem(CleanTitle(title))
  {
    hide StripDots, Strip, Collapse, Replace, Remove, SafeChars;
    var spaced := Collapse(Replace(Remove(title, IsControl), IsForbidden, Dash), IsSpace, ' ');
    CollapsedIsSafe(title);
    StripTrims(spaced);
    SomeOfSafe(spaced, Strip(spaced));
    var dotless := StripDots(Strip(spaced));
    StripDotsChars(Strip(spaced));
    SomeOfSafe(Strip(spaced), dotless);
    var cut := if |dotless| > MAX_STEM_LENGTH then dotless[..MAX_STEM_LENGTH] else dotless;
    SomeOfSafe(dotless, cut);
    StripDotsChars(cut);
    SomeOfSafe(cut, StripDots(cut));
  }

  /** Whatever the title, an accepted stem is safe. */
  lemma SanitisedIsStem(title: string)
    ensures SanitiseTitle(title).Ok? ==> IsStem(SanitiseTitle(title).value)
  {
    hide CleanTitle, IsStem, IsReserved, UpperAscii, Split;
    CleanIsStem(title);
  }

  // ----- note_file_name -----

  function NoteFileName(stem: string, sequence: nat): string {
    stem + (if sequence <= 1 then "" else "-" + Decimal(sequence)) + ".md"
  }

  /** The names `create_inbox_note` tries first. */
  function Candidates(stem: string, n: nat): (r: seq<string>)
    ensures |r| == n
  {
    if n == 0 then [] else Candidates(stem, n - 1) + [NoteFileName(stem, n)]
  }

  lemma {:induction false} CandidateAt(stem: string, n: nat, k: nat)
    requires k < n
    ensures Candidates(stem, n)[k] == NoteFileName(stem, k + 1)
  {
    if k < n - 1 {
      CandidateAt(stem, n - 1, k);
    }
  }

  lemma NamesDiffer(stem: string, i: nat, j: nat)
    requires 1 <= i < j
    ensures NoteFileName(stem, i) != NoteFileName(stem, j)
  {
    var a, b := NoteFileName(stem, i), NoteFileName(stem, j);
    assert b[|stem|] == '-';
    if i == 1 {
      assert a[|stem|] == '.';
    } else {
      DecimalRoundTrip(i);
      DecimalRoundTrip(j);
      assert a[|stem| + 1..|a| - 3] == Decimal(i);
      assert b[|stem| + 1..|b| - 3] == Decimal(j);
    }
  }

  /** The candidates are pairwise distinct and none is hidden. */
  lemma CandidatesAreDistinct(stem: string, n: nat)
    requires IsStem(stem)
    ensures forall i, j :: 0 <= i < j < n ==> Candidates(stem, n)[i] != Candidates(stem, n)[j]
    ensures forall i :: 0 <= i < n ==> Candidates(stem, n)[i] != "" && Candidates(stem, n)[i][0] != '.'
  {
    forall i, j | 0 <= i < j < n
      ensures Candidates(stem, n)[i] != Candidates(stem, n)[j]
    {
      CandidateAt(stem, n, i);
      CandidateAt(stem, n, j);
      NamesDiffer(stem, i + 1, j + 1);
    }
    forall i | 0 <= i < n
      ensures Candidates(stem, n)[i] != "" && Candidates(stem, n)[i][0] != '.'
    {
      CandidateAt(stem, n, i);
    }
  }
}

/** What a caller-supplied path may look like, before and after percent-decoding. */
module PathSyntax {
  import opened Names
  import opened Text
  import opened VaultWalk

  datatype PathError = InvalidPath | InvalidFileType

  const MAX_PATH_LENGTH := 1024
  const MAX_COMPONENT_LENGTH := 255
  const MAX_DECODE_ROUNDS := 3

  predicate IsAsciiLetter(c: char) {
    'a' <= c <= 'z' || 'A' <= c <= 'Z'
  }

  predicate PartOk(part: string) {
    part != "" && part[0] != '.' && |part| <= MAX_COMPONENT_LENGTH
  }

  predicate PartsOk(parts: seq<string>) {
    parts == [] || (PartOk(parts[0]) && PartsOk(parts[1..]))
  }

  /** `_check_syntax`; `.` and `..` are hidden components like any other. */
  function CheckSyntax(value: string, requireMarkdown: bool): Option<PathError> {
    var parts := Split(value, '/');
    if '\0' in value || '\\' in value || |value| > MAX_PATH_LENGTH then Some(InvalidPath)
    else if (value != "" && value[0] == '/') || (|value| >= 2 && IsAsciiLetter(value[0]) && value[1] == ':') then Some(InvalidPath)
    else if !PartsOk(parts) then Some(InvalidPath)
    else if requireMarkdown && !EndsInMd(parts[|parts| - 1]) then Some(InvalidFileType)
    else None
  }

  /** `value` after `rounds` rounds of decoding. */
  function Decoded(unquote: string -> string, value: string, rounds: nat): string {
    if rounds == 0 then value else unquote(Decoded(unquote, value, rounds - 1))
  }

  lemma {:induction false} DecodedStays(unquote: string -> string, value: string, rounds: nat, more: nat)
    requires unquote(Decoded(unquote, value, rounds)) == Decoded(unquote, value, rounds)
    ensures Decoded(unquote, value, rounds + more) == Decoded(unquote, value, rounds)
  {
    if more > 0 {
      DecodedStays(unquote, value, rounds, more - 1);
    }
  }

  /** The path passes after `k` rounds. */
  predicate Passes(unquote: string -> string, value: string, requireMarkdown: bool, k: nat) {
    CheckSyntax(Decoded(unquote, value, k), requireMarkdown).None?
  }

  /** The path first fails after `k` rounds, with `error`. */
  ghost predicate FailsFirst(unquote: string -> string, value: string, requireMarkdown: bool, k: nat, error: Option<PathError>) {
    && error.Some? && CheckSyntax(Decoded(unquote, value, k), requireMarkdown) == error
    && forall j :: 0 <= j < k ==> Passes(unquote, value, requireMarkdown, j)
  }

  /** `_check_every_encoding`: accepted exactly when the path and its first three decodings all pass. */
  method CheckEveryEncoding(value: string, requireMarkdown: bool, unquote: string -> string) returns (error: Option<PathError>)
    ensures error.None? <==> forall k :: 0 <= k <= 3 ==> Passes(unquote, value, requireMarkdown, k)
    ensures error.Some? ==> exists k: nat :: k <= 3 && FailsFirst(unquote, value, requireMarkdown, k, error)
  {
    hide CheckSyntax;
    var current := value;
    assert current == Decoded(unquote, value, 0);
    error := CheckSyntax(current, requireMarkdown);
    if error.Some? {
      assert !Passes(unquote, value, requireMarkdown, 0);
      assert FailsFirst(unquote, value, requireMarkdown, 0, error);
      return;
    }
    for round := 0 to MAX_DECODE_ROUNDS
      invariant current == Decoded(unquote, value, round) && error.None?
      invariant forall k :: 0 <= k <= round ==> Passes(unquote, value, requireMarkdown, k)
    {
      var decoded := unquote(current);
      if decoded == current {
        forall k | round <= k <= MAX_DECODE_ROUNDS
          ensures Passes(unquote, value, requireMarkdown, k)
        {
          DecodedStays(unquote, value, round, k - round);
          assert Passes(unquote, value, requireMarkdown, round);
        }
        return;
      }
      assert decoded == Decoded(unquote, value, round + 1);
      error := CheckSyntax(decoded, requireMarkdown);
      if error.Some? {
        assert FailsFirst(unquote, value, requireMarkdown, round + 1, error);
        assert !Passes(unquote, value, requireMarkdown, round + 1);
        return;
      }
      current := decoded;
    }
  }

  /** `s.rstrip("/")` */
  function WithoutTrailingSlashes(s: string): string {
    if s != "" && s[|s| - 1] == '/' then WithoutTrailingSlashes(s[..|s| - 1]) else s
  }

  /** `normalise_relative_dir` */
  method NormaliseRelativeDir(raw: string, unquote: string -> string) returns (folder: Result<string, PathError>)
    ensures folder.Ok? ==> folder.value == WithoutTrailingSlashes(Strip(raw)) && folder.value != "" && CheckSyntax(folder.value, false).None?
    ensures folder.Ok? <==>
      && !("/" <= Strip(raw)) && WithoutTrailingSlashes(Strip(raw)) != ""
      && forall k :: 0 <= k <= 3 ==> Passes(unquote, WithoutTrailingSlashes(Strip(raw)), false, k)
  {
    var stripped := Strip(raw);
    if stripped != "" && stripped[0] == '/' {
      return Err(InvalidPath);
    }
    var cleaned := WithoutTrailingSlashes(stripped);
    if cleaned == "" {
      return Err(InvalidPath);
    }
    var error := CheckEveryEncoding(cleaned, false, unquote);
    if error.Some? {
      return Err(error.value);
    }
    assert Passes(unquote, cleaned, false, 0);
    return Ok(cleaned);
  }

  // ----- An accepted folder is a chain of visible names -----

  lemma {:induction false} PartsAreFolders(parts: seq<string>)
    requires PartsOk(parts) && forall k :: 0 <= k < |parts| ==> '/' !in parts[k]
    ensures FolderNames(parts)
    ensures parts != [] ==> Prefix(parts) == Join(parts, "/") + "/"
    ensures forall k :: 0 <= k < |parts| ==> !Hidden(parts[k])
  {
    if parts != [] {
      PartsAreFolders(parts[1..]);
      if |parts| == 1 {
        assert Prefix(parts) == parts[0] + "/" + Prefix([]);
      }
    }
  }

  lemma AcceptedIsPrefix(folder: string)
    requires CheckSyntax(folder, false).None?
    ensures FolderNames(Split(folder, '/')) && Prefix(Split(folder, '/')) == folder + "/"
    ensures forall k :: 0 <= k < |Split(folder, '/')| ==> !Hidden(Split(folder, '/')[k])
  {
    var parts := Split(folder, '/');
    forall k | 0 <= k < |parts|
      ensures '/' !in parts[k]
    {
      if '/' in parts[k] {
        SplitChars(folder, '/', k, '/');
      }
    }
    PartsAreFolders(parts);
    JoinSplit(folder, '/');
  }

  /**
   * A search restricted to an accepted folder sees what a walk from that folder sees, notes and skips alike,
   * and nothing if the folder is not there.
   */
  lemma FolderSearchIsSubtree(root: Entries, folder: string)
    requires WellNamed(root) && CheckSyntax(folder, false).None?
    ensures Walk(root, "", folder + "/")
         == var inside := Descend(root, Split(folder, '/'));
            if inside.Some? then Under(folder + "/", Walk(inside.value, "", "")) else NOTHING
  {
    hide Walk, WellNamed;
    AcceptedIsPrefix(folder);
    FilteredIsSubtree(root, Split(folder, '/'));
  }
}

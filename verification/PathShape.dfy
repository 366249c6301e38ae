/** Which paths the syntax check accepts, said character by character, and that it accepts the paths a walk finds. */
module PathShape {
  import opened Names
  import opened Text
  import opened VaultWalk
  import opened VaultNotes
  import opened PathSyntax

  // ----- The shape of a path -----

  /** Behind a slash there is a character, and it neither is a slash nor hides what follows. */
  predicate SlashOk(s: string, i: nat)
    requires i < |s|
  {
    s[i] == '/' ==> i + 1 < |s| && s[i + 1] != '/' && s[i + 1] != '.'
  }

  /** Of 256 characters in a row one is a slash. */
  predicate BrokenBy256(s: string, i: nat)
    requires i + 256 <= |s|
  {
    '/' in s[i..i + 256]
  }

  /** No component is empty, hidden (`.` and `..` with them) or longer than 255 characters. */
  ghost predicate Segmented(s: string) {
    && s != "" && s[0] != '/' && s[0] != '.'
    && (forall i :: 0 <= i < |s| ==> SlashOk(s, i))
    && (forall i :: 0 <= i && i + 256 <= |s| ==> BrokenBy256(s, i))
  }

  predicate NotSlash(c: char) {
    c != '/'
  }

  /** A path is its first component, or that, a slash and a shorter path. */
  lemma FirstComponent(s: string) returns (a: string, b: Option<string>)
    ensures '/' !in a && (b.None? ==> s == a) && (b.Some? ==> s == a + "/" + b.value)
  {
    var n := Span(s, NotSlash);
    a := s[..n];
    forall i | 0 <= i < n
      ensures a[i] != '/'
    {
      SpanAt(s, NotSlash, i);
    }
    if n == |s| {
      b := None;
      assert a == s;
    } else {
      b := Some(s[n + 1..]);
      assert s == a + "/" + s[n + 1..];
    }
  }

  lemma OneSegment(a: string)
    requires '/' !in a
    ensures Segmented(a) <==> PartOk(a)
  {
    assert forall i :: 0 <= i < |a| ==> a[i] in a && SlashOk(a, i);
    if |a| >= 256 {
      assert forall c :: c in a[0..0 + 256] ==> c in a;
      assert !BrokenBy256(a, 0);
    }
  }

  lemma FirstSegment(a: string, b: string)
    requires '/' !in a
    ensures Segmented(a + "/" + b) ==> PartOk(a)
  {
    var s := a + "/" + b;
    if a == "" {
      assert s[0] == '/';
    } else if |a| >= 256 {
      LongSegment(a, b);
    } else {
      assert s[0] == a[0];
    }
  }

  lemma LongSegment(a: string, b: string)
    requires '/' !in a && |a| >= 256
    ensures !Segmented(a + "/" + b)
  {
    var s := a + "/" + b;
    assert s[0..0 + 256] == a[..256];
    assert forall c :: c in a[..256] ==> c in a;
    assert !BrokenBy256(s, 0);
  }

  lemma RestSegment(a: string, b: string)
    requires Segmented(a + "/" + b)
    ensures Segmented(b)
  {
    var s, n := a + "/" + b, |a| + 1;
    assert s[|a|] == '/' && SlashOk(s, |a|) && s[n..] == b;
    assert b != "" && b[0] == s[n];
    forall i | 0 <= i < |b|
      ensures SlashOk(b, i)
    {
      assert SlashOk(s, n + i) && s[n + i] == b[i];
    }
    forall i | 0 <= i && i + 256 <= |b|
      ensures BrokenBy256(b, i)
    {
      assert BrokenBy256(s, n + i) && s[n + i..n + i + 256] == b[i..i + 256];
    }
  }

  lemma JoinedSegments(a: string, b: string)
    requires '/' !in a && PartOk(a) && Segmented(b)
    ensures Segmented(a + "/" + b)
  {
    var s, n := a + "/" + b, |a| + 1;
    forall i | 0 <= i < |s|
      ensures SlashOk(s, i)
    {
      if i < |a| {
        assert s[i] == a[i] && a[i] in a;
      } else if i > |a| {
        assert SlashOk(b, i - n) && s[i] == b[i - n];
      } else {
        assert s[n] == b[0];
      }
    }
    forall i | 0 <= i && i + 256 <= |s|
      ensures BrokenBy256(s, i)
    {
      if i <= |a| {
        assert s[i..i + 256][|a| - i] == '/';
      } else {
        assert BrokenBy256(b, i - n) && s[i..i + 256] == b[i - n..i - n + 256];
      }
    }
  }

  lemma {:induction false} PartsAreSegments(s: string)
    ensures PartsOk(Split(s, '/')) <==> Segmented(s)
    decreases |s|
  {
    hide Segmented, PartOk, Split;
    var a, b := FirstComponent(s);
    SplitWhole(a, '/');
    if b.None? {
      OneSegment(a);
      assert [a][1..] == [];
    } else {
      SplitConcat(a, '/', b.value);
      assert a + "/" + b.value == a + ['/'] + b.value;
      PartsAreSegments(b.value);
      assert ([a] + Split(b.value, '/'))[1..] == Split(b.value, '/');
      if Segmented(s) {
        FirstSegment(a, b.value);
        RestSegment(a, b.value);
      } else if PartOk(a) && Segmented(b.value) {
        JoinedSegments(a, b.value);
      }
    }
  }

  /** The last three characters. */
  predicate EndsDotMd(s: string) {
    |s| >= 3 && s[|s| - 3] == '.' && s[|s| - 2] == 'm' && s[|s| - 1] == 'd'
  }

  lemma EndsAre(s: string)
    ensures EndsInMd(s) <==> EndsDotMd(s)
  {
    if |s| >= 3 {
      assert s[|s| - 3..] == [s[|s| - 3], s[|s| - 2], s[|s| - 1]];
    }
  }

  lemma {:induction false} LastPartEnds(s: string)
    ensures var parts := Split(s, '/'); EndsDotMd(parts[|parts| - 1]) <==> EndsDotMd(s)
    decreases |s|
  {
    hide Split, EndsDotMd;
    var a, b := FirstComponent(s);
    SplitWhole(a, '/');
    if b.Some? {
      SplitConcat(a, '/', b.value);
      assert a + "/" + b.value == a + ['/'] + b.value;
      LastPartEnds(b.value);
      SlashEndsNothing(a, b.value);
    }
  }

  lemma SlashEndsNothing(a: string, b: string)
    ensures EndsDotMd(a + "/" + b) <==> EndsDotMd(b)
  {
    var s := a + "/" + b;
    assert s[|a|] == '/' && s[|a| + 1..] == b;
  }

  predicate StartsDrive(s: string) {
    |s| >= 2 && ('a' <= s[0] <= 'z' || 'A' <= s[0] <= 'Z') && s[1] == ':'
  }

  /** What every accepted path is like. */
  ghost predicate SoundPath(s: string) {
    Segmented(s) && '\0' !in s && '\\' !in s && |s| <= 1024 && !StartsDrive(s)
  }

  /** Accepted are exactly the paths of that shape that end in `.md` where a note is wanted; only that end has its own error. */
  lemma AcceptedPaths(value: string, requireMarkdown: bool)
    ensures CheckSyntax(value, requireMarkdown)
         == if !SoundPath(value) then Some(InvalidPath)
            else if requireMarkdown && !EndsDotMd(value) then Some(InvalidFileType)
            else None
  {
    hide Segmented, EndsInMd, EndsDotMd, PartsOk, Split;
    PartsAreSegments(value);
    LastPartEnds(value);
    var parts := Split(value, '/');
    EndsAre(parts[|parts| - 1]);
    NoSlashFirst(value);
  }

  lemma NoSlashFirst(s: string)
    ensures Segmented(s) ==> s != "" && s[0] != '/'
  {
  }

  // ----- What a walk finds can be read -----

  lemma {:induction false} NotePartsAreVisible(entries: Entries, parts: seq<string>, mtime: int)
    requires WellNamed(entries) && NoteAt(entries, parts, mtime)
    ensures forall k :: 0 <= k < |parts| ==> parts[k] != "" && '/' !in parts[k] && parts[k][0] != '.'
    ensures EndsInMd(parts[|parts| - 1])
    decreases |parts|
  {
    hide WellNamed, Find, EndsInMd;
    FoundName(entries, parts[0]);
    if |parts| > 1 {
      var found := Find(entries, parts[0]).value;
      FoundIsWellNamed(entries, parts[0]);
      NotePartsAreVisible(Content(found), parts[1..], mtime);
      assert forall k :: 0 < k < |parts| ==> parts[k] == parts[1..][k - 1];
    }
  }

  lemma {:induction false} FoundName(entries: Entries, name: string)
    requires WellNamed(entries) && Find(entries, name).Some?
    ensures name != "" && '/' !in name
  {
    if entries.name != name {
      FoundName(entries.rest, name);
    }
  }

  lemma {:induction false} VisiblePartsAreOk(parts: seq<string>)
    requires forall k :: 0 <= k < |parts| ==> parts[k] != "" && parts[k][0] != '.'
    ensures PartsOk(parts) <==> forall k :: 0 <= k < |parts| ==> |parts[k]| <= 255
  {
    if parts != [] {
      VisiblePartsAreOk(parts[1..]);
      assert forall k :: 0 < k < |parts| ==> parts[k] == parts[1..][k - 1];
    }
  }

  /** Nothing in the names themselves stands against them: lengths, and characters other systems keep for themselves. */
  ghost predicate Portable(path: string) {
    && '\0' !in path && '\\' !in path && |path| <= 1024 && !StartsDrive(path)
    && forall k :: 0 <= k < |Split(path, '/')| ==> |Split(path, '/')[k]| <= 255
  }

  /** A path that a search or listing hands out is one the read operations accept, exactly if it is portable. */
  lemma FoundCanBeRead(root: Entries, x: Note)
    requires WellNamed(root) && x in Walk(root, "", "").notes
    ensures CheckSyntax(x.path, true).None? <==> Portable(x.path)
  {
    hide Walk, WellNamed, NoteAt, EndsInMd, EndsDotMd, Segmented, PartsOk, Split, Join, CheckSyntax;
    var parts := FoundIsNote(root, "", x);
    assert "" + Join(parts, "/") == Join(parts, "/");
    HasParts(root, parts, x.mtime);
    NotePartsAreVisible(root, parts, x.mtime);
    assert ['/'] == "/";
    SplitJoin(parts, '/');
    VisiblePartsAreOk(parts);
    PartsAreSegments(x.path);
    LastPartEnds(x.path);
    EndsAre(parts[|parts| - 1]);
    AcceptedPaths(x.path, true);
  }

  lemma HasParts(entries: Entries, parts: seq<string>, mtime: int)
    requires NoteAt(entries, parts, mtime)
    ensures parts != []
  {
  }
}

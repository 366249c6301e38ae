/** The walk finds every eligible note of a vault, and each exactly once. */
module VaultNotes {
  import opened Names
  import opened Text
  import opened Ordering
  import opened VaultWalk

  // ----- Every eligible note, exactly once -----

  /** A visible `.md` file, reached through real, visible folders. */
  predicate NoteAt(entries: Entries, parts: seq<string>, mtime: int)
    decreases |parts|
  {
    parts != [] && (
      var found := Find(entries, parts[0]);
      if |parts| == 1 then found == Some(Regular(mtime)) && !Hidden(parts[0]) && EndsInMd(parts[0])
      else found.Some? && IsWalked(Named(parts[0], found.value)) && NoteAt(Content(found.value), parts[1..], mtime))
  }

  predicate IsNoteFile(e: Named, mtime: int) {
    e.node == Regular(mtime) && !Hidden(e.name) && EndsInMd(e.name)
  }

  lemma {:induction false} FilesFind(list: seq<Named>, here: string, x: Note)
    ensures x in VisitFiles(list, here, "").notes <==> exists e :: e in list && IsNoteFile(e, x.mtime) && x.path == here + e.name
  {
    hide Hidden, EndsInMd;
    if list != [] {
      FilesFind(list[1..], here, x);
      assert forall e :: e in list <==> e == list[0] || e in list[1..];
      assert x in VisitFile(list[0], here, "").notes <==> IsNoteFile(list[0], x.mtime) && x.path == here + list[0].name;
    }
  }

  lemma {:induction false} FoldersFind(list: seq<Named>, here: string, height: nat, x: Note)
    requires Lower(list, height)
    ensures x in VisitFolders(list, here, "", height).notes <==>
      exists e :: e in list && IsWalked(e) && x in Walk(Content(e.node), here + e.name + "/", "").notes
    decreases |list|
  {
    hide Walk, Lower, Hidden, Height;
    if list != [] {
      LowerParts(list, height);
      FoldersFind(list[1..], here, height, x);
      assert forall e :: e in list <==> e == list[0] || e in list[1..];
    }
  }

  ghost predicate FoundHere(entries: Entries, here: string, x: Note) {
    exists e: Named :: Find(entries, e.name) == Some(e.node) && IsNoteFile(e, x.mtime) && x.path == here + e.name
  }

  ghost predicate FoundBelow(entries: Entries, here: string, x: Note) {
    exists e: Named ::
      Find(entries, e.name) == Some(e.node) && IsWalked(e) && x in Walk(Content(e.node), here + e.name + "/", "").notes
  }

  lemma SortedAreFound(entries: Entries)
    requires WellNamed(entries)
    ensures forall e: Named :: e in Sort(NameLess, Listed(entries)) <==> Find(entries, e.name) == Some(e.node)
    ensures Lower(Sort(NameLess, Listed(entries)), Height(entries))
  {
    hide Find, WellNamed, Sort, Listed, Height, Lower, Proper;
    ListedHeights(entries);
    SortedHeights(Listed(entries), Height(entries));
    ListedAreProper(entries);
    SortedAreProper(Listed(entries));
    forall e: Named
      ensures e in Sort(NameLess, Listed(entries)) <==> Find(entries, e.name) == Some(e.node)
    {
      ListedAreFound(entries, e);
    }
  }

  lemma WalkParts(entries: Entries, here: string, x: Note)
    requires Lower(Sort(NameLess, Listed(entries)), Height(entries))
    ensures x in Walk(entries, here, "").notes <==>
      || x in VisitFiles(Sort(NameLess, Listed(entries)), here, "").notes
      || x in VisitFolders(Sort(NameLess, Listed(entries)), here, "", Height(entries)).notes
  {
    hide VisitFiles, VisitFolders, Sort, Listed, Height, Lower;
  }

  /** What a walk finds in one folder and below it. */
  lemma WalkFinds(entries: Entries, here: string, x: Note)
    requires WellNamed(entries)
    ensures x in Walk(entries, here, "").notes <==> FoundHere(entries, here, x) || FoundBelow(entries, here, x)
  {
    hide Walk, VisitFiles, VisitFolders, IsNoteFile, IsWalked, Find, WellNamed, Sort, Listed, Lower, Height;
    var sorted := Sort(NameLess, Listed(entries));
    SortedAreFound(entries);
    FilesFind(sorted, here, x);
    FoldersFind(sorted, here, Height(entries), x);
    WalkParts(entries, here, x);
  }

  lemma {:induction false} FoundIsNote(entries: Entries, here: string, x: Note) returns (parts: seq<string>)
    requires WellNamed(entries) && x in Walk(entries, here, "").notes
    ensures NoteAt(entries, parts, x.mtime) && x.path == here + Join(parts, "/")
    decreases Height(entries)
  {
    hide Walk, Hidden, WellNamed, EndsInMd;
    WalkFinds(entries, here, x);
    if FoundHere(entries, here, x) {
      var e: Named :| Find(entries, e.name) == Some(e.node) && IsNoteFile(e, x.mtime) && x.path == here + e.name;
      parts := [e.name];
    } else {
      var e: Named :| Find(entries, e.name) == Some(e.node) && IsWalked(e) && x in Walk(Content(e.node), here + e.name + "/", "").notes;
      FoundIsWellNamed(entries, e.name);
      FoundIsLower(entries, e.name);
      var rest := FoundIsNote(Content(e.node), here + e.name + "/", x);
      parts := [e.name] + rest;
      assert parts[1..] == rest;
      assert here + e.name + "/" + Join(rest, "/") == here + (e.name + "/" + Join(rest, "/"));
    }
  }

  lemma FoundIsLower(entries: Entries, name: string)
    requires Find(entries, name).Some? && Find(entries, name).value.Folder?
    ensures Height(Content(Find(entries, name).value)) < Height(entries)
  {
    if entries.name != name {
      FoundIsLower(entries.rest, name);
    }
  }

  lemma {:induction false} NoteIsFound(entries: Entries, here: string, parts: seq<string>, mtime: int)
    requires WellNamed(entries) && NoteAt(entries, parts, mtime)
    ensures Note(here + Join(parts, "/"), mtime) in Walk(entries, here, "").notes
    decreases |parts|
  {
    hide Walk, Hidden, WellNamed, EndsInMd;
    var x := Note(here + Join(parts, "/"), mtime);
    WalkFinds(entries, here, x);
    var e := Named(parts[0], Find(entries, parts[0]).value);
    if |parts| == 1 {
      assert IsNoteFile(e, mtime);
    } else {
      FoundIsWellNamed(entries, parts[0]);
      NoteIsFound(Content(e.node), here + e.name + "/", parts[1..], mtime);
      assert here + e.name + "/" + Join(parts[1..], "/") == here + (e.name + "/" + Join(parts[1..], "/"));
      assert x in Walk(Content(e.node), here + e.name + "/", "").notes;
    }
  }

  /** A walk finds exactly the eligible notes. */
  lemma WalkFindsEligible(root: Entries, x: Note)
    requires WellNamed(root)
    ensures x in Walk(root, "", "").notes <==> exists parts :: NoteAt(root, parts, x.mtime) && x.path == Join(parts, "/")
  {
    hide Walk, NoteAt, Join, WellNamed;
    if x in Walk(root, "", "").notes {
      var parts := FoundIsNote(root, "", x);
      assert "" + Join(parts, "/") == Join(parts, "/");
    }
    if parts :| NoteAt(root, parts, x.mtime) && x.path == Join(parts, "/") {
      NoteIsFound(root, "", parts, x.mtime);
      assert "" + Join(parts, "/") == Join(parts, "/");
    }
  }

  ghost predicate Distinct(notes: seq<Note>) {
    forall i, j :: 0 <= i < j < |notes| ==> notes[i].path != notes[j].path
  }

  lemma DistinctThen(a: seq<Note>, b: seq<Note>)
    requires Distinct(a) && Distinct(b) && forall x, y :: x in a && y in b ==> x.path != y.path
    ensures Distinct(a + b)
  {
    forall i, j | 0 <= i < j < |a + b|
      ensures (a + b)[i].path != (a + b)[j].path
    {
      if i < |a| && j >= |a| {
        assert (a + b)[i] in a && (a + b)[j] in b;
      } else if i >= |a| {
        assert (a + b)[i] == b[i - |a|] && (a + b)[j] == b[j - |a|];
      }
    }
  }

  lemma PathStarts(entries: Entries, here: string, x: Note)
    requires WellNamed(entries) && x in Walk(entries, here, "").notes
    ensures here <= x.path
  {
    hide Walk, NoteAt, Join, WellNamed;
    var parts := FoundIsNote(entries, here, x);
  }

  lemma {:induction false} FilesDistinct(list: seq<Named>, here: string)
    requires Proper(list)
    ensures Distinct(VisitFiles(list, here, "").notes)
  {
    hide Proper, VisitFile, Then;
    if list != [] {
      RestIsProper(list);
      FilesDistinct(list[1..], here);
      var a, b := VisitFile(list[0], here, "").notes, VisitFiles(list[1..], here, "").notes;
      forall x, y | x in a && y in b
        ensures x.path != y.path
      {
        FilesFind(list[1..], here, y);
        var e :| e in list[1..] && IsNoteFile(e, y.mtime) && y.path == here + e.name;
        OthersDiffer(list, e);
        FileHere(list[0], here, x);
        SuffixesDiffer(here, e.name, list[0].name);
      }
      OneFile(list[0], here);
      DistinctThen(a, b);
      assert VisitFiles(list, here, "").notes == a + b by { ThenNotes(VisitFile(list[0], here, ""), VisitFiles(list[1..], here, "")); }
    }
  }

  lemma ThenNotes(a: Walked, b: Walked)
    ensures Then(a, b).notes == a.notes + b.notes
  {
  }

  lemma OneFile(e: Named, here: string)
    ensures Distinct(VisitFile(e, here, "").notes)
  {
  }

  lemma FileHere(e: Named, here: string, x: Note)
    requires x in VisitFile(e, here, "").notes
    ensures x.path == here + e.name
  {
  }

  lemma SuffixesDiffer(here: string, a: string, b: string)
    requires a != b
    ensures here + a != here + b
  {
    assert (here + a)[|here|..] == a && (here + b)[|here|..] == b;
  }

  lemma PrefixesDiffer(here: string, a: string, b: string, p: string, q: string)
    requires a != b && '/' !in a && '/' !in b && here + a + "/" <= p && here + b + "/" <= q
    ensures p != q
  {
    var tail := q[|here + b + "/"|..];
    NamesDiverge(a, b, tail);
    DivergeUnder(here, a + "/", b + "/" + tail);
    assert here + (a + "/") == here + a + "/";
    assert q == here + (b + "/" + tail);
    DivergeMore(here + a + "/", q, p[|here + a + "/"|..]);
    assert p == here + a + "/" + p[|here + a + "/"|..];
  }

  lemma {:induction false} WalkDistinct(entries: Entries, here: string)
    requires WellNamed(entries)
    ensures Distinct(Walk(entries, here, "").notes)
    decreases Height(entries), 1, 0
  {
    hide VisitFiles, VisitFolders, Listed, Sort, Lower, Proper, WellNamed, Height;
    ListedHeights(entries);
    SortedHeights(Listed(entries), Height(entries));
    ListedAreProper(entries);
    SortedAreProper(Listed(entries));
    var sorted := Sort(NameLess, Listed(entries));
    FilesDistinct(sorted, here);
    FoldersDistinct(sorted, here, Height(entries));
    var a, b := VisitFiles(sorted, here, "").notes, VisitFolders(sorted, here, "", Height(entries)).notes;
    forall x, y | x in a && y in b
      ensures x.path != y.path
    {
      FileIsNoFolder(sorted, here, Height(entries), x, y);
    }
    DistinctThen(a, b);
  }

  lemma FileIsNoFolder(list: seq<Named>, here: string, height: nat, x: Note, y: Note)
    requires Proper(list) && Lower(list, height)
    requires x in VisitFiles(list, here, "").notes && y in VisitFolders(list, here, "", height).notes
    ensures x.path != y.path
  {
    hide VisitFiles, VisitFolders, Walk, Lower, WellNamed, IsNoteFile;
    FilesFind(list, here, x);
    FoldersFind(list, here, height, y);
    var e :| e in list && IsNoteFile(e, x.mtime) && x.path == here + e.name;
    var f :| f in list && IsWalked(f) && y in Walk(Content(f.node), here + f.name + "/", "").notes;
    assert WellNamed(Content(f.node)) by { ContentOk(list, f); }
    PathStarts(Content(f.node), here + f.name + "/", y);
    NotAFile(here, e.name, f.name, "");
    assert here + f.name + "/" + "" == here + f.name + "/";
  }

  lemma ContentOk(list: seq<Named>, f: Named)
    requires Proper(list) && f in list && f.node.Folder?
    ensures WellNamed(Content(f.node)) && '/' !in f.name
  {
  }

  lemma {:induction false} FoldersDistinct(list: seq<Named>, here: string, height: nat)
    requires Proper(list) && Lower(list, height)
    ensures Distinct(VisitFolders(list, here, "", height).notes)
    decreases height, 0, |list|
  {
    hide Walk, Lower, Proper, WellNamed, Height, Hidden, Then;
    if list != [] {
      var first, rest := list[0], list[1..];
      LowerParts(list, height);
      RestIsProper(list);
      FoldersDistinct(rest, here, height);
      var b := VisitFolders(rest, here, "", height);
      if IsWalked(first) {
        var a := Walk(Content(first.node), here + first.name + "/", "");
        ContentIsWellNamed(list);
        WalkDistinct(Content(first.node), here + first.name + "/");
        forall x, y | x in a.notes && y in b.notes
          ensures x.path != y.path
        {
          FolderPathsDiffer(list, here, height, x, y);
        }
        DistinctThen(a.notes, b.notes);
        ThenNotes(a, b);
      } else {
        ThenNothing(b);
      }
    }
  }

  lemma FolderPathsDiffer(list: seq<Named>, here: string, height: nat, x: Note, y: Note)
    requires list != [] && Proper(list) && Lower(list[1..], height) && IsWalked(list[0])
    requires x in Walk(Content(list[0].node), here + list[0].name + "/", "").notes
    requires y in VisitFolders(list[1..], here, "", height).notes
    ensures x.path != y.path
  {
    hide Walk, VisitFolders, Lower, Proper, WellNamed, Height, Hidden;
    FoldersFind(list[1..], here, height, y);
    var f :| f in list[1..] && IsWalked(f) && y in Walk(Content(f.node), here + f.name + "/", "").notes;
    OthersDiffer(list, f);
    RestIsProper(list);
    ContentOk(list[1..], f);
    ContentIsWellNamed(list);
    FirstIsProper(list);
    PathStarts(Content(list[0].node), here + list[0].name + "/", x);
    PathStarts(Content(f.node), here + f.name + "/", y);
    PrefixesDiffer(here, list[0].name, f.name, x.path, y.path);
  }
}

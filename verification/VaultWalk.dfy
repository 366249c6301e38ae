/** The walk over a vault: sorted, without hidden names and symlinks, optionally restricted to a path prefix. */
module VaultWalk {
  import opened Names
  import opened Text
  import opened Ordering

  // ----- The vault -----

  datatype Node =
    | Regular(mtime: int)
    | Special                        // exists, but is no regular file
    | Unstatable                     // `stat` raises
    | LinkToFile
    | LinkToFolder
    | Folder(readable: bool, content: Entries)

  /** In the order the operating system lists them. */
  datatype Entries = Nil | Entry(name: string, node: Node, rest: Entries)

  datatype Named = Named(name: string, node: Node)

  function Listed(entries: Entries): seq<Named> {
    match entries
    case Nil => []
    case Entry(name, node, rest) => [Named(name, node)] + Listed(rest)
  }

  /** A folder that cannot be scanned counts as empty. */
  function Content(node: Node): Entries
    requires node.Folder?
  {
    if node.readable then node.content else Nil
  }

  function Height(entries: Entries): nat {
    match entries
    case Nil => 0
    case Entry(_, node, rest) =>
      var here := if node.Folder? then 1 + Height(node.content) else 0;
      if here > Height(rest) then here else Height(rest)
  }

  predicate NameLess(a: Named, b: Named) {
    TextLess(a.name, b.name)
  }

  // ----- The walk -----

  datatype Note = Note(path: string, mtime: int)

  /** The notes found, in order, and the files counted as skipped. */
  datatype Walked = Walked(notes: seq<Note>, skipped: nat)

  const NOTHING := Walked([], 0)

  function Then(a: Walked, b: Walked): Walked {
    Walked(a.notes + b.notes, a.skipped + b.skipped)
  }

  lemma ThenNothing(w: Walked)
    ensures Then(NOTHING, w) == w && Then(w, NOTHING) == w
  {
  }

  /** One file name in the folder `here`, which is "" or ends in a slash. */
  function VisitFile(entry: Named, here: string, prefix: string): Walked {
    if entry.node.Folder? || entry.node.LinkToFolder? then NOTHING
    else if Hidden(entry.name) || !EndsInMd(entry.name) then NOTHING
    else if prefix != "" && !(prefix <= here + entry.name) then NOTHING
    else if entry.node.LinkToFile? then NOTHING
    else if entry.node.Regular? then Walked([Note(here + entry.name, entry.node.mtime)], 0)
    else Walked([], 1)
  }

  function VisitFiles(entries: seq<Named>, here: string, prefix: string): Walked {
    if entries == [] then NOTHING
    else Then(VisitFile(entries[0], here, prefix), VisitFiles(entries[1..], here, prefix))
  }

  predicate IsWalked(entry: Named) {
    entry.node.Folder? && !Hidden(entry.name)
  }

  function Walk(entries: Entries, here: string, prefix: string): Walked
    decreases Height(entries), 1, 0
  {
    ListedHeights(entries);
    SortedHeights(Listed(entries), Height(entries));
    var sorted := Sort(NameLess, Listed(entries));
    Then(VisitFiles(sorted, here, prefix), VisitFolders(sorted, here, prefix, Height(entries)))
  }

  function VisitFolders(entries: seq<Named>, here: string, prefix: string, height: nat): Walked
    requires Lower(entries, height)
    decreases height, 0, |entries|
  {
    if entries == [] then NOTHING
    else
      var first :=
        if IsWalked(entries[0]) then Walk(Content(entries[0].node), here + entries[0].name + "/", prefix) else NOTHING;
      Then(first, VisitFolders(entries[1..], here, prefix, height))
  }

  /** Every folder in the list is lower than `height`. */
  predicate Lower(entries: seq<Named>, height: nat) {
    forall e :: e in entries && e.node.Folder? ==> Height(e.node.content) < height
  }

  lemma {:induction false} ListedHeights(entries: Entries)
    ensures Lower(Listed(entries), Height(entries))
  {
    if entries.Entry? {
      ListedHeights(entries.rest);
    }
  }

  lemma SortedHeights(list: seq<Named>, height: nat)
    requires Lower(list, height)
    ensures Lower(Sort(NameLess, list), height)
  {
    SortKeeps(NameLess, list);
    forall e | e in Sort(NameLess, list) && e.node.Folder?
      ensures Height(e.node.content) < height
    {
      assert e in multiset(Sort(NameLess, list));
    }
  }

  // ----- What every real directory tree satisfies -----

  /** Names are not empty and hold no slash; no two entries of a folder share one. */
  predicate WellNamed(entries: Entries) {
    entries.Entry? ==>
      && entries.name != "" && '/' !in entries.name && Find(entries.rest, entries.name).None?
      && (entries.node.Folder? ==> WellNamed(entries.node.content))
      && WellNamed(entries.rest)
  }

  function Find(entries: Entries, name: string): Option<Node> {
    match entries
    case Nil => None
    case Entry(n, node, rest) => if n == name then Some(node) else Find(rest, name)
  }

  /** The same for a list of entries, in any order. */
  ghost predicate Proper(list: seq<Named>) {
    && (forall i, j :: 0 <= i < j < |list| ==> list[i].name != list[j].name)
    && (forall e :: e in list ==> e.name != "" && '/' !in e.name && (e.node.Folder? ==> WellNamed(e.node.content)))
  }

  lemma {:induction false} ListedAreFound(entries: Entries, e: Named)
    requires WellNamed(entries)
    ensures e in Listed(entries) <==> Find(entries, e.name) == Some(e.node)
  {
    if entries.Entry? {
      ListedAreFound(entries.rest, e);
      if e.name == entries.name && e in Listed(entries.rest) {
        assert false;
      }
    }
  }

  lemma {:induction false} ListedAreProper(entries: Entries)
    requires WellNamed(entries)
    ensures Proper(Listed(entries))
  {
    if entries.Entry? {
      ListedAreProper(entries.rest);
      var list, rest := Listed(entries), Listed(entries.rest);
      forall j | 0 < j < |list|
        ensures list[0].name != list[j].name
      {
        ListedAreFound(entries.rest, list[j]);
        assert list[j] == rest[j - 1];
      }
      forall i, j | 0 <= i < j < |list|
        ensures list[i].name != list[j].name
      {
        if i > 0 {
          assert list[i] == rest[i - 1] && list[j] == rest[j - 1];
        }
      }
    }
  }

  lemma NameLessIsStrict()
    ensures Strict(NameLess)
  {
    forall x: Named
      ensures !NameLess(x, x)
    {
      TextNotLessItself(x.name);
    }
    forall x: Named, y: Named, z: Named | NameLess(x, y) && NameLess(y, z)
      ensures NameLess(x, z)
    {
      TextLessTransitive(x.name, y.name, z.name);
    }
  }

  lemma SortedAreProper(list: seq<Named>)
    requires Proper(list)
    ensures Proper(Sort(NameLess, list))
    ensures forall e :: e in Sort(NameLess, list) <==> e in list
  {
    hide WellNamed;
    NameLessIsStrict();
    assert Comparable(NameLess, list) by {
      forall i, j | 0 <= i < j < |list|
        ensures NameLess(list[i], list[j]) || NameLess(list[j], list[i])
      {
        TextLessTotal(list[i].name, list[j].name);
      }
    }
    SortSorts(NameLess, list);
    SortKeeps(NameLess, list);
    var sorted := Sort(NameLess, list);
    assert forall e :: e in sorted <==> e in multiset(sorted);
    assert forall e :: e in list <==> e in multiset(list);
    forall i, j | 0 <= i < j < |sorted|
      ensures sorted[i].name != sorted[j].name
    {
      assert NameLess(sorted[i], sorted[j]);
      TextNotLessItself(sorted[i].name);
    }
  }

  lemma ContentIsWellNamed(list: seq<Named>)
    requires Proper(list) && list != [] && list[0].node.Folder?
    ensures WellNamed(Content(list[0].node))
  {
    assert list[0] in list;
  }

  lemma RestIsProper(list: seq<Named>)
    requires Proper(list) && list != []
    ensures Proper(list[1..])
  {
    hide WellNamed;
    var rest := list[1..];
    assert forall e :: e in rest ==> e in list;
    forall i, j | 0 <= i < j < |rest|
      ensures rest[i].name != rest[j].name
    {
      assert rest[i] == list[i + 1] && rest[j] == list[j + 1];
    }
  }

  // ----- A walk from a folder further down -----

  function AllUnder(here: string, notes: seq<Note>): seq<Note> {
    if notes == [] then [] else [Note(here + notes[0].path, notes[0].mtime)] + AllUnder(here, notes[1..])
  }

  /** The same notes, seen from further up. */
  function Under(here: string, w: Walked): Walked {
    Walked(AllUnder(here, w.notes), w.skipped)
  }

  lemma {:induction false} AllUnderConcat(here: string, a: seq<Note>, b: seq<Note>)
    ensures AllUnder(here, a + b) == AllUnder(here, a) + AllUnder(here, b)
  {
    if a == [] {
      assert a + b == b;
    } else {
      assert (a + b)[1..] == a[1..] + b;
      Regroup([Note(here + a[0].path, a[0].mtime)], AllUnder(here, a[1..]), AllUnder(here, b));
      AllUnderConcat(here, a[1..], b);
    }
  }

  lemma UnderThen(here: string, a: Walked, b: Walked)
    ensures Under(here, Then(a, b)) == Then(Under(here, a), Under(here, b))
  {
    AllUnderConcat(here, a.notes, b.notes);
  }

  lemma {:induction false} FilesUnder(list: seq<Named>, above: string, here: string)
    ensures VisitFiles(list, above + here, "") == Under(above, VisitFiles(list, here, ""))
  {
    if list != [] {
      FilesUnder(list[1..], above, here);
      UnderThen(above, VisitFile(list[0], here, ""), VisitFiles(list[1..], here, ""));
      assert above + here + list[0].name == above + (here + list[0].name);
    }
  }

  lemma {:induction false} WalkUnder(entries: Entries, above: string, here: string)
    ensures Walk(entries, above + here, "") == Under(above, Walk(entries, here, ""))
    decreases Height(entries), 1, 0
  {
    ListedHeights(entries);
    SortedHeights(Listed(entries), Height(entries));
    var sorted := Sort(NameLess, Listed(entries));
    FilesUnder(sorted, above, here);
    FoldersUnder(sorted, above, here, Height(entries));
    UnderThen(above, VisitFiles(sorted, here, ""), VisitFolders(sorted, here, "", Height(entries)));
  }

  lemma {:induction false} FoldersUnder(list: seq<Named>, above: string, here: string, height: nat)
    requires Lower(list, height)
    ensures VisitFolders(list, above + here, "", height) == Under(above, VisitFolders(list, here, "", height))
    decreases height, 0, |list|
  {
    hide Walk, Lower;
    if list != [] {
      LowerParts(list, height);
      FoldersUnder(list[1..], above, here, height);
      if IsWalked(list[0]) {
        assert above + here + list[0].name + "/" == above + (here + list[0].name + "/");
        WalkUnder(Content(list[0].node), above, here + list[0].name + "/");
        UnderThen(above, Walk(Content(list[0].node), here + list[0].name + "/", ""), VisitFolders(list[1..], here, "", height));
      } else {
        UnderThen(above, NOTHING, VisitFolders(list[1..], here, "", height));
      }
    }
  }

  lemma LowerParts(list: seq<Named>, height: nat)
    requires Lower(list, height) && list != []
    ensures Lower(list[1..], height)
    ensures list[0].node.Folder? ==> Height(Content(list[0].node)) < height
  {
    assert list[0] in list;
    assert forall e :: e in list[1..] ==> e in list;
  }

  // ----- The prefix filter, folder by folder -----

  /** Inside the prefix nothing is filtered any more. */
  lemma {:induction false} FilesInside(list: seq<Named>, here: string, prefix: string)
    requires prefix <= here
    ensures VisitFiles(list, here, prefix) == VisitFiles(list, here, "")
  {
    if list != [] {
      FilesInside(list[1..], here, prefix);
    }
  }

  lemma {:induction false} WalkInside(entries: Entries, here: string, prefix: string)
    requires prefix <= here
    ensures Walk(entries, here, prefix) == Walk(entries, here, "")
    decreases Height(entries), 1, 0
  {
    ListedHeights(entries);
    SortedHeights(Listed(entries), Height(entries));
    var sorted := Sort(NameLess, Listed(entries));
    FilesInside(sorted, here, prefix);
    FoldersInside(sorted, here, prefix, Height(entries));
  }

  lemma {:induction false} FoldersInside(list: seq<Named>, here: string, prefix: string, height: nat)
    requires Lower(list, height) && prefix <= here
    ensures VisitFolders(list, here, prefix, height) == VisitFolders(list, here, "", height)
    decreases height, 0, |list|
  {
    hide Walk, Lower;
    if list != [] {
      LowerParts(list, height);
      FoldersInside(list[1..], here, prefix, height);
      if IsWalked(list[0]) {
        WalkInside(Content(list[0].node), here + list[0].name + "/", prefix);
      }
    }
  }

  /** Two texts that differ before either ends. */
  ghost predicate Diverge(a: string, b: string) {
    exists i :: 0 <= i < |a| && i < |b| && a[i] != b[i]
  }

  lemma DivergeMore(a: string, b: string, more: string)
    requires Diverge(a, b)
    ensures Diverge(a + more, b) && !(b <= a + more)
  {
    var i :| 0 <= i < |a| && i < |b| && a[i] != b[i];
    assert (a + more)[i] == a[i];
  }

  lemma FileOff(e: Named, here: string, prefix: string)
    requires Diverge(here, prefix)
    ensures VisitFile(e, here, prefix) == NOTHING
  {
    DivergeMore(here, prefix, e.name);
  }

  /** Off the prefix nothing is found. */
  lemma {:induction false} FilesOff(list: seq<Named>, here: string, prefix: string)
    requires Diverge(here, prefix)
    ensures VisitFiles(list, here, prefix) == NOTHING
  {
    hide Diverge, VisitFile, Then;
    if list != [] {
      FileOff(list[0], here, prefix);
      FilesOff(list[1..], here, prefix);
      ThenNothing(NOTHING);
    }
  }

  lemma {:induction false} WalkOff(entries: Entries, here: string, prefix: string)
    requires Diverge(here, prefix)
    ensures Walk(entries, here, prefix) == NOTHING
    decreases Height(entries), 1, 0
  {
    hide Diverge, VisitFiles, VisitFolders, Height, Listed, Sort, Lower, Then;
    ListedHeights(entries);
    SortedHeights(Listed(entries), Height(entries));
    var sorted := Sort(NameLess, Listed(entries));
    FilesOff(sorted, here, prefix);
    FoldersOff(sorted, here, prefix, Height(entries));
    ThenNothing(NOTHING);
  }

  lemma {:induction false} FoldersOff(list: seq<Named>, here: string, prefix: string, height: nat)
    requires Lower(list, height) && Diverge(here, prefix)
    ensures VisitFolders(list, here, prefix, height) == NOTHING
    decreases height, 0, |list|
  {
    hide Walk, Lower, Diverge, Hidden, Height, Then;
    if list != [] {
      LowerParts(list, height);
      FoldersOff(list[1..], here, prefix, height);
      if IsWalked(list[0]) {
        DivergeMore(here, prefix, list[0].name + "/");
        assert here + (list[0].name + "/") == here + list[0].name + "/";
        WalkOff(Content(list[0].node), here + list[0].name + "/", prefix);
      }
      ThenNothing(NOTHING);
    }
  }

  lemma {:induction false} NamesDiverge(a: string, b: string, tail: string)
    requires a != b && '/' !in a && '/' !in b
    ensures Diverge(a + "/", b + "/" + tail)
  {
    var x, y := a + "/", b + "/" + tail;
    if a == "" || b == "" {
      assert x[0] != y[0];
    } else if a[0] != b[0] {
      assert x[0] != y[0];
    } else {
      assert a == [a[0]] + a[1..] && b == [b[0]] + b[1..];
      NamesDiverge(a[1..], b[1..], tail);
      var i :| 0 <= i < |a[1..] + "/"| && i < |b[1..] + "/" + tail| && (a[1..] + "/")[i] != (b[1..] + "/" + tail)[i];
      assert x[i + 1] == (a[1..] + "/")[i] && y[i + 1] == (b[1..] + "/" + tail)[i];
    }
  }

  lemma DivergeUnder(here: string, a: string, b: string)
    requires Diverge(a, b)
    ensures Diverge(here + a, here + b)
  {
    var i :| 0 <= i < |a| && i < |b| && a[i] != b[i];
    assert (here + a)[|here| + i] != (here + b)[|here| + i];
  }

  lemma FirstIsProper(list: seq<Named>)
    requires Proper(list) && list != []
    ensures '/' !in list[0].name && list[0].name != ""
  {
    hide WellNamed;
    assert list[0] in list;
  }

  lemma NotAFile(here: string, file: string, name: string, tail: string)
    requires '/' !in file
    ensures !(here + name + "/" + tail <= here + file)
  {
    var prefix := here + name + "/" + tail;
    assert prefix[|here| + |name|] == '/';
    if |prefix| <= |here + file| {
      assert (here + file)[|here| + |name|] == file[|name|];
    }
  }

  lemma FileAbove(e: Named, here: string, name: string, tail: string)
    requires '/' !in e.name
    ensures VisitFile(e, here, here + name + "/" + tail) == NOTHING
  {
    hide Hidden, EndsInMd;
    NotAFile(here, e.name, name, tail);
  }

  /** Above the folder no file has the prefix: file names hold no slash. */
  lemma {:induction false} FilesAbove(list: seq<Named>, here: string, name: string, tail: string)
    requires Proper(list) && '/' !in name
    ensures VisitFiles(list, here, here + name + "/" + tail) == NOTHING
  {
    hide Proper, VisitFile, Then;
    if list != [] {
      RestIsProper(list);
      FilesAbove(list[1..], here, name, tail);
      FirstIsProper(list);
      FileAbove(list[0], here, name, tail);
      ThenNothing(NOTHING);
    }
  }

  // ----- The filtered walk is the walk of the folder -----

  /** The folder reached through real, visible folders only. */
  function Descend(entries: Entries, folders: seq<string>): Option<Entries>
    decreases |folders|
  {
    if folders == [] then Some(entries)
    else
      var found := Find(entries, folders[0]);
      if found.Some? && IsWalked(Named(folders[0], found.value)) then Descend(Content(found.value), folders[1..])
      else None
  }

  function Prefix(folders: seq<string>): string {
    if folders == [] then "" else folders[0] + "/" + Prefix(folders[1..])
  }

  predicate FolderNames(folders: seq<string>) {
    folders != [] ==> folders[0] != "" && '/' !in folders[0] && FolderNames(folders[1..])
  }

  lemma OthersDiffer(list: seq<Named>, e: Named)
    requires Proper(list) && list != [] && e in list[1..]
    ensures e.name != list[0].name
  {
    hide WellNamed;
    var k :| 0 <= k < |list[1..]| && list[1..][k] == e;
    assert list[0].name != list[k + 1].name;
  }

  /** A folder beside the way. */
  lemma BesideTheWay(e: Named, here: string, name: string, tail: string)
    requires e.name != name && '/' !in e.name && '/' !in name && e.node.Folder?
    ensures Walk(Content(e.node), here + e.name + "/", here + name + "/" + tail) == NOTHING
  {
    hide Walk, Diverge;
    NamesDiverge(e.name, name, tail);
    DivergeUnder(here, e.name + "/", name + "/" + tail);
    assert here + (e.name + "/") == here + e.name + "/" && here + (name + "/" + tail) == here + name + "/" + tail;
    WalkOff(Content(e.node), here + e.name + "/", here + name + "/" + tail);
  }

  lemma {:induction false} NoFolderOnTheWay(list: seq<Named>, here: string, name: string, tail: string, height: nat)
    requires Lower(list, height) && Proper(list) && '/' !in name && forall e :: e in list ==> e.name != name
    ensures VisitFolders(list, here, here + name + "/" + tail, height) == NOTHING
    decreases |list|
  {
    hide Walk, Lower, Proper, Hidden, Height, Then;
    ThenNothing(NOTHING);
    if list != [] {
      LowerParts(list, height);
      RestIsProper(list);
      FirstIsProper(list);
      assert forall e :: e in list[1..] ==> e in list;
      assert list[0] in list;
      NoFolderOnTheWay(list[1..], here, name, tail, height);
      if IsWalked(list[0]) {
        BesideTheWay(list[0], here, name, tail);
      }
    }
  }

  /** Of all the folders in a list, only the one on the way counts. */
  lemma {:induction false} OneFolderOnTheWay(list: seq<Named>, here: string, e: Named, tail: string, height: nat)
    requires Lower(list, height) && Proper(list) && e in list && '/' !in e.name
    ensures VisitFolders(list, here, here + e.name + "/" + tail, height)
         == if IsWalked(e) then Walk(Content(e.node), here + e.name + "/", here + e.name + "/" + tail) else NOTHING
    decreases |list|
  {
    hide Walk, Lower, Proper, Hidden, Height, Then;
    LowerParts(list, height);
    RestIsProper(list);
    FirstIsProper(list);
    if list[0] == e {
      forall x | x in list[1..]
        ensures x.name != e.name
      {
        OthersDiffer(list, x);
      }
      NoFolderOnTheWay(list[1..], here, e.name, tail, height);
      if IsWalked(e) {
        ThenNothing(Walk(Content(e.node), here + e.name + "/", here + e.name + "/" + tail));
      } else {
        ThenNothing(NOTHING);
      }
    } else {
      assert e in list[1..];
      OthersDiffer(list, e);
      OneFolderOnTheWay(list[1..], here, e, tail, height);
      ThenNothing(VisitFolders(list[1..], here, here + e.name + "/" + tail, height));
      if IsWalked(list[0]) {
        BesideTheWay(list[0], here, e.name, tail);
      }
    }
  }

  /** One folder down. */
  lemma StepDown(entries: Entries, here: string, name: string, tail: string)
    requires WellNamed(entries) && '/' !in name
    ensures var found := Find(entries, name);
      Walk(entries, here, here + name + "/" + tail)
      == if found.Some? && IsWalked(Named(name, found.value))
         then Walk(Content(found.value), here + name + "/", here + name + "/" + tail) else NOTHING
  {
    hide VisitFiles, VisitFolders, Height, Listed, Sort, Lower, Proper, Hidden, WellNamed;
    ListedHeights(entries);
    SortedHeights(Listed(entries), Height(entries));
    ListedAreProper(entries);
    SortedAreProper(Listed(entries));
    var sorted := Sort(NameLess, Listed(entries));
    FilesAbove(sorted, here, name, tail);
    var found := Find(entries, name);
    if found.Some? {
      ListedAreFound(entries, Named(name, found.value));
      OneFolderOnTheWay(sorted, here, Named(name, found.value), tail, Height(entries));
    } else {
      forall e | e in sorted
        ensures e.name != name
      {
        ListedAreFound(entries, e);
      }
      NoFolderOnTheWay(sorted, here, name, tail, Height(entries));
    }
    ThenNothing(VisitFolders(sorted, here, here + name + "/" + tail, Height(entries)));
  }

  lemma FoundIsWellNamed(entries: Entries, name: string)
    requires WellNamed(entries) && Find(entries, name).Some? && Find(entries, name).value.Folder?
    ensures WellNamed(Content(Find(entries, name).value))
  {
    if entries.name != name {
      FoundIsWellNamed(entries.rest, name);
    }
  }

  lemma {:induction false} FilteredFrom(entries: Entries, here: string, folders: seq<string>)
    requires WellNamed(entries) && FolderNames(folders)
    ensures Walk(entries, here, here + Prefix(folders))
         == if Descend(entries, folders).Some? then Walk(Descend(entries, folders).value, here + Prefix(folders), "") else NOTHING
    decreases |folders|
  {
    hide Walk, Hidden, WellNamed;
    if folders == [] {
      assert here + "" == here;
      WalkInside(entries, here, here);
    } else {
      var name, tail := folders[0], Prefix(folders[1..]);
      assert here + Prefix(folders) == here + name + "/" + tail;
      StepDown(entries, here, name, tail);
      var found := Find(entries, name);
      if found.Some? && IsWalked(Named(name, found.value)) {
        FoundIsWellNamed(entries, name);
        FilteredFrom(Content(found.value), here + name + "/", folders[1..]);
      }
    }
  }

  /**
   * Walking the whole vault with the prefix `F/` finds the same notes, in the same order, and counts the same
   * skips, as walking from F and putting `F/` in front; it finds and counts nothing if F is not a chain of real,
   * visible folders.
   */
  lemma FilteredIsSubtree(root: Entries, folders: seq<string>)
    requires WellNamed(root) && FolderNames(folders) && folders != []
    ensures Walk(root, "", Prefix(folders))
         == if Descend(root, folders).Some? then Under(Prefix(folders), Walk(Descend(root, folders).value, "", "")) else NOTHING
  {
    hide Walk;
    assert "" + Prefix(folders) == Prefix(folders) && Prefix(folders) + "" == Prefix(folders);
    FilteredFrom(root, "", folders);
    if Descend(root, folders).Some? {
      WalkUnder(Descend(root, folders).value, Prefix(folders), "");
    }
  }

  // ----- The walk as the service runs it -----

  class WalkStats {
    var skipped: nat

    constructor ()
      ensures skipped == 0
    {
      skipped := 0;
    }
  }

  /** The files of one folder, in order. */
  method IterFiles(sorted: seq<Named>, here: string, prefix: string, stats: WalkStats) returns (notes: seq<Note>)
    modifies stats
    ensures Walked(notes, stats.skipped) == Then(Walked([], old(stats.skipped)), VisitFiles(sorted, here, prefix))
  {
    hide Hidden, EndsInMd;
    ghost var start := Walked([], stats.skipped);
    ghost var files := VisitFiles(sorted, here, prefix);
    notes := [];
    for i := 0 to |sorted|
      invariant Then(Walked(notes, stats.skipped), VisitFiles(sorted[i..], here, prefix)) == Then(start, files)
    {
      assert sorted[i..][0] == sorted[i] && sorted[i..][1..] == sorted[i + 1..];
      ThenThen(Walked(notes, stats.skipped), VisitFile(sorted[i], here, prefix), VisitFiles(sorted[i + 1..], here, prefix));
      ThenNothing(Walked(notes, stats.skipped));
      var name, node := sorted[i].name, sorted[i].node;
      if node.Folder? || node.LinkToFolder? || Hidden(name) || !EndsInMd(name) {
        continue;
      }
      var relative := here + name;
      if prefix != "" && !(prefix <= relative) {
        continue;
      }
      if node.LinkToFile? {
        continue;
      }
      if node.Unstatable? || node.Special? {
        stats.skipped := stats.skipped + 1;
        continue;
      }
      notes := notes + [Note(relative, node.mtime)];
    }
    ThenNothing(Walked(notes, stats.skipped));
  }

  /** `iter_vault_notes`, from the folder `here` down. */
  method IterVaultNotes(entries: Entries, here: string, prefix: string, stats: WalkStats) returns (notes: seq<Note>)
    modifies stats
    ensures Walked(notes, stats.skipped) == Then(Walked([], old(stats.skipped)), Walk(entries, here, prefix))
    decreases Height(entries)
  {
    hide Sort, Listed, Hidden, Lower, Height, VisitFiles, Then;
    ListedHeights(entries);
    SortedHeights(Listed(entries), Height(entries));
    var sorted := Sort(NameLess, Listed(entries));
    ghost var start := Walked([], stats.skipped);
    ghost var files := VisitFiles(sorted, here, prefix);
    ghost var folders := VisitFolders(sorted, here, prefix, Height(entries));
    ThenThen(start, files, folders);
    notes := IterFiles(sorted, here, prefix, stats);
    for i := 0 to |sorted|
      invariant Lower(sorted[i..], Height(entries))
      invariant Then(Walked(notes, stats.skipped), VisitFolders(sorted[i..], here, prefix, Height(entries)))
             == Then(start, Walk(entries, here, prefix))
    {
      assert sorted[i..][0] == sorted[i] && sorted[i..][1..] == sorted[i + 1..];
      LowerParts(sorted[i..], Height(entries));
      if IsWalked(sorted[i]) {
        ghost var below := Walk(Content(sorted[i].node), here + sorted[i].name + "/", prefix);
        ghost var soFar := Walked(notes, stats.skipped);
        ThenThen(soFar, below, VisitFolders(sorted[i + 1..], here, prefix, Height(entries)));
        var more := IterVaultNotes(Content(sorted[i].node), here + sorted[i].name + "/", prefix, stats);
        ThenAdds(soFar, below, more, stats.skipped);
        notes := notes + more;
      } else {
        ThenNothing(VisitFolders(sorted[i + 1..], here, prefix, Height(entries)));
      }
    }
    ThenNothing(Walked(notes, stats.skipped));
  }

  lemma ThenAdds(a: Walked, b: Walked, notes: seq<Note>, skipped: nat)
    requires Walked(notes, skipped) == Then(Walked([], a.skipped), b)
    ensures Walked(a.notes + notes, skipped) == Then(a, b)
  {
  }

  lemma ThenThen(a: Walked, b: Walked, c: Walked)
    ensures Then(a, Then(b, c)) == Then(Then(a, b), c)
  {
  }
}

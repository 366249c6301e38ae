/** A search of a real vault: the notes of its folder, read in any way, ranked, and handed out page by page. */
module VaultSearch {
  import opened Text
  import opened Ordering
  import opened VaultWalk
  import opened VaultNotes
  import opened PathSyntax
  import opened Search
  import Cursor
  import Paging

  // ----- The folder -----

  /** The folder names an accepted folder stands for; none for the whole vault. */
  function FolderParts(folder: Option<string>): seq<string> {
    if folder.None? then [] else Split(folder.value, '/')
  }

  function SearchPrefix(folder: Option<string>): string {
    if folder.None? then "" else folder.value + "/"
  }

  predicate AcceptedFolder(folder: Option<string>) {
    folder.Some? ==> CheckSyntax(folder.value, false).None?
  }

  lemma FolderIsPrefix(folder: Option<string>)
    requires AcceptedFolder(folder)
    ensures FolderNames(FolderParts(folder)) && Prefix(FolderParts(folder)) == SearchPrefix(folder)
  {
    hide CheckSyntax, Split;
    if folder.Some? {
      AcceptedIsPrefix(folder.value);
    }
  }

  lemma {:induction false} DescendIsWellNamed(entries: Entries, folders: seq<string>)
    requires WellNamed(entries) && Descend(entries, folders).Some?
    ensures WellNamed(Descend(entries, folders).value)
    decreases |folders|
  {
    hide WellNamed, Find, IsWalked;
    if folders != [] {
      var found := Find(entries, folders[0]);
      WalkedIsFolder(Named(folders[0], found.value));
      FoundIsWellNamed(entries, folders[0]);
      DescendIsWellNamed(Content(found.value), folders[1..]);
    }
  }

  lemma WalkedIsFolder(e: Named)
    requires IsWalked(e)
    ensures e.node.Folder?
  {
  }

  /** A note below a folder is a note of that folder, seen from it. */
  lemma {:induction false} NoteBelow(entries: Entries, folders: seq<string>, parts: seq<string>, mtime: int)
    requires parts != []
    ensures NoteAt(entries, folders + parts, mtime) <==>
      Descend(entries, folders).Some? && NoteAt(Descend(entries, folders).value, parts, mtime)
    decreases |folders|
  {
    hide Find, IsWalked;
    if folders == [] {
      assert folders + parts == parts;
    } else {
      assert (folders + parts)[1..] == folders[1..] + parts;
      var found := Find(entries, folders[0]);
      if found.Some? && IsWalked(Named(folders[0], found.value)) {
        WalkedIsFolder(Named(folders[0], found.value));
        NoteBelow(Content(found.value), folders[1..], parts, mtime);
      }
    }
  }

  lemma {:induction false} PathBelow(folders: seq<string>, parts: seq<string>)
    requires parts != []
    ensures Prefix(folders) + Join(parts, "/") == Join(folders + parts, "/")
  {
    if folders == [] {
      assert folders + parts == parts;
    } else {
      PathBelow(folders[1..], parts);
      assert (folders + parts)[1..] == folders[1..] + parts;
      assert folders[0] + "/" + Prefix(folders[1..]) + Join(parts, "/") == folders[0] + "/" + (Prefix(folders[1..]) + Join(parts, "/"));
    }
  }

  /** An eligible note of the vault, inside the folder. */
  ghost predicate InFolder(root: Entries, folders: seq<string>, x: Note) {
    exists parts :: folders < parts && NoteAt(root, parts, x.mtime) && x.path == Join(parts, "/")
  }

  lemma FilteredWalk(root: Entries, folders: seq<string>)
    requires WellNamed(root) && FolderNames(folders)
    ensures Walk(root, "", Prefix(folders))
         == if Descend(root, folders).Some? then Walk(Descend(root, folders).value, Prefix(folders), "") else NOTHING
  {
    hide Walk, WellNamed, Descend, FolderNames, Prefix;
    FilteredFrom(root, "", folders);
    assert "" + Prefix(folders) == Prefix(folders);
  }

  /** The walk of a search finds exactly the eligible notes of its folder, each once. */
  lemma FilteredFinds(root: Entries, folders: seq<string>)
    requires WellNamed(root) && FolderNames(folders)
    ensures forall x :: x in Walk(root, "", Prefix(folders)).notes <==> InFolder(root, folders, x)
    ensures Distinct(Walk(root, "", Prefix(folders)).notes)
  {
    hide Walk, WellNamed, Descend, FolderNames, Prefix, InFolder;
    FilteredWalk(root, folders);
    if Descend(root, folders).Some? {
      DescendIsWellNamed(root, folders);
      WalkDistinct(Descend(root, folders).value, Prefix(folders));
    }
    forall x
      ensures x in Walk(root, "", Prefix(folders)).notes <==> InFolder(root, folders, x)
    {
      if x in Walk(root, "", Prefix(folders)).notes {
        FoundIsInFolder(root, folders, x);
      }
      if InFolder(root, folders, x) {
        InFolderIsFound(root, folders, x);
      }
    }
  }

  lemma FoundIsInFolder(root: Entries, folders: seq<string>, x: Note)
    requires WellNamed(root) && FolderNames(folders) && x in Walk(root, "", Prefix(folders)).notes
    ensures InFolder(root, folders, x)
  {
    hide Walk, WellNamed, Descend, FolderNames, Prefix, NoteAt, Join;
    FilteredWalk(root, folders);
    DescendIsWellNamed(root, folders);
    var parts := FoundIsNote(Descend(root, folders).value, Prefix(folders), x);
    NoteHasParts(Descend(root, folders).value, parts, x.mtime);
    NoteBelow(root, folders, parts, x.mtime);
    PathBelow(folders, parts);
    assert folders < folders + parts;
  }

  lemma NoteHasParts(entries: Entries, parts: seq<string>, mtime: int)
    requires NoteAt(entries, parts, mtime)
    ensures parts != []
  {
  }

  lemma InFolderIsFound(root: Entries, folders: seq<string>, x: Note)
    requires WellNamed(root) && FolderNames(folders) && InFolder(root, folders, x)
    ensures x in Walk(root, "", Prefix(folders)).notes
  {
    hide Walk, WellNamed, Descend, FolderNames, Prefix, NoteAt, Join;
    var parts :| folders < parts && NoteAt(root, parts, x.mtime) && x.path == Join(parts, "/");
    var below := parts[|folders|..];
    assert parts == folders + below && below != [];
    NoteBelow(root, folders, below, x.mtime);
    PathBelow(folders, below);
    FilteredWalk(root, folders);
    DescendIsWellNamed(root, folders);
    NoteIsFound(Descend(root, folders).value, Prefix(folders), below, x.mtime);
    assert x == Note(Prefix(folders) + Join(below, "/"), x.mtime);
  }

  // ----- Reading the notes -----

  /** Reading a note gives whatever it gives, or fails; its path and time are those the walk found. */
  ghost predicate KeepsIdentity(read: Note -> Scanned) {
    forall x :: read(x).Readable? ==> read(x).path == x.path && read(x).mtime == x.mtime
  }

  function ReadAll(read: Note -> Scanned, notes: seq<Note>): (r: seq<Scanned>)
    ensures |r| == |notes|
  {
    if notes == [] then [] else [read(notes[0])] + ReadAll(read, notes[1..])
  }

  lemma {:induction false} ReadAt(read: Note -> Scanned, notes: seq<Note>, i: nat)
    requires i < |notes|
    ensures ReadAll(read, notes)[i] == read(notes[i])
  {
    if i > 0 {
      ReadAt(read, notes[1..], i - 1);
    }
  }

  lemma ReadDistinct(read: Note -> Scanned, notes: seq<Note>)
    requires KeepsIdentity(read) && Distinct(notes)
    ensures DistinctPaths(ReadAll(read, notes))
  {
    var scanned := ReadAll(read, notes);
    forall i, j | 0 <= i < j < |scanned| && scanned[i].Readable? && scanned[j].Readable?
      ensures scanned[i].path != scanned[j].path
    {
      ReadAt(read, notes, i);
      ReadAt(read, notes, j);
    }
  }

  /** `hit` is what a search makes of this note. */
  predicate HitFrom(query: Query, note: Scanned, hit: Hit) {
    IsHit(query, note) && hit == HitOf(query, note)
  }

  /** A hit of some note in the list. */
  ghost predicate HitAmong(query: Query, notes: seq<Scanned>, hit: Hit) {
    exists i :: 0 <= i < |notes| && HitFrom(query, notes[i], hit)
  }

  lemma {:induction false} HitsAreAmong(query: Query, notes: seq<Scanned>, hit: Hit)
    ensures hit in HitsOf(query, notes) <==> HitAmong(query, notes, hit)
  {
    hide Score, Contains, AnyContains, AllIn;
    if notes != [] {
      var last := |notes| - 1;
      var rest := notes[..last];
      HitsAreAmong(query, rest, hit);
      if HitAmong(query, rest, hit) {
        var i :| 0 <= i < |rest| && HitFrom(query, rest[i], hit);
        assert notes[i] == rest[i];
      }
      if HitAmong(query, notes, hit) {
        var i :| 0 <= i < |notes| && HitFrom(query, notes[i], hit);
        assert i < last ==> notes[i] == rest[i];
      }
    }
  }

  lemma OrderHoldsHits(query: Query, notes: seq<Scanned>, hit: Hit)
    ensures hit in Order(query, notes) <==> hit in HitsOf(query, notes)
  {
    hide HitsOf, Sort;
    SortKeeps(HitLess, HitsOf(query, notes));
    assert hit in multiset(Order(query, notes)) <==> hit in multiset(HitsOf(query, notes));
  }

  // ----- What a search finds -----

  /** `hit` is how some eligible note of the folder, as it was read, matches the query. */
  ghost predicate IsMatch(root: Entries, folders: seq<string>, read: Note -> Scanned, query: Query, hit: Hit) {
    exists x :: InFolder(root, folders, x) && HitFrom(query, read(x), hit)
  }

  /** What the walk of a search found, read. */
  function SearchedNotes(root: Entries, folder: Option<string>, read: Note -> Scanned): seq<Scanned> {
    ReadAll(read, Walk(root, "", SearchPrefix(folder)).notes)
  }

  lemma AmongIsMatch(root: Entries, folders: seq<string>, read: Note -> Scanned, query: Query, notes: seq<Note>, hit: Hit)
    requires forall x :: x in notes <==> InFolder(root, folders, x)
    ensures HitAmong(query, ReadAll(read, notes), hit) <==> IsMatch(root, folders, read, query, hit)
  {
    hide InFolder, HitFrom, ReadAll;
    var scanned := ReadAll(read, notes);
    if HitAmong(query, scanned, hit) {
      var i :| 0 <= i < |scanned| && HitFrom(query, scanned[i], hit);
      ReadAt(read, notes, i);
      assert notes[i] in notes;
    }
    if IsMatch(root, folders, read, query, hit) {
      var x :| InFolder(root, folders, x) && HitFrom(query, read(x), hit);
      assert x in notes;
      var i :| 0 <= i < |notes| && notes[i] == x;
      ReadAt(read, notes, i);
    }
  }

  /**
   * Of every vault and accepted folder, however its notes read: the order a search hands out is strictly sorted by
   * score, time and path, and holds exactly the matches among the eligible notes of that folder.
   */
  lemma SearchFindsMatches(root: Entries, folder: Option<string>, read: Note -> Scanned, query: Query)
    requires WellNamed(root) && AcceptedFolder(folder) && KeepsIdentity(read)
    ensures var notes := SearchedNotes(root, folder, read);
      && DistinctPaths(notes) && Sorted(HitLess, Order(query, notes))
      && forall hit :: hit in Order(query, notes) <==> IsMatch(root, FolderParts(folder), read, query, hit)
  {
    hide Walk, WellNamed, AcceptedFolder, FolderNames, FolderParts, Prefix, SearchPrefix, InFolder, IsMatch, Distinct, DistinctPaths,
      Order, Sorted, HitAmong, ReadAll, KeepsIdentity, HitsOf;
    FolderIsPrefix(folder);
    var found := Walk(root, "", SearchPrefix(folder)).notes;
    var notes := SearchedNotes(root, folder, read);
    FilteredFinds(root, FolderParts(folder));
    ReadDistinct(read, found);
    OrderIsTheOrder(query, notes, Order(query, notes));
    forall hit
      ensures hit in Order(query, notes) <==> IsMatch(root, FolderParts(folder), read, query, hit)
    {
      OrderHoldsHits(query, notes, hit);
      HitsAreAmong(query, notes, hit);
      AmongIsMatch(root, FolderParts(folder), read, query, found, hit);
    }
  }

  /** Following a search to its last page shows exactly those matches, in that order, each once. */
  lemma PagesShowMatches(g: Cursor.Libraries, fingerprint: string, root: Entries, folder: Option<string>, read: Note -> Scanned,
                         query: Query, maxResults: nat, limits: seq<int>)
    requires WellNamed(root) && AcceptedFolder(folder) && KeepsIdentity(read)
    requires Paging.Minted(g, "search", fingerprint) && Paging.LimitsOk(limits, Paging.MAX_SEARCH_LIMIT) && maxResults >= 1
    ensures Cursor.Plain("search", fingerprint)
    ensures var order := Order(query, SearchedNotes(root, folder, read));
      var r := Paging.FollowSearch(g, fingerprint, order, maxResults, limits, None);
      && (r.Ok? <==> !Paging.GetsStuck(Paging.Clamped(limits, maxResults), 0, |order|))
      && (|order| <= Cursor.MAX_OFFSET + 1 ==> r.Ok?)
      && (r.Ok? ==> r.value.results <= order && Sorted(HitLess, r.value.results))
      && (r.Ok? && |limits| >= |order| ==> r.value.next.None?)
      && (r.Ok? && r.value.next.None? ==>
          forall hit :: hit in r.value.results <==> IsMatch(root, FolderParts(folder), read, query, hit))
  {
    hide WellNamed, AcceptedFolder, KeepsIdentity, Paging.Minted, Paging.FollowSearch, Paging.GetsStuck, Order,
      SearchedNotes, IsMatch, FolderParts, Sorted, DistinctPaths;
    Paging.MintedIsPlain(g, "search", fingerprint);
    SearchFindsMatches(root, folder, read, query);
    var notes := SearchedNotes(root, folder, read);
    Paging.SearchVisitsAll(g, fingerprint, query, notes, maxResults, limits);
    var r := Paging.FollowSearch(g, fingerprint, Order(query, notes), maxResults, limits, None);
    if r.Ok? {
      SortedPrefix(Order(query, notes), r.value.results);
    }
  }

  lemma SortedPrefix(order: seq<Hit>, first: seq<Hit>)
    requires Sorted(HitLess, order) && first <= order
    ensures Sorted(HitLess, first)
  {
    hide HitLess;
  }
}

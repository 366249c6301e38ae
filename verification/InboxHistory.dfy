/** What runs of the inbox do to the notes: a lawful history, replayed one record at a time. */
module InboxHistory {
  import opened Bytes
  import opened Names
  import opened Text
  import opened FileNames
  import opened InboxModel
  import opened InboxInvariant
  import opened InboxSteps

  // ----- The notes a reader of the vault sees -----

  datatype Note = Note(content: Bytes, mode: nat)

  predicate IsNote(d: Disk, name: string) {
    name in d.dir && !Hidden(name) && d.dir[name].Link? && d.dir[name].ino in d.inodes
  }

  function NoteAt(d: Disk, name: string): Note
    requires IsNote(d, name)
  {
    var node := d.inodes[d.dir[name].ino];
    Note(node.content, node.mode)
  }

  function Notes(d: Disk): map<string, Note> {
    map name | name in d.dir && IsNote(d, name) :: NoteAt(d, name)
  }

  // ----- What a history says the notes are -----

  function Apply(notes: map<string, Note>, record: Record): map<string, Note> {
    match record
    case Born(_, name, create) => notes[name := Note(create.text, 0x1a4)]   // 0o644
    case Landed(_, job) =>
      if job.target in notes then
        notes[job.target := notes[job.target].(content := Extended(notes[job.target].content, job.content))]
      else notes
    case HostWrote(name, content) =>
      if name in notes then notes[name := notes[name].(content := content)] else notes
    case HostPut(name, content, mode) => notes[name := Note(content, mode)]
    case HostRemoved(name) => notes - {name}
  }

  function Replay(notes: map<string, Note>, history: seq<Record>): map<string, Note> {
    if history == [] then notes
    else Apply(Replay(notes, history[..|history| - 1]), history[|history| - 1])
  }

  /** A create takes a free name of its own stem; an append extends a note that is there and stays within its limit. */
  predicate LawfulRecord(notes: map<string, Note>, record: Record) {
    match record
    case Born(_, name, create) =>
      name !in notes && IsStem(create.stem) && name in Candidates(create.stem, MAX_SEQUENCE)
    case Landed(_, job) =>
      job.target in notes && |Extended(notes[job.target].content, job.content)| <= job.limit
    case HostWrote(name, _) => name in notes
    case _ => true
  }

  predicate Lawful(notes: map<string, Note>, history: seq<Record>) {
    history == [] || (
      Lawful(notes, history[..|history| - 1])
      && LawfulRecord(Replay(notes, history[..|history| - 1]), history[|history| - 1]))
  }

  // ----- One step -----

  lemma HiddenFile(d: Disk, name: string, content: Bytes, mode: nat)
    requires DiskOk(d) && Hidden(name) && name !in d.dir
    ensures Notes(WithFile(d, name, content, mode)) == Notes(d)
  {
    hide Hidden;
  }

  lemma VisibleFile(d: Disk, name: string, content: Bytes, mode: nat)
    requires DiskOk(d) && !Hidden(name)
    ensures Notes(WithFile(d, name, content, mode)) == Notes(d)[name := Note(content, mode)]
  {
    hide Hidden;
  }

  lemma PrivateContent(d: Disk, temp: string, ino: nat, content: Bytes, mode: nat)
    requires DiskOk(d) && Hidden(temp) && Private(d, temp, ino) && ino in d.inodes
    ensures Notes(WithContent(d, ino, content, mode)) == Notes(d)
  {
    hide Hidden;
  }

  lemma VisibleContent(d: Disk, name: string, content: Bytes)
    requires DiskOk(d) && Distinct(d) && IsNote(d, name)
    ensures Notes(WithContent(d, d.dir[name].ino, content, d.inodes[d.dir[name].ino].mode))
         == Notes(d)[name := Notes(d)[name].(content := content)]
  {
    hide Hidden;
  }

  lemma RenamedNote(d: Disk, temp: string, target: string, ino: nat)
    requires Hidden(temp) && !Hidden(target) && ino in d.inodes
    ensures Notes(Renamed(d, temp, target, ino)) == Notes(d)[target := Note(d.inodes[ino].content, d.inodes[ino].mode)]
  {
    hide Hidden;
  }

  lemma LinkedNote(d: Disk, name: string, ino: nat)
    requires !Hidden(name) && ino in d.inodes
    ensures Notes(WithName(d, name, ino)) == Notes(d)[name := Note(d.inodes[ino].content, d.inodes[ino].mode)]
  {
    hide Hidden;
  }

  lemma HiddenRemoval(d: Disk, name: string)
    requires Hidden(name)
    ensures Notes(WithoutName(d, name)) == Notes(d)
  {
    hide Hidden;
  }

  lemma VisibleRemoval(d: Disk, name: string)
    requires !Hidden(name)
    ensures Notes(WithoutName(d, name)) == Notes(d) - {name}
    ensures Notes(d.(dir := d.dir[name := Symlink])) == Notes(d) - {name}
  {
    hide Hidden;
  }

  predicate IsHostRecord(record: Record) {
    record.HostWrote? || record.HostPut? || record.HostRemoved?
  }

  /** A step that leaves the notes alone, or adds one lawful record and does what it says. */
  ghost predicate Explained(s: State, s': State, host: bool) {
    || (s'.history == s.history && Notes(s'.disk) == Notes(s.disk))
    || (exists record :: Adds(s, s', record) && IsHostRecord(record) == host)
  }

  ghost predicate Adds(s: State, s': State, record: Record) {
    && s'.history == s.history + [record]
    && LawfulRecord(Notes(s.disk), record) && Notes(s'.disk) == Apply(Notes(s.disk), record)
    && (record.Born? ==> TakesFreeName(s.disk, s'.disk, record.name))
  }

  /** No entry had that name, note or symlink, and every entry stays as it was. */
  ghost predicate TakesFreeName(d: Disk, d': Disk, name: string) {
    name !in d.dir && !Hidden(name) && name in d'.dir && d'.dir == d.dir[name := d'.dir[name]]
  }

  lemma ReplaceExplained(s: State, r: nat)
    requires Inv(s) && r in s.requests && s.requests[r].Replacing? && s.requests[r].work.AppendWork?
    ensures Explained(s, ReplaceTarget(s, r, s.requests[r].work, s.requests[r].temp, s.requests[r].ino), false)
  {
    hide Hidden, DiskOk, Distinct, LockOk, OwnersOk, PhasesOk, IsStem, Candidates, Notes, AppendBytes, Private;
    var work, temp, ino := s.requests[r].work, s.requests[r].temp, s.requests[r].ino;
    PhaseHolds(s, r);
    var s' := ReplaceTarget(s, r, work, temp, ino);
    var job := work.job;
    RenamedNote(s.disk, temp, job.target, ino);
    TargetNote(s.disk, job.target);
    assert Adds(s, s', Landed(r, job));
  }

  lemma TargetNote(d: Disk, name: string)
    requires IsNote(d, name)
    ensures name in Notes(d) && Notes(d)[name] == NoteAt(d, name)
  {
    hide Hidden;
  }

  lemma LinkExplained(s: State, r: nat, token: string, amount: nat)
    requires Inv(s) && r in s.requests && s.requests[r].Linking?
    ensures Explained(s, Advance(s, r, token, amount), false)
  {
    hide Hidden, DiskOk, Distinct, LockOk, OwnersOk, PhasesOk, IsStem, Candidates, Notes, AppendBytes, Private, NoteFileName;
    var Linking(create, temp, ino, sequence, taken) := s.requests[r];
    var name := NoteFileName(create.stem, sequence);
    var s' := Advance(s, r, token, amount);
    PhaseHolds(s, r);
    if name !in s.disk.dir {
      CandidateVisible(create.stem, sequence);
      CandidateAt(create.stem, MAX_SEQUENCE, sequence - 1);
      LinkedNote(s.disk, name, ino);
      NotInNotes(s.disk, name);
      assert Adds(s, s', Born(r, name, create));
    }
  }

  lemma NotInNotes(d: Disk, name: string)
    requires name !in d.dir
    ensures name !in Notes(d)
  {
  }

  lemma AdvanceExplained(s: State, r: nat, token: string, amount: nat)
    requires Inv(s) && r in s.requests
    ensures Explained(s, Advance(s, r, token, amount), false)
  {
    hide Hidden, DiskOk, Distinct, LockOk, OwnersOk, PhasesOk, IsStem, Candidates, Notes, AppendBytes, Private,
      Written, WorkOk, WorkData, WorkMode, ReplaceTarget, TryLink, TempName, BeforeOk, Bound, SameIdentity;
    var phase := s.requests[r];
    PhaseHolds(s, r);
    var s' := Advance(s, r, token, amount);
    if phase.Replacing? && phase.work.AppendWork? {
      ReplaceExplained(s, r);
    } else if phase.Linking? {
      LinkExplained(s, r, token, amount);
    } else {
      if phase.TempOpening? && TempName(token) !in s.disk.dir {
        TempIsHidden(token);
        HiddenFile(s.disk, TempName(token), [], TEMP_MODE);
      } else if phase.TempChmod? || phase.TempWriting? {
        PrivateContent(s.disk, phase.temp, phase.ino, s'.disk.inodes[phase.ino].content, WorkMode(phase.work));
      } else if phase.Cleaning? {
        HiddenRemoval(s.disk, phase.temp);
      }
    }
  }

  lemma TempIsHidden(token: string)
    ensures Hidden(TempName(token))
  {
  }

  lemma HostExplained(s: State, e: Event)
    requires Inv(s) && IsHostEvent(e)
    ensures Explained(s, HostStep(s, e), true)
  {
    hide Hidden, DiskOk, Distinct, LockOk, OwnersOk, PhasesOk, IsStem, Candidates, Notes, AppendBytes, Private, InWindow;
    var s' := HostStep(s, e);
    if e.Write? && s' != s {
      VisibleContent(s.disk, e.name, e.content);
      TargetNote(s.disk, e.name);
      assert Adds(s, s', HostWrote(e.name, e.content));
    } else if e.Put? && s' != s {
      VisibleFile(s.disk, e.name, e.content, e.mode);
      assert Adds(s, s', HostPut(e.name, e.content, e.mode));
    } else if s' != s {
      VisibleRemoval(s.disk, e.name);
      assert Adds(s, s', HostRemoved(e.name));
    }
  }

  lemma StepExplained(s: State, e: Event)
    requires Inv(s)
    ensures Explained(s, Step(s, e), IsHostEvent(e))
  {
    hide Inv, Advance, Fail, HostStep, IsStem, Notes;
    if e.Proceed? && e.request in s.requests {
      AdvanceExplained(s, e.request, e.token, e.amount);
    } else if IsHostEvent(e) {
      HostExplained(s, e);
    }
  }

  // ----- Every run -----

  /** Nobody is at work yet. Hidden names may be there already, as a crash leaves them; no two notes share an inode. */
  ghost predicate Initial(s: State) {
    && DiskOk(s.disk) && Distinct(s.disk)
    && s.owners == map[] && s.lock.None? && s.requests == map[] && s.history == []
  }

  lemma InitialIsOk(s: State)
    requires Initial(s)
    ensures Inv(s)
  {
    hide Hidden, DiskOk, Distinct;
  }

  /** Every create of the run took a name that no entry had at that moment. */
  ghost predicate CreatesTakeFreeNames(s: State, events: seq<Event>) {
    events != [] ==>
      && CreatesTakeFreeNames(s, events[..|events| - 1])
      && var earlier, later := Run(s, events[..|events| - 1]), Run(s, events);
         forall r, name, create :: later.history == earlier.history + [Born(r, name, create)] ==>
           TakesFreeName(earlier.disk, later.disk, name)
  }

  /**
   * Whatever the interleaving, and whatever the host writes outside the one open window: the notes are
   * the initial notes with the history replayed, and every record in it was lawful when it happened.
   */
  lemma {:induction false} NotesAreReplayed(s: State, events: seq<Event>)
    requires Initial(s)
    ensures Notes(Run(s, events).disk) == Replay(Notes(s.disk), Run(s, events).history)
    ensures Lawful(Notes(s.disk), Run(s, events).history)
    ensures CreatesTakeFreeNames(s, events)
  {
    hide Initial, Inv, Step, Notes, Apply, LawfulRecord, TakesFreeName;
    InitialIsOk(s);
    if events == [] {
      assert Run(s, events).history == [] by { InitiallyBlank(s); }
    } else {
      var earlier := Run(s, events[..|events| - 1]);
      NotesAreReplayed(s, events[..|events| - 1]);
      RunKeeps(s, events[..|events| - 1]);
      StepExplained(earlier, events[|events| - 1]);
      var later := Run(s, events);
      if later.history != earlier.history || Notes(later.disk) != Notes(earlier.disk) {
        var record :| Adds(earlier, later, record);
        assert later.history[..|later.history| - 1] == earlier.history;
      }
    }
  }

  lemma InitiallyBlank(s: State)
    requires Initial(s)
    ensures s.history == []
  {
    hide DiskOk, Distinct;
  }
}

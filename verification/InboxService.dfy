/** Create and append as the service runs them, call by call, when no one else touches the inbox. */
module InboxService {
  import opened Bytes
  import opened Names
  import opened Text
  import opened FileNames
  import opened InboxModel
  import opened InboxInvariant
  import opened InboxSteps
  import opened InboxHistory

  /** Names lead to inodes that exist, and no two notes share one. Hidden names may have been left by a crash. */
  ghost predicate Settled(d: Disk) {
    DiskOk(d) && Distinct(d)
  }

  /** `d` is `before` with one finished temp file beside the notes. */
  ghost predicate Holding(before: Disk, d: Disk, temp: string, data: Bytes, mode: nat) {
    && DiskOk(d) && Distinct(d) && Hidden(temp)
    && d.dir == before.dir[temp := Link(before.nextIno)] && before.nextIno in d.inodes
    && Private(d, temp, before.nextIno)
    && d.inodes[before.nextIno].content == data && d.inodes[before.nextIno].mode == mode
    && (forall i :: i in before.inodes ==> i in d.inodes && d.inodes[i] == before.inodes[i])
  }

  /** The first candidate name of a stem that no entry has. */
  ghost predicate FirstFree(d: Disk, stem: string, name: string) {
    exists n :: 1 <= n <= MAX_SEQUENCE && name == NoteFileName(stem, n) && name !in d.dir
      && forall k :: 1 <= k < n ==> NoteFileName(stem, k) in d.dir
  }

  predicate AllTaken(d: Disk, stem: string) {
    forall k :: 1 <= k <= MAX_SEQUENCE ==> NoteFileName(stem, k) in d.dir
  }

  lemma DroppedTemp(before: Disk, d: Disk, temp: string, data: Bytes, mode: nat)
    requires Settled(before) && temp !in before.dir && Holding(before, d, temp, data, mode)
    ensures Settled(WithoutName(d, temp)) && WithoutName(d, temp).dir == before.dir
    ensures Notes(WithoutName(d, temp)) == Notes(before)
  {
    hide Hidden, Private;
    RemovalKeepsDisk(d, temp);
  }

  lemma NewTemp(before: Disk, temp: string)
    requires Settled(before) && Hidden(temp) && temp !in before.dir
    ensures Holding(before, WithFile(before, temp, [], TEMP_MODE), temp, [], TEMP_MODE)
  {
    hide Hidden;
  }

  lemma FilledTemp(before: Disk, d: Disk, temp: string, data: Bytes, mode: nat, data': Bytes, mode': nat)
    requires Settled(before) && Holding(before, d, temp, data, mode)
    ensures Holding(before, WithContent(d, before.nextIno, data', mode'), temp, data', mode')
  {
    hide Hidden, Distinct, Private;
    ContentKeepsDisk(d, before.nextIno, data', mode');
    assert Private(WithContent(d, before.nextIno, data', mode'), temp, before.nextIno) by { SamePrivate(d, before.nextIno, data', mode', temp); }
  }

  lemma SamePrivate(d: Disk, ino: nat, content: Bytes, mode: nat, temp: string)
    requires Private(d, temp, ino)
    ensures Private(WithContent(d, ino, content, mode), temp, ino)
  {
  }

  lemma LinkedTemp(before: Disk, d: Disk, temp: string, data: Bytes, mode: nat, name: string)
    requires Settled(before) && temp !in before.dir && Holding(before, d, temp, data, mode)
    requires !Hidden(name) && name !in d.dir
    ensures var d' := WithoutName(WithName(d, name, before.nextIno), temp);
      Settled(d') && Notes(d') == Notes(before)[name := Note(data, mode)]
  {
    hide Hidden, Private;
    LinkKeepsDisk(d, temp, name, before.nextIno);
    RemovalKeepsDisk(WithName(d, name, before.nextIno), temp);
    LinkedNote(d, name, before.nextIno);
    HiddenRemoval(WithName(d, name, before.nextIno), temp);
    DroppedTemp(before, d, temp, data, mode);
    HiddenRemoval(d, temp);
  }

  lemma RenamedTemp(before: Disk, d: Disk, temp: string, data: Bytes, mode: nat, target: string)
    requires Settled(before) && temp !in before.dir && Holding(before, d, temp, data, mode) && !Hidden(target)
    ensures var d' := Renamed(d, temp, target, before.nextIno);
      Settled(d') && Notes(d') == Notes(before)[target := Note(data, mode)]
  {
    hide Hidden, Private;
    RenameKeepsDisk(d, temp, target, before.nextIno);
    RenamedNote(d, temp, target, before.nextIno);
    DroppedTemp(before, d, temp, data, mode);
    HiddenRemoval(d, temp);
  }

  // ----- Which call raises, if any -----

  datatype Mishap =
    | NoMishap | LockTimesOut | OpenRaises | FstatRaises | ReadRaises(after: nat)
    | TempOpenRaises | ChmodRaises | WriteRaises(written: nat)
    | LinkRaises | LstatRaises | ReplaceRaises | SyncRaises | StatRaises

  /** The temp file cannot be finished: a call raises, or its random name is taken. */
  predicate TempFails(d: Disk, token: string, mishap: Mishap) {
    TempName(token) in d.dir || mishap.TempOpenRaises? || mishap.ChmodRaises? || mishap.WriteRaises?
  }

  /** A read behind `after` bytes raises, if the content reaches that far. */
  predicate ReadFails(content: Bytes, mishap: Mishap) {
    mishap.ReadRaises? && mishap.after <= |content|
  }

  /** The note is changed, and a later call raises. */
  predicate ReportFails(mishap: Mishap) {
    mishap.SyncRaises? || mishap.StatRaises?
  }

  /** What an append answers, given the inbox it finds. */
  ghost function AppendAnswer(d: Disk, job: AppendJob, token: string, mishap: Mishap): Outcome
    requires DiskOk(d)
  {
    if job.target == "" || Hidden(job.target) then Failed(InvalidPath)
    else if !EndsInMd(job.target) then Failed(InvalidFileType)
    else if job.target !in d.dir then Failed(NoteNotFound)
    else if d.dir[job.target].Symlink? then Failed(InvalidPath)
    else if mishap.LockTimesOut? then Failed(LockTimeout)
    else if mishap.OpenRaises? || mishap.FstatRaises? then Failed(Io)
    else if |NoteAt(d, job.target).content| > job.limit then Failed(FileTooLarge)
    else if ReadFails(NoteAt(d, job.target).content, mishap) then Failed(Io)
    else if |Extended(NoteAt(d, job.target).content, job.content)| > job.limit then Failed(FileTooLarge)
    else if TempFails(d, token, mishap) || mishap.LstatRaises? || mishap.ReplaceRaises? then Failed(Io)
    else if ReportFails(mishap) then Failed(Unconfirmed)
    else Appended(job)
  }

  /** The inbox after an append with that answer: the note extended and no other name touched, or all as it was. */
  ghost predicate AppendEffect(before: Disk, after: Disk, job: AppendJob, outcome: Outcome) {
    if outcome.Appended? || outcome == Failed(Unconfirmed) then
      && job.target in Notes(before)
      && after.dir == before.dir[job.target := Link(before.nextIno)]
      && var note := Notes(before)[job.target];
         Notes(after) == Notes(before)[job.target := Note(Extended(note.content, job.content), note.mode)]
    else after.dir == before.dir && Notes(after) == Notes(before)
  }

  /** One name more, for the whole note, and no other name touched. */
  ghost predicate CreateEffect(before: Disk, after: Disk, create: CreateJob, name: string) {
    && after.dir == before.dir[name := Link(before.nextIno)]
    && Notes(after) == Notes(before)[name := Note(create.text, 0x1a4)]   // 0o644
  }

  class Inbox {
    var disk: Disk
    var locked: bool

    constructor (d: Disk)
      ensures disk == d && !locked
    {
      disk, locked := d, false;
    }

    /** `_write_temp_bytes`: the finished temp file, or nothing. */
    method WriteTempBytes(data: Bytes, mode: nat, token: string, mishap: Mishap) returns (temp: Option<string>)
      requires Settled(disk)
      modifies this`disk
      ensures temp.None? ==> Settled(disk) && disk.dir == old(disk.dir) && Notes(disk) == Notes(old(disk))
      ensures temp.Some? ==> temp.value !in old(disk.dir) && Holding(old(disk), disk, temp.value, data, mode)
      ensures temp.None? <==> TempFails(old(disk), token, mishap)
    {
      hide Settled, Holding, Notes, Hidden, TempName, WithFile, WithContent, WithoutName;
      var before := disk;
      var name := TempName(token);
      TempIsHidden(token);
      if name in disk.dir || mishap.TempOpenRaises? {
        return None;
      }
      NewTemp(before, name);
      disk := WithFile(disk, name, [], TEMP_MODE);
      if mishap.ChmodRaises? {
        DroppedTemp(before, disk, name, [], TEMP_MODE);
        disk := WithoutName(disk, name);
        return None;
      }
      FilledTemp(before, disk, name, [], TEMP_MODE, [], mode);
      disk := WithContent(disk, before.nextIno, [], mode);
      if mishap.WriteRaises? {
        var part := if mishap.written < |data| then data[..mishap.written] else data;
        FilledTemp(before, disk, name, [], mode, part, mode);
        disk := WithContent(disk, before.nextIno, part, mode);
        DroppedTemp(before, disk, name, part, mode);
        disk := WithoutName(disk, name);
        return None;
      }
      FilledTemp(before, disk, name, [], mode, data, mode);
      disk := WithContent(disk, before.nextIno, data, mode);
      return Some(name);
    }

    /** `create_inbox_note`, from the stem and the rendered text on. */
    method CreateInboxNote(create: CreateJob, token: string, mishap: Mishap) returns (outcome: Outcome)
      requires Settled(disk) && IsStem(create.stem)
      modifies this`disk
      ensures Settled(disk)
      ensures
        if TempFails(old(disk), token, mishap) then outcome == Failed(Io)
        else if AllTaken(old(disk), create.stem) then outcome == Failed(NamesTaken(create.stem, Candidates(create.stem, MAX_SEQUENCE)))
        else if mishap.LinkRaises? then outcome == Failed(Io)
        else if ReportFails(mishap) then outcome == Failed(Unconfirmed)
        else outcome.Created? && outcome.create == create && FirstFree(old(disk), create.stem, outcome.name)
      ensures outcome.Created? ==> CreateEffect(old(disk), disk, create, outcome.name)
      ensures outcome == Failed(Unconfirmed) ==>
        exists name :: FirstFree(old(disk), create.stem, name) && CreateEffect(old(disk), disk, create, name)
      ensures !outcome.Created? && outcome != Failed(Unconfirmed) ==> disk.dir == old(disk.dir) && Notes(disk) == Notes(old(disk))
    {
      hide Hidden, NoteFileName, IsStem, Settled, Holding, Notes, TempName;
      var before := disk;
      var written := WriteTempBytes(create.text, CREATED_MODE, token, mishap);
      if written.None? {
        return Failed(Io);
      }
      var temp := written.value;
      HeldNames(before, disk, temp, create.text, CREATED_MODE);
      var sequence := 1;
      while sequence <= MAX_SEQUENCE
        invariant 1 <= sequence <= MAX_SEQUENCE + 1
        invariant disk.dir == before.dir[temp := Link(before.nextIno)]
        invariant temp !in before.dir && Settled(before) && Holding(before, disk, temp, create.text, CREATED_MODE)
        invariant forall k :: 1 <= k < sequence ==> NoteFileName(create.stem, k) in before.dir
      {
        var name := NoteFileName(create.stem, sequence);
        CandidateVisible(create.stem, sequence);
        if name !in disk.dir {
          assert FirstFree(before, create.stem, name) && !AllTaken(before, create.stem);
          if mishap.LinkRaises? {
            DroppedTemp(before, disk, temp, create.text, CREATED_MODE);
            disk := WithoutName(disk, temp);
            return Failed(Io);
          }
          LinkedTemp(before, disk, temp, create.text, CREATED_MODE, name);
          LinkedNames(before, disk, temp, name);
          disk := WithName(disk, name, before.nextIno);
          disk := WithoutName(disk, temp);
          return if ReportFails(mishap) then Failed(Unconfirmed) else Created(create, name);
        }
        sequence := sequence + 1;
      }
      DroppedTemp(before, disk, temp, create.text, CREATED_MODE);
      disk := WithoutName(disk, temp);
      return Failed(NamesTaken(create.stem, Candidates(create.stem, MAX_SEQUENCE)));
    }

    /** `os.read` in chunks, to the end of the file or to a read that raises. */
    method ReadAll(content: Bytes, mishap: Mishap) returns (read: Option<Bytes>)
      ensures read == if ReadFails(content, mishap) then None else Some(content)
    {
      var got: Bytes := [];
      while true
        invariant got <= content
        decreases |content| - |got|
      {
        if mishap.ReadRaises? && mishap.after <= |got| {
          return None;
        }
        var end := if |got| + READ_CHUNK < |content| then |got| + READ_CHUNK else |content|;
        var chunk := content[|got|..end];
        if chunk == [] {
          assert got == content;
          break;
        }
        got := got + chunk;
      }
      read := Some(got);
    }

    /** `append_inbox_note`, on a path relative to the inbox. */
    method AppendInboxNote(job: AppendJob, token: string, mishap: Mishap) returns (outcome: Outcome)
      requires Settled(disk) && !locked
      modifies this
      ensures Settled(disk) && !locked
      ensures outcome == AppendAnswer(old(disk), job, token, mishap)
      ensures AppendEffect(old(disk), disk, job, outcome)
    {
      hide Hidden, Settled, Notes, AppendBytes;
      SettledIsOk(disk);
      if job.target == "" || Hidden(job.target) {
        return Failed(InvalidPath);
      }
      if !EndsInMd(job.target) {
        return Failed(InvalidFileType);
      }
      if job.target !in disk.dir {
        return Failed(NoteNotFound);
      }
      if disk.dir[job.target].Symlink? {
        return Failed(InvalidPath);
      }
      if mishap.LockTimesOut? {
        return Failed(LockTimeout);
      }
      locked := true;
      outcome := AppendLocked(job, token, mishap);
      locked := false;
      if outcome.Appended? && mishap.StatRaises? {
        outcome := Failed(Unconfirmed);
      }
    }

    /** What happens while the lock is held; the last `stat` comes later. */
    method AppendLocked(job: AppendJob, token: string, mishap: Mishap) returns (outcome: Outcome)
      requires Settled(disk) && locked && !mishap.LockTimesOut?
      requires job.target != "" && !Hidden(job.target) && EndsInMd(job.target) && job.target in disk.dir && disk.dir[job.target].Link?
      modifies this`disk
      ensures Settled(disk)
      ensures outcome == AppendAnswer(old(disk), job, token, if mishap.StatRaises? then NoMishap else mishap)
      ensures AppendEffect(old(disk), disk, job, outcome)
    {
      hide Hidden, Settled, Holding, Notes, AppendBytes, TempName, DiskOk;
      var d := disk;
      SettledIsOk(d);
      SettledNote(d, job.target);
      if mishap.OpenRaises? {
        return Failed(Io);
      }
      if mishap.FstatRaises? {
        return Failed(Io);
      }
      var ino := d.dir[job.target].ino;
      var node := d.inodes[ino];
      var before := Before(ino, node.stamp, |node.content|, node.mode);
      if before.size > job.limit {
        return Failed(FileTooLarge);
      }
      var read := ReadAll(node.content, mishap);
      if read.None? {
        return Failed(Io);
      }
      var existing := read.value;
      if before.size + |AppendBytes(job.content, existing)| > job.limit {
        return Failed(FileTooLarge);
      }
      var grown := Extended(existing, job.content);
      var written := WriteTempBytes(grown, before.mode, token, mishap);
      if written.None? {
        return Failed(Io);
      }
      var temp := written.value;
      HeldNames(d, disk, temp, grown, before.mode);
      HeldNote(d, disk, temp, grown, before.mode, job.target);
      if mishap.LstatRaises? {
        DroppedTemp(d, disk, temp, grown, before.mode);
        disk := WithoutName(disk, temp);
        return Failed(Io);
      }
      if !SameIdentity(disk, job.target, before) {
        assert false;   // NOTE_MODIFIED needs someone else at work
      }
      if mishap.ReplaceRaises? {
        DroppedTemp(d, disk, temp, grown, before.mode);
        disk := WithoutName(disk, temp);
        return Failed(Io);
      }
      RenamedTemp(d, disk, temp, grown, before.mode, job.target);
      RenamedNames(d, disk, temp, job.target);
      disk := Renamed(disk, temp, job.target, d.nextIno);
      return if mishap.SyncRaises? then Failed(Unconfirmed) else Appended(job);
    }
  }

  lemma SettledIsOk(d: Disk)
    requires Settled(d)
    ensures DiskOk(d)
  {
    hide DiskOk, Distinct, Hidden;
  }

  lemma LinkedNames(before: Disk, d: Disk, temp: string, name: string)
    requires d.dir == before.dir[temp := Link(before.nextIno)] && temp !in before.dir && name != temp
    ensures WithoutName(WithName(d, name, before.nextIno), temp).dir == before.dir[name := Link(before.nextIno)]
  {
  }

  lemma RenamedNames(before: Disk, d: Disk, temp: string, target: string)
    requires d.dir == before.dir[temp := Link(before.nextIno)] && temp !in before.dir && target != temp
    ensures Renamed(d, temp, target, before.nextIno).dir == before.dir[target := Link(before.nextIno)]
  {
  }

  lemma SettledNote(d: Disk, name: string)
    requires Settled(d) && name in d.dir && d.dir[name].Link? && !Hidden(name)
    ensures IsNote(d, name) && name in Notes(d) && Notes(d)[name] == NoteAt(d, name)
  {
    hide Hidden;
  }

  /** The note that was read is still the same beside the new temp file. */
  lemma HeldNote(before: Disk, d: Disk, temp: string, data: Bytes, mode: nat, name: string)
    requires Holding(before, d, temp, data, mode) && temp !in before.dir && IsNote(before, name)
    ensures name in d.dir && d.dir[name] == before.dir[name] && d.dir[name].ino in d.inodes
    ensures d.inodes[d.dir[name].ino] == before.inodes[d.dir[name].ino]
  {
    hide Private, DiskOk, Distinct;
  }

  lemma HeldNames(before: Disk, d: Disk, temp: string, data: Bytes, mode: nat)
    requires Holding(before, d, temp, data, mode)
    ensures d.dir == before.dir[temp := Link(before.nextIno)] && Hidden(temp)
  {
    hide Hidden, Private, DiskOk, Distinct;
  }
}

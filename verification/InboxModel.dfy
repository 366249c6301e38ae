/** The inbox write protocol, one file-system call per step, for any number of concurrent requests and a host writer. */
module InboxModel {
  import opened Bytes
  import opened Names
  import opened Text
  import opened FileNames

  // ----- Bytes -----

  const CR: Byte := 13
  const LF: Byte := 10

  function UnifyLineEndings(s: Bytes): Bytes
    decreases |s|
  {
    if s == [] then []
    else if |s| >= 2 && s[0] == CR && s[1] == LF then [LF] + UnifyLineEndings(s[2..])
    else [if s[0] == CR then LF else s[0]] + UnifyLineEndings(s[1..])
  }

  function ToCrlf(s: Bytes): Bytes {
    if s == [] then [] else (if s[0] == LF then [CR, LF] else [s[0]]) + ToCrlf(s[1..])
  }

  predicate HasCrlf(s: Bytes) {
    |s| >= 2 && ((s[0] == CR && s[1] == LF) || HasCrlf(s[1..]))
  }

  predicate EndsIn(s: Bytes, suffix: Bytes) {
    |s| >= |suffix| && s[|s| - |suffix|..] == suffix
  }

  /** `_append_bytes`: the bytes an append adds behind `existing`. */
  function AppendBytes(content: Bytes, existing: Bytes): Bytes {
    var crlf := HasCrlf(existing);
    var unified := UnifyLineEndings(content);
    var body := if EndsIn(unified, [LF]) then unified else unified + [LF];
    var terminator := if crlf then [CR, LF] else [LF];
    var appended := if crlf then ToCrlf(body) else body;
    if existing != [] && !EndsIn(existing, terminator) then terminator + appended else appended
  }

  /** What a note holds after an append. */
  function Extended(existing: Bytes, content: Bytes): Bytes {
    existing + AppendBytes(content, existing)
  }

  // ----- The disk -----

  /** `stamp` stands for the modification time; every write of content gives a new one. */
  datatype Inode = Inode(content: Bytes, mode: nat, stamp: nat)

  datatype Entry = Link(ino: nat) | Symlink

  datatype Disk = Disk(dir: map<string, Entry>, inodes: map<nat, Inode>, nextIno: nat, clock: nat)

  const CREATED_MODE := 0x1a4   // 0o644
  const TEMP_MODE := 0x180      // 0o600
  const READ_CHUNK := 1024 * 1024
  const MAX_SEQUENCE := 100

  function TempName(token: string): string {
    ".tmp-" + token
  }

  /** A new inode under a new name. */
  function WithFile(d: Disk, name: string, content: Bytes, mode: nat): Disk {
    d.(dir := d.dir[name := Link(d.nextIno)],
       inodes := d.inodes[d.nextIno := Inode(content, mode, d.clock)],
       nextIno := d.nextIno + 1,
       clock := d.clock + 1)
  }

  /** New content in an existing inode. */
  function WithContent(d: Disk, ino: nat, content: Bytes, mode: nat): Disk {
    d.(inodes := d.inodes[ino := Inode(content, mode, d.clock)], clock := d.clock + 1)
  }

  function WithName(d: Disk, name: string, ino: nat): Disk {
    d.(dir := d.dir[name := Link(ino)])
  }

  function WithoutName(d: Disk, name: string): Disk {
    d.(dir := d.dir - {name})
  }

  /** `os.replace(temp, target)` */
  function Renamed(d: Disk, temp: string, target: string, ino: nat): Disk {
    d.(dir := d.dir[target := Link(ino)] - {temp})
  }

  // ----- Requests -----

  datatype AppendJob = AppendJob(target: string, content: Bytes, limit: nat)

  datatype CreateJob = CreateJob(stem: string, text: Bytes)

  /** `os.fstat` of the open note. */
  datatype Before = Before(ino: nat, stamp: nat, size: nat, mode: nat)

  datatype Error =
    | InvalidPath | InvalidFileType | NoteNotFound | FileTooLarge | NoteModified | LockTimeout | Io
    | NamesTaken(stem: string, names: seq<string>)   // NOTE_ALREADY_EXISTS, with the names seen taken
    | Unconfirmed                                    // the fsync or stat after the rename or link raised

  datatype Outcome =
    | Appended(job: AppendJob)
    | Created(create: CreateJob, name: string)
    | Failed(error: Error)

  datatype Work =
    | AppendWork(job: AppendJob, before: Before, existing: Bytes)
    | CreateWork(create: CreateJob)

  function WorkData(work: Work): Bytes {
    match work
    case AppendWork(job, _, existing) => Extended(existing, job.content)
    case CreateWork(create) => create.text
  }

  function WorkMode(work: Work): nat {
    match work
    case AppendWork(_, before, _) => before.mode
    case CreateWork(_) => CREATED_MODE
  }

  datatype Phase =
    // append_inbox_note
    | Resolving(job: AppendJob)
    | Locking(job: AppendJob)
    | Opening(job: AppendJob)
    | Stating(job: AppendJob, ino: nat)
    | Reading(job: AppendJob, before: Before, got: Bytes)
    // _write_temp_bytes, for both operations
    | TempOpening(work: Work)
    | TempChmod(work: Work, temp: string, ino: nat)
    | TempWriting(work: Work, temp: string, ino: nat)
    // append_inbox_note, continued
    | Checking(work: Work, temp: string, ino: nat)
    | Replacing(work: Work, temp: string, ino: nat)
    | AppendSyncing(job: AppendJob)
    // create_inbox_note
    | Linking(create: CreateJob, temp: string, ino: nat, sequence: nat, taken: seq<string>)
    | LinkSyncing(create: CreateJob, temp: string, ino: nat, name: string)
    // the finally blocks
    | Cleaning(temp: string, ino: nat, locked: bool, outcome: Outcome)
    | Unlocking(outcome: Outcome)
    | Reporting(job: AppendJob)   // the last `stat`, after the lock is given back
    | Done(outcome: Outcome)

  // ----- The whole system -----

  /** What happened to the visible notes, in order. */
  datatype Record =
    | Born(request: nat, name: string, create: CreateJob)
    | Landed(request: nat, job: AppendJob)
    | HostWrote(name: string, content: Bytes)
    | HostPut(name: string, content: Bytes, mode: nat)
    | HostRemoved(name: string)

  /** `owners` says whose each temp name is; `history` is only written, never read. */
  datatype State = State(
    disk: Disk,
    owners: map<string, nat>,
    lock: Option<nat>,
    requests: map<nat, Phase>,
    history: seq<Record>)

  /** `token` feeds the next temp name and `amount` the size of the next write; both are arbitrary. */
  datatype Event =
    | ArriveAppend(request: nat, job: AppendJob)
    | ArriveCreate(request: nat, create: CreateJob)
    | Proceed(request: nat, token: string, amount: nat)
    | Stumble(request: nat)     // the next call raises OSError, or the lock times out
    | Write(name: string, content: Bytes)
    | Put(name: string, content: Bytes, mode: nat)
    | Remove(name: string)
    | MakeSymlink(name: string)

  function Goto(s: State, r: nat, phase: Phase): State {
    s.(requests := s.requests[r := phase])
  }

  // ----- append_inbox_note, up to the temp file -----

  function Resolve(s: State, r: nat, job: AppendJob): State {
    Goto(s, r,
      if job.target == "" || Hidden(job.target) then Done(Failed(InvalidPath))
      else if !EndsInMd(job.target) then Done(Failed(InvalidFileType))
      else if job.target !in s.disk.dir then Done(Failed(NoteNotFound))
      else if s.disk.dir[job.target].Symlink? then Done(Failed(InvalidPath))
      else Locking(job))
  }

  /** One attempt at the lock: it stays where it is while someone else holds it. */
  function Lock(s: State, r: nat, job: AppendJob): State {
    if s.lock.Some? then s else Goto(s, r, Opening(job)).(lock := Some(r))
  }

  function Open(s: State, r: nat, job: AppendJob): State {
    Goto(s, r,
      if job.target !in s.disk.dir || s.disk.dir[job.target].Symlink? then Unlocking(Failed(Io))
      else Stating(job, s.disk.dir[job.target].ino))
  }

  function Stat(s: State, r: nat, job: AppendJob, ino: nat): State {
    if ino !in s.disk.inodes then Goto(s, r, Unlocking(Failed(Io)))
    else
      var node := s.disk.inodes[ino];
      Goto(s, r,
        if |node.content| > job.limit then Unlocking(Failed(FileTooLarge))
        else Reading(job, Before(ino, node.stamp, |node.content|, node.mode), []))
  }

  /** `os.read`: one chunk of what the inode holds now, or the end of the file. */
  function Read(s: State, r: nat, job: AppendJob, before: Before, got: Bytes): State {
    if before.ino !in s.disk.inodes then Goto(s, r, Unlocking(Failed(Io)))
    else
      var content := s.disk.inodes[before.ino].content;
      if |got| < |content| then
        var end := if |got| + READ_CHUNK < |content| then |got| + READ_CHUNK else |content|;
        Goto(s, r, Reading(job, before, got + content[|got|..end]))
      else if before.size + |AppendBytes(job.content, got)| > job.limit then
        Goto(s, r, Unlocking(Failed(FileTooLarge)))
      else Goto(s, r, TempOpening(AppendWork(job, before, got)))
  }

  // ----- _write_temp_bytes -----

  /** Where a request goes when it could not even open its temp file. */
  function WithoutTemp(work: Work, outcome: Outcome): Phase {
    if work.AppendWork? then Unlocking(outcome) else Done(outcome)
  }

  /** `O_CREAT | O_EXCL`: a name that exists is an error. */
  function OpenTemp(s: State, r: nat, work: Work, token: string): State {
    var temp := TempName(token);
    if temp in s.disk.dir then Goto(s, r, WithoutTemp(work, Failed(Io)))
    else
      Goto(s, r, TempChmod(work, temp, s.disk.nextIno))
      .(disk := WithFile(s.disk, temp, [], TEMP_MODE), owners := s.owners[temp := r])
  }

  function ChmodTemp(s: State, r: nat, work: Work, temp: string, ino: nat): State {
    Goto(s, r, TempWriting(work, temp, ino)).(disk := WithContent(s.disk, ino, [], WorkMode(work)))
  }

  /** Any prefix of the data may be on disk before all of it is. */
  function WriteTemp(s: State, r: nat, work: Work, temp: string, ino: nat, amount: nat): State {
    var data := WorkData(work);
    if amount < |data| then s.(disk := WithContent(s.disk, ino, data[..amount], WorkMode(work)))
    else
      Goto(s, r, if work.AppendWork? then Checking(work, temp, ino) else Linking(work.create, temp, ino, 1, []))
      .(disk := WithContent(s.disk, ino, data, WorkMode(work)))
  }

  // ----- append_inbox_note, from the identity check -----

  predicate SameIdentity(d: Disk, name: string, before: Before) {
    && name in d.dir && d.dir[name] == Link(before.ino)
    && before.ino in d.inodes
    && d.inodes[before.ino].stamp == before.stamp && |d.inodes[before.ino].content| == before.size
  }

  function Check(s: State, r: nat, work: Work, temp: string, ino: nat): State
    requires work.AppendWork?
  {
    var target := work.job.target;
    Goto(s, r,
      if target !in s.disk.dir then Cleaning(temp, ino, true, Failed(Io))
      else if s.disk.dir[target].Symlink? then Cleaning(temp, ino, true, Failed(InvalidPath))
      else if !SameIdentity(s.disk, target, work.before) then Cleaning(temp, ino, true, Failed(NoteModified))
      else Replacing(work, temp, ino))
  }

  function ReplaceTarget(s: State, r: nat, work: Work, temp: string, ino: nat): State
    requires work.AppendWork?
  {
    Goto(s, r, AppendSyncing(work.job))
    .(disk := Renamed(s.disk, temp, work.job.target, ino),
      owners := s.owners - {temp},
      history := s.history + [Landed(r, work.job)])
  }

  // ----- create_inbox_note -----

  /** `os.link` under the next candidate name: it never takes a name that exists. */
  function TryLink(s: State, r: nat, create: CreateJob, temp: string, ino: nat, sequence: nat, taken: seq<string>): State {
    var name := NoteFileName(create.stem, sequence);
    if name in s.disk.dir then
      var seen := taken + [name];
      Goto(s, r,
        if sequence >= MAX_SEQUENCE then Cleaning(temp, ino, false, Failed(NamesTaken(create.stem, seen)))
        else Linking(create, temp, ino, sequence + 1, seen))
    else
      Goto(s, r, LinkSyncing(create, temp, ino, name))
      .(disk := WithName(s.disk, name, ino), history := s.history + [Born(r, name, create)])
  }

  // ----- The finally blocks -----

  function Clean(s: State, r: nat, temp: string, locked: bool, outcome: Outcome): State {
    Goto(s, r, if locked then Unlocking(outcome) else Done(outcome))
    .(disk := WithoutName(s.disk, temp), owners := s.owners - {temp})
  }

  function Unlock(s: State, r: nat, outcome: Outcome): State {
    Goto(s, r, if outcome.Appended? then Reporting(outcome.job) else Done(outcome)).(lock := None)
  }

  /** The next call of request `r` returns. */
  function Advance(s: State, r: nat, token: string, amount: nat): State
    requires r in s.requests
  {
    match s.requests[r]
    case Resolving(job) => Resolve(s, r, job)
    case Locking(job) => Lock(s, r, job)
    case Opening(job) => Open(s, r, job)
    case Stating(job, ino) => Stat(s, r, job, ino)
    case Reading(job, before, got) => Read(s, r, job, before, got)
    case TempOpening(work) => OpenTemp(s, r, work, token)
    case TempChmod(work, temp, ino) => ChmodTemp(s, r, work, temp, ino)
    case TempWriting(work, temp, ino) => WriteTemp(s, r, work, temp, ino, amount)
    case Checking(work, temp, ino) => if work.AppendWork? then Check(s, r, work, temp, ino) else s
    case Replacing(work, temp, ino) => if work.AppendWork? then ReplaceTarget(s, r, work, temp, ino) else s
    case AppendSyncing(job) => Goto(s, r, Unlocking(Appended(job)))
    case Linking(create, temp, ino, sequence, taken) => TryLink(s, r, create, temp, ino, sequence, taken)
    case LinkSyncing(create, temp, ino, name) => Goto(s, r, Cleaning(temp, ino, false, Created(create, name)))
    case Cleaning(temp, _, locked, outcome) => Clean(s, r, temp, locked, outcome)
    case Unlocking(outcome) => Unlock(s, r, outcome)
    case Reporting(job) => Goto(s, r, Done(Appended(job)))
    case Done(_) => s
  }

  /** The next call of a request raises; the temp file's removal is taken not to. */
  function Fail(phase: Phase): Phase {
    match phase
    case Resolving(_) => Done(Failed(Io))
    case Locking(_) => Done(Failed(LockTimeout))
    case Opening(_) => Unlocking(Failed(Io))
    case Stating(_, _) => Unlocking(Failed(Io))
    case Reading(_, _, _) => Unlocking(Failed(Io))
    case TempOpening(work) => WithoutTemp(work, Failed(Io))
    case TempChmod(work, temp, ino) => Cleaning(temp, ino, work.AppendWork?, Failed(Io))
    case TempWriting(work, temp, ino) => Cleaning(temp, ino, work.AppendWork?, Failed(Io))
    case Checking(_, temp, ino) => Cleaning(temp, ino, true, Failed(Io))
    case Replacing(_, temp, ino) => Cleaning(temp, ino, true, Failed(Io))
    case AppendSyncing(_) => Unlocking(Failed(Unconfirmed))
    case Linking(_, temp, ino, _, _) => Cleaning(temp, ino, false, Failed(Io))
    case LinkSyncing(_, temp, ino, _) => Cleaning(temp, ino, false, Failed(Unconfirmed))
    case Cleaning(_, _, _, _) => phase
    case Unlocking(_) => phase
    case Reporting(_) => Done(Failed(Unconfirmed))
    case Done(_) => phase
  }

  // ----- The host -----

  /** The window the code leaves open: an append has checked this note, and has not replaced it yet. */
  predicate InWindow(s: State, name: string) {
    exists r :: r in s.requests && s.requests[r].Replacing? && s.requests[r].work.AppendWork?
      && s.requests[r].work.job.target == name
  }

  /** The host writes visible names only, and never inside that window. */
  predicate HostMay(s: State, name: string) {
    !Hidden(name) && !InWindow(s, name)
  }

  ghost function HostStep(s: State, e: Event): State
    requires e.Write? || e.Put? || e.Remove? || e.MakeSymlink?
  {
    if !HostMay(s, e.name) then s
    else
      match e
      case Write(name, content) =>
        if name in s.disk.dir && s.disk.dir[name].Link? && s.disk.dir[name].ino in s.disk.inodes then
          var ino := s.disk.dir[name].ino;
          s.(disk := WithContent(s.disk, ino, content, s.disk.inodes[ino].mode),
             history := s.history + [HostWrote(name, content)])
        else s
      case Put(name, content, mode) =>
        s.(disk := WithFile(s.disk, name, content, mode), history := s.history + [HostPut(name, content, mode)])
      case Remove(name) =>
        s.(disk := WithoutName(s.disk, name), history := s.history + [HostRemoved(name)])
      case MakeSymlink(name) =>
        s.(disk := s.disk.(dir := s.disk.dir[name := Symlink]), history := s.history + [HostRemoved(name)])
  }

  predicate IsHostEvent(e: Event) {
    e.Write? || e.Put? || e.Remove? || e.MakeSymlink?
  }

  ghost function Step(s: State, e: Event): State {
    match e
    case ArriveAppend(r, job) => if r in s.requests then s else Goto(s, r, Resolving(job))
    case ArriveCreate(r, create) =>
      if r in s.requests || !IsStem(create.stem) then s else Goto(s, r, TempOpening(CreateWork(create)))
    case Proceed(r, token, amount) => if r in s.requests then Advance(s, r, token, amount) else s
    case Stumble(r) => if r in s.requests then Goto(s, r, Fail(s.requests[r])) else s
    case _ => HostStep(s, e)
  }

  /** Where a run that starts in `s` stands after its events. */
  ghost function Run(s: State, events: seq<Event>): State {
    if events == [] then s else Step(Run(s, events[..|events| - 1]), events[|events| - 1])
  }
}

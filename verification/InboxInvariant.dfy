/** What every reachable state of the inbox satisfies, kept by every step of every request and of the host. */
module InboxInvariant {
  import opened Bytes
  import opened Names
  import opened Text
  import opened FileNames
  import opened InboxModel

  // ----- The disk -----

  ghost predicate DiskOk(d: Disk) {
    && (forall n :: n in d.dir && d.dir[n].Link? ==> d.dir[n].ino in d.inodes)
    && (forall i :: i in d.inodes ==> i < d.nextIno && d.inodes[i].stamp < d.clock)
  }

  /** No two visible names share an inode. */
  ghost predicate Distinct(d: Disk) {
    forall m, n :: m in d.dir && n in d.dir && !Hidden(m) && !Hidden(n) && d.dir[m].Link? && d.dir[m] == d.dir[n] ==> m == n
  }

  // ----- One request -----

  /** The temp file a request holds. */
  function TempOf(phase: Phase): Option<(string, nat)> {
    match phase
    case TempChmod(_, temp, ino) => Some((temp, ino))
    case TempWriting(_, temp, ino) => Some((temp, ino))
    case Checking(_, temp, ino) => Some((temp, ino))
    case Replacing(_, temp, ino) => Some((temp, ino))
    case Linking(_, temp, ino, _, _) => Some((temp, ino))
    case LinkSyncing(_, temp, ino, _) => Some((temp, ino))
    case Cleaning(temp, ino, _, _) => Some((temp, ino))
    case _ => None
  }

  /** The temp file's inode has no other name yet. */
  predicate HoldsPrivate(phase: Phase) {
    phase.TempChmod? || phase.TempWriting? || phase.Checking? || phase.Replacing? || phase.Linking?
  }

  /** Between taking the lock and giving it back. */
  predicate Critical(phase: Phase) {
    match phase
    case Opening(_) => true
    case Stating(_, _) => true
    case Reading(_, _, _) => true
    case TempOpening(work) => work.AppendWork?
    case TempChmod(work, _, _) => work.AppendWork?
    case TempWriting(work, _, _) => work.AppendWork?
    case Checking(_, _, _) => true
    case Replacing(_, _, _) => true
    case AppendSyncing(_) => true
    case Cleaning(_, _, locked, _) => locked
    case Unlocking(_) => true
    case _ => false
  }

  ghost predicate TempOk(d: Disk, owners: map<string, nat>, r: nat, temp: string, ino: nat) {
    && Hidden(temp) && temp in owners && owners[temp] == r
    && temp in d.dir && d.dir[temp] == Link(ino) && ino in d.inodes
  }

  ghost predicate Private(d: Disk, temp: string, ino: nat) {
    forall n :: n in d.dir && d.dir[n] == Link(ino) ==> n == temp
  }

  /** Nothing has been written to the note's inode since `fstat`. */
  predicate Frozen(d: Disk, before: Before) {
    before.ino in d.inodes && d.inodes[before.ino].stamp == before.stamp
  }

  ghost predicate BeforeOk(d: Disk, before: Before, got: Bytes) {
    && before.ino < d.nextIno && before.stamp < d.clock
    && (Frozen(d, before) ==>
        && |d.inodes[before.ino].content| == before.size && d.inodes[before.ino].mode == before.mode
        && got <= d.inodes[before.ino].content)
  }

  ghost predicate WorkOk(d: Disk, work: Work) {
    match work
    case AppendWork(job, before, existing) =>
      && !Hidden(job.target)
      && BeforeOk(d, before, existing)
      && (Frozen(d, before) ==> d.inodes[before.ino].content == existing)
      && before.size + |AppendBytes(job.content, existing)| <= job.limit
    case CreateWork(create) => IsStem(create.stem)
  }

  ghost predicate Written(d: Disk, ino: nat, work: Work) {
    ino in d.inodes && d.inodes[ino].content == WorkData(work) && d.inodes[ino].mode == WorkMode(work)
  }

  /** The target still is what was read. */
  ghost predicate Bound(d: Disk, target: string, before: Before) {
    target in d.dir && d.dir[target] == Link(before.ino) && Frozen(d, before)
  }

  predicate OutcomeOk(outcome: Outcome) {
    outcome.Failed? && outcome.error.NamesTaken? ==>
      IsStem(outcome.error.stem) && outcome.error.names == Candidates(outcome.error.stem, MAX_SEQUENCE)
  }

  ghost predicate PhaseOk(d: Disk, owners: map<string, nat>, r: nat, phase: Phase) {
    match phase
    case Resolving(_) => true
    case Locking(job) => !Hidden(job.target)
    case Opening(job) => !Hidden(job.target)
    case Stating(job, ino) => !Hidden(job.target) && ino < d.nextIno
    case Reading(job, before, got) => !Hidden(job.target) && BeforeOk(d, before, got)
    case TempOpening(work) => WorkOk(d, work)
    case TempChmod(work, temp, ino) => WorkOk(d, work) && TempOk(d, owners, r, temp, ino) && Private(d, temp, ino)
    case TempWriting(work, temp, ino) => WorkOk(d, work) && TempOk(d, owners, r, temp, ino) && Private(d, temp, ino)
    case Checking(work, temp, ino) =>
      && work.AppendWork? && WorkOk(d, work) && TempOk(d, owners, r, temp, ino) && Private(d, temp, ino)
      && Written(d, ino, work)
    case Replacing(work, temp, ino) =>
      && work.AppendWork? && WorkOk(d, work) && TempOk(d, owners, r, temp, ino) && Private(d, temp, ino)
      && Written(d, ino, work) && Bound(d, work.job.target, work.before)
    case AppendSyncing(_) => true
    case Linking(create, temp, ino, sequence, taken) =>
      && IsStem(create.stem) && TempOk(d, owners, r, temp, ino) && Private(d, temp, ino)
      && Written(d, ino, CreateWork(create))
      && 1 <= sequence <= MAX_SEQUENCE && taken == Candidates(create.stem, sequence - 1)
    case LinkSyncing(_, temp, ino, _) => TempOk(d, owners, r, temp, ino)
    case Cleaning(temp, ino, _, outcome) => TempOk(d, owners, r, temp, ino) && OutcomeOk(outcome)
    case Unlocking(outcome) => OutcomeOk(outcome)
    case Reporting(_) => true
    case Done(outcome) => OutcomeOk(outcome)
  }

  // ----- The whole state -----

  /** Every owned name is on disk, hidden, and the temp file its owner holds. */
  ghost predicate OwnersOk(s: State) {
    forall n :: n in s.owners ==>
      && Hidden(n) && n in s.disk.dir && s.owners[n] in s.requests
      && TempOf(s.requests[s.owners[n]]).Some? && TempOf(s.requests[s.owners[n]]).value.0 == n
  }

  /** The lock is held by the one request inside the critical section, if any. */
  ghost predicate LockOk(s: State) {
    && (forall r :: r in s.requests && Critical(s.requests[r]) ==> s.lock == Some(r))
    && (s.lock.Some? ==> s.lock.value in s.requests && Critical(s.requests[s.lock.value]))
  }

  ghost predicate PhasesOk(s: State) {
    forall r :: r in s.requests ==> PhaseOk(s.disk, s.owners, r, s.requests[r])
  }

  ghost predicate Inv(s: State) {
    DiskOk(s.disk) && Distinct(s.disk) && OwnersOk(s) && LockOk(s) && PhasesOk(s)
  }

  // ----- What a request relies on while others move -----

  ghost predicate Rely(d: Disk, owners: map<string, nat>, d': Disk, owners': map<string, nat>, r: nat, phase: Phase) {
    && d.nextIno <= d'.nextIno && d.clock <= d'.clock
    && (forall i :: i in d.inodes ==>
        i in d'.inodes && (d'.inodes[i] == d.inodes[i] || d'.inodes[i].stamp >= d.clock))
    && (forall i :: i in d'.inodes && i !in d.inodes ==> d'.inodes[i].stamp >= d.clock)
    && (TempOf(phase).Some? ==>
        var (temp, ino) := TempOf(phase).value;
        && temp in owners' && owners'[temp] == r && temp in d'.dir && temp in d.dir && d'.dir[temp] == d.dir[temp]
        && (HoldsPrivate(phase) ==> Private(d', temp, ino) && ino in d.inodes && d'.inodes[ino] == d.inodes[ino]))
    && (phase.Replacing? && phase.work.AppendWork? ==>
        && Bound(d', phase.work.job.target, phase.work.before))
  }

  lemma RelyKeepsBefore(d: Disk, d': Disk, before: Before, got: Bytes)
    requires DiskOk(d) && BeforeOk(d, before, got)
    requires d.nextIno <= d'.nextIno && d.clock <= d'.clock
    requires forall i :: i in d.inodes ==> i in d'.inodes && (d'.inodes[i] == d.inodes[i] || d'.inodes[i].stamp >= d.clock)
    requires forall i :: i in d'.inodes && i !in d.inodes ==> d'.inodes[i].stamp >= d.clock
    ensures BeforeOk(d', before, got)
    ensures Frozen(d', before) ==> Frozen(d, before) && d'.inodes[before.ino] == d.inodes[before.ino]
  {
  }

  lemma RelyKeepsWork(d: Disk, owners: map<string, nat>, d': Disk, owners': map<string, nat>, r: nat, phase: Phase, work: Work)
    requires DiskOk(d) && WorkOk(d, work) && Rely(d, owners, d', owners', r, phase)
    ensures WorkOk(d', work)
  {
    hide Private, Hidden, AppendBytes, IsStem;
    if work.AppendWork? {
      RelyKeepsBefore(d, d', work.before, work.existing);
    }
  }

  lemma RelyKeepsPhase(d: Disk, owners: map<string, nat>, d': Disk, owners': map<string, nat>, r: nat, phase: Phase)
    requires DiskOk(d) && PhaseOk(d, owners, r, phase) && Rely(d, owners, d', owners', r, phase)
    ensures PhaseOk(d', owners', r, phase)
  {
    hide Private, Hidden, AppendBytes, IsStem, Candidates, OutcomeOk, WorkData, WorkMode, WorkOk, BeforeOk;
    match phase
    case Reading(_, before, got) => RelyKeepsBefore(d, d', before, got);
    case TempOpening(work) => RelyKeepsWork(d, owners, d', owners', r, phase, work);
    case TempChmod(work, _, _) => RelyKeepsWork(d, owners, d', owners', r, phase, work);
    case TempWriting(work, _, _) => RelyKeepsWork(d, owners, d', owners', r, phase, work);
    case Checking(work, _, _) => RelyKeepsWork(d, owners, d', owners', r, phase, work);
    case Replacing(work, _, _) => RelyKeepsWork(d, owners, d', owners', r, phase, work);
    case _ =>
  }
}

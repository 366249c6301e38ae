/** Every step of every request and of the host keeps the inbox invariant. */
module InboxSteps {
  import opened Bytes
  import opened Names
  import opened Text
  import opened FileNames
  import opened InboxModel
  import opened InboxInvariant

  // ----- What one disk effect leaves every other request -----

  lemma QuietRely(d: Disk, owners: map<string, nat>, q: nat, phase: Phase)
    requires DiskOk(d) && PhaseOk(d, owners, q, phase)
    ensures Rely(d, owners, d, owners, q, phase)
  {
    hide WorkOk, Written, BeforeOk, OutcomeOk, Candidates, IsStem;
  }

  /** A new inode under a name that is no request's temp name, and no target about to be replaced. */
  lemma FileRely(d: Disk, owners: map<string, nat>, owners': map<string, nat>, q: nat, phase: Phase,
                 name: string, content: Bytes, mode: nat)
    requires DiskOk(d) && PhaseOk(d, owners, q, phase)
    requires TempOf(phase).Some? ==> TempOf(phase).value.0 != name
    requires phase.Replacing? && phase.work.AppendWork? ==> phase.work.job.target != name
    requires forall n :: n in owners && n != name ==> n in owners' && owners'[n] == owners[n]
    ensures Rely(d, owners, WithFile(d, name, content, mode), owners', q, phase)
  {
    hide WorkOk, Written, BeforeOk, OutcomeOk, Candidates, IsStem, Hidden;
  }

  /** New content in an inode that is not this request's temp file, nor its target about to be replaced. */
  lemma ContentRely(d: Disk, owners: map<string, nat>, q: nat, phase: Phase, ino: nat, content: Bytes, mode: nat)
    requires DiskOk(d) && PhaseOk(d, owners, q, phase) && ino in d.inodes
    requires TempOf(phase).Some? && HoldsPrivate(phase) ==> TempOf(phase).value.1 != ino
    requires phase.Replacing? && phase.work.AppendWork? ==> phase.work.before.ino != ino
    ensures Rely(d, owners, WithContent(d, ino, content, mode), owners, q, phase)
  {
    hide WorkOk, Written, BeforeOk, OutcomeOk, Candidates, IsStem, Hidden;
  }

  /** A change of names only. */
  lemma NamesRely(d: Disk, owners: map<string, nat>, dir': map<string, Entry>, owners': map<string, nat>, q: nat, phase: Phase)
    requires DiskOk(d) && PhaseOk(d, owners, q, phase)
    requires TempOf(phase).Some? ==>
      var (temp, ino) := TempOf(phase).value;
      && temp in owners' && owners'[temp] == q && temp in dir' && dir'[temp] == Link(ino)
      && (HoldsPrivate(phase) ==> forall n :: n in dir' && dir'[n] == Link(ino) ==> n == temp)
    requires phase.Replacing? && phase.work.AppendWork? ==>
      var target := phase.work.job.target; target in dir' && target in d.dir && dir'[target] == d.dir[target]
    ensures Rely(d, owners, d.(dir := dir'), owners', q, phase)
  {
    hide WorkOk, Written, BeforeOk, OutcomeOk, Candidates, IsStem, Hidden;
  }

  // ----- Putting the invariant together again -----

  ghost predicate Untouched(s: State, s': State, moved: set<nat>) {
    forall q :: q in s.requests && q !in moved ==>
      q in s'.requests && s'.requests[q] == s.requests[q]
      && Rely(s.disk, s.owners, s'.disk, s'.owners, q, s.requests[q])
  }

  lemma Rebuild(s: State, s': State, moved: set<nat>)
    requires Inv(s) && Untouched(s, s', moved)
    requires s'.requests.Keys == s.requests.Keys + moved
    requires DiskOk(s'.disk) && Distinct(s'.disk) && OwnersOk(s') && LockOk(s')
    requires forall r :: r in moved ==> PhaseOk(s'.disk, s'.owners, r, s'.requests[r])
    ensures Inv(s')
  {
    hide PhaseOk, Rely, OwnersOk, LockOk, DiskOk, Distinct;
    forall q | q in s'.requests
      ensures PhaseOk(s'.disk, s'.owners, q, s'.requests[q])
    {
      if q !in moved {
        RelyKeepsPhase(s.disk, s.owners, s'.disk, s'.owners, q, s.requests[q]);
      }
    }
  }

  /** Two requests never hold the same temp name. */
  lemma TempsDiffer(s: State, q: nat, r: nat)
    requires Inv(s) && q in s.requests && r in s.requests && q != r
    requires TempOf(s.requests[q]).Some? && TempOf(s.requests[r]).Some?
    ensures TempOf(s.requests[q]).value.0 != TempOf(s.requests[r]).value.0
    ensures HoldsPrivate(s.requests[q]) ==> TempOf(s.requests[q]).value.1 != TempOf(s.requests[r]).value.1
  {
    hide WorkOk, Written, BeforeOk, OutcomeOk, Candidates, IsStem, Hidden, DiskOk, Distinct, LockOk, OwnersOk;
    var p, p' := s.requests[q], s.requests[r];
    assert PhaseOk(s.disk, s.owners, q, p) && PhaseOk(s.disk, s.owners, r, p');
    assert TempOk(s.disk, s.owners, q, TempOf(p).value.0, TempOf(p).value.1);
    assert TempOk(s.disk, s.owners, r, TempOf(p').value.0, TempOf(p').value.1);
  }

  // ----- Steps that leave the disk alone -----

  lemma Quiet(s: State, r: nat, phase: Phase)
    requires Inv(s) && r in s.requests && PhaseOk(s.disk, s.owners, r, phase)
    requires TempOf(phase) == TempOf(s.requests[r]) && Critical(phase) == Critical(s.requests[r])
    ensures Inv(Goto(s, r, phase))
  {
    hide PhaseOk, Rely, DiskOk, Distinct, Hidden, TempOf, Critical;
    var s' := Goto(s, r, phase);
    forall q | q in s.requests && q != r
      ensures Rely(s.disk, s.owners, s.disk, s.owners, q, s.requests[q])
    {
      QuietRely(s.disk, s.owners, q, s.requests[q]);
    }
    Rebuild(s, s', {r});
  }

  lemma Arrives(s: State, r: nat, phase: Phase)
    requires Inv(s) && r !in s.requests && PhaseOk(s.disk, s.owners, r, phase)
    requires TempOf(phase).None? && !Critical(phase)
    ensures Inv(Goto(s, r, phase))
  {
    hide PhaseOk, Rely, DiskOk, Distinct, Hidden, TempOf, Critical;
    var s' := Goto(s, r, phase);
    forall q | q in s.requests && q != r
      ensures Rely(s.disk, s.owners, s.disk, s.owners, q, s.requests[q])
    {
      QuietRely(s.disk, s.owners, q, s.requests[q]);
    }
    Rebuild(s, s', {r});
  }

  lemma Locks(s: State, r: nat, phase: Phase, lock: Option<nat>)
    requires Inv(s) && r in s.requests && PhaseOk(s.disk, s.owners, r, phase)
    requires TempOf(phase).None? && TempOf(s.requests[r]).None?
    requires (s.lock.None? && lock == Some(r) && Critical(phase)) || (Critical(s.requests[r]) && lock.None? && !Critical(phase))
    ensures Inv(Goto(s, r, phase).(lock := lock))
  {
    hide PhaseOk, Rely, DiskOk, Distinct, Hidden, TempOf, Critical;
    var s' := Goto(s, r, phase).(lock := lock);
    forall q | q in s.requests && q != r
      ensures Rely(s.disk, s.owners, s.disk, s.owners, q, s.requests[q])
    {
      QuietRely(s.disk, s.owners, q, s.requests[q]);
    }
    Rebuild(s, s', {r});
  }

  // ----- Steps that change the disk -----

  /** A request opens its temp file. */
  lemma OpensTemp(s: State, r: nat, temp: string, mode: nat, phase: Phase)
    requires Inv(s) && r in s.requests && TempOf(s.requests[r]).None?
    requires Hidden(temp) && temp !in s.disk.dir
    requires TempOf(phase) == Some((temp, s.disk.nextIno)) && Critical(phase) == Critical(s.requests[r])
    requires PhaseOk(WithFile(s.disk, temp, [], mode), s.owners[temp := r], r, phase)
    ensures Inv(Goto(s, r, phase).(disk := WithFile(s.disk, temp, [], mode), owners := s.owners[temp := r]))
  {
    hide PhaseOk, Rely, Hidden, Critical, DiskOk, Distinct, OwnersOk, LockOk;
    var s' := Goto(s, r, phase).(disk := WithFile(s.disk, temp, [], mode), owners := s.owners[temp := r]);
    forall q | q in s.requests && q != r
      ensures Rely(s.disk, s.owners, s'.disk, s'.owners, q, s.requests[q])
    {
      HoldsOnDisk(s, q);
      FileRely(s.disk, s.owners, s'.owners, q, s.requests[q], temp, [], mode);
    }
    FileKeepsDisk(s.disk, temp, [], mode);
    TakesTemp(s, s', r, temp);
    Rebuild(s, s', {r});
  }

  /** Ownership and the lock after a request has taken a temp name. */
  lemma TakesTemp(s: State, s': State, r: nat, temp: string)
    requires OwnersOk(s) && LockOk(s) && r in s.requests && Hidden(temp) && temp !in s.disk.dir
    requires TempOf(s.requests[r]).None?
    requires r in s'.requests && s'.requests == s.requests[r := s'.requests[r]]
    requires TempOf(s'.requests[r]).Some? && TempOf(s'.requests[r]).value.0 == temp
    requires Critical(s'.requests[r]) == Critical(s.requests[r]) && s'.lock == s.lock
    requires s'.owners == s.owners[temp := r]
    requires forall n :: Hidden(n) ==> (n in s'.disk.dir <==> n in s.disk.dir || n == temp)
    ensures OwnersOk(s') && LockOk(s')
  {
    hide Hidden, Critical, TempOf;
  }

  /** What a request holds, and what it is about to replace, is on disk. */
  lemma HoldsOnDisk(s: State, q: nat)
    requires Inv(s) && q in s.requests
    ensures var phase := s.requests[q];
      && (TempOf(phase).Some? ==>
          var (temp, ino) := TempOf(phase).value;
          && TempOk(s.disk, s.owners, q, temp, ino)
          && (HoldsPrivate(phase) ==> Private(s.disk, temp, ino)))
      && (phase.Replacing? && phase.work.AppendWork? ==>
          Bound(s.disk, phase.work.job.target, phase.work.before) && !Hidden(phase.work.job.target))
  {
    hide WorkOk, Written, BeforeOk, OutcomeOk, Candidates, IsStem, Hidden, DiskOk, Distinct, LockOk, OwnersOk, Private, TempOk, Frozen;
    var phase := s.requests[q];
    assert PhaseOk(s.disk, s.owners, q, phase);
    if phase.Replacing? && phase.work.AppendWork? {
      assert !Hidden(phase.work.job.target) by { assert WorkOk(s.disk, phase.work); TargetVisible(s.disk, phase.work); }
    }
  }

  lemma TargetVisible(d: Disk, work: Work)
    requires WorkOk(d, work) && work.AppendWork?
    ensures !Hidden(work.job.target)
  {
    hide BeforeOk, Frozen, Hidden, AppendBytes;
  }

  /** A request writes to its own temp file. */
  lemma WritesTemp(s: State, r: nat, content: Bytes, mode: nat, phase: Phase)
    requires Inv(s) && r in s.requests && TempOf(s.requests[r]).Some? && HoldsPrivate(s.requests[r])
    requires !s.requests[r].Replacing?
    requires TempOf(phase) == TempOf(s.requests[r]) && Critical(phase) == Critical(s.requests[r])
    requires PhaseOk(WithContent(s.disk, TempOf(phase).value.1, content, mode), s.owners, r, phase)
    ensures Inv(Goto(s, r, phase).(disk := WithContent(s.disk, TempOf(phase).value.1, content, mode)))
  {
    hide PhaseOk, Rely, Hidden, Critical, Distinct, DiskOk, TempOf, HoldsPrivate;
    var (temp, ino) := TempOf(phase).value;
    var s' := Goto(s, r, phase).(disk := WithContent(s.disk, ino, content, mode));
    HoldsOnDisk(s, r);
    forall q | q in s.requests && q != r
      ensures Rely(s.disk, s.owners, s'.disk, s'.owners, q, s.requests[q])
    {
      OthersInode(s, q, r);
      ContentRely(s.disk, s.owners, q, s.requests[q], ino, content, mode);
    }
    assert DiskOk(s'.disk) && Distinct(s'.disk) by { ContentKeepsDisk(s.disk, ino, content, mode); }
    assert OwnersOk(s');
    assert LockOk(s');
    Rebuild(s, s', {r});
  }

  lemma ContentKeepsDisk(d: Disk, ino: nat, content: Bytes, mode: nat)
    requires DiskOk(d) && Distinct(d) && ino in d.inodes
    ensures DiskOk(WithContent(d, ino, content, mode)) && Distinct(WithContent(d, ino, content, mode))
  {
    hide Hidden;
  }

  /** The inode in `r`'s private temp file is no other request's, nor a note about to be replaced. */
  lemma OthersInode(s: State, q: nat, r: nat)
    requires Inv(s) && q in s.requests && r in s.requests && q != r
    requires TempOf(s.requests[r]).Some? && HoldsPrivate(s.requests[r])
    ensures TempOf(s.requests[q]).Some? && HoldsPrivate(s.requests[q]) ==> TempOf(s.requests[q]).value.1 != TempOf(s.requests[r]).value.1
    ensures s.requests[q].Replacing? && s.requests[q].work.AppendWork? ==> s.requests[q].work.before.ino != TempOf(s.requests[r]).value.1
  {
    hide Hidden, DiskOk, Distinct, LockOk, OwnersOk, TempOf, HoldsPrivate, Frozen, PhaseOk;
    HoldsOnDisk(s, q);
    HoldsOnDisk(s, r);
    if TempOf(s.requests[q]).Some? {
      TempsDiffer(s, q, r);
    }
  }

  lemma RenameRely(s: State, r: nat, q: nat)
    requires Inv(s) && r in s.requests && s.requests[r].Replacing? && s.requests[r].work.AppendWork?
    requires q in s.requests && q != r
    ensures var s' := ReplaceTarget(s, r, s.requests[r].work, s.requests[r].temp, s.requests[r].ino);
      Rely(s.disk, s.owners, s'.disk, s'.owners, q, s.requests[q])
  {
    hide PhaseOk, Rely, Hidden, WorkOk, Frozen, OutcomeOk, DiskOk, Distinct, OwnersOk, PhasesOk, HoldsPrivate;
    var phase := s.requests[q];
    var s' := ReplaceTarget(s, r, s.requests[r].work, s.requests[r].temp, s.requests[r].ino);
    HoldsOnDisk(s, r);
    HoldsOnDisk(s, q);
    LockHeld(s, r);
    assert PhaseOk(s.disk, s.owners, q, phase) by { PhaseHolds(s, q); }
    assert TempOf(s.requests[r]) == Some((s.requests[r].temp, s.requests[r].ino));
    if TempOf(phase).Some? {
      TempsDiffer(s, q, r);
    }
    NamesRely(s.disk, s.owners, s'.disk.dir, s'.owners, q, phase);
  }

  lemma PhaseHolds(s: State, q: nat)
    requires Inv(s) && q in s.requests
    ensures PhaseOk(s.disk, s.owners, q, s.requests[q])
  {
    hide PhaseOk, DiskOk, Distinct, OwnersOk, LockOk;
  }

  /** Only the lock holder is inside the critical section. */
  lemma LockHeld(s: State, r: nat)
    requires Inv(s) && r in s.requests && Critical(s.requests[r])
    ensures s.lock == Some(r)
    ensures forall q :: q in s.requests && q != r ==> !Critical(s.requests[q])
  {
    hide Critical, DiskOk, Distinct, OwnersOk, PhasesOk;
  }

  lemma RenameKeepsDisk(d: Disk, temp: string, target: string, ino: nat)
    requires DiskOk(d) && Distinct(d) && ino in d.inodes && Hidden(temp) && Private(d, temp, ino)
    ensures DiskOk(Renamed(d, temp, target, ino)) && Distinct(Renamed(d, temp, target, ino))
  {
    hide Hidden;
  }

  /** Ownership and the lock after a request has given up its temp name. */
  lemma GivesUpTemp(s: State, s': State, r: nat, temp: string)
    requires OwnersOk(s) && LockOk(s) && r in s.requests
    requires TempOf(s.requests[r]).Some? && TempOf(s.requests[r]).value.0 == temp
    requires r in s'.requests && s'.requests == s.requests[r := s'.requests[r]]
    requires TempOf(s'.requests[r]).None? && Critical(s'.requests[r]) == Critical(s.requests[r]) && s'.lock == s.lock
    requires s'.owners == s.owners - {temp}
    requires forall n :: Hidden(n) ==> (n in s'.disk.dir <==> n in s.disk.dir && n != temp)
    ensures OwnersOk(s') && LockOk(s')
  {
    hide Hidden, Critical, TempOf;
  }

  /** A request moves its temp file onto the note it checked. */
  lemma Replaces(s: State, r: nat)
    requires Inv(s) && r in s.requests && s.requests[r].Replacing? && s.requests[r].work.AppendWork?
    ensures Inv(ReplaceTarget(s, r, s.requests[r].work, s.requests[r].temp, s.requests[r].ino))
  {
    hide PhaseOk, Rely, Hidden, WorkOk, Frozen, OutcomeOk, DiskOk, Distinct, OwnersOk, LockOk, PhasesOk;
    var work, temp, ino := s.requests[r].work, s.requests[r].temp, s.requests[r].ino;
    var s' := ReplaceTarget(s, r, work, temp, ino);
    HoldsOnDisk(s, r);
    forall q | q in s.requests && q != r
      ensures Rely(s.disk, s.owners, s'.disk, s'.owners, q, s.requests[q])
    {
      RenameRely(s, r, q);
    }
    RenameKeepsDisk(s.disk, temp, work.job.target, ino);
    GivesUpTemp(s, s', r, temp);
    SyncingOk(s'.disk, s'.owners, r, work.job);
    Rebuild(s, s', {r});
  }

  lemma SyncingOk(d: Disk, owners: map<string, nat>, r: nat, job: AppendJob)
    ensures PhaseOk(d, owners, r, AppendSyncing(job))
  {
  }

  lemma LinkRely(s: State, r: nat, name: string, q: nat)
    requires Inv(s) && r in s.requests && s.requests[r].Linking? && q in s.requests && q != r
    requires name !in s.disk.dir
    ensures Rely(s.disk, s.owners, WithName(s.disk, name, s.requests[r].ino), s.owners, q, s.requests[q])
  {
    hide PhaseOk, Rely, Hidden, WorkOk, Frozen, OutcomeOk, DiskOk, Distinct, OwnersOk, LockOk, PhasesOk, HoldsPrivate;
    var phase := s.requests[q];
    HoldsOnDisk(s, r);
    HoldsOnDisk(s, q);
    PhaseHolds(s, q);
    assert TempOf(s.requests[r]) == Some((s.requests[r].temp, s.requests[r].ino));
    if TempOf(phase).Some? {
      TempsDiffer(s, q, r);
    }
    NamesRely(s.disk, s.owners, WithName(s.disk, name, s.requests[r].ino).dir, s.owners, q, phase);
  }

  lemma LinkKeepsDisk(d: Disk, temp: string, name: string, ino: nat)
    requires DiskOk(d) && Distinct(d) && ino in d.inodes && Hidden(temp) && Private(d, temp, ino)
    ensures DiskOk(WithName(d, name, ino)) && Distinct(WithName(d, name, ino))
  {
    hide Hidden;
  }

  /** Ownership and the lock when no request's hold on either changes. */
  lemma KeepsHolds(s: State, s': State, r: nat)
    requires OwnersOk(s) && LockOk(s) && r in s.requests
    requires r in s'.requests && s'.requests == s.requests[r := s'.requests[r]]
    requires TempOf(s'.requests[r]) == TempOf(s.requests[r])
    requires Critical(s'.requests[r]) == Critical(s.requests[r]) && s'.lock == s.lock
    requires s'.owners == s.owners
    requires forall n :: Hidden(n) ==> (n in s'.disk.dir <==> n in s.disk.dir)
    ensures OwnersOk(s') && LockOk(s')
  {
    hide Hidden, Critical, TempOf;
  }

  /** A request gives its finished temp file a free visible name. */
  lemma LinksName(s: State, r: nat, name: string, phase: Phase, history: seq<Record>)
    requires Inv(s) && r in s.requests && s.requests[r].Linking?
    requires !Hidden(name) && name !in s.disk.dir
    requires phase == LinkSyncing(s.requests[r].create, s.requests[r].temp, s.requests[r].ino, name)
    ensures Inv(Goto(s, r, phase).(disk := WithName(s.disk, name, s.requests[r].ino), history := history))
  {
    hide PhaseOk, Rely, Hidden, WorkOk, Frozen, OutcomeOk, DiskOk, Distinct, OwnersOk, LockOk, PhasesOk;
    var temp, ino := s.requests[r].temp, s.requests[r].ino;
    var s' := Goto(s, r, phase).(disk := WithName(s.disk, name, ino), history := history);
    HoldsOnDisk(s, r);
    forall q | q in s.requests && q != r
      ensures Rely(s.disk, s.owners, s'.disk, s'.owners, q, s.requests[q])
    {
      LinkRely(s, r, name, q);
    }
    LinkKeepsDisk(s.disk, temp, name, ino);
    KeepsHolds(s, s', r);
    LinkedOk(s'.disk, s'.owners, r, phase);
    Rebuild(s, s', {r});
  }

  lemma LinkedOk(d: Disk, owners: map<string, nat>, r: nat, phase: Phase)
    requires phase.LinkSyncing? && TempOk(d, owners, r, phase.temp, phase.ino)
    ensures PhaseOk(d, owners, r, phase)
  {
    hide TempOk;
  }

  lemma CleanRely(s: State, r: nat, q: nat)
    requires Inv(s) && r in s.requests && s.requests[r].Cleaning? && q in s.requests && q != r
    ensures Rely(s.disk, s.owners, WithoutName(s.disk, s.requests[r].temp), s.owners - {s.requests[r].temp}, q, s.requests[q])
  {
    hide PhaseOk, Rely, Hidden, WorkOk, Frozen, OutcomeOk, DiskOk, Distinct, OwnersOk, LockOk, PhasesOk, HoldsPrivate;
    var phase := s.requests[q];
    HoldsOnDisk(s, r);
    HoldsOnDisk(s, q);
    PhaseHolds(s, q);
    assert TempOf(s.requests[r]) == Some((s.requests[r].temp, s.requests[r].ino));
    if TempOf(phase).Some? {
      TempsDiffer(s, q, r);
    }
    NamesRely(s.disk, s.owners, WithoutName(s.disk, s.requests[r].temp).dir, s.owners - {s.requests[r].temp}, q, phase);
  }

  lemma RemovalKeepsDisk(d: Disk, name: string)
    requires DiskOk(d) && Distinct(d)
    ensures DiskOk(WithoutName(d, name)) && Distinct(WithoutName(d, name))
  {
    hide Hidden;
  }

  /** A request removes its temp file. */
  lemma Cleans(s: State, r: nat)
    requires Inv(s) && r in s.requests && s.requests[r].Cleaning?
    ensures Inv(Clean(s, r, s.requests[r].temp, s.requests[r].locked, s.requests[r].outcome))
  {
    hide PhaseOk, Rely, Hidden, WorkOk, Frozen, OutcomeOk, DiskOk, Distinct, OwnersOk, LockOk, PhasesOk;
    var phase := s.requests[r];
    var s' := Clean(s, r, phase.temp, phase.locked, phase.outcome);
    forall q | q in s.requests && q != r
      ensures Rely(s.disk, s.owners, s'.disk, s'.owners, q, s.requests[q])
    {
      CleanRely(s, r, q);
    }
    RemovalKeepsDisk(s.disk, phase.temp);
    GivesUpTemp(s, s', r, phase.temp);
    CleanedOk(s, r);
    Rebuild(s, s', {r});
  }

  lemma CleanedOk(s: State, r: nat)
    requires Inv(s) && r in s.requests && s.requests[r].Cleaning?
    ensures var s' := Clean(s, r, s.requests[r].temp, s.requests[r].locked, s.requests[r].outcome);
      PhaseOk(s'.disk, s'.owners, r, s'.requests[r])
  {
    hide OutcomeOk, TempOk, DiskOk, Distinct, OwnersOk, LockOk;
    assert PhaseOk(s.disk, s.owners, r, s.requests[r]);
  }

  // ----- Every step -----

  lemma ReadsKeep(s: State, r: nat, before: Before, got: Bytes, end: nat)
    requires DiskOk(s.disk) && BeforeOk(s.disk, before, got) && before.ino in s.disk.inodes
    requires |got| <= end <= |s.disk.inodes[before.ino].content|
    ensures BeforeOk(s.disk, before, got + s.disk.inodes[before.ino].content[|got|..end])
  {
  }

  lemma AppendStarts(s: State, r: nat, token: string, amount: nat)
    requires Inv(s) && r in s.requests
    requires s.requests[r].Resolving? || s.requests[r].Locking? || s.requests[r].Opening? || s.requests[r].Stating?
    ensures Inv(Advance(s, r, token, amount))
  {
    hide Rely, Hidden, WorkOk, Distinct, OwnersOk, LockOk;
    assert PhaseOk(s.disk, s.owners, r, s.requests[r]);
    var s' := Advance(s, r, token, amount);
    if s.requests[r].Locking? {
      if s.lock.None? {
        Locks(s, r, s'.requests[r], Some(r));
      }
    } else {
      Quiet(s, r, s'.requests[r]);
    }
  }

  lemma Reads(s: State, r: nat, token: string, amount: nat)
    requires Inv(s) && r in s.requests && s.requests[r].Reading?
    ensures Inv(Advance(s, r, token, amount))
  {
    hide Rely, Hidden, Distinct, OwnersOk, LockOk, AppendBytes;
    var Reading(job, before, got) := s.requests[r];
    assert PhaseOk(s.disk, s.owners, r, s.requests[r]);
    var s' := Advance(s, r, token, amount);
    if before.ino in s.disk.inodes && |got| < |s.disk.inodes[before.ino].content| {
      ReadsKeep(s, r, before, got, |s'.requests[r].got|);
    }
    Quiet(s, r, s'.requests[r]);
  }

  lemma TempStarts(s: State, r: nat, token: string, amount: nat)
    requires Inv(s) && r in s.requests && s.requests[r].TempOpening?
    ensures Inv(Advance(s, r, token, amount))
  {
    hide Rely, Distinct, OwnersOk, LockOk, AppendBytes, IsStem, Private, DiskOk, PhasesOk, BeforeOk, Frozen, WorkOk;
    var work := s.requests[r].work;
    var temp := TempName(token);
    var s' := Advance(s, r, token, amount);
    PhaseHolds(s, r);
    if temp in s.disk.dir {
      Quiet(s, r, s'.requests[r]);
    } else {
      FileKeepsWork(s.disk, work, temp, [], TEMP_MODE);
      OpensTemp(s, r, temp, TEMP_MODE, s'.requests[r]);
    }
  }

  lemma FileKeepsWork(d: Disk, work: Work, temp: string, content: Bytes, mode: nat)
    requires DiskOk(d) && WorkOk(d, work)
    ensures WorkOk(WithFile(d, temp, content, mode), work)
    ensures Private(WithFile(d, temp, content, mode), temp, d.nextIno)
  {
    hide AppendBytes, IsStem, Hidden;
  }

  /** A write to a temp file is no write to the note that was read: that inode has another name, or none. */
  lemma ContentKeepsWork(d: Disk, work: Work, temp: string, ino: nat, content: Bytes, mode: nat)
    requires DiskOk(d) && WorkOk(d, work) && ino in d.inodes
    ensures WorkOk(WithContent(d, ino, content, mode), work)
  {
    hide AppendBytes, IsStem, Hidden;
  }

  lemma TempFills(s: State, r: nat, token: string, amount: nat)
    requires Inv(s) && r in s.requests && (s.requests[r].TempChmod? || s.requests[r].TempWriting?)
    ensures Inv(Advance(s, r, token, amount))
  {
    hide Rely, Distinct, OwnersOk, LockOk, AppendBytes, IsStem, DiskOk, PhasesOk, BeforeOk, Frozen, WorkData, WorkMode, Hidden;
    var work, temp, ino := s.requests[r].work, s.requests[r].temp, s.requests[r].ino;
    var s' := Advance(s, r, token, amount);
    PhaseHolds(s, r);
    var content := s'.disk.inodes[ino].content;
    ContentKeepsWork(s.disk, work, temp, ino, content, WorkMode(work));
    WritesTemp(s, r, content, WorkMode(work), s'.requests[r]);
    assert s' == Goto(s, r, s'.requests[r]).(disk := WithContent(s.disk, ino, content, WorkMode(work)));
  }

  lemma Checks(s: State, r: nat, token: string, amount: nat)
    requires Inv(s) && r in s.requests && s.requests[r].Checking?
    ensures Inv(Advance(s, r, token, amount))
  {
    hide Rely, Distinct, OwnersOk, LockOk, AppendBytes, IsStem, DiskOk, PhasesOk, BeforeOk, WorkOk, Hidden, Private, Written, TempOk;
    PhaseHolds(s, r);
    Quiet(s, r, Advance(s, r, token, amount).requests[r]);
  }

  lemma Links(s: State, r: nat, token: string, amount: nat)
    requires Inv(s) && r in s.requests && s.requests[r].Linking?
    ensures Inv(Advance(s, r, token, amount))
  {
    hide Rely, Distinct, OwnersOk, LockOk, AppendBytes, IsStem, DiskOk, PhasesOk, BeforeOk, WorkOk, Hidden, Private, Written, TempOk, NoteFileName;
    var Linking(create, temp, ino, sequence, taken) := s.requests[r];
    var name := NoteFileName(create.stem, sequence);
    var s' := Advance(s, r, token, amount);
    PhaseHolds(s, r);
    if name in s.disk.dir {
      assert taken + [name] == Candidates(create.stem, sequence);
      Quiet(s, r, s'.requests[r]);
    } else {
      CandidateVisible(create.stem, sequence);
      LinksName(s, r, name, s'.requests[r], s'.history);
    }
  }

  lemma CandidateVisible(stem: string, sequence: nat)
    requires IsStem(stem)
    ensures !Hidden(NoteFileName(stem, sequence))
  {
  }

  lemma Finishes(s: State, r: nat, token: string, amount: nat)
    requires Inv(s) && r in s.requests
    requires s.requests[r].AppendSyncing? || s.requests[r].LinkSyncing? || s.requests[r].Unlocking? || s.requests[r].Reporting?
    ensures Inv(Advance(s, r, token, amount))
  {
    hide Rely, Distinct, OwnersOk, LockOk, DiskOk, PhasesOk, TempOk;
    PhaseHolds(s, r);
    if s.requests[r].Unlocking? {
      Locks(s, r, Advance(s, r, token, amount).requests[r], None);
    } else {
      Quiet(s, r, Advance(s, r, token, amount).requests[r]);
    }
  }

  lemma Leaves(s: State, r: nat, token: string, amount: nat)
    requires Inv(s) && r in s.requests
    requires s.requests[r].Replacing? || s.requests[r].Cleaning? || s.requests[r].Done?
    ensures Inv(Advance(s, r, token, amount))
  {
    hide Inv, Clean, ReplaceTarget;
    if s.requests[r].Cleaning? {
      Cleans(s, r);
    } else if s.requests[r].Replacing? && s.requests[r].work.AppendWork? {
      Replaces(s, r);
    }
  }

  lemma AdvanceKeeps(s: State, r: nat, token: string, amount: nat)
    requires Inv(s) && r in s.requests
    ensures Inv(Advance(s, r, token, amount))
  {
    hide Inv, Advance;
    var phase := s.requests[r];
    if phase.Resolving? || phase.Locking? || phase.Opening? || phase.Stating? {
      AppendStarts(s, r, token, amount);
    } else if phase.Reading? {
      Reads(s, r, token, amount);
    } else if phase.TempOpening? {
      TempStarts(s, r, token, amount);
    } else if phase.TempChmod? || phase.TempWriting? {
      TempFills(s, r, token, amount);
    } else if phase.Checking? {
      Checks(s, r, token, amount);
    } else if phase.Linking? {
      Links(s, r, token, amount);
    } else if phase.AppendSyncing? || phase.LinkSyncing? || phase.Unlocking? || phase.Reporting? {
      Finishes(s, r, token, amount);
    } else {
      Leaves(s, r, token, amount);
    }
  }

  lemma FailKeeps(s: State, r: nat)
    requires Inv(s) && r in s.requests
    ensures Inv(Goto(s, r, Fail(s.requests[r])))
  {
    hide Inv, PhaseOk;
    var phase := s.requests[r];
    PhaseHolds(s, r);
    FailPhase(s, r, phase);
    Quiet(s, r, Fail(phase));
  }

  lemma FailPhase(s: State, r: nat, phase: Phase)
    requires PhaseOk(s.disk, s.owners, r, phase)
    ensures PhaseOk(s.disk, s.owners, r, Fail(phase))
    ensures TempOf(Fail(phase)) == TempOf(phase) && Critical(Fail(phase)) == Critical(phase)
  {
    hide TempOk, WorkOk, Private, Written, Candidates;
  }

  // ----- The host -----

  ghost predicate HostFree(s: State, name: string) {
    forall q :: q in s.requests && s.requests[q].Replacing? && s.requests[q].work.AppendWork? ==>
      s.requests[q].work.job.target != name
  }

  /** The inode behind a visible name is no request's private temp file, nor a note about to be replaced. */
  lemma VisibleInode(s: State, name: string, q: nat)
    requires Inv(s) && q in s.requests && HostFree(s, name)
    requires !Hidden(name) && name in s.disk.dir && s.disk.dir[name].Link?
    ensures TempOf(s.requests[q]).Some? && HoldsPrivate(s.requests[q]) ==> TempOf(s.requests[q]).value.1 != s.disk.dir[name].ino
    ensures s.requests[q].Replacing? && s.requests[q].work.AppendWork? ==> s.requests[q].work.before.ino != s.disk.dir[name].ino
  {
    hide Hidden, DiskOk, LockOk, OwnersOk, PhasesOk, TempOf, HoldsPrivate, Frozen;
    HoldsOnDisk(s, q);
  }

  lemma HostContent(s: State, name: string, content: Bytes, history: seq<Record>)
    requires Inv(s) && HostFree(s, name) && !Hidden(name) && name in s.disk.dir && s.disk.dir[name].Link?
    requires s.disk.dir[name].ino in s.disk.inodes
    ensures var ino := s.disk.dir[name].ino;
      Inv(s.(disk := WithContent(s.disk, ino, content, s.disk.inodes[ino].mode), history := history))
  {
    hide Rely, Hidden, DiskOk, Distinct, LockOk, OwnersOk, PhasesOk, TempOf, HoldsPrivate, PhaseOk;
    var ino := s.disk.dir[name].ino;
    var s' := s.(disk := WithContent(s.disk, ino, content, s.disk.inodes[ino].mode), history := history);
    forall q | q in s.requests
      ensures Rely(s.disk, s.owners, s'.disk, s'.owners, q, s.requests[q])
    {
      PhaseHolds(s, q);
      VisibleInode(s, name, q);
      ContentRely(s.disk, s.owners, q, s.requests[q], ino, content, s.disk.inodes[ino].mode);
    }
    ContentKeepsDisk(s.disk, ino, content, s.disk.inodes[ino].mode);
    SameHolds(s, s');
    Rebuild(s, s', {});
  }

  lemma SameHolds(s: State, s': State)
    requires OwnersOk(s) && LockOk(s)
    requires s'.requests == s.requests && s'.lock == s.lock && s'.owners == s.owners
    requires forall n :: Hidden(n) ==> (n in s'.disk.dir <==> n in s.disk.dir)
    ensures OwnersOk(s') && LockOk(s')
  {
    hide Hidden, Critical, TempOf;
  }

  lemma HostFile(s: State, name: string, content: Bytes, mode: nat, history: seq<Record>)
    requires Inv(s) && HostFree(s, name) && !Hidden(name)
    ensures Inv(s.(disk := WithFile(s.disk, name, content, mode), history := history))
  {
    hide Rely, Hidden, DiskOk, Distinct, LockOk, OwnersOk, PhasesOk, TempOf, HoldsPrivate, PhaseOk;
    var s' := s.(disk := WithFile(s.disk, name, content, mode), history := history);
    forall q | q in s.requests
      ensures Rely(s.disk, s.owners, s'.disk, s'.owners, q, s.requests[q])
    {
      PhaseHolds(s, q);
      HoldsOnDisk(s, q);
      FileRely(s.disk, s.owners, s.owners, q, s.requests[q], name, content, mode);
    }
    FileKeepsDisk(s.disk, name, content, mode);
    SameHolds(s, s');
    Rebuild(s, s', {});
  }

  lemma FileKeepsDisk(d: Disk, name: string, content: Bytes, mode: nat)
    requires DiskOk(d) && Distinct(d)
    ensures DiskOk(WithFile(d, name, content, mode)) && Distinct(WithFile(d, name, content, mode))
  {
    hide Hidden;
  }

  /** The host takes a visible name away, or makes it a symlink. */
  lemma HostUnlinks(s: State, name: string, dir': map<string, Entry>, history: seq<Record>)
    requires Inv(s) && HostFree(s, name) && !Hidden(name)
    requires dir' == s.disk.dir - {name} || dir' == s.disk.dir[name := Symlink]
    ensures Inv(s.(disk := s.disk.(dir := dir'), history := history))
  {
    hide Rely, Hidden, DiskOk, Distinct, LockOk, OwnersOk, PhasesOk, TempOf, HoldsPrivate, PhaseOk;
    var s' := s.(disk := s.disk.(dir := dir'), history := history);
    forall q | q in s.requests
      ensures Rely(s.disk, s.owners, s'.disk, s'.owners, q, s.requests[q])
    {
      PhaseHolds(s, q);
      HoldsOnDisk(s, q);
      NamesRely(s.disk, s.owners, dir', s.owners, q, s.requests[q]);
    }
    UnlinkKeepsDisk(s.disk, name, dir');
    SameHolds(s, s');
    Rebuild(s, s', {});
  }

  lemma UnlinkKeepsDisk(d: Disk, name: string, dir': map<string, Entry>)
    requires DiskOk(d) && Distinct(d) && (dir' == d.dir - {name} || dir' == d.dir[name := Symlink])
    ensures DiskOk(d.(dir := dir')) && Distinct(d.(dir := dir'))
  {
    hide Hidden;
  }

  lemma HostKeeps(s: State, e: Event)
    requires Inv(s) && IsHostEvent(e)
    ensures Inv(HostStep(s, e))
  {
    hide Inv, Hidden;
    if HostMay(s, e.name) {
      assert HostFree(s, e.name) by {
        forall q | q in s.requests && s.requests[q].Replacing? && s.requests[q].work.AppendWork?
          ensures s.requests[q].work.job.target != e.name
        {
        }
      }
      var s' := HostStep(s, e);
      if e.Write? {
        if s' != s {
          HostContent(s, e.name, e.content, s'.history);
        }
      } else if e.Put? {
        HostFile(s, e.name, e.content, e.mode, s'.history);
      } else {
        HostUnlinks(s, e.name, s'.disk.dir, s'.history);
      }
    }
  }

  lemma StepKeeps(s: State, e: Event)
    requires Inv(s)
    ensures Inv(Step(s, e))
  {
    hide Inv, Advance, Fail, HostStep, IsStem;
    match e {
      case ArriveAppend(r, job) => if r !in s.requests { ArrivalOk(s, r, Resolving(job)); Arrives(s, r, Resolving(job)); }
      case ArriveCreate(r, create) =>
        if r !in s.requests && IsStem(create.stem) {
          ArrivalOk(s, r, TempOpening(CreateWork(create)));
          Arrives(s, r, TempOpening(CreateWork(create)));
        }
      case Proceed(r, token, amount) => if r in s.requests { AdvanceKeeps(s, r, token, amount); }
      case Stumble(r) => if r in s.requests { FailKeeps(s, r); }
      case _ => HostKeeps(s, e);
    }
  }

  lemma ArrivalOk(s: State, r: nat, phase: Phase)
    requires phase.Resolving? || (phase.TempOpening? && phase.work.CreateWork? && IsStem(phase.work.create.stem))
    ensures PhaseOk(s.disk, s.owners, r, phase)
  {
    hide IsStem;
  }

  /** Every run keeps the invariant. */
  lemma {:induction false} RunKeeps(s: State, events: seq<Event>)
    requires Inv(s)
    ensures Inv(Run(s, events))
  {
    hide Inv, Step;
    if events != [] {
      RunKeeps(s, events[..|events| - 1]);
      StepKeeps(Run(s, events[..|events| - 1]), events[|events| - 1]);
    }
  }
}

/** The identity check of an append: it fails after a host change, and never fails without one. */
module InboxIdentity {
  import opened Bytes
  import opened Names
  import opened Text
  import opened FileNames
  import opened InboxModel
  import opened InboxInvariant
  import opened InboxSteps
  import opened InboxHistory
  import opened InboxOutcomes

  // ----- Inodes already seen under a note's name are no temp file's -----

  /** The inode an append has opened. */
  function SeenIno(phase: Phase): Option<nat> {
    match phase
    case Stating(_, ino) => Some(ino)
    case Reading(_, before, _) => Some(before.ino)
    case TempOpening(work) => SeenByWork(work)
    case TempChmod(work, _, _) => SeenByWork(work)
    case TempWriting(work, _, _) => SeenByWork(work)
    case Checking(work, _, _) => SeenByWork(work)
    case Replacing(work, _, _) => SeenByWork(work)
    case _ => None
  }

  function SeenByWork(work: Work): Option<nat> {
    if work.AppendWork? then Some(work.before.ino) else None
  }

  ghost predicate Apart(s: State) {
    forall q, r :: q in s.requests && r in s.requests && HoldsPrivate(s.requests[q]) && SeenIno(s.requests[r]).Some? ==>
      TempOf(s.requests[q]).value.1 != SeenIno(s.requests[r]).value
  }

  lemma SeenIsOld(s: State, r: nat)
    requires Inv(s) && r in s.requests && SeenIno(s.requests[r]).Some?
    ensures SeenIno(s.requests[r]).value < s.disk.nextIno
  {
    hide DiskOk, Distinct, OwnersOk, LockOk, PhasesOk, Hidden, TempOk, Private, Written, Bound, AppendBytes, Frozen;
    PhaseHolds(s, r);
  }

  lemma VisibleIsNotPrivate(s: State, q: nat, name: string)
    requires Inv(s) && q in s.requests && HoldsPrivate(s.requests[q])
    requires name in s.disk.dir && !Hidden(name) && s.disk.dir[name].Link?
    ensures TempOf(s.requests[q]).value.1 != s.disk.dir[name].ino
  {
    hide DiskOk, Distinct, OwnersOk, LockOk, PhasesOk, Hidden;
    HoldsOnDisk(s, q);
  }

  /** A step moves one request: it keeps its temp file or takes a new inode, and keeps its note's inode or opens one by name. */
  lemma ApartAfter(s: State, s': State, r: nat, phase: Phase, opened': string)
    requires Inv(s) && Apart(s) && r in s.requests && s'.requests == s.requests[r := phase]
    requires HoldsPrivate(phase) ==>
      || (HoldsPrivate(s.requests[r]) && TempOf(phase) == TempOf(s.requests[r]))
      || (TempOf(phase).value.1 == s.disk.nextIno && SeenIno(phase) == SeenIno(s.requests[r]))
    requires SeenIno(phase).Some? ==>
      || SeenIno(phase) == SeenIno(s.requests[r])
      || (!HoldsPrivate(phase) && opened' in s.disk.dir && !Hidden(opened') && s.disk.dir[opened'] == Link(SeenIno(phase).value))
    ensures Apart(s')
  {
    hide Inv, Hidden, SeenIno;
    forall p, q | p in s'.requests && q in s'.requests && HoldsPrivate(s'.requests[p]) && SeenIno(s'.requests[q]).Some?
      ensures TempOf(s'.requests[p]).value.1 != SeenIno(s'.requests[q]).value
    {
      if p == r && !(HoldsPrivate(s.requests[r]) && TempOf(phase) == TempOf(s.requests[r])) {
        SeenIsOld(s, q);
      } else if q == r && SeenIno(phase) != SeenIno(s.requests[r]) {
        VisibleIsNotPrivate(s, p, opened');
      }
    }
  }

  lemma OpenApart(s: State, r: nat, token: string, amount: nat)
    requires Inv(s) && Apart(s) && r in s.requests && s.requests[r].Opening?
    ensures Apart(Advance(s, r, token, amount))
  {
    hide Apart, Hidden, DiskOk, Distinct, OwnersOk, LockOk, PhasesOk;
    PhaseHolds(s, r);
    ApartAfter(s, Advance(s, r, token, amount), r, Advance(s, r, token, amount).requests[r], s.requests[r].job.target);
  }

  lemma TempApart(s: State, r: nat, token: string, amount: nat)
    requires Inv(s) && Apart(s) && r in s.requests
    requires s.requests[r].TempOpening? || s.requests[r].TempChmod? || s.requests[r].TempWriting?
    ensures Apart(Advance(s, r, token, amount))
  {
    hide Apart, Inv, WorkData, WorkMode, TempName, WithFile, WithContent;
    var s' := Advance(s, r, token, amount);
    assert s'.requests == s.requests[r := s'.requests[r]];
    ApartAfter(s, s', r, s'.requests[r], "");
  }

  /** Before the note is opened, and while it is read. */
  lemma EarlyApart(s: State, r: nat, token: string, amount: nat)
    requires Inv(s) && Apart(s) && r in s.requests
    requires s.requests[r].Resolving? || s.requests[r].Locking? || s.requests[r].Stating? || s.requests[r].Reading?
    ensures Apart(Advance(s, r, token, amount))
  {
    hide Apart, Inv, AppendBytes, Hidden;
    var s' := Advance(s, r, token, amount);
    assert s'.requests == s.requests[r := s'.requests[r]];
    ApartAfter(s, s', r, s'.requests[r], "");
  }

  /** Between the temp file and the note. */
  lemma ChangeApart(s: State, r: nat, token: string, amount: nat)
    requires Inv(s) && Apart(s) && r in s.requests
    requires s.requests[r].Checking? || s.requests[r].Replacing? || s.requests[r].Linking?
    ensures Apart(Advance(s, r, token, amount))
  {
    hide Apart, Inv, SameIdentity, NoteFileName, WithName, Renamed;
    var s' := Advance(s, r, token, amount);
    assert s'.requests == s.requests[r := s'.requests[r]];
    ApartAfter(s, s', r, s'.requests[r], "");
  }

  /** Past the last change of a note. */
  predicate IsLeaving(phase: Phase) {
    phase.AppendSyncing? || phase.LinkSyncing? || phase.Cleaning? || phase.Unlocking? || phase.Reporting? || phase.Done?
  }

  lemma LateApart(s: State, r: nat, token: string, amount: nat)
    requires Inv(s) && Apart(s) && r in s.requests && IsLeaving(s.requests[r])
    ensures Apart(Advance(s, r, token, amount))
  {
    hide Apart, Inv, WithoutName;
    var s' := Advance(s, r, token, amount);
    assert s'.requests == s.requests[r := s'.requests[r]];
    ApartAfter(s, s', r, s'.requests[r], "");
  }

  lemma AdvanceApart(s: State, r: nat, token: string, amount: nat)
    requires Inv(s) && Apart(s) && r in s.requests
    ensures Apart(Advance(s, r, token, amount))
  {
    hide Apart, Inv, Advance;
    var phase := s.requests[r];
    if phase.Opening? {
      OpenApart(s, r, token, amount);
    } else if phase.TempOpening? || phase.TempChmod? || phase.TempWriting? {
      TempApart(s, r, token, amount);
    } else if IsLeaving(phase) {
      LateApart(s, r, token, amount);
    } else if phase.Checking? || phase.Replacing? || phase.Linking? {
      ChangeApart(s, r, token, amount);
    } else {
      EarlyApart(s, r, token, amount);
    }
  }

  lemma StepApart(s: State, e: Event)
    requires Inv(s) && Apart(s)
    ensures Apart(Step(s, e))
  {
    hide Inv, Advance, HostMay, IsStem;
    if e.Proceed? && e.request in s.requests {
      AdvanceApart(s, e.request, e.token, e.amount);
    } else if e.Stumble? && e.request in s.requests {
      ApartAfter(s, Step(s, e), e.request, Fail(s.requests[e.request]), "");
    }
  }

  lemma {:induction false} RunApart(s: State, events: seq<Event>)
    requires Initial(s)
    ensures Apart(Run(s, events))
  {
    hide Initial, Inv, Step, Apart;
    InitialIsOk(s);
    if events == [] {
      NobodyIsApart(s);
    } else {
      RunApart(s, events[..|events| - 1]);
      RunKeeps(s, events[..|events| - 1]);
      StepApart(Run(s, events[..|events| - 1]), events[|events| - 1]);
    }
  }

  lemma NobodyIsApart(s: State)
    requires Initial(s)
    ensures Apart(s)
  {
    hide DiskOk, Distinct, Hidden;
  }

  // ----- A note that changed under an append -----

  /** What an append has recorded since `fstat`, as long as it may still fail. */
  function Recorded(phase: Phase): Option<(string, Before)> {
    match phase
    case Reading(job, before, _) => Some((job.target, before))
    case TempOpening(work) => RecordedByWork(work)
    case TempChmod(work, _, _) => RecordedByWork(work)
    case TempWriting(work, _, _) => RecordedByWork(work)
    case Checking(work, _, _) => RecordedByWork(work)
    case _ => None
  }

  function RecordedByWork(work: Work): Option<(string, Before)> {
    if work.AppendWork? then Some((work.job.target, work.before)) else None
  }

  predicate FailedCleanly(phase: Phase) {
    match phase
    case Cleaning(_, _, _, outcome) => outcome.Failed? && !outcome.error.Unconfirmed?
    case Unlocking(outcome) => outcome.Failed? && !outcome.error.Unconfirmed?
    case Done(outcome) => outcome.Failed? && !outcome.error.Unconfirmed?
    case _ => false
  }

  /** The note no longer is what the append read, or the append has failed already. */
  ghost predicate Doomed(s: State, r: nat) {
    r in s.requests && (
      var phase := s.requests[r];
      FailedCleanly(phase)
      || (Recorded(phase).Some? && !Bound(s.disk, Recorded(phase).value.0, Recorded(phase).value.1)))
  }

  /** Once the name no longer leads to the inode that was read, or that inode was written, this stays so. */
  lemma UnboundAfter(s: State, e: Event, r: nat)
    requires Inv(s) && Apart(s) && r in s.requests && Recorded(s.requests[r]).Some?
    requires !Bound(s.disk, Recorded(s.requests[r]).value.0, Recorded(s.requests[r]).value.1)
    ensures !Bound(Step(s, e).disk, Recorded(s.requests[r]).value.0, Recorded(s.requests[r]).value.1)
  {
    hide Inv, Apart, Advance, HostStep, IsStem, Fail;
    var (target, before) := Recorded(s.requests[r]).value;
    RecordedIsOld(s, r);
    if e.Proceed? && e.request in s.requests {
      UnboundAdvance(s, e.request, e.token, e.amount, r);
    } else if IsHostEvent(e) {
      hide HostMay;
      assert !Bound(HostStep(s, e).disk, target, before) by { UnboundHost(s, e, target, before); }
    }
  }

  lemma RecordedIsOld(s: State, r: nat)
    requires Inv(s) && r in s.requests && Recorded(s.requests[r]).Some?
    ensures Recorded(s.requests[r]).value.1.ino < s.disk.nextIno && Recorded(s.requests[r]).value.1.stamp < s.disk.clock
    ensures !Hidden(Recorded(s.requests[r]).value.0)
    ensures SeenIno(s.requests[r]) == Some(Recorded(s.requests[r]).value.1.ino)
  {
    hide DiskOk, Distinct, OwnersOk, LockOk, PhasesOk, Hidden, TempOk, Private, Written, Bound, AppendBytes, Frozen;
    PhaseHolds(s, r);
  }

  lemma UnboundHost(s: State, e: Event, target: string, before: Before)
    requires IsHostEvent(e) && before.ino < s.disk.nextIno && before.stamp < s.disk.clock
    requires !Bound(s.disk, target, before)
    ensures !Bound(HostStep(s, e).disk, target, before)
  {
    hide HostMay;
  }

  lemma UnboundAdvance(s: State, q: nat, token: string, amount: nat, r: nat)
    requires Inv(s) && Apart(s) && q in s.requests && r in s.requests && Recorded(s.requests[r]).Some?
    requires !Bound(s.disk, Recorded(s.requests[r]).value.0, Recorded(s.requests[r]).value.1)
    ensures !Bound(Advance(s, q, token, amount).disk, Recorded(s.requests[r]).value.0, Recorded(s.requests[r]).value.1)
  {
    hide Inv, Apart, Hidden, AppendBytes, WorkData, WorkMode, SameIdentity, NoteFileName, TempName, Recorded, SeenIno;
    var (target, before) := Recorded(s.requests[r]).value;
    RecordedIsOld(s, r);
    var phase := s.requests[q];
    if phase.Replacing? || phase.Linking? {
      ApartHere(s, q, r);
    }
  }

  lemma ApartHere(s: State, q: nat, r: nat)
    requires Apart(s) && q in s.requests && r in s.requests && HoldsPrivate(s.requests[q]) && SeenIno(s.requests[r]).Some?
    ensures TempOf(s.requests[q]).value.1 != SeenIno(s.requests[r]).value
  {
    hide HoldsPrivate, TempOf, SeenIno;
  }

  ghost predicate Unbound(s: State, r: nat) {
    && r in s.requests && Recorded(s.requests[r]).Some?
    && !Bound(s.disk, Recorded(s.requests[r]).value.0, Recorded(s.requests[r]).value.1)
  }

  /** A request that has failed already only cleans up. */
  lemma FailedMoves(s: State, r: nat, token: string, amount: nat)
    requires r in s.requests && FailedCleanly(s.requests[r])
    ensures Doomed(Advance(s, r, token, amount), r)
  {
    hide WithoutName, Bound, Recorded;
  }

  /** The check itself notices. */
  lemma UnboundChecks(s: State, r: nat, token: string, amount: nat)
    requires Unbound(s, r) && s.requests[r].Checking?
    ensures Doomed(Advance(s, r, token, amount), r)
  {
    hide Bound, SameIdentity;
    SameIsBound(s, r);
  }

  /** Up to the check the request keeps what it has recorded, or fails. */
  lemma UnboundMoves(s: State, r: nat, token: string, amount: nat)
    requires Unbound(s, r) && !s.requests[r].Checking?
    requires !Bound(Advance(s, r, token, amount).disk, Recorded(s.requests[r]).value.0, Recorded(s.requests[r]).value.1)
    ensures Doomed(Advance(s, r, token, amount), r)
  {
    hide Bound, AppendBytes, WorkData, WorkMode, TempName, WithFile, WithContent;
  }

  lemma DoomedMover(s: State, r: nat, token: string, amount: nat)
    requires Inv(s) && Apart(s) && Doomed(s, r)
    ensures Doomed(Advance(s, r, token, amount), r)
  {
    hide Inv, Apart, Advance, Bound, Recorded, FailedCleanly;
    if FailedCleanly(s.requests[r]) {
      FailedMoves(s, r, token, amount);
    } else if s.requests[r].Checking? {
      UnboundChecks(s, r, token, amount);
    } else {
      UnboundAdvance(s, r, token, amount, r);
      UnboundMoves(s, r, token, amount);
    }
  }

  /** A call that raises only makes the failure certain. */
  lemma DoomedStumbles(s: State, r: nat)
    requires Doomed(s, r)
    ensures Doomed(Goto(s, r, Fail(s.requests[r])), r)
  {
    hide Bound;
  }

  /** Someone else moves. */
  lemma DoomedBeside(s: State, e: Event, r: nat)
    requires Inv(s) && Apart(s) && Doomed(s, r)
    requires r in Step(s, e).requests && Step(s, e).requests[r] == s.requests[r]
    ensures Doomed(Step(s, e), r)
  {
    hide Inv, Apart, Step, Bound, Recorded, FailedCleanly;
    if Unbound(s, r) {
      UnboundAfter(s, e, r);
    }
  }

  lemma OthersStay(s: State, e: Event, r: nat)
    requires r in s.requests && !((e.Proceed? || e.Stumble?) && e.request == r)
    ensures r in Step(s, e).requests && Step(s, e).requests[r] == s.requests[r]
  {
    hide Advance, Fail, HostMay, IsStem;
    if e.Proceed? && e.request in s.requests {
      MovesOneAdvance(s, e.request, e.token, e.amount);
    }
  }

  lemma DoomedStep(s: State, e: Event, r: nat)
    requires Inv(s) && Apart(s) && Doomed(s, r)
    ensures Doomed(Step(s, e), r)
  {
    hide Inv, Apart, Advance, Fail, HostStep, IsStem, Bound, Recorded, FailedCleanly;
    if e.Proceed? && e.request == r {
      DoomedMover(s, r, e.token, e.amount);
    } else if e.Stumble? && e.request == r {
      DoomedStumbles(s, r);
    } else {
      OthersStay(s, e, r);
      DoomedBeside(s, e, r);
    }
  }

  lemma SameIsBound(s: State, r: nat)
    requires r in s.requests && s.requests[r].Checking? && s.requests[r].work.AppendWork?
    ensures SameIdentity(s.disk, s.requests[r].work.job.target, s.requests[r].work.before) ==>
      Bound(s.disk, s.requests[r].work.job.target, s.requests[r].work.before)
  {
  }

  /**
   * If at any moment between its `fstat` and its check the note is not what an append read, then in every
   * continuation that append changes nothing, and can only end in failure.
   */
  lemma {:induction false} ChangedNoteFails(s: State, events: seq<Event>, later: seq<Event>, r: nat)
    requires Initial(s) && Doomed(Run(s, events), r)
    ensures Doomed(Run(s, events + later), r)
    ensures Of(Run(s, events + later).history, r) == []
  {
    hide Initial, Inv, Step, Apart, Doomed, Of;
    DoomedAdds(s, events, r);
    if later == [] {
      assert events + later == events;
    } else {
      var n := |later| - 1;
      ChangedNoteFails(s, events, later[..n], r);
      assert (events + later)[..|events + later| - 1] == events + later[..n];
      InitialIsOk(s);
      RunKeeps(s, events + later[..n]);
      RunApart(s, events + later[..n]);
      DoomedStep(Run(s, events + later[..n]), later[n], r);
      assert Run(s, events + later) == Step(Run(s, events + later[..n]), later[n]);
      DoomedAdds(s, events + later, r);
    }
  }

  lemma DoomedAdds(s: State, events: seq<Event>, r: nat)
    requires Initial(s) && Doomed(Run(s, events), r)
    ensures Of(Run(s, events).history, r) == []
  {
    hide Initial, Run, Of, Bound;
    RunAccounted(s, events);
    MatchesNow(Run(s, events), r);
  }

  /** A host change of the note between `fstat` and the check dooms the append that read it. */
  lemma HostDooms(s: State, e: Event, r: nat)
    requires Inv(s) && IsHostEvent(e) && HostStep(s, e) != s
    requires r in s.requests && Recorded(s.requests[r]).Some? && Recorded(s.requests[r]).value.0 == e.name
    ensures Doomed(HostStep(s, e), r)
  {
    hide Inv, HostMay, Recorded, Hidden;
    RecordedIsOld(s, r);
  }

  // ----- Without a host -----

  /** The note an unfinished append is about, while it still relies on it. */
  function TargetOf(phase: Phase): Option<string> {
    match phase
    case Locking(job) => Some(job.target)
    case Opening(job) => Some(job.target)
    case Stating(job, _) => Some(job.target)
    case Replacing(work, _, _) => if work.AppendWork? then Some(work.job.target) else None
    case _ => if Recorded(phase).Some? then Some(Recorded(phase).value.0) else None
  }

  predicate NeverModified(outcome: Outcome) {
    outcome != Failed(NoteModified)
  }

  ghost predicate Steady(d: Disk, phase: Phase) {
    match phase
    case Locking(job) => job.target in d.dir && d.dir[job.target].Link?
    case Opening(job) => job.target in d.dir && d.dir[job.target].Link?
    case Stating(job, ino) => job.target in d.dir && d.dir[job.target] == Link(ino)
    case Cleaning(_, _, _, outcome) => NeverModified(outcome)
    case Unlocking(outcome) => NeverModified(outcome)
    case Done(outcome) => NeverModified(outcome)
    case _ => Recorded(phase).Some? ==> Bound(d, Recorded(phase).value.0, Recorded(phase).value.1)
  }

  ghost predicate SteadyAt(s: State, r: nat) {
    r in s.requests && Steady(s.disk, s.requests[r])
  }

  ghost predicate AllSteady(s: State) {
    forall r :: r in s.requests ==> Steady(s.disk, s.requests[r])
  }

  ghost predicate KeepsTarget(d: Disk, d': Disk, target: string) {
    && target in d'.dir && target in d.dir && d'.dir[target] == d.dir[target]
    && (d.dir[target].Link? && d.dir[target].ino in d.inodes ==>
        d.dir[target].ino in d'.inodes && d'.inodes[d.dir[target].ino] == d.inodes[d.dir[target].ino])
  }

  lemma SteadyAfter(d: Disk, d': Disk, phase: Phase)
    requires Steady(d, phase)
    requires TargetOf(phase).Some? && (phase.Locking? || KeepsTarget(d, d', TargetOf(phase).value))
    requires TargetOf(phase).value in d'.dir && d'.dir[TargetOf(phase).value].Link?
    ensures Steady(d', phase)
  {
  }

  lemma SteadyAnyway(d: Disk, d': Disk, phase: Phase)
    requires Steady(d, phase) && TargetOf(phase).None?
    ensures Steady(d', phase)
  {
  }

  lemma SteadyTarget(s: State, q: nat)
    requires Inv(s) && q in s.requests && Steady(s.disk, s.requests[q]) && TargetOf(s.requests[q]).Some?
    ensures var target := TargetOf(s.requests[q]).value;
      target in s.disk.dir && !Hidden(target) && s.disk.dir[target].Link? && s.disk.dir[target].ino in s.disk.inodes
  {
    hide DiskOk, Distinct, OwnersOk, LockOk, PhasesOk, Hidden, TempOk, Private, Written, AppendBytes, BeforeOk;
    PhaseHolds(s, q);
    var target := TargetOf(s.requests[q]).value;
    assert target in s.disk.dir && s.disk.dir[target].Link?;
    LinksLead(s.disk, target);
  }

  lemma LinksLead(d: Disk, name: string)
    requires DiskOk(d) && name in d.dir && d.dir[name].Link?
    ensures d.dir[name].ino in d.inodes
  {
  }

  /** While `q` is past the lock, `r` is no append past it: what `r` changes is never `q`'s note. */
  lemma OthersKeepTarget(s: State, r: nat, token: string, amount: nat, q: nat)
    requires Inv(s) && r in s.requests && q in s.requests && q != r
    requires TargetOf(s.requests[q]).Some? && Steady(s.disk, s.requests[q])
    ensures Steady(Advance(s, r, token, amount).disk, s.requests[q])
  {
    hide Inv, Hidden, AppendBytes, WorkData, WorkMode, SameIdentity, NoteFileName, TempName, Steady, TargetOf, Recorded;
    var target := TargetOf(s.requests[q]).value;
    var d' := Advance(s, r, token, amount).disk;
    SteadyTarget(s, q);
    var phase := s.requests[r];
    TempIsHidden(token);
    HoldsOnDisk(s, r);
    InodesAreOld(s, target);
    if HoldsPrivate(phase) {
      VisibleIsNotPrivate(s, r, target);
    }
    if phase.Replacing? {
      LockedOut(s, r, q);
    } else {
      assert KeepsTarget(s.disk, d', target);
    }
    SteadyAfter(s.disk, d', s.requests[q]);
  }

  lemma InodesAreOld(s: State, name: string)
    requires Inv(s) && name in s.disk.dir && s.disk.dir[name].Link?
    ensures s.disk.dir[name].ino < s.disk.nextIno
  {
    hide Distinct, OwnersOk, LockOk, PhasesOk, Hidden;
  }

  lemma LockedOut(s: State, r: nat, q: nat)
    requires Inv(s) && r in s.requests && q in s.requests && q != r && s.requests[r].Replacing?
    requires TargetOf(s.requests[q]).Some?
    ensures s.requests[q].Locking?
  {
    hide Inv;
    LockHeld(s, r);
  }

  /** The check passes on a note that is what was read. */
  lemma BoundIsSame(d: Disk, target: string, before: Before, got: Bytes)
    requires Bound(d, target, before) && BeforeOk(d, before, got)
    ensures SameIdentity(d, target, before)
  {
  }

  lemma CheckSteady(s: State, r: nat, token: string, amount: nat)
    requires Inv(s) && r in s.requests && Steady(s.disk, s.requests[r]) && s.requests[r].Checking?
    ensures SteadyAt(Advance(s, r, token, amount), r)
  {
    hide DiskOk, Distinct, OwnersOk, LockOk, PhasesOk, Hidden, Written, AppendBytes, BeforeOk, Bound, SameIdentity;
    PhaseHolds(s, r);
    var work := s.requests[r].work;
    BoundIsSame(s.disk, work.job.target, work.before, work.existing);
    assert Bound(s.disk, work.job.target, work.before);
    BoundEntry(s.disk, work.job.target, work.before);
  }

  lemma BoundEntry(d: Disk, target: string, before: Before)
    requires Bound(d, target, before)
    ensures target in d.dir && d.dir[target] == Link(before.ino)
  {
  }

  lemma TempSteady(s: State, r: nat, token: string, amount: nat)
    requires Inv(s) && r in s.requests && Steady(s.disk, s.requests[r])
    requires s.requests[r].TempOpening? || s.requests[r].TempChmod? || s.requests[r].TempWriting?
    ensures SteadyAt(Advance(s, r, token, amount), r)
  {
    hide Inv, Hidden, AppendBytes, WorkData, WorkMode, TempName;
    var phase := s.requests[r];
    var d' := Advance(s, r, token, amount).disk;
    if phase.work.AppendWork? {
      var target := phase.work.job.target;
      SteadyTarget(s, r);
      InodesAreOld(s, target);
      TempIsHidden(token);
      HoldsOnDisk(s, r);
      if HoldsPrivate(phase) {
        VisibleIsNotPrivate(s, r, target);
      }
      assert KeepsTarget(s.disk, d', target);
      assert Bound(d', target, phase.work.before);
    }
  }

  /** The mover itself: what it opens, records and checks is the note as it is. */
  lemma MoverSteady(s: State, r: nat, token: string, amount: nat)
    requires Inv(s) && r in s.requests && Steady(s.disk, s.requests[r])
    ensures SteadyAt(Advance(s, r, token, amount), r)
  {
    hide Inv, Hidden, AppendBytes, NoteFileName, OpenTemp, ChmodTemp, WriteTemp, Check, WithName, WithoutName, Renamed;
    var phase := s.requests[r];
    if phase.TempOpening? || phase.TempChmod? || phase.TempWriting? {
      TempSteady(s, r, token, amount);
    } else if phase.Checking? {
      CheckSteady(s, r, token, amount);
    } else if phase.Stating? {
      SteadyTarget(s, r);
    }
  }

  lemma StepSteady(s: State, e: Event)
    requires Inv(s) && AllSteady(s) && !IsHostEvent(e)
    ensures AllSteady(Step(s, e))
  {
    hide Inv, Steady, Advance, IsStem, Hidden;
    var s' := Step(s, e);
    if e.Proceed? && e.request in s.requests {
      forall q | q in s'.requests
        ensures Steady(s'.disk, s'.requests[q])
      {
        MovesOneAdvance(s, e.request, e.token, e.amount);
        if q == e.request {
          MoverSteady(s, q, e.token, e.amount);
        } else if TargetOf(s.requests[q]).Some? {
          OthersKeepTarget(s, e.request, e.token, e.amount, q);
        } else {
          SteadyAnyway(s.disk, s'.disk, s.requests[q]);
        }
      }
    } else if e.Stumble? && e.request in s.requests {
      FailSteady(s.disk, s.requests[e.request]);
    } else if e.ArriveAppend? && s' != s {
      SteadyArrival(s.disk, s'.requests[e.request]);
    } else if e.ArriveCreate? && s' != s {
      SteadyArrival(s.disk, s'.requests[e.request]);
    }
  }

  lemma FailSteady(d: Disk, phase: Phase)
    requires Steady(d, phase)
    ensures Steady(d, Fail(phase))
  {
  }

  lemma SteadyArrival(d: Disk, phase: Phase)
    requires phase.Resolving? || (phase.TempOpening? && phase.work.CreateWork?)
    ensures Steady(d, phase)
  {
  }

  lemma {:induction false} RunSteady(s: State, events: seq<Event>)
    requires Initial(s) && forall e :: e in events ==> !IsHostEvent(e)
    ensures AllSteady(Run(s, events))
  {
    hide Initial, Inv, Step, Steady;
    InitialIsOk(s);
    if events == [] {
      NobodyAtWork(s);
    } else {
      RunSteady(s, events[..|events| - 1]);
      RunKeeps(s, events[..|events| - 1]);
      StepSteady(Run(s, events[..|events| - 1]), events[|events| - 1]);
    }
  }

  lemma NobodyAtWork(s: State)
    requires Initial(s)
    ensures s.requests == map[]
  {
    hide DiskOk, Distinct, Hidden;
  }

  /** Without host writes the identity check never fails: no append ends with NOTE_MODIFIED. */
  lemma UndisturbedNeverModified(s: State, events: seq<Event>, r: nat)
    requires Initial(s) && forall e :: e in events ==> !IsHostEvent(e)
    requires r in Run(s, events).requests && Run(s, events).requests[r].Done?
    ensures Run(s, events).requests[r].outcome != Failed(NoteModified)
  {
    hide Initial, Run;
    RunSteady(s, events);
    assert Steady(Run(s, events).disk, Run(s, events).requests[r]);
  }
}

/** The names creates take, look at and leave behind. */
module InboxNames {
  import opened Names
  import opened Text
  import opened FileNames
  import opened InboxModel
  import opened InboxInvariant
  import opened InboxSteps
  import opened InboxHistory
  import opened InboxGrowth
  import opened InboxOutcomes

  // ----- Nothing left behind -----

  /** The hidden names are those that were there at the start, untouched, and the temp files requests hold. */
  ghost predicate HiddenOk(d: Disk, s: State) {
    forall n :: Hidden(n) ==>
      && (n in d.dir ==> n !in s.owners && n in s.disk.dir && s.disk.dir[n] == d.dir[n])
      && (n in s.disk.dir && n !in d.dir ==> n in s.owners)
  }

  /** A step changes hidden names only by taking a free one or giving up its own. */
  ghost predicate HiddenStep(s: State, s': State) {
    forall n :: Hidden(n) ==>
      if n in s'.owners && n !in s.owners then n !in s.disk.dir
      else if n in s.owners && n !in s'.owners then n !in s'.disk.dir
      else (n in s'.disk.dir <==> n in s.disk.dir) && (n in s.disk.dir && n !in s.owners ==> s'.disk.dir[n] == s.disk.dir[n])
  }

  lemma AdvanceHidden(s: State, r: nat, token: string, amount: nat)
    requires Inv(s) && r in s.requests
    ensures HiddenStep(s, Advance(s, r, token, amount))
  {
    hide Inv, Hidden, AppendBytes, WorkData, WorkMode, SameIdentity, NoteFileName, TempName;
    var phase := s.requests[r];
    HoldsOnDisk(s, r);
    TempIsHidden(token);
    if phase.TempOpening? {
      OwnedIsOnDisk(s, TempName(token));
    } else if phase.Linking? {
      LinkingStem(s, r);
      CandidateVisible(phase.create.stem, phase.sequence);
    }
  }

  lemma OwnedIsOnDisk(s: State, name: string)
    requires Inv(s)
    ensures name in s.owners ==> name in s.disk.dir
  {
    hide DiskOk, Distinct, LockOk, PhasesOk, Hidden, TempOf;
  }

  lemma LinkingStem(s: State, r: nat)
    requires Inv(s) && r in s.requests && s.requests[r].Linking?
    ensures IsStem(s.requests[r].create.stem)
  {
    hide DiskOk, Distinct, OwnersOk, LockOk, PhasesOk, IsStem, TempOk, Private, Written, Candidates;
    PhaseHolds(s, r);
  }

  lemma StepHidden(s: State, e: Event)
    requires Inv(s)
    ensures HiddenStep(s, Step(s, e))
  {
    hide Inv, Advance, Fail, Hidden, IsStem, InWindow;
    if e.Proceed? && e.request in s.requests {
      AdvanceHidden(s, e.request, e.token, e.amount);
    }
  }

  lemma HiddenAfter(d: Disk, s: State, s': State)
    requires OwnersOk(s) && OwnersOk(s') && HiddenOk(d, s) && HiddenStep(s, s')
    ensures HiddenOk(d, s')
  {
    hide Hidden, TempOf;
  }

  lemma {:induction false} RunHidden(s: State, events: seq<Event>)
    requires Initial(s)
    ensures HiddenOk(s.disk, Run(s, events))
  {
    hide Initial, Step, HiddenOk, HiddenStep, DiskOk, Distinct, LockOk, PhasesOk, OwnersOk;
    InitialIsOk(s);
    if events == [] {
      InitiallyHidden(s);
    } else {
      var n := |events| - 1;
      RunHidden(s, events[..n]);
      RunKeeps(s, events[..n]);
      RunKeeps(s, events);
      StepHidden(Run(s, events[..n]), events[n]);
      HiddenAfter(s.disk, Run(s, events[..n]), Run(s, events));
    }
  }

  lemma InitiallyHidden(s: State)
    requires Initial(s)
    ensures HiddenOk(s.disk, s)
  {
    hide DiskOk, Distinct, Hidden;
  }

  /**
   * A hidden name on disk was there at the start, and then it is untouched, or it is the temp file of an unfinished
   * request. The lock is held by an unfinished request.
   */
  lemma NothingLeftBehind(s: State, events: seq<Event>)
    requires Initial(s)
    ensures var later := Run(s, events);
      && (forall name :: name in s.disk.dir && Hidden(name) ==> name in later.disk.dir && later.disk.dir[name] == s.disk.dir[name])
      && (forall name :: name in later.disk.dir && Hidden(name) && name !in s.disk.dir ==>
          name in later.owners && later.owners[name] in later.requests && !later.requests[later.owners[name]].Done?)
      && (later.lock.Some? ==> later.lock.value in later.requests && !later.requests[later.lock.value].Done?)
  {
    hide Initial, Run, Hidden, DiskOk, Distinct, PhasesOk;
    InitialIsOk(s);
    RunKeeps(s, events);
    RunHidden(s, events);
  }

  // ----- Giving up -----

  /** In this state request `r` is about to try the `n`th name of its stem, and an entry has it. */
  predicate LooksTaken(s: State, r: nat, stem: string, n: nat) {
    && r in s.requests && s.requests[r].Linking? && s.requests[r].create.stem == stem && s.requests[r].sequence == n
    && NoteFileName(stem, n) in s.disk.dir
  }

  /** At some moment of the run it was so. */
  ghost predicate FoundTaken(s: State, events: seq<Event>, r: nat, stem: string, n: nat) {
    exists k: nat :: k <= |events| && LooksTaken(Run(s, events[..k]), r, stem, n)
  }

  ghost predicate AllFoundTaken(s: State, events: seq<Event>, r: nat, stem: string, below: nat) {
    forall n: nat :: 1 <= n < below ==> FoundTaken(s, events, r, stem, n)
  }

  ghost predicate OutcomeSeen(s: State, events: seq<Event>, r: nat, outcome: Outcome) {
    outcome.Failed? && outcome.error.NamesTaken? ==> AllFoundTaken(s, events, r, outcome.error.stem, MAX_SEQUENCE + 1)
  }

  /** Every name a request has passed over was found taken. */
  ghost predicate PhaseSeen(s: State, events: seq<Event>, r: nat, phase: Phase) {
    match phase
    case Linking(create, _, _, sequence, _) => AllFoundTaken(s, events, r, create.stem, sequence)
    case Cleaning(_, _, _, outcome) => OutcomeSeen(s, events, r, outcome)
    case Unlocking(outcome) => OutcomeSeen(s, events, r, outcome)
    case Done(outcome) => OutcomeSeen(s, events, r, outcome)
    case _ => true
  }

  lemma FoundEarlier(s: State, events: seq<Event>, e: Event, r: nat, stem: string, below: nat)
    requires AllFoundTaken(s, events, r, stem, below)
    ensures AllFoundTaken(s, events + [e], r, stem, below)
  {
    hide LooksTaken, Run;
    forall n: nat | 1 <= n < below
      ensures FoundTaken(s, events + [e], r, stem, n)
    {
      assert FoundTaken(s, events, r, stem, n);
      var k: nat :| k <= |events| && LooksTaken(Run(s, events[..k]), r, stem, n);
      assert (events + [e])[..k] == events[..k];
    }
  }

  lemma PhaseSeenEarlier(s: State, events: seq<Event>, e: Event, r: nat, phase: Phase)
    requires PhaseSeen(s, events, r, phase)
    ensures PhaseSeen(s, events + [e], r, phase)
  {
    hide AllFoundTaken;
    match phase
    case Linking(create, _, _, sequence, _) => FoundEarlier(s, events, e, r, create.stem, sequence);
    case Cleaning(_, _, _, outcome) => OutcomeSeenEarlier(s, events, e, r, outcome);
    case Unlocking(outcome) => OutcomeSeenEarlier(s, events, e, r, outcome);
    case Done(outcome) => OutcomeSeenEarlier(s, events, e, r, outcome);
    case _ =>
  }

  lemma OutcomeSeenEarlier(s: State, events: seq<Event>, e: Event, r: nat, outcome: Outcome)
    requires OutcomeSeen(s, events, r, outcome)
    ensures OutcomeSeen(s, events + [e], r, outcome)
  {
    hide AllFoundTaken;
    if outcome.Failed? && outcome.error.NamesTaken? {
      FoundEarlier(s, events, e, r, outcome.error.stem, MAX_SEQUENCE + 1);
    }
  }

  /** The name looked at now joins those found taken. */
  lemma FoundNow(s: State, events: seq<Event>, e: Event, r: nat, stem: string, n: nat)
    requires AllFoundTaken(s, events, r, stem, n) && LooksTaken(Run(s, events), r, stem, n)
    ensures AllFoundTaken(s, events + [e], r, stem, n + 1)
  {
    hide LooksTaken, Run;
    FoundEarlier(s, events, e, r, stem, n);
    assert (events + [e])[..|events|] == events;
    assert FoundTaken(s, events + [e], r, stem, n);
  }

  ghost predicate SeenAt(s: State, events: seq<Event>, now: State, r: nat) {
    r in now.requests && PhaseSeen(s, events, r, now.requests[r])
  }

  lemma LinkingSeen(s: State, events: seq<Event>, e: Event, r: nat, token: string, amount: nat)
    requires SeenAt(s, events, Run(s, events), r) && Run(s, events).requests[r].Linking?
    requires Run(s, events).requests[r].sequence <= MAX_SEQUENCE
    ensures SeenAt(s, events + [e], Advance(Run(s, events), r, token, amount), r)
  {
    hide AllFoundTaken, Run, NoteFileName, WithName;
    var now := Run(s, events);
    var Linking(create, temp, ino, sequence, taken) := now.requests[r];
    if NoteFileName(create.stem, sequence) in now.disk.dir {
      FoundNow(s, events, e, r, create.stem, sequence);
    }
  }

  lemma MoverSeen(s: State, events: seq<Event>, e: Event, r: nat, token: string, amount: nat)
    requires Inv(Run(s, events)) && SeenAt(s, events, Run(s, events), r)
    ensures SeenAt(s, events + [e], Advance(Run(s, events), r, token, amount), r)
  {
    hide Inv, Run, AllFoundTaken, AppendBytes, SameIdentity, TempName, WorkData, WorkMode, WithContent, WithFile, WithoutName, Renamed, TryLink;
    var now := Run(s, events);
    PhaseSeenEarlier(s, events, e, r, now.requests[r]);
    if now.requests[r].Linking? {
      LinkingSequence(now, r);
      LinkingSeen(s, events, e, r, token, amount);
    } else if now.requests[r].TempWriting? {
      assert AllFoundTaken(s, events + [e], r, if now.requests[r].work.CreateWork? then now.requests[r].work.create.stem else "", 1) by {
        NothingFound(s, events + [e], r, if now.requests[r].work.CreateWork? then now.requests[r].work.create.stem else "");
      }
    }
  }

  lemma NothingFound(s: State, events: seq<Event>, r: nat, stem: string)
    ensures AllFoundTaken(s, events, r, stem, 1)
  {
  }

  lemma LinkingSequence(s: State, r: nat)
    requires Inv(s) && r in s.requests && s.requests[r].Linking?
    ensures s.requests[r].sequence <= MAX_SEQUENCE
  {
    hide DiskOk, Distinct, OwnersOk, LockOk, PhasesOk, IsStem, TempOk, Private, Written, Candidates;
    PhaseHolds(s, r);
  }

  lemma FailSeen(s: State, events: seq<Event>, r: nat, phase: Phase)
    requires PhaseSeen(s, events, r, phase)
    ensures PhaseSeen(s, events, r, Fail(phase))
  {
    hide AllFoundTaken;
  }

  ghost predicate AllSeen(s: State, events: seq<Event>, now: State) {
    forall r :: r in now.requests ==> PhaseSeen(s, events, r, now.requests[r])
  }

  lemma StepSeen(s: State, events: seq<Event>, e: Event)
    requires Inv(Run(s, events)) && AllSeen(s, events, Run(s, events))
    ensures AllSeen(s, events + [e], Step(Run(s, events), e))
  {
    hide Inv, Run, PhaseSeen, Advance, Fail, IsStem, HostMay;
    var now := Run(s, events);
    var then' := Step(now, e);
    forall r | r in then'.requests
      ensures PhaseSeen(s, events + [e], r, then'.requests[r])
    {
      if r in now.requests {
        PhaseSeenEarlier(s, events, e, r, now.requests[r]);
      }
      if e.Proceed? && e.request in now.requests {
        MovesOneAdvance(now, e.request, e.token, e.amount);
        MoverSeen(s, events, e, e.request, e.token, e.amount);
      } else if e.Stumble? && e.request == r {
        FailSeen(s, events + [e], r, now.requests[r]);
      } else if r !in now.requests {
        ArrivalSeen(s, events + [e], r, then'.requests[r]);
      }
    }
  }

  lemma ArrivalSeen(s: State, events: seq<Event>, r: nat, phase: Phase)
    requires phase.Resolving? || phase.TempOpening?
    ensures PhaseSeen(s, events, r, phase)
  {
  }

  lemma {:induction false} RunSeen(s: State, events: seq<Event>)
    requires Initial(s)
    ensures AllSeen(s, events, Run(s, events))
  {
    hide Initial, Inv, Step, PhaseSeen;
    InitialIsOk(s);
    if events == [] {
      NoRequests(s);
    } else {
      var n := |events| - 1;
      RunSeen(s, events[..n]);
      RunKeeps(s, events[..n]);
      StepSeen(s, events[..n], events[n]);
      assert events[..n] + [events[n]] == events;
    }
  }

  lemma NoRequests(s: State)
    requires Initial(s)
    ensures s.requests == map[]
  {
    hide DiskOk, Distinct;
  }

  /** A create that gave up for want of a name. */
  predicate GaveUp(s: State, r: nat) {
    r in s.requests && s.requests[r].Done? && s.requests[r].outcome.Failed? && s.requests[r].outcome.error.NamesTaken?
  }

  /**
   * A create gives up only after it has looked at each of the 100 pairwise distinct candidate names of the stem it
   * was asked for, at some moment of the run, and found an entry under it every time.
   */
  lemma GivesUpAfterAll(s: State, events: seq<Event>, r: nat)
    requires Initial(s) && GaveUp(Run(s, events), r)
    ensures var stem := Run(s, events).requests[r].outcome.error.stem;
      && (exists create :: ArriveCreate(r, create) in events && create.stem == stem)
      && (forall n: nat :: 1 <= n <= 100 ==> FoundTaken(s, events, r, stem, n))
      && (forall i: nat, j: nat :: 1 <= i < j <= 100 ==> NoteFileName(stem, i) != NoteFileName(stem, j))
  {
    hide Initial, Run, LooksTaken, NoteFileName, AskedRecord;
    var stem := Run(s, events).requests[r].outcome.error.stem;
    DoneAsAsked(s, events);
    RunSeen(s, events);
    forall i: nat, j: nat | 1 <= i < j <= 100
      ensures NoteFileName(stem, i) != NoteFileName(stem, j)
    {
      NamesDiffer(stem, i, j);
    }
  }

  // ----- Successful creates -----

  /** Without the host, entries keep their visible names. */
  lemma AdvanceKeepsNames(s: State, r: nat, token: string, amount: nat)
    requires Inv(s) && r in s.requests
    ensures forall n :: n in s.disk.dir && !Hidden(n) ==> n in Advance(s, r, token, amount).disk.dir
  {
    hide Inv, Hidden, AppendBytes, WorkData, WorkMode, SameIdentity, NoteFileName, TempName;
    HoldsOnDisk(s, r);
  }

  lemma StepKeepsNames(s: State, e: Event)
    requires Inv(s) && !IsHostEvent(e)
    ensures forall n :: n in s.disk.dir && !Hidden(n) ==> n in Step(s, e).disk.dir
  {
    hide Inv, Advance, Fail, Hidden, IsStem;
    if e.Proceed? && e.request in s.requests {
      AdvanceKeepsNames(s, e.request, e.token, e.amount);
    }
  }

  ghost predicate AllVisible(names: seq<string>) {
    forall name :: name in names ==> !Hidden(name)
  }

  /**
   * Without the host, successful creates get pairwise distinct names, and none of them was the name of any entry,
   * note or symlink, at the start.
   */
  lemma {:induction false} CreatesGetFreeNames(s: State, events: seq<Event>)
    requires Initial(s) && forall e :: e in events ==> !IsHostEvent(e)
    ensures NoRepeats(BornNames(Run(s, events).history)) && AllVisible(BornNames(Run(s, events).history))
    ensures forall name :: name in BornNames(Run(s, events).history) ==> name !in s.disk.dir && name in Run(s, events).disk.dir
    ensures forall name :: name in s.disk.dir && !Hidden(name) ==> name in Run(s, events).disk.dir
  {
    hide Initial, Inv, Step, Notes, Apply, LawfulRecord, Hidden;
    InitialIsOk(s);
    if events == [] {
      InitiallyBlank(s);
    } else {
      var n := |events| - 1;
      var earlier, later := Run(s, events[..n]), Run(s, events);
      CreatesGetFreeNames(s, events[..n]);
      RunKeeps(s, events[..n]);
      StepExplained(earlier, events[n]);
      StepKeepsNames(earlier, events[n]);
      if later.history != earlier.history {
        var record :| Adds(earlier, later, record);
        BornSnoc(earlier.history, record);
      }
    }
  }

  lemma BornSnoc(history: seq<Record>, record: Record)
    ensures BornNames(history + [record]) == if record.Born? then BornNames(history) + [record.name] else BornNames(history)
    ensures record.Born? && NoRepeats(BornNames(history)) && record.name !in BornNames(history) ==> NoRepeats(BornNames(history + [record]))
  {
    assert (history + [record])[..|history|] == history;
    if record.Born? {
      assert (BornNames(history) + [record.name])[..|BornNames(history)|] == BornNames(history);
    }
  }
}

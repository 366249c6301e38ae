/** What a request's outcome says about the notes: exactly once on success, not at all on failure. */
module InboxOutcomes {
  import opened Names
  import opened Text
  import opened FileNames
  import opened InboxModel
  import opened InboxInvariant
  import opened InboxSteps
  import opened InboxHistory

  // ----- Exactly once -----

  /** The records of one request. */
  function Of(history: seq<Record>, r: nat): seq<Record> {
    if history == [] then []
    else
      var last := history[|history| - 1];
      Of(history[..|history| - 1], r)
      + (if (last.Born? || last.Landed?) && last.request == r then [last] else [])
  }

  lemma OfSnoc(history: seq<Record>, record: Record, r: nat)
    ensures Of(history + [record], r)
         == if (record.Born? || record.Landed?) && record.request == r then Of(history, r) + [record] else Of(history, r)
  {
    assert (history + [record])[..|history + [record]| - 1] == history;
  }

  predicate OutcomeMatches(records: seq<Record>, r: nat, outcome: Outcome) {
    match outcome
    case Appended(job) => records == [Landed(r, job)]
    case Created(create, name) => records == [Born(r, name, create)]
    case Failed(error) => if error.Unconfirmed? then |records| == 1 else records == []
  }

  /** What a request has done to the notes so far. */
  predicate Matches(records: seq<Record>, r: nat, phase: Phase) {
    match phase
    case AppendSyncing(job) => records == [Landed(r, job)]
    case LinkSyncing(create, _, _, name) => records == [Born(r, name, create)]
    case Cleaning(_, _, _, outcome) => OutcomeMatches(records, r, outcome)
    case Unlocking(outcome) => OutcomeMatches(records, r, outcome)
    case Reporting(job) => records == [Landed(r, job)]
    case Done(outcome) => OutcomeMatches(records, r, outcome)
    case _ => records == []
  }

  predicate AccountedFor(s: State, r: nat) {
    if r in s.requests then Matches(Of(s.history, r), r, s.requests[r]) else Of(s.history, r) == []
  }

  ghost predicate Accounted(s: State) {
    forall r :: AccountedFor(s, r)
  }

  /** The only request a step moves, and what it adds to the history. */
  ghost predicate MovesOne(s: State, s': State, r: nat) {
    && r in s'.requests && s'.requests == s.requests[r := s'.requests[r]]
    && (s'.history == s.history
        || exists record :: s'.history == s.history + [record] && (record.Born? || record.Landed?) && record.request == r)
  }

  lemma AccountedAfter(s: State, s': State, r: nat)
    requires Accounted(s) && MovesOne(s, s', r)
    requires Matches(Of(s'.history, r), r, s'.requests[r])
    ensures Accounted(s')
  {
    hide Matches, Of;
    forall q
      ensures AccountedFor(s', q)
    {
      assert AccountedFor(s, q);
      if q != r && s'.history != s.history {
        var record :| s'.history == s.history + [record] && (record.Born? || record.Landed?) && record.request == r;
        OfSnoc(s.history, record, q);
      }
    }
  }

  lemma AdvanceAccounted(s: State, r: nat, token: string, amount: nat)
    requires r in s.requests && Accounted(s)
    ensures Accounted(Advance(s, r, token, amount))
  {
    hide Accounted, Of, Matches, Advance;
    MatchesNow(s, r);
    AdvanceMatches(s, r, token, amount);
    MovesOneAdvance(s, r, token, amount);
    AccountedAfter(s, Advance(s, r, token, amount), r);
  }

  lemma MatchesNow(s: State, r: nat)
    requires Accounted(s) && r in s.requests
    ensures Matches(Of(s.history, r), r, s.requests[r])
  {
    hide Matches, Of;
    assert AccountedFor(s, r);
  }

  lemma MovesOneAdvance(s: State, r: nat, token: string, amount: nat)
    requires r in s.requests
    ensures MovesOne(s, Advance(s, r, token, amount), r)
  {
    hide MovesOne, Advance;
    if s.requests[r].Replacing? || s.requests[r].Linking? {
      ChangeMovesOne(s, r, token, amount);
    } else {
      OtherMovesOne(s, r, token, amount);
    }
  }

  lemma ChangeMovesOne(s: State, r: nat, token: string, amount: nat)
    requires r in s.requests && (s.requests[r].Replacing? || s.requests[r].Linking?)
    ensures MovesOne(s, Advance(s, r, token, amount), r)
  {
    hide NoteFileName, WithName, Renamed;
    var s' := Advance(s, r, token, amount);
    if s'.history != s.history {
      assert s'.history == s.history + [s'.history[|s'.history| - 1]];
    }
  }

  /** Every other step leaves the history alone. */
  lemma OtherMovesOne(s: State, r: nat, token: string, amount: nat)
    requires r in s.requests && !s.requests[r].Replacing? && !s.requests[r].Linking?
    ensures MovesOne(s, Advance(s, r, token, amount), r)
  {
    hide Hidden, AppendBytes, SameIdentity, TempName, WorkData, WorkMode, WithContent, WithFile, WithoutName, TryLink, ReplaceTarget;
  }

  ghost predicate MatchedAt(s: State, r: nat) {
    r in s.requests && Matches(Of(s.history, r), r, s.requests[r])
  }

  /** The two steps that change a note. */
  lemma ChangeMatches(s: State, r: nat, token: string, amount: nat)
    requires MatchedAt(s, r) && (s.requests[r].Replacing? || s.requests[r].Linking?)
    ensures MatchedAt(Advance(s, r, token, amount), r)
  {
    hide Of, NoteFileName, WithName, Renamed;
    var s' := Advance(s, r, token, amount);
    if s'.history != s.history {
      OfSnoc(s.history, s'.history[|s'.history| - 1], r);
    }
  }

  lemma AdvanceMatches(s: State, r: nat, token: string, amount: nat)
    requires MatchedAt(s, r)
    ensures MatchedAt(Advance(s, r, token, amount), r)
  {
    hide Of, Hidden, AppendBytes, SameIdentity, TempName, WorkData, WorkMode, WithContent, WithFile, WithoutName, TryLink, ReplaceTarget;
    if s.requests[r].Replacing? || s.requests[r].Linking? {
      ChangeMatches(s, r, token, amount);
    }
  }

  lemma FailAccounted(s: State, r: nat)
    requires r in s.requests && Accounted(s)
    ensures Accounted(Goto(s, r, Fail(s.requests[r])))
  {
    hide Accounted, Of;
    MatchesNow(s, r);
    AccountedAfter(s, Goto(s, r, Fail(s.requests[r])), r);
  }

  lemma HostAccounted(s: State, e: Event)
    requires Accounted(s) && IsHostEvent(e)
    ensures Accounted(HostStep(s, e))
  {
    hide Matches, Of, HostMay;
    var s' := HostStep(s, e);
    if s'.history != s.history {
      forall q
        ensures AccountedFor(s', q)
      {
        assert AccountedFor(s, q);
        OfSnoc(s.history, s'.history[|s'.history| - 1], q);
      }
    }
  }

  lemma StepAccounted(s: State, e: Event)
    requires Inv(s) && Accounted(s)
    ensures Accounted(Step(s, e))
  {
    hide Inv, Accounted, Of, Advance, Fail, HostStep, IsStem;
    if e.Proceed? && e.request in s.requests {
      AdvanceAccounted(s, e.request, e.token, e.amount);
    } else if e.Stumble? && e.request in s.requests {
      FailAccounted(s, e.request);
    } else if IsHostEvent(e) {
      HostAccounted(s, e);
    } else if e.ArriveAppend? || e.ArriveCreate? {
      if e.request !in s.requests && Step(s, e) != s {
        NothingYet(s, e.request);
        AccountedAfter(s, Step(s, e), e.request);
      }
    }
  }

  lemma NothingYet(s: State, r: nat)
    requires Accounted(s) && r !in s.requests
    ensures Of(s.history, r) == []
  {
    hide Of, Matches;
    assert AccountedFor(s, r);
  }

  lemma {:induction false} RunAccounted(s: State, events: seq<Event>)
    requires Initial(s)
    ensures Accounted(Run(s, events))
  {
    hide Initial, Inv, Step, Accounted;
    InitialIsOk(s);
    if events == [] {
      InitiallyAccounted(s);
    } else {
      RunAccounted(s, events[..|events| - 1]);
      RunKeeps(s, events[..|events| - 1]);
      StepAccounted(Run(s, events[..|events| - 1]), events[|events| - 1]);
    }
  }

  lemma InitiallyAccounted(s: State)
    requires Initial(s)
    ensures Accounted(s)
  {
    hide DiskOk, Distinct, Hidden;
  }

  /**
   * A finished request has changed the notes exactly once if it succeeded, and not at all if it failed,
   * except when only a call after the change failed.
   */
  lemma OutcomesAreTrue(s: State, events: seq<Event>, r: nat)
    requires Initial(s) && r in Run(s, events).requests && Run(s, events).requests[r].Done?
    ensures var later := Run(s, events);
      OutcomeMatches(Of(later.history, r), r, later.requests[r].outcome)
  {
    hide Initial, Run, Of;
    RunAccounted(s, events);
    MatchesNow(Run(s, events), r);
  }

  // ----- What was done is what was asked for -----

  ghost predicate AskedWork(events: seq<Event>, r: nat, work: Work) {
    match work
    case AppendWork(job, _, _) => ArriveAppend(r, job) in events
    case CreateWork(create) => ArriveCreate(r, create) in events
  }

  ghost predicate AskedOutcome(events: seq<Event>, r: nat, outcome: Outcome) {
    match outcome
    case Appended(job) => ArriveAppend(r, job) in events
    case Created(create, _) => ArriveCreate(r, create) in events
    case Failed(error) => error.NamesTaken? ==> exists create :: ArriveCreate(r, create) in events && create.stem == error.stem
  }

  ghost predicate AskedPhase(events: seq<Event>, r: nat, phase: Phase) {
    match phase
    case Resolving(job) => ArriveAppend(r, job) in events
    case Locking(job) => ArriveAppend(r, job) in events
    case Opening(job) => ArriveAppend(r, job) in events
    case Stating(job, _) => ArriveAppend(r, job) in events
    case Reading(job, _, _) => ArriveAppend(r, job) in events
    case TempOpening(work) => AskedWork(events, r, work)
    case TempChmod(work, _, _) => AskedWork(events, r, work)
    case TempWriting(work, _, _) => AskedWork(events, r, work)
    case Checking(work, _, _) => AskedWork(events, r, work)
    case Replacing(work, _, _) => AskedWork(events, r, work)
    case AppendSyncing(job) => ArriveAppend(r, job) in events
    case Linking(create, _, _, _, _) => ArriveCreate(r, create) in events
    case LinkSyncing(create, _, _, _) => ArriveCreate(r, create) in events
    case Cleaning(_, _, _, outcome) => AskedOutcome(events, r, outcome)
    case Unlocking(outcome) => AskedOutcome(events, r, outcome)
    case Reporting(job) => ArriveAppend(r, job) in events
    case Done(outcome) => AskedOutcome(events, r, outcome)
  }

  ghost predicate AskedRecord(events: seq<Event>, record: Record) {
    match record
    case Born(r, _, create) => ArriveCreate(r, create) in events
    case Landed(r, job) => ArriveAppend(r, job) in events
    case _ => true
  }

  ghost predicate AllAsked(events: seq<Event>, s: State) {
    && (forall r :: r in s.requests ==> AskedPhase(events, r, s.requests[r]))
    && (forall i :: 0 <= i < |s.history| ==> AskedRecord(events, s.history[i]))
  }

  lemma AskedEarlier(events: seq<Event>, e: Event, s: State)
    requires AllAsked(events, s)
    ensures AllAsked(events + [e], s)
  {
    assert forall x :: x in events ==> x in events + [e];
  }

  ghost predicate AskedAt(events: seq<Event>, s: State, r: nat) {
    r in s.requests && AskedPhase(events, r, s.requests[r])
  }

  /** A step keeps the history, or adds one record that was asked for. */
  ghost predicate AsksHistory(events: seq<Event>, s: State, s': State) {
    s'.history == s.history || (exists record :: s'.history == s.history + [record] && AskedRecord(events, record))
  }

  lemma ChangeAsked(events: seq<Event>, s: State, r: nat, token: string, amount: nat)
    requires AskedAt(events, s, r) && (s.requests[r].Replacing? || s.requests[r].Linking?)
    ensures AskedAt(events, Advance(s, r, token, amount), r)
    ensures AsksHistory(events, s, Advance(s, r, token, amount))
  {
    hide NoteFileName, WithName, Renamed;
    var phase := s.requests[r];
    if phase.Replacing? && phase.work.AppendWork? {
      assert AskedRecord(events, Landed(r, phase.work.job));
    } else if phase.Linking? {
      assert AskedRecord(events, Born(r, NoteFileName(phase.create.stem, phase.sequence), phase.create));
    }
  }

  lemma AdvanceAsked(events: seq<Event>, s: State, r: nat, token: string, amount: nat)
    requires AskedAt(events, s, r)
    ensures AskedAt(events, Advance(s, r, token, amount), r)
    ensures AsksHistory(events, s, Advance(s, r, token, amount))
  {
    hide AppendBytes, SameIdentity, TempName, WorkData, WorkMode, WithContent, WithFile, WithoutName, ReplaceTarget, TryLink;
    if s.requests[r].Replacing? || s.requests[r].Linking? {
      ChangeAsked(events, s, r, token, amount);
    }
  }

  lemma StepAsked(events: seq<Event>, s: State, e: Event)
    requires AllAsked(events, s)
    ensures AllAsked(events + [e], Step(s, e))
  {
    hide Advance, HostMay, IsStem;
    AskedEarlier(events, e, s);
    var events' := events + [e];
    assert e in events';
    var s' := Step(s, e);
    if e.Proceed? && e.request in s.requests {
      hide AskedPhase, AskedRecord;
      AdvanceAsked(events', s, e.request, e.token, e.amount);
      MovesOneAdvance(s, e.request, e.token, e.amount);
      forall i | 0 <= i < |s'.history|
        ensures AskedRecord(events', s'.history[i])
      {
        if s'.history != s.history {
          var record :| s'.history == s.history + [record] && AskedRecord(events', record);
        }
      }
    }
  }

  /** No run does anything to a note that its request did not ask for. */
  lemma {:induction false} DoneAsAsked(s: State, events: seq<Event>)
    requires Initial(s)
    ensures AllAsked(events, Run(s, events))
  {
    hide Initial, Step, AllAsked;
    if events == [] {
      NothingAsked(s);
    } else {
      var n := |events| - 1;
      DoneAsAsked(s, events[..n]);
      StepAsked(events[..n], Run(s, events[..n]), events[n]);
      assert events[..n] + [events[n]] == events;
    }
  }

  lemma NothingAsked(s: State)
    requires Initial(s)
    ensures AllAsked([], s)
  {
    hide DiskOk, Distinct, Hidden;
  }

  /** Appends land while their request holds the lock, so the order of the history is the lock's order. */
  lemma LandsUnderLock(s: State, e: Event, r: nat, job: AppendJob)
    requires Inv(s) && Step(s, e).history == s.history + [Landed(r, job)]
    ensures s.lock == Some(r) && Step(s, e).lock == Some(r)
  {
    hide Inv, Hidden, NoteFileName, AppendBytes, SameIdentity, TempName, WorkData, WorkMode, WithContent, WithFile, WithName, WithoutName,
      Renamed, HostMay, IsStem;
    var last := Step(s, e).history[|s.history|];
    assert last == Landed(r, job);
    assert e.Proceed? && e.request == r && s.requests[r].Replacing?;
    LockHeld(s, r);
  }
}

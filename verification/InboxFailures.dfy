/** When a request that reports failure has changed a note after all. */
module InboxFailures {
  import opened Text
  import opened FileNames
  import opened InboxModel
  import opened InboxInvariant
  import opened InboxHistory
  import opened InboxOutcomes

  // ----- By outcome, phase and event -----

  predicate IsUnconfirmed(outcome: Outcome) {
    outcome == Failed(Unconfirmed)
  }

  predicate EndsUnconfirmed(phase: Phase) {
    match phase
    case Cleaning(_, _, _, outcome) => IsUnconfirmed(outcome)
    case Unlocking(outcome) => IsUnconfirmed(outcome)
    case Done(outcome) => IsUnconfirmed(outcome)
    case _ => false
  }

  /** The note is changed; the directory `fsync`, or the `stat` for the answer, comes next. */
  predicate IsLate(s: State, r: nat) {
    r in s.requests && (s.requests[r].AppendSyncing? || s.requests[r].LinkSyncing? || s.requests[r].Reporting?)
  }

  /** At some moment of the run the next call of `r` raised, and it was such a call. */
  ghost predicate RaisedLate(s: State, events: seq<Event>, r: nat) {
    exists k: nat :: k < |events| && events[k] == Stumble(r) && IsLate(Run(s, events[..k]), r)
  }

  lemma RaisedLateNext(s: State, events: seq<Event>, e: Event, r: nat)
    ensures RaisedLate(s, events + [e], r) <==> RaisedLate(s, events, r) || (e == Stumble(r) && IsLate(Run(s, events), r))
  {
    hide IsLate, Run;
    var longer := events + [e];
    assert longer[..|events|] == events && longer[|events|] == e;
    assert forall k: nat {:trigger longer[k]} :: k < |events| ==> longer[k] == events[k] && longer[..k] == events[..k];
    if RaisedLate(s, events, r) {
      var k: nat :| k < |events| && events[k] == Stumble(r) && IsLate(Run(s, events[..k]), r);
      assert longer[k] == Stumble(r) && longer[..k] == events[..k];
    }
  }

  ghost predicate UnconfirmedAt(s: State, r: nat) {
    r in s.requests && EndsUnconfirmed(s.requests[r])
  }

  lemma AdvanceUnconfirmed(s: State, r: nat, token: string, amount: nat)
    requires r in s.requests
    ensures UnconfirmedAt(Advance(s, r, token, amount), r) <==> UnconfirmedAt(s, r)
  {
    hide AppendBytes, SameIdentity, TempName, NoteFileName, WorkData, WorkMode, WithContent, WithFile, WithName, WithoutName, Renamed;
  }

  lemma StepUnconfirmed(s: State, e: Event, r: nat)
    ensures UnconfirmedAt(Step(s, e), r) <==> UnconfirmedAt(s, r) || (e == Stumble(r) && IsLate(s, r))
  {
    hide Advance, IsStem, HostMay;
    if e.Proceed? && e.request in s.requests {
      hide EndsUnconfirmed;
      MovesOneAdvance(s, e.request, e.token, e.amount);
      AdvanceUnconfirmed(s, e.request, e.token, e.amount);
    }
  }

  lemma {:induction false} UnconfirmedIsLate(s: State, events: seq<Event>, r: nat)
    requires Initial(s)
    ensures UnconfirmedAt(Run(s, events), r) <==> RaisedLate(s, events, r)
  {
    hide Initial, Step, UnconfirmedAt, IsLate, RaisedLate;
    if events == [] {
      NothingRaised(s, r);
    } else {
      var n := |events| - 1;
      UnconfirmedIsLate(s, events[..n], r);
      StepUnconfirmed(Run(s, events[..n]), events[n], r);
      RaisedLateNext(s, events[..n], events[n], r);
      assert events[..n] + [events[n]] == events;
    }
  }

  lemma NothingRaised(s: State, r: nat)
    requires Initial(s)
    ensures !UnconfirmedAt(s, r) && !RaisedLate(s, [], r)
  {
    hide DiskOk, Distinct;
  }

  /**
   * A request that reports failure has changed a note if and only if the call that raised was one of the two after
   * the change: the directory `fsync`, or the `stat` for the answer.
   */
  lemma FailedButChanged(s: State, events: seq<Event>, r: nat)
    requires Initial(s) && r in Run(s, events).requests
    requires Run(s, events).requests[r].Done? && Run(s, events).requests[r].outcome.Failed?
    ensures Of(Run(s, events).history, r) != [] <==> RaisedLate(s, events, r)
  {
    hide Initial, Run, Of, RaisedLate;
    OutcomesAreTrue(s, events, r);
    UnconfirmedIsLate(s, events, r);
  }

  // ----- One such run -----

  const NOTE := "a.md"
  const JOB := AppendJob(NOTE, [97], 10)
  const BEFORE := Before(0, 0, 0, CREATED_MODE)
  const WORK := AppendWork(JOB, BEFORE, [])
  const TEMP := ".tmp-x"
  const OLD_NODE := Inode([], CREATED_MODE, 0)
  const NEXT := Proceed(0, "x", 2)

  /** An empty note, and nobody at work. */
  const IDLE := State(Disk(map[NOTE := Link(0)], map[0 := OLD_NODE], 1, 1), map[], None, map[], [])

  /** The append goes through to its replace, the directory `fsync` raises, and the request finishes. */
  const FAILING_RUN: seq<Event> :=
    [ArriveAppend(0, JOB), NEXT, NEXT, NEXT, NEXT, NEXT, NEXT, NEXT, NEXT, NEXT, NEXT, Stumble(0), NEXT]

  lemma RunPrefix(s: State, events: seq<Event>, k: nat)
    requires k < |events|
    ensures Run(s, events[..k + 1]) == Step(Run(s, events[..k]), events[k])
  {
    assert events[..k + 1][..k] == events[..k];
  }

  function At(phase: Phase): State {
    IDLE.(requests := map[0 := phase], lock := Some(0))
  }

  function WithTemp(phase: Phase, node: Inode, clock: nat): State {
    State(Disk(map[NOTE := Link(0), TEMP := Link(1)], map[0 := OLD_NODE, 1 := node], 2, clock),
          map[TEMP := 0], Some(0), map[0 := phase], [])
  }

  function Replaced(phase: Phase, lock: Option<nat>): State {
    State(Disk(map[NOTE := Link(1)], map[0 := OLD_NODE, 1 := Inode([97, 10], CREATED_MODE, 3)], 2, 4),
          map[], lock, map[0 := phase], [Landed(0, JOB)])
  }

  lemma ExampleText()
    ensures WorkData(WORK) == [97, 10]
  {
    assert UnifyLineEndings([97]) == [97] + UnifyLineEndings([]);
  }

  /** Up to the temp file. */
  lemma ExampleReads()
    ensures Step(IDLE, ArriveAppend(0, JOB)) == At(Resolving(JOB)).(lock := None)
    ensures Step(At(Resolving(JOB)).(lock := None), NEXT) == At(Locking(JOB)).(lock := None)
    ensures Step(At(Locking(JOB)).(lock := None), NEXT) == At(Opening(JOB))
    ensures Step(At(Opening(JOB)), NEXT) == At(Stating(JOB, 0))
    ensures Step(At(Stating(JOB, 0)), NEXT) == At(Reading(JOB, BEFORE, []))
    ensures Step(At(Reading(JOB, BEFORE, [])), NEXT) == At(TempOpening(WORK))
  {
    ExampleText();
    hide AppendBytes;
    assert JOB.target[1..] == ".md";
    assert Extended([], JOB.content) == AppendBytes(JOB.content, []);
  }

  lemma ExampleOpensTemp()
    ensures Step(At(TempOpening(WORK)), NEXT) == WithTemp(TempChmod(WORK, TEMP, 1), Inode([], TEMP_MODE, 1), 2)
  {
    assert TempName("x") == TEMP;
  }

  lemma ExampleWrites()
    ensures Step(WithTemp(TempChmod(WORK, TEMP, 1), Inode([], TEMP_MODE, 1), 2), NEXT)
         == WithTemp(TempWriting(WORK, TEMP, 1), Inode([], CREATED_MODE, 2), 3)
    ensures Step(WithTemp(TempWriting(WORK, TEMP, 1), Inode([], CREATED_MODE, 2), 3), NEXT)
         == WithTemp(Checking(WORK, TEMP, 1), Inode([97, 10], CREATED_MODE, 3), 4)
  {
    ExampleText();
    hide WorkData;
  }

  lemma ExampleReplaces()
    ensures Step(WithTemp(Checking(WORK, TEMP, 1), Inode([97, 10], CREATED_MODE, 3), 4), NEXT)
         == WithTemp(Replacing(WORK, TEMP, 1), Inode([97, 10], CREATED_MODE, 3), 4)
    ensures Step(WithTemp(Replacing(WORK, TEMP, 1), Inode([97, 10], CREATED_MODE, 3), 4), NEXT) == Replaced(AppendSyncing(JOB), Some(0))
    ensures Step(Replaced(AppendSyncing(JOB), Some(0)), Stumble(0)) == Replaced(Unlocking(Failed(Unconfirmed)), Some(0))
    ensures Step(Replaced(Unlocking(Failed(Unconfirmed)), Some(0)), NEXT) == Replaced(Done(Failed(Unconfirmed)), None)
  {
    assert map[NOTE := Link(0), TEMP := Link(1)][NOTE := Link(1)] - {TEMP} == map[NOTE := Link(1)];
    assert map[TEMP := 0] - {TEMP} == map[];
  }

  /** The states the run passes through. */
  function Stage(k: nat): State
    requires k <= 13
  {
    if k == 0 then IDLE
    else if k == 1 then At(Resolving(JOB)).(lock := None)
    else if k == 2 then At(Locking(JOB)).(lock := None)
    else if k == 3 then At(Opening(JOB))
    else if k == 4 then At(Stating(JOB, 0))
    else if k == 5 then At(Reading(JOB, BEFORE, []))
    else if k == 6 then At(TempOpening(WORK))
    else if k == 7 then WithTemp(TempChmod(WORK, TEMP, 1), Inode([], TEMP_MODE, 1), 2)
    else if k == 8 then WithTemp(TempWriting(WORK, TEMP, 1), Inode([], CREATED_MODE, 2), 3)
    else if k == 9 then WithTemp(Checking(WORK, TEMP, 1), Inode([97, 10], CREATED_MODE, 3), 4)
    else if k == 10 then WithTemp(Replacing(WORK, TEMP, 1), Inode([97, 10], CREATED_MODE, 3), 4)
    else if k == 11 then Replaced(AppendSyncing(JOB), Some(0))
    else if k == 12 then Replaced(Unlocking(Failed(Unconfirmed)), Some(0))
    else Replaced(Done(Failed(Unconfirmed)), None)
  }

  lemma StageStep(k: nat)
    requires k < 13
    ensures Step(Stage(k), FAILING_RUN[k]) == Stage(k + 1)
  {
    hide Step;
    ExampleReads();
    ExampleOpensTemp();
    ExampleWrites();
    ExampleReplaces();
  }

  lemma ExampleRun()
    ensures Run(IDLE, FAILING_RUN) == Replaced(Done(Failed(Unconfirmed)), None)
  {
    hide Step;
    assert FAILING_RUN[..0] == [] && Stage(0) == IDLE;
    for k := 0 to 13
      invariant Run(IDLE, FAILING_RUN[..k]) == Stage(k)
    {
      RunPrefix(IDLE, FAILING_RUN, k);
      StageStep(k);
    }
    assert FAILING_RUN[..13] == FAILING_RUN;
  }

  /** The run: the request reports failure, and the note has grown. */
  lemma FailureMayHideSuccess()
    ensures Initial(IDLE)
    ensures var later := Run(IDLE, FAILING_RUN);
      && later.requests == map[0 := Done(Failed(Unconfirmed))]
      && Notes(IDLE.disk) == map[NOTE := Note([], CREATED_MODE)]
      && Notes(later.disk) == map[NOTE := Note([97, 10], CREATED_MODE)]
  {
    hide Run;
    ExampleRun();
  }
}

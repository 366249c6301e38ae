/** Nothing keeps an inbox request from its end but another one that holds the lock, and that one can give it back. */
module InboxProgress {
  import opened Names
  import opened Text
  import opened FileNames
  import opened InboxModel
  import opened InboxInvariant
  import opened InboxSteps
  import opened InboxHistory
  import opened InboxNames

  // ----- How many calls are left -----

  /** The reads it takes for that many bytes. */
  function Chunks(bytes: nat): nat {
    (bytes + READ_CHUNK - 1) / READ_CHUNK
  }

  function FileLength(d: Disk, ino: nat): nat {
    if ino in d.inodes then |d.inodes[ino].content| else 0
  }

  function NoteLength(d: Disk, name: string): nat {
    if name in d.dir && d.dir[name].Link? then FileLength(d, d.dir[name].ino) else 0
  }

  /** At most so many calls does a request still make if no one else moves. */
  function CallsLeft(d: Disk, phase: Phase): nat {
    match phase
    case Resolving(job) => 112 + Chunks(NoteLength(d, job.target))
    case Locking(job) => 111 + Chunks(NoteLength(d, job.target))
    case Opening(job) => 110 + Chunks(NoteLength(d, job.target))
    case Stating(_, ino) => 109 + Chunks(FileLength(d, ino))
    case Reading(_, before, got) =>
      108 + (if |got| < FileLength(d, before.ino) then Chunks(FileLength(d, before.ino) - |got|) else 0)
    case TempOpening(_) => 107
    case TempChmod(_, _, _) => 106
    case TempWriting(_, _, _) => 105
    case Checking(_, _, _) => 5
    case Replacing(_, _, _) => 4
    case AppendSyncing(_) => 3
    case Linking(_, _, _, sequence, _) => 5 + (if sequence < MAX_SEQUENCE then MAX_SEQUENCE - sequence else 0)
    case LinkSyncing(_, _, _, _) => 4
    case Cleaning(_, _, _, _) => 3
    case Unlocking(_) => 2
    case Reporting(_) => 1
    case Done(_) => 0
  }

  /** Still in front of the lock. */
  predicate NeedsLock(phase: Phase) {
    phase.Resolving? || phase.Locking?
  }

  /** No other request stands in the way. */
  predicate MayGo(s: State, r: nat) {
    r in s.requests && (NeedsLock(s.requests[r]) ==> s.lock.None?)
  }

  /**
   * The next call of `r` returns, and then a write has written all; or it raises, which the removal of the temp file
   * and the closing of the lock file are taken not to do.
   */
  predicate IsCall(phase: Phase, r: nat, e: Event) {
    || (e.Proceed? && e.request == r && (phase.TempWriting? ==> e.amount >= |WorkData(phase.work)|))
    || (e == Stumble(r) && !phase.Cleaning? && !phase.Unlocking?)
  }

  /** Nothing happens but calls of `r`. */
  ghost predicate Alone(s: State, r: nat, events: seq<Event>) {
    events == [] || (
      var n := |events| - 1;
      Alone(s, r, events[..n]) && r in Run(s, events[..n]).requests && IsCall(Run(s, events[..n]).requests[r], r, events[n]))
  }

  // ----- One call -----

  /** What a call of `r` may do to the requests and the lock. */
  ghost predicate MovesOn(s: State, s': State, r: nat) {
    && MayGo(s, r) && MayGo(s', r)
    && s'.requests == s.requests[r := s'.requests[r]]
    && (s'.lock == s.lock || s'.lock == Some(r) || s'.lock.None?)
    && (s.requests[r].Done? ==> s' == s)
    && (!s.requests[r].Done? ==> CallsLeft(s'.disk, s'.requests[r]) < CallsLeft(s.disk, s.requests[r]))
  }

  predicate IsEarly(phase: Phase) {
    phase.Resolving? || phase.Locking? || phase.Opening? || phase.Stating?
  }

  lemma EarlyCall(s: State, r: nat, token: string, amount: nat)
    requires MayGo(s, r) && IsEarly(s.requests[r])
    ensures MovesOn(s, Advance(s, r, token, amount), r)
  {
    hide Hidden, Chunks, EndsInMd;
    var s' := Advance(s, r, token, amount);
    assert s'.disk == s.disk;
  }

  lemma ChunkLess(bytes: nat)
    requires bytes > 0
    ensures Chunks(if bytes > READ_CHUNK then bytes - READ_CHUNK else 0) + 1 == Chunks(bytes)
  {
  }

  lemma ReadingCall(s: State, r: nat, token: string, amount: nat)
    requires MayGo(s, r) && s.requests[r].Reading?
    ensures MovesOn(s, Advance(s, r, token, amount), r)
  {
    hide Chunks, AppendBytes;
    var phase := s.requests[r];
    var length := FileLength(s.disk, phase.before.ino);
    if |phase.got| < length {
      ChunkLess(length - |phase.got|);
      NoBytes();
    }
  }

  lemma NoBytes()
    ensures Chunks(0) == 0
  {
  }

  predicate IsWriting(phase: Phase) {
    phase.TempOpening? || phase.TempChmod? || phase.TempWriting?
  }

  lemma WritingCall(s: State, r: nat, token: string, amount: nat)
    requires MayGo(s, r) && IsWriting(s.requests[r]) && IsCall(s.requests[r], r, Proceed(r, token, amount))
    ensures MovesOn(s, Advance(s, r, token, amount), r)
  {
    hide Chunks, WorkData, WorkMode, TempName, WithFile, WithContent;
  }

  predicate IsChanging(phase: Phase) {
    phase.Checking? || phase.Replacing? || phase.Linking?
  }

  lemma ChangingCall(s: State, r: nat, token: string, amount: nat)
    requires Inv(s) && MayGo(s, r) && IsChanging(s.requests[r])
    ensures MovesOn(s, Advance(s, r, token, amount), r)
  {
    hide Inv, Chunks, SameIdentity, NoteFileName, WithName, Renamed;
    ChangesAppend(s, r);
  }

  lemma ChangesAppend(s: State, r: nat)
    requires Inv(s) && r in s.requests
    ensures s.requests[r].Checking? || s.requests[r].Replacing? ==> s.requests[r].work.AppendWork?
  {
    hide DiskOk, Distinct, OwnersOk, LockOk, PhasesOk, WorkOk, TempOk, Private, Written, Bound;
    PhaseHolds(s, r);
  }

  lemma LeavingCall(s: State, r: nat, token: string, amount: nat)
    requires MayGo(s, r)
    requires !IsEarly(s.requests[r]) && !s.requests[r].Reading? && !IsWriting(s.requests[r]) && !IsChanging(s.requests[r])
    ensures MovesOn(s, Advance(s, r, token, amount), r)
  {
    hide Chunks, WithoutName;
  }

  lemma RaisingCall(s: State, r: nat)
    requires MayGo(s, r) && IsCall(s.requests[r], r, Stumble(r))
    ensures MovesOn(s, Step(s, Stumble(r)), r)
  {
    hide Chunks, NoteLength, FileLength;
  }

  /** Every call of a request, unless another one holds the lock it waits for, brings it nearer to its end. */
  lemma CallMovesOn(s: State, r: nat, e: Event)
    requires Inv(s) && MayGo(s, r) && IsCall(s.requests[r], r, e)
    ensures MovesOn(s, Step(s, e), r)
  {
    hide Inv, Advance, MovesOn, CallsLeft, MayGo, Fail;
    assert r in s.requests by { MayGoIsThere(s, r); }
    if e.Stumble? {
      RaisingCall(s, r);
    } else if IsEarly(s.requests[r]) {
      EarlyCall(s, r, e.token, e.amount);
    } else if s.requests[r].Reading? {
      ReadingCall(s, r, e.token, e.amount);
    } else if IsWriting(s.requests[r]) {
      WritingCall(s, r, e.token, e.amount);
    } else if IsChanging(s.requests[r]) {
      ChangingCall(s, r, e.token, e.amount);
    } else {
      LeavingCall(s, r, e.token, e.amount);
    }
  }

  lemma MayGoIsThere(s: State, r: nat)
    requires MayGo(s, r)
    ensures r in s.requests
  {
  }

  // ----- One request to its end -----

  /** What calls of `r` alone have done: nothing to other requests, nothing to another's lock, and their number has told. */
  ghost predicate WentOn(s: State, later: State, r: nat, calls: nat) {
    && MayGo(s, r) && MayGo(later, r)
    && later.requests == s.requests[r := later.requests[r]]
    && (later.lock == s.lock || later.lock == Some(r) || later.lock.None?)
    && (later.requests[r].Done? || CallsLeft(later.disk, later.requests[r]) + calls <= CallsLeft(s.disk, s.requests[r]))
  }

  lemma {:induction false} AloneGoesOn(s: State, r: nat, events: seq<Event>)
    requires Inv(s) && MayGo(s, r) && Alone(s, r, events)
    ensures WentOn(s, Run(s, events), r, |events|)
  {
    hide Inv, Step, IsCall, CallsLeft, MayGo;
    MayGoIsThere(s, r);
    if events != [] {
      var n := |events| - 1;
      var before := Run(s, events[..n]);
      AloneGoesOn(s, r, events[..n]);
      RunKeeps(s, events[..n]);
      CallMovesOn(before, r, events[n]);
    }
  }

  lemma DoneHoldsNoLock(s: State, r: nat)
    requires Inv(s) && r in s.requests && s.requests[r].Done?
    ensures s.lock != Some(r)
  {
    hide DiskOk, Distinct, OwnersOk, PhasesOk;
  }

  lemma NothingLeftIsDone(d: Disk, phase: Phase)
    ensures CallsLeft(d, phase) == 0 <==> phase.Done?
  {
    hide Chunks, NoteLength, FileLength;
  }

  /**
   * From every reachable state, a request that no other one keeps from the lock is done after that many calls of its
   * own, whichever of them raise. No other request has moved, and if it held the lock, or no one did, no one does.
   */
  lemma RunsToItsEnd(s: State, events: seq<Event>, r: nat, own: seq<Event>)
    requires Initial(s) && MayGo(Run(s, events), r) && Alone(Run(s, events), r, own)
    requires |own| >= CallsLeft(Run(s, events).disk, Run(s, events).requests[r])
    ensures var now, later := Run(s, events), Run(Run(s, events), own);
      && r in later.requests && later.requests[r].Done? && later.requests == now.requests[r := later.requests[r]]
      && (now.lock == Some(r) || now.lock.None? ==> later.lock.None?)
  {
    hide Initial, Inv, Step, CallsLeft, NeedsLock, Alone, IsCall, Run;
    InitialIsOk(s);
    RunKeeps(s, events);
    EndsAlone(Run(s, events), r, own);
  }

  lemma EndsAlone(s: State, r: nat, own: seq<Event>)
    requires Inv(s) && MayGo(s, r) && Alone(s, r, own) && |own| >= CallsLeft(s.disk, s.requests[r])
    ensures var later := Run(s, own);
      && Inv(later) && r in later.requests && later.requests[r].Done? && later.requests == s.requests[r := later.requests[r]]
      && (s.lock == Some(r) || s.lock.None? ==> later.lock.None?)
  {
    hide Inv, Step, CallsLeft, NeedsLock, Alone, Run;
    AloneGoesOn(s, r, own);
    RunKeeps(s, own);
    NothingLeftIsDone(Run(s, own).disk, Run(s, own).requests[r]);
    DoneHoldsNoLock(Run(s, own), r);
  }

  /** Whoever holds the lock is kept from nothing, so its own calls give it back. */
  lemma HolderMayGo(s: State)
    requires Inv(s) && s.lock.Some?
    ensures MayGo(s, s.lock.value) && !s.requests[s.lock.value].Done?
  {
    hide DiskOk, Distinct, OwnersOk, PhasesOk;
  }

  // ----- All requests to their end -----

  /** That many calls of one request, all of which return. */
  lemma {:induction false} SomeCalls(s: State, r: nat, n: nat) returns (own: seq<Event>)
    requires Inv(s) && MayGo(s, r)
    ensures |own| == n && Alone(s, r, own) && forall e :: e in own ==> e.Proceed?
  {
    hide Inv, Step, CallsLeft, NeedsLock, WorkData, Run;
    if n == 0 {
      own := [];
    } else {
      var before := SomeCalls(s, r, n - 1);
      AloneGoesOn(s, r, before);
      var phase := Run(s, before).requests[r];
      var call := Proceed(r, "", if phase.TempWriting? then |WorkData(phase.work)| else 0);
      own := before + [call];
      assert own[..n - 1] == before && own[n - 1] == call;
    }
  }

  lemma {:induction false} RunConcat(s: State, a: seq<Event>, b: seq<Event>)
    ensures Run(s, a + b) == Run(Run(s, a), b)
  {
    hide Step;
    if b == [] {
      assert a + b == a;
    } else {
      var n := |b| - 1;
      RunConcat(s, a, b[..n]);
      assert (a + b)[..|a + b| - 1] == a + b[..n] && (a + b)[|a + b| - 1] == b[n];
    }
  }

  ghost function Unfinished(s: State): set<nat> {
    set r | r in s.requests && !s.requests[r].Done?
  }

  /** The lock holder if there is one, or else any request that is not done. */
  lemma SomeoneMayGo(s: State) returns (r: nat)
    requires Inv(s) && Unfinished(s) != {}
    ensures r in Unfinished(s) && MayGo(s, r) && (s.lock == Some(r) || s.lock.None?)
  {
    hide Inv;
    if s.lock.Some? {
      HolderMayGo(s);
      r := s.lock.value;
    } else {
      r :| r in Unfinished(s);
    }
  }

  lemma OneLess(s: State, later: State, r: nat)
    requires r in Unfinished(s) && r in later.requests && later.requests[r].Done?
    requires later.requests == s.requests[r := later.requests[r]]
    ensures Unfinished(later) == Unfinished(s) - {r} && |Unfinished(later)| < |Unfinished(s)|
    ensures later.requests.Keys == s.requests.Keys
  {
  }

  lemma {:induction false} FinishAll(s: State) returns (more: seq<Event>)
    requires Inv(s)
    ensures (forall e :: e in more ==> e.Proceed?) && Unfinished(Run(s, more)) == {}
    ensures Run(s, more).requests.Keys == s.requests.Keys
    decreases |Unfinished(s)|
  {
    hide Inv, Step, CallsLeft, MayGo, Alone, Unfinished, Run;
    if Unfinished(s) == {} {
      more := [];
      NoEvents(s);
    } else {
      var r := SomeoneMayGo(s);
      MayGoIsThere(s, r);
      var own := SomeCalls(s, r, CallsLeft(s.disk, s.requests[r]));
      EndsAlone(s, r, own);
      OneLess(s, Run(s, own), r);
      var rest := FinishAll(Run(s, own));
      more := own + rest;
      RunConcat(s, own, rest);
    }
  }

  lemma NoEvents(s: State)
    ensures Run(s, []) == s
  {
  }

  /** The lock and every temp file belong to someone who is not done. */
  lemma HeldByUnfinished(s: State)
    requires Inv(s)
    ensures s.lock.Some? ==> s.lock.value in Unfinished(s)
    ensures forall n :: n in s.owners ==> s.owners[n] in Unfinished(s)
  {
    hide DiskOk, Distinct, PhasesOk, Hidden;
  }

  lemma AllDoneIsFree(s: State)
    requires Inv(s) && Unfinished(s) == {}
    ensures s.lock.None? && forall n :: n !in s.owners
  {
    hide Inv;
    HeldByUnfinished(s);
  }

  /**
   * No state is a dead end: from every reachable one, calls that return, one request after the other, bring all
   * requests to their end. Then the lock is free and no temp file is left: the hidden names are those of the start.
   */
  lemma EveryoneCanFinish(s: State, events: seq<Event>) returns (more: seq<Event>)
    requires Initial(s)
    ensures forall e :: e in more ==> e.Proceed?
    ensures var now, later := Run(s, events), Run(s, events + more);
      && later.requests.Keys == now.requests.Keys && (forall r :: r in later.requests ==> later.requests[r].Done?)
      && later.lock.None?
      && (forall name :: Hidden(name) ==> (name in later.disk.dir <==> name in s.disk.dir))
  {
    hide Initial, Inv, Run, Hidden, Step;
    InitialIsOk(s);
    RunKeeps(s, events);
    more := FinishAll(Run(s, events));
    RunConcat(s, events, more);
    RunKeeps(s, events + more);
    AllDoneIsFree(Run(s, events + more));
    RunHidden(s, events + more);
    forall r | r in Run(s, events + more).requests
      ensures Run(s, events + more).requests[r].Done?
    {
      assert r !in Unfinished(Run(s, events + more));
    }
  }
}

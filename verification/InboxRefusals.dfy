/** Why an append is refused: for every refusal, the moment of the run at which the request saw the ground for it. */
module InboxRefusals {
  import opened Names
  import opened Text
  import opened InboxModel
  import InboxOutcomes

  /** The refusals that say something about the target; the others report a call that raised, or a lack of names. */
  predicate IsRefusal(error: Error) {
    error.InvalidPath? || error.InvalidFileType? || error.NoteNotFound? || error.FileTooLarge? || error.NoteModified?
  }

  function OutcomeOf(phase: Phase): Option<Outcome> {
    match phase
    case Cleaning(_, _, _, outcome) => Some(outcome)
    case Unlocking(outcome) => Some(outcome)
    case Done(outcome) => Some(outcome)
    case _ => None
  }

  /** The request has its answer, and it is this refusal. */
  predicate Refused(s: State, r: nat, error: Error) {
    r in s.requests && OutcomeOf(s.requests[r]) == Some(Failed(error))
  }

  predicate IsSymlink(d: Disk, name: string) {
    name in d.dir && d.dir[name].Symlink?
  }

  /** What stands against a target before anything is opened; the first that holds is reported. */
  predicate TargetRefused(d: Disk, target: string, error: Error) {
    var unfit := target == "" || target[0] == '.';
    var other := |target| < 3 || target[|target| - 3..] != ".md";
    match error
    case InvalidPath => unfit || (!other && IsSymlink(d, target))
    case InvalidFileType => !unfit && other
    case NoteNotFound => !unfit && !other && target !in d.dir
    case _ => false
  }

  /** In this state the next call of request `r` sees this ground for a refusal. */
  predicate Sees(s: State, r: nat, error: Error) {
    r in s.requests &&
    match s.requests[r]
    case Resolving(job) => TargetRefused(s.disk, job.target, error)
    case Stating(job, ino) => error == FileTooLarge && ino in s.disk.inodes && |s.disk.inodes[ino].content| > job.limit
    case Reading(job, before, got) =>
      && error == FileTooLarge && before.ino in s.disk.inodes && |got| >= |s.disk.inodes[before.ino].content|
      && before.size + (|Extended(got, job.content)| - |got|) > job.limit
    case Checking(work, _, _) =>
      && work.AppendWork? && work.job.target in s.disk.dir
      && if s.disk.dir[work.job.target].Symlink? then error == InvalidPath
         else error == NoteModified && !SameIdentity(s.disk, work.job.target, work.before)
    case _ => false
  }

  /** Event `k` is a call of request `r`, and that call sees this ground. */
  ghost predicate SeesAt(s: State, events: seq<Event>, k: nat, r: nat, error: Error) {
    k < |events| && events[k].Proceed? && events[k].request == r && Sees(Run(s, events[..k]), r, error)
  }

  lemma EarlyRefusals(s: State, r: nat, token: string, amount: nat, error: Error)
    requires r in s.requests && IsRefusal(error)
    requires s.requests[r].Resolving? || s.requests[r].Locking? || s.requests[r].Opening? || s.requests[r].Stating? || s.requests[r].Reading?
    ensures Refused(Advance(s, r, token, amount), r, error) <==> Sees(s, r, error)
  {
    hide AppendBytes;
  }

  lemma LateRefusals(s: State, r: nat, token: string, amount: nat, error: Error)
    requires r in s.requests && IsRefusal(error)
    requires !(s.requests[r].Resolving? || s.requests[r].Locking? || s.requests[r].Opening? || s.requests[r].Stating? || s.requests[r].Reading?)
    ensures Refused(Advance(s, r, token, amount), r, error) <==> Refused(s, r, error) || Sees(s, r, error)
  {
    hide AppendBytes, SameIdentity, WorkData, WorkMode, WithFile, WithContent, WithName, WithoutName, Renamed, TempName;
  }

  lemma OthersUntouched(s: State, r: nat, token: string, amount: nat, other: nat)
    requires r in s.requests && other != r
    ensures var s' := Advance(s, r, token, amount);
      (other in s'.requests <==> other in s.requests) && (other in s.requests ==> s'.requests[other] == s.requests[other])
  {
    hide Advance;
    InboxOutcomes.MovesOneAdvance(s, r, token, amount);
  }

  lemma FailureIsNoRefusal(phase: Phase, error: Error)
    requires IsRefusal(error)
    ensures OutcomeOf(Fail(phase)) == Some(Failed(error)) <==> OutcomeOf(phase) == Some(Failed(error))
  {
  }

  lemma HostKeepsRequests(s: State, e: Event)
    requires IsHostEvent(e)
    ensures HostStep(s, e).requests == s.requests
  {
    hide HostMay, WithContent, WithFile, WithoutName;
  }

  /** One step: a refusal is there after it exactly if it was before, or this very call sees the ground. */
  lemma StepRefuses(s: State, e: Event, r: nat, error: Error)
    requires IsRefusal(error)
    ensures Refused(Step(s, e), r, error) <==> Refused(s, r, error) || (e.Proceed? && e.request == r && Sees(s, r, error))
  {
    hide Advance, Fail, HostStep, Sees, FileNames.IsStem;
    match e
    case ArriveAppend(_, _) =>
    case ArriveCreate(_, _) =>
    case Proceed(q, token, amount) =>
      if q in s.requests {
        if q != r {
          OthersUntouched(s, q, token, amount, r);
        } else if s.requests[r].Resolving? || s.requests[r].Locking? || s.requests[r].Opening? || s.requests[r].Stating? || s.requests[r].Reading? {
          EarlyRefusals(s, r, token, amount, error);
        } else {
          LateRefusals(s, r, token, amount, error);
        }
      } else {
        NoOneSees(s, r, error);
      }
    case Stumble(q) =>
      if q in s.requests {
        FailureIsNoRefusal(s.requests[q], error);
      }
    case _ => HostKeepsRequests(s, e);
  }

  lemma NoOneSees(s: State, r: nat, error: Error)
    ensures Sees(s, r, error) ==> r in s.requests
  {
  }

  /**
   * In every run, host included, a request is refused for a reason exactly if at some moment one of its own calls saw
   * that reason: a target that is empty, hidden, no `.md` name, missing or a symlink, a note that is too large or would
   * become so, a note that is no longer the one that was read.
   */
  lemma {:induction false} RefusedExactly(s: State, events: seq<Event>, r: nat, error: Error)
    requires s.requests == map[] && IsRefusal(error)
    ensures Refused(Run(s, events), r, error) <==> exists k: nat :: SeesAt(s, events, k, r, error)
  {
    hide Refused, Step, Sees, Run;
    if events == [] {
      NothingHappened(s, events, r, error);
    } else {
      var n := |events| - 1;
      RefusedExactly(s, events[..n], r, error);
      StepRefuses(Run(s, events[..n]), events[n], r, error);
      LastStep(s, events);
      if k: nat :| SeesAt(s, events[..n], k, r, error) {
        assert events[..n][..k] == events[..k];
        assert SeesAt(s, events, k, r, error);
      }
      if k: nat :| SeesAt(s, events, k, r, error) {
        if k < n {
          assert events[..n][..k] == events[..k];
          assert SeesAt(s, events[..n], k, r, error);
        }
      }
      assert SeesAt(s, events, n, r, error) <==>
        events[n].Proceed? && events[n].request == r && Sees(Run(s, events[..n]), r, error);
    }
  }

  lemma NothingHappened(s: State, events: seq<Event>, r: nat, error: Error)
    requires s.requests == map[] && events == []
    ensures !Refused(Run(s, events), r, error)
  {
  }

  lemma LastStep(s: State, events: seq<Event>)
    requires events != []
    ensures Run(s, events) == Step(Run(s, events[..|events| - 1]), events[|events| - 1])
  {
    hide Step;
  }
}

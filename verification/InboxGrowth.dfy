/** Consequences of the inbox history: notes grow by suffix, and end as the fold of the appends that landed on them. */
module InboxGrowth {
  import opened Bytes
  import opened Text
  import opened FileNames
  import opened InboxModel
  import opened InboxInvariant
  import opened InboxSteps
  import opened InboxHistory

  // ----- The final content -----

  /** The contents that landed on a note, in the order they landed. */
  function AppendsTo(name: string, history: seq<Record>): seq<Bytes> {
    if history == [] then []
    else
      var last := history[|history| - 1];
      AppendsTo(name, history[..|history| - 1]) + (if last.Landed? && last.job.target == name then [last.job.content] else [])
  }

  function Fold(content: Bytes, appends: seq<Bytes>): Bytes {
    if appends == [] then content
    else Extended(Fold(content, appends[..|appends| - 1]), appends[|appends| - 1])
  }

  lemma FoldSnoc(content: Bytes, appends: seq<Bytes>, last: Bytes)
    ensures Fold(content, appends + [last]) == Extended(Fold(content, appends), last)
  {
    hide Extended;
    assert (appends + [last])[..|appends + [last]| - 1] == appends;
  }

  /** How a note began: as it was at the start, or as it was created. */
  function Beginning(notes: map<string, Note>, name: string, history: seq<Record>): Option<Note> {
    if history == [] then (if name in notes then Some(notes[name]) else None)
    else
      var last := history[|history| - 1];
      var earlier := Beginning(notes, name, history[..|history| - 1]);
      if earlier.None? && last.Born? && last.name == name then Some(Note(last.create.text, CREATED_MODE)) else earlier
  }

  predicate NoHost(history: seq<Record>) {
    history == [] || (!IsHostRecord(history[|history| - 1]) && NoHost(history[..|history| - 1]))
  }

  /** The appends that landed on a note, each once and in order, are all that ever changed it. */
  lemma {:induction false} NotesAreFolds(notes: map<string, Note>, history: seq<Record>, name: string)
    requires Lawful(notes, history) && NoHost(history)
    ensures name in Replay(notes, history) <==> Beginning(notes, name, history).Some?
    ensures name !in Replay(notes, history) ==> AppendsTo(name, history) == []
    ensures name in Replay(notes, history) ==>
      var start := Beginning(notes, name, history).value;
      Replay(notes, history)[name] == Note(Fold(start.content, AppendsTo(name, history)), start.mode)
  {
    hide Extended, IsStem, Candidates;
    if history != [] {
      var earlier := history[..|history| - 1];
      NotesAreFolds(notes, earlier, name);
      var last := history[|history| - 1];
      if last.Landed? && last.job.target == name {
        FoldSnoc(Beginning(notes, name, earlier).value.content, AppendsTo(name, earlier), last.job.content);
      } else {
        assert AppendsTo(name, history) == AppendsTo(name, earlier);
      }
    }
  }

  /** The whole law over a run without host writes, from the first state to any later one. */
  lemma FinalContent(s: State, events: seq<Event>, name: string)
    requires Initial(s) && forall e :: e in events ==> !IsHostEvent(e)
    ensures var later := Run(s, events);
      && (name in Notes(later.disk) <==> Beginning(Notes(s.disk), name, later.history).Some?)
      && (name in Notes(later.disk) ==>
          var start := Beginning(Notes(s.disk), name, later.history).value;
          Notes(later.disk)[name] == Note(Fold(start.content, AppendsTo(name, later.history)), start.mode))
  {
    hide Initial, Notes, Run, Beginning, Fold, AppendsTo, Replay, Lawful;
    NotesAreReplayed(s, events);
    HostFreeHistory(s, events);
    NotesAreFolds(Notes(s.disk), Run(s, events).history, name);
  }

  lemma {:induction false} HostFreeHistory(s: State, events: seq<Event>)
    requires Initial(s) && forall e :: e in events ==> !IsHostEvent(e)
    ensures NoHost(Run(s, events).history)
  {
    hide Initial, Inv, Step, Notes, Apply, LawfulRecord;
    InitialIsOk(s);
    if events == [] {
      InitiallyBlank(s);
    } else {
      var earlier := Run(s, events[..|events| - 1]);
      HostFreeHistory(s, events[..|events| - 1]);
      RunKeeps(s, events[..|events| - 1]);
      StepExplained(earlier, events[|events| - 1]);
      var later := Run(s, events);
      if later.history != earlier.history {
        assert later.history[..|later.history| - 1] == earlier.history;
      }
    }
  }

  // ----- Growth between any two moments -----

  predicate Grown(before: map<string, Note>, after: map<string, Note>) {
    forall name :: name in before ==>
      name in after && before[name].content <= after[name].content && after[name].mode == before[name].mode
  }

  /** From any reachable state on, as long as the host stays out, every note only ever grows by suffix. */
  lemma {:induction false} NotesOnlyGrow(s: State, events: seq<Event>)
    requires Inv(s) && forall e :: e in events ==> !IsHostEvent(e)
    ensures Grown(Notes(s.disk), Notes(Run(s, events).disk))
  {
    hide Inv, Step, Notes, LawfulRecord, Extended, Apply;
    if events != [] {
      var earlier := Run(s, events[..|events| - 1]);
      NotesOnlyGrow(s, events[..|events| - 1]);
      RunKeeps(s, events[..|events| - 1]);
      StepExplained(earlier, events[|events| - 1]);
      var later := Run(s, events);
      if later.history != earlier.history || Notes(later.disk) != Notes(earlier.disk) {
        var record :| Adds(earlier, later, record) && !IsHostRecord(record);
        ApplyGrows(Notes(earlier.disk), record);
      }
    }
  }

  lemma ApplyGrows(notes: map<string, Note>, record: Record)
    requires LawfulRecord(notes, record) && !IsHostRecord(record)
    ensures Grown(notes, Apply(notes, record))
  {
    hide AppendBytes, IsStem, Candidates;
  }

  // ----- Distinct names -----

  function BornNames(history: seq<Record>): seq<string> {
    if history == [] then []
    else
      var last := history[|history| - 1];
      BornNames(history[..|history| - 1]) + (if last.Born? then [last.name] else [])
  }

  predicate NoRepeats(names: seq<string>) {
    names == [] || (names[|names| - 1] !in names[..|names| - 1] && NoRepeats(names[..|names| - 1]))
  }

  /** Without the host, successful creates get pairwise distinct names, none of them taken before. */
  lemma {:induction false} CreatesAreDistinct(notes: map<string, Note>, history: seq<Record>)
    requires Lawful(notes, history) && NoHost(history)
    ensures NoRepeats(BornNames(history))
    ensures forall name :: name in BornNames(history) ==> name !in notes && name in Replay(notes, history)
    ensures forall name :: name in notes ==> name in Replay(notes, history)
  {
    hide IsStem, Candidates, Extended;
    if history != [] {
      var earlier := history[..|history| - 1];
      CreatesAreDistinct(notes, earlier);
      if history[|history| - 1].Born? {
        assert (BornNames(earlier) + [history[|history| - 1].name])[..|BornNames(earlier)|] == BornNames(earlier);
      } else {
        assert BornNames(history) == BornNames(earlier);
      }
    }
  }
}

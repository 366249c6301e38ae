/** From the client's export to the note's sections: which exports are accepted, and what an accepted one keeps. */
module ExportContents {
  import opened Text
  import opened Escape
  import opened Blocks
  import opened VisibleText
  import opened KeptBlocks
  import opened Headings
  import opened Note
  import opened SectionReader
  import opened SectionContents
  import B = BodyItems
  import H = HeadingIntegrity
  import S = Steps
  import Tables

  // ----- What normalisation keeps of an export -----

  ghost predicate KeepsCodes(sent: seq<CodeBlock>, codes: seq<Code>) {
    if sent == [] then codes == []
    else if Ink(sent[0].content) == "" then KeepsCodes(sent[1..], codes)
    else codes != [] && KeepsCode(sent[0], codes[0]) && KeepsCodes(sent[1..], codes[1..])
  }

  ghost predicate KeepsTimeline(sent: seq<(Option<string>, string)>, entries: seq<(Option<string>, string)>) {
    && |entries| == |sent|
    && forall i :: 0 <= i < |sent| ==> OptionalInk(entries[i].0) == OptionalInk(sent[i].0) && Ink(entries[i].1) == Ink(sent[i].1)
  }

  ghost predicate KeepsDefinitions(sent: seq<(string, string)>, definitions: seq<(string, string)>) {
    && |definitions| == |sent|
    && forall i :: 0 <= i < |sent| ==> Ink(definitions[i].0) == Ink(sent[i].0) && Ink(definitions[i].1) == Ink(sent[i].1)
  }

  ghost predicate KeepsTopic(sent: (string, seq<BodyBlock>), topic: (string, seq<BodyItem>)) {
    Ink(topic.0) == Ink(sent.0) && KeepsAll(sent.1, topic.1, 0)
  }

  ghost predicate KeepsTopics(sent: seq<(string, seq<BodyBlock>)>, topics: seq<(string, seq<BodyItem>)>) {
    |topics| == |sent| && forall i :: 0 <= i < |sent| ==> KeepsTopic(sent[i], topics[i])
  }

  ghost predicate KeepsBodies(sent: map<Field, seq<BodyBlock>>, bodies: map<Field, seq<BodyItem>>, fields: seq<Field>) {
    forall f :: f in fields ==> KeepsAll(BodyOf(sent, f), BodyOf(bodies, f), 0)
  }

  /** Field by field, everything with something to see in it, in the client's order. */
  ghost predicate KeepsExport(e: Export, n: NormalExport) {
    && n.mode == e.mode
    && Inks(n.tldr) == WithoutEmpty(Inks(e.tldr))
    && KeepsBodies(e.bodies, n.bodies, BODY_FIELDS)
    && KeepsCodes(e.codeBlocks, n.codeBlocks)
    && KeepsTimeline(e.timeline, n.timeline)
    && KeepsTopics(e.topics, n.topics)
    && KeepsSteps(e.steps, n.steps)
    && KeepsDefinitions(e.definitions, n.definitions)
  }

  lemma {:induction false} CodesAreKept(sent: seq<CodeBlock>)
    ensures KeepsCodes(sent, NormalCodes(sent))
    ensures NormalCodes(sent) != [] <==> HasCode(sent)
  {
    hide B.NormalCode, KeepsCode, Ink;
    if sent != [] {
      KeptBlocks.CodeIsKept(sent[0]);
      CodesAreKept(sent[1..]);
      var rest := NormalCodes(sent[1..]);
      assert [] + rest == rest;
      if Ink(sent[0].content) != "" {
        assert NormalCodes(sent)[1..] == rest;
      } else if HasCode(sent) {
        var i :| 0 <= i < |sent| && Ink(sent[i].content) != "";
        assert sent[1..][i - 1] == sent[i];
      }
    }
  }

  /** Some code block holds something to see. */
  ghost predicate HasCode(sent: seq<CodeBlock>) {
    exists i :: 0 <= i < |sent| && Ink(sent[i].content) != ""
  }

  /** Every event says something. */
  predicate Eventful(entries: seq<(Option<string>, string)>) {
    entries != [] ==> Ink(entries[0].1) != "" && Eventful(entries[1..])
  }

  predicate Defining(definitions: seq<(string, string)>) {
    definitions != [] ==> Ink(definitions[0].0) != "" && Ink(definitions[0].1) != "" && Defining(definitions[1..])
  }

  predicate Headed(topics: seq<(string, seq<BodyBlock>)>) {
    topics != [] ==> Ink(topics[0].0) != "" && B.NormalItems(topics[0].1, 0, None).Ok? && Headed(topics[1..])
  }

  lemma {:induction false} TimelineIsKept(sent: seq<(Option<string>, string)>, index: nat)
    ensures var r := NormalTimeline(sent, index);
      (r.Ok? <==> Eventful(sent)) && (r.Ok? ==> KeepsTimeline(sent, r.value))
  {
    hide OneLine, Ink, Tables.OptionalLine, OptionalInk;
    if sent != [] {
      LineIsEmpty(sent[0].1);
      OneLineKeepsInk(sent[0].1);
      OptionalLineKeepsInk(sent[0].0);
      TimelineIsKept(sent[1..], index + 1);
      var r, rest := NormalTimeline(sent, index), NormalTimeline(sent[1..], index + 1);
      if r.Ok? {
        assert forall i :: 0 < i < |sent| ==> r.value[i] == rest.value[i - 1] && sent[i] == sent[1..][i - 1];
      }
    }
  }

  lemma {:induction false} DefinitionsAreKept(sent: seq<(string, string)>, index: nat)
    ensures var r := NormalDefinitions(sent, index);
      (r.Ok? <==> Defining(sent)) && (r.Ok? ==> KeepsDefinitions(sent, r.value))
  {
    hide OneLine, Ink;
    if sent != [] {
      LineIsEmpty(sent[0].0);
      LineIsEmpty(sent[0].1);
      OneLineKeepsInk(sent[0].0);
      OneLineKeepsInk(sent[0].1);
      DefinitionsAreKept(sent[1..], index + 1);
      var r, rest := NormalDefinitions(sent, index), NormalDefinitions(sent[1..], index + 1);
      if r.Ok? {
        assert forall i :: 0 < i < |sent| ==> r.value[i] == rest.value[i - 1] && sent[i] == sent[1..][i - 1];
      }
    }
  }

  lemma {:induction false} TopicsAreKept(sent: seq<(string, seq<BodyBlock>)>, index: nat)
    ensures var r := NormalTopics(sent, index);
      (r.Ok? <==> Headed(sent)) && (r.Ok? ==> KeepsTopics(sent, r.value))
  {
    hide OneLine, Ink, B.NormalItems, KeepsAll;
    if sent != [] {
      LineIsEmpty(sent[0].0);
      OneLineKeepsInk(sent[0].0);
      FieldIsKept(sent[0].1, 0, None);
      TopicsAreKept(sent[1..], index + 1);
      var r, rest := NormalTopics(sent, index), NormalTopics(sent[1..], index + 1);
      if r.Ok? {
        assert KeepsTopic(sent[0], r.value[0]);
        assert forall i :: 0 < i < |sent| ==> r.value[i] == rest.value[i - 1] && sent[i] == sent[1..][i - 1];
      }
    }
  }

  /** Every one of these fields holds acceptable blocks. */
  predicate AllAccepted(bodies: map<Field, seq<BodyBlock>>, fields: seq<Field>) {
    fields != [] ==> B.NormalItems(BodyOf(bodies, fields[0]), 0, None).Ok? && AllAccepted(bodies, fields[1..])
  }

  lemma {:induction false} BodiesAreKept(bodies: map<Field, seq<BodyBlock>>, fields: seq<Field>)
    ensures var r := NormalBodies(bodies, fields);
      (r.Ok? <==> AllAccepted(bodies, fields)) && (r.Ok? ==> KeepsBodies(bodies, r.value, fields))
  {
    hide B.NormalItems, KeepsAll;
    if fields != [] {
      FieldIsKept(BodyOf(bodies, fields[0]), 0, None);
      BodiesAreKept(bodies, fields[1..]);
      var r := NormalBodies(bodies, fields);
      if r.Ok? {
        forall f | f in fields
          ensures KeepsAll(BodyOf(bodies, f), BodyOf(r.value, f), 0)
        {
          assert f == fields[0] || f in fields[1..];
        }
      }
    }
  }

  lemma SummaryIsKept(sent: seq<string>)
    ensures Inks(B.NonEmptyLines(sent)) == WithoutEmpty(Inks(sent))
    ensures B.NonEmptyLines(sent) != [] <==> exists i :: 0 <= i < |sent| && Ink(sent[i]) != ""
  {
    hide Inks, Ink, WithoutEmpty, B.NonEmptyLines;
    NonEmptyKeepInks(sent);
    NothingVisible(sent);
    NoInks(B.NonEmptyLines(sent));
  }

  /** What the normaliser demands of each field on its own. */
  ghost predicate WellFormedExport(e: Export) {
    && (exists i :: 0 <= i < |e.tldr| && Ink(e.tldr[i]) != "")
    && AllAccepted(e.bodies, BODY_FIELDS)
    && S.NormalSteps(e.steps, 0).Ok?
    && Eventful(e.timeline) && Headed(e.topics) && Defining(e.definitions)
  }

  /** An export is normalised exactly if every field is well formed and the blocks stay within the budget; it is kept whole. */
  lemma NormalisedIsKept(e: Export)
    ensures var r := NormaliseExport(e);
      && (WellFormedExport(e) <==> r.Ok? || r.error.TooMuchContent?)
      && (r.Ok? ==> KeepsExport(e, r.value) && r.value.tldr != [] && BlockChars(r.value) <= 100_000)
      && (r.Err? && r.error.TooMuchContent? ==> r.error.chars > 100_000)
  {
    hide B.NonEmptyLines, NormalBodies, S.NormalSteps, NormalTimeline, NormalTopics, NormalDefinitions, NormalCodes, BlockChars, Inks, Ink,
      WithoutEmpty, KeepsBodies, KeepsCodes, KeepsTimeline, KeepsTopics, KeepsSteps, KeepsDefinitions, AllAccepted, Eventful, Headed,
      Defining;
    SummaryIsKept(e.tldr);
    BodiesAreKept(e.bodies, BODY_FIELDS);
    CodesAreKept(e.codeBlocks);
    TimelineIsKept(e.timeline, 0);
    TopicsAreKept(e.topics, 0);
    DefinitionsAreKept(e.definitions, 0);
    StepsAreKept(e.steps, 0);
    NoSuchError(e);
  }

  /** The other errors come from single fields. */
  lemma NoSuchError(e: Export)
    ensures NormalBodies(e.bodies, BODY_FIELDS).Err? ==> !NormalBodies(e.bodies, BODY_FIELDS).error.TooMuchContent?
    ensures NormalTimeline(e.timeline, 0).Err? ==> !NormalTimeline(e.timeline, 0).error.TooMuchContent?
    ensures NormalTopics(e.topics, 0).Err? ==> !NormalTopics(e.topics, 0).error.TooMuchContent?
    ensures NormalDefinitions(e.definitions, 0).Err? ==> !NormalDefinitions(e.definitions, 0).error.TooMuchContent?
  {
    hide B.NormalItems, OneLine;
    BodiesErr(e.bodies, BODY_FIELDS);
    TimelineErr(e.timeline, 0);
    TopicsErr(e.topics, 0);
    DefinitionsErr(e.definitions, 0);
  }

  lemma {:induction false} BodiesErr(bodies: map<Field, seq<BodyBlock>>, fields: seq<Field>)
    ensures NormalBodies(bodies, fields).Err? ==> NormalBodies(bodies, fields).error.BadItem?
  {
    hide B.NormalItems;
    if fields != [] {
      BodiesErr(bodies, fields[1..]);
    }
  }

  lemma {:induction false} TimelineErr(entries: seq<(Option<string>, string)>, index: nat)
    ensures NormalTimeline(entries, index).Err? ==> NormalTimeline(entries, index).error.EmptyEvent?
  {
    hide OneLine, Tables.OptionalLine;
    if entries != [] {
      TimelineErr(entries[1..], index + 1);
    }
  }

  lemma {:induction false} TopicsErr(topics: seq<(string, seq<BodyBlock>)>, index: nat)
    ensures var r := NormalTopics(topics, index); r.Err? ==> r.error.EmptyTopicHeading? || r.error.BadTopicPoint?
  {
    hide OneLine, B.NormalItems;
    if topics != [] {
      TopicsErr(topics[1..], index + 1);
    }
  }

  lemma {:induction false} DefinitionsErr(definitions: seq<(string, string)>, index: nat)
    ensures var r := NormalDefinitions(definitions, index); r.Err? ==> r.error.EmptyTerm? || r.error.EmptyDescription?
  {
    hide OneLine;
    if definitions != [] {
      DefinitionsErr(definitions[1..], index + 1);
    }
  }

  // ----- Which fields an export may fill, and which it must -----

  predicate InLayout(field: Field, mode: ExportMode) {
    exists i :: 0 <= i < |Layout(mode, false)| && Layout(mode, false)[i].1 == Of(field)
  }

  /** What a mode asks for. */
  predicate Answers(n: NormalExport) {
    match n.mode
    case Summary => true
    case Technical => true
    case History => FieldLength(n, Timeline) > 0
    case Full => FieldLength(n, Topics) > 0
    case Procedure => FieldLength(n, StepList) > 0
    case Issue => FieldLength(n, Symptom) > 0
    case Reference => FieldLength(n, Definitions) > 0 || FieldLength(n, Facts) > 0 || FieldLength(n, Examples) > 0
  }

  lemma {:induction false} OffendingAre(n: NormalExport, fields: seq<Field>, f: Field)
    ensures f in OffendingFields(n, fields) <==> f in fields && f !in ModeSections(n.mode) && FieldLength(n, f) > 0
  {
    hide ModeSections, FieldLength;
    if fields != [] {
      OffendingAre(n, fields[1..], f);
      assert f in fields <==> f == fields[0] || f in fields[1..];
    }
  }

  const COMMON_FIELDS: seq<Field> := [Tldr, Decisions, UnresolvedIssues, NextActions, Sources]

  lemma CommonInLayout(field: Field, mode: ExportMode)
    requires field in COMMON_FIELDS
    ensures InLayout(field, mode)
  {
    hide ModeLayout;
    var n := |ModeLayout(mode)|;
    var layout := Layout(mode, false);
    assert layout[0].1 == Of(Tldr) && layout[1].1 == Of(Decisions);
    assert layout[n + 2].1 == Of(UnresolvedIssues) && layout[n + 3].1 == Of(NextActions) && layout[n + 5].1 == Of(Sources);
  }

  lemma ModeInLayout(field: Field, mode: ExportMode)
    requires field in ModeSections(mode)
    ensures InLayout(field, mode)
  {
    hide ModeLayout, ModeSections, HeadingOf;
    LayoutOfMode(mode);
    var i :| 0 <= i < |ModeSections(mode)| && ModeSections(mode)[i] == field;
    assert Layout(mode, false)[i + 2] == ModeLayout(mode)[i];
  }

  lemma BehindTheMode(mode: ExportMode, i: nat)
    requires |ModeLayout(mode)| + 2 <= i < |Layout(mode, false)| && Layout(mode, false)[i].1.Of?
    ensures Layout(mode, false)[i].1.field in COMMON_FIELDS
  {
    hide ModeLayout;
    var n := |ModeLayout(mode)|;
    assert i == n + 2 || i == n + 3 || i == n + 4 || i == n + 5;
  }

  lemma InsideTheMode(mode: ExportMode, i: nat)
    requires 2 <= i < |ModeLayout(mode)| + 2
    ensures Layout(mode, false)[i] == ModeLayout(mode)[i - 2]
  {
    hide ModeLayout;
  }

  lemma OnlyThoseInLayout(field: Field, mode: ExportMode)
    requires InLayout(field, mode)
    ensures field in COMMON_FIELDS || field in ModeSections(mode)
  {
    var i :| 0 <= i < |Layout(mode, false)| && Layout(mode, false)[i].1 == Of(field);
    if i < 2 {
      FirstTwo(mode);
    } else {
      hide Layout, ModeLayout, ModeSections, HeadingOf;
      LayoutOfMode(mode);
      if i < |ModeLayout(mode)| + 2 {
        InsideTheMode(mode, i);
      } else {
        BehindTheMode(mode, i);
      }
    }
  }

  lemma FirstTwo(mode: ExportMode)
    ensures |Layout(mode, false)| >= 2 && Layout(mode, false)[0].1 == Of(Tldr) && Layout(mode, false)[1].1 == Of(Decisions)
  {
    hide ModeLayout;
  }

  lemma EveryFieldIsOne(field: Field, mode: ExportMode)
    ensures field in COMMON_FIELDS <==> field !in MODE_FIELDS
    ensures field in COMMON_FIELDS ==> field !in ModeSections(mode)
  {
  }

  /** Every field that holds something has its section in the note. */
  ghost predicate Fits(n: NormalExport) {
    forall f :: FieldLength(n, f) > 0 ==> InLayout(f, n.mode)
  }

  lemma OffendsUnlessInLayout(n: NormalExport, f: Field)
    ensures f in OffendingFields(n, MODE_FIELDS) <==> FieldLength(n, f) > 0 && !InLayout(f, n.mode)
  {
    hide InLayout, ModeSections, FieldLength, OffendingFields;
    OffendingAre(n, MODE_FIELDS, f);
    EveryFieldIsOne(f, n.mode);
    if f in COMMON_FIELDS {
      CommonInLayout(f, n.mode);
    } else if f in ModeSections(n.mode) {
      ModeInLayout(f, n.mode);
    } else if InLayout(f, n.mode) {
      OnlyThoseInLayout(f, n.mode);
    }
  }

  lemma RequiredAre(n: NormalExport)
    ensures Answers(n) <==> !(RequiredFields(n.mode) != [] && forall f :: f in RequiredFields(n.mode) ==> FieldLength(n, f) == 0)
  {
    hide FieldLength;
    match n.mode
    case History => assert Timeline in RequiredFields(n.mode);
    case Full => assert Topics in RequiredFields(n.mode);
    case Procedure => assert StepList in RequiredFields(n.mode);
    case Issue => assert Symptom in RequiredFields(n.mode);
    case Reference =>
      assert Definitions in RequiredFields(n.mode) && Facts in RequiredFields(n.mode) && Examples in RequiredFields(n.mode);
    case _ =>
  }

  /**
   * A normalised export is accepted exactly if no field would be lost in its mode and the mode's own question is
   * answered; the fields named in a rejection are exactly those that would be lost.
   */
  lemma AcceptedExactly(e: Export)
    requires NormaliseExport(e).Ok?
    ensures var n, r := NormaliseExport(e).value, CheckedExport(e);
      && (r == Ok(n) <==> Fits(n) && Answers(n))
      && (!Fits(n) ==>
          r.Err? && r.error.FieldsNotValidForMode? && forall f :: f in r.error.fields <==> FieldLength(n, f) > 0 && !InLayout(f, n.mode))
      && (Fits(n) && !Answers(n) ==> r == Err(MissingRequired(RequiredFields(n.mode))))
  {
    hide NormaliseExport, InLayout, ModeSections, FieldLength, OffendingFields, RequiredFields, Answers;
    var n := NormaliseExport(e).value;
    forall f
      ensures f in OffendingFields(n, MODE_FIELDS) <==> FieldLength(n, f) > 0 && !InLayout(f, n.mode)
    {
      OffendsUnlessInLayout(n, f);
    }
    RequiredAre(n);
    if OffendingFields(n, MODE_FIELDS) != [] {
      assert OffendingFields(n, MODE_FIELDS)[0] in OffendingFields(n, MODE_FIELDS);
    }
  }

  // ----- The whole way -----

  lemma CheckedIsNormalised(e: Export)
    requires CheckedExport(e).Ok?
    ensures NormaliseExport(e).Ok? && CheckedExport(e) == NormaliseExport(e)
  {
    hide NormaliseExport, OffendingFields, RequiredFields, FieldLength;
  }

  /** An accepted export is kept whole, and each of its fields has a section to go to. */
  lemma NothingIsDropped(e: Export)
    requires CheckedExport(e).Ok?
    ensures var n := CheckedExport(e).value; KeepsExport(e, n) && Fits(n) && n.tldr != []
    ensures CheckedExport(e).value.codeBlocks != [] <==> HasCode(e.codeBlocks)
  {
    hide NormaliseExport, CheckedExport, KeepsExport, Fits, Answers, HasCode;
    CheckedIsNormalised(e);
    NormalisedIsKept(e);
    AcceptedExactly(e);
    CodesAreKept(e.codeBlocks);
    H.AcceptedKeeps(e);
  }

  /**
   * Every accepted export, read back from its note. A reader who cuts the note at its level-two headings finds the
   * title, then exactly the sections of the mode's layout, each framed by blank lines and showing the field its
   * heading names; and the fields hold all the client sent.
   */
  lemma NoteHoldsExport(e: Export, title: string, related: seq<string>)
    requires SchemaExport(e) && CheckedExport(e).Ok?
    ensures var n := CheckedExport(e).value; ValidExport(n) && KeepsExport(e, n)
    ensures var n := CheckedExport(e).value;
      var (before, parts) := Cut(MarkdownLines(BuildContent(n, title, related)), Outside, 2);
      && before == ["# " + OneLine(title), ""]
      && PartsShow(Layout(e.mode, HasCode(e.codeBlocks)), parts, n, related)
  {
    hide CheckedExport, SchemaExport, ValidExport, BuildContent, Cut, PartsShow, Layout, HasCode, Contributes, OneLine;
    var n := CheckedExport(e).value;
    H.HeadingIntegrity(e, title, related);
    H.StepsOfValid(n);
    NothingIsDropped(e);
    NoReturnIn(n, title, related);
    MarkdownLinesAreLines(BuildContent(n, title, related));
    PrintedSections(n, title, related);
  }

  lemma NoReturnIn(n: NormalExport, title: string, related: seq<string>)
    requires ValidExport(n) && S.ValidSteps(n.steps)
    ensures '\r' !in BuildContent(n, title, related)
  {
    hide ValidExport, S.ValidSteps, BuildContent, Yields;
    H.NoteContributes(n, title, related);
  }
}

/** The whole note: normalising an export, its fixed sections, and the integrity of its headings. */
module Note {
  import opened Text
  import opened Escape
  import opened Blocks
  import opened FlatLines
  import Tables
  import Budget
  import B = BodyItems
  import G = Grouping
  import N = Normalised
  import S = Steps

  datatype ExportMode = Summary | Technical | History | Full | Procedure | Issue | Reference

  datatype Field =
    | Tldr | Decisions | UnresolvedIssues | NextActions | Sources
    | Overview | KeyPoints | Context | Design | ImplementationNotes | Verification
    | Timeline | TurningPoints | Topics | Prerequisites | StepList | Rollback
    | Symptom | Environment | Investigation | RootCause | Workaround
    | Definitions | Facts | Examples

  /** The fields that hold a sequence of body blocks, in the order the normaliser visits them. */
  const BODY_FIELDS: seq<Field> := [
    Decisions, UnresolvedIssues, NextActions, Sources, Overview, KeyPoints, Context, Design, ImplementationNotes,
    Verification, TurningPoints, Prerequisites, Rollback, Symptom, Environment, Investigation, RootCause, Workaround,
    Facts, Examples
  ]

  function ModeSections(mode: ExportMode): seq<Field> {
    match mode
    case Summary => [Overview, KeyPoints]
    case Technical => [Context, Design, ImplementationNotes, Verification]
    case History => [Timeline, TurningPoints]
    case Full => [Topics]
    case Procedure => [Prerequisites, StepList, Verification, Rollback]
    case Issue => [Symptom, Environment, Investigation, RootCause, Workaround]
    case Reference => [Definitions, Facts, Examples]
  }

  function HeadingOf(field: Field): string {
    match field
    case Tldr => "要約"
    case Decisions => "決定事項"
    case UnresolvedIssues => "未解決の論点"
    case NextActions => "次のアクション"
    case Sources => "出典"
    case Overview => "概要"
    case KeyPoints => "要点"
    case Context => "背景"
    case Design => "設計"
    case ImplementationNotes => "実装メモ"
    case Verification => "検証"
    case Timeline => "経緯"
    case TurningPoints => "転換点"
    case Topics => "トピック"
    case Prerequisites => "前提条件"
    case StepList => "手順"
    case Rollback => "ロールバック"
    case Symptom => "症状"
    case Environment => "環境"
    case Investigation => "調査"
    case RootCause => "原因"
    case Workaround => "回避策"
    case Definitions => "用語"
    case Facts => "事実"
    case Examples => "例"
  }

  const RELATED_HEADING := "関連ノート"
  const CODE_HEADING := "コード"

  /** A body field the client leaves out is an empty list. */
  datatype Export = Export(
    mode: ExportMode,
    tldr: seq<string>,
    bodies: map<Field, seq<BodyBlock>>,
    codeBlocks: seq<CodeBlock>,
    timeline: seq<(Option<string>, string)>,
    topics: seq<(string, seq<BodyBlock>)>,
    steps: seq<seq<StepBlock>>,
    definitions: seq<(string, string)>)

  datatype NormalExport = NormalExport(
    mode: ExportMode,
    tldr: seq<string>,
    bodies: map<Field, seq<BodyItem>>,
    codeBlocks: seq<Code>,
    timeline: seq<(Option<string>, string)>,
    topics: seq<(string, seq<BodyItem>)>,
    steps: seq<S.Step>,
    definitions: seq<(string, string)>)

  datatype ExportError =
    | EmptyTldr
    | BadItem(field: Field, item: B.ItemError)
    | BadStep(item: B.ItemError)
    | BadTopicPoint(topic: nat, item: B.ItemError)
    | EmptyEvent(index: nat)
    | EmptyTopicHeading(index: nat)
    | EmptyTerm(index: nat)
    | EmptyDescription(index: nat)
    | TooMuchContent(chars: nat)
    | FieldsNotValidForMode(fields: seq<Field>)
    | MissingRequired(fields: seq<Field>)

  // ----- _normalise_export -----

  function BodyOf<T>(bodies: map<Field, seq<T>>, field: Field): seq<T> {
    if field in bodies then bodies[field] else []
  }

  function NormalBodies(bodies: map<Field, seq<BodyBlock>>, fields: seq<Field>)
    : Result<map<Field, seq<BodyItem>>, ExportError>
  {
    if fields == [] then Ok(map[])
    else
      match B.NormalItems(BodyOf(bodies, fields[0]), 0, None)
      case Err(e) => Err(BadItem(fields[0], e))
      case Ok(items) =>
        match NormalBodies(bodies, fields[1..])
        case Err(e) => Err(e)
        case Ok(rest) => Ok(rest[fields[0] := items])
  }

  function NormalCodes(blocks: seq<CodeBlock>): seq<Code> {
    if blocks == [] then []
    else (match B.NormalCode(blocks[0]) case None => [] case Some(c) => [c]) + NormalCodes(blocks[1..])
  }

  function NormalTimeline(entries: seq<(Option<string>, string)>, index: nat)
    : Result<seq<(Option<string>, string)>, ExportError>
  {
    if entries == [] then Ok([])
    else if OneLine(entries[0].1) == "" then Err(EmptyEvent(index))
    else
      match NormalTimeline(entries[1..], index + 1)
      case Err(e) => Err(e)
      case Ok(rest) => Ok([(Tables.OptionalLine(entries[0].0), OneLine(entries[0].1))] + rest)
  }

  function NormalTopics(topics: seq<(string, seq<BodyBlock>)>, index: nat)
    : Result<seq<(string, seq<BodyItem>)>, ExportError>
  {
    if topics == [] then Ok([])
    else if OneLine(topics[0].0) == "" then Err(EmptyTopicHeading(index))
    else
      match B.NormalItems(topics[0].1, 0, None)
      case Err(e) => Err(BadTopicPoint(index, e))
      case Ok(points) =>
        match NormalTopics(topics[1..], index + 1)
        case Err(e) => Err(e)
        case Ok(rest) => Ok([(OneLine(topics[0].0), points)] + rest)
  }

  function NormalDefinitions(definitions: seq<(string, string)>, index: nat): Result<seq<(string, string)>, ExportError> {
    if definitions == [] then Ok([])
    else if OneLine(definitions[0].0) == "" then Err(EmptyTerm(index))
    else if OneLine(definitions[0].1) == "" then Err(EmptyDescription(index))
    else
      match NormalDefinitions(definitions[1..], index + 1)
      case Err(e) => Err(e)
      case Ok(rest) => Ok([(OneLine(definitions[0].0), OneLine(definitions[0].1))] + rest)
  }

  function BodiesChars(bodies: map<Field, seq<BodyItem>>, fields: seq<Field>): nat {
    if fields == [] then 0 else Budget.ItemsChars(BodyOf(bodies, fields[0])) + BodiesChars(bodies, fields[1..])
  }

  /** `_total_block_chars` */
  function BlockChars(n: NormalExport): nat {
    Budget.CodesChars(n.codeBlocks) + Budget.StepsChars(n.steps)
    + BodiesChars(n.bodies, BODY_FIELDS) + Budget.TopicsChars(n.topics)
  }

  function NormaliseExport(e: Export): Result<NormalExport, ExportError> {
    var tldr := B.NonEmptyLines(e.tldr);
    if tldr == [] then Err(EmptyTldr)
    else
      var bodies :- NormalBodies(e.bodies, BODY_FIELDS);
      var steps := S.NormalSteps(e.steps, 0);
      if steps.Err? then Err(BadStep(steps.error))
      else
        var timeline :- NormalTimeline(e.timeline, 0);
        var topics :- NormalTopics(e.topics, 0);
        var definitions :- NormalDefinitions(e.definitions, 0);
        var n := NormalExport(e.mode, tldr, bodies, NormalCodes(e.codeBlocks), timeline, topics, steps.value, definitions);
        if BlockChars(n) > Budget.MAX_TOTAL_BLOCK_CHARS then Err(TooMuchContent(BlockChars(n))) else Ok(n)
  }

  // ----- _check_mode_fields, _check_mode_required -----

  const MODE_FIELDS: seq<Field> := [
    Overview, KeyPoints, Context, Design, ImplementationNotes, Verification, Timeline, TurningPoints, Topics,
    Prerequisites, StepList, Rollback, Symptom, Environment, Investigation, RootCause, Workaround, Definitions,
    Facts, Examples
  ]

  function FieldLength(n: NormalExport, field: Field): nat {
    match field
    case Tldr => |n.tldr|
    case Timeline => |n.timeline|
    case Topics => |n.topics|
    case StepList => |n.steps|
    case Definitions => |n.definitions|
    case _ => |BodyOf(n.bodies, field)|
  }

  function OffendingFields(n: NormalExport, fields: seq<Field>): seq<Field> {
    if fields == [] then []
    else
      (if fields[0] !in ModeSections(n.mode) && FieldLength(n, fields[0]) > 0 then [fields[0]] else [])
      + OffendingFields(n, fields[1..])
  }

  /** One of these fields must hold something; no demand when the list is empty. */
  function RequiredFields(mode: ExportMode): seq<Field> {
    match mode
    case History => [Timeline]
    case Full => [Topics]
    case Procedure => [StepList]
    case Issue => [Symptom]
    case Reference => [Definitions, Facts, Examples]
    case _ => []
  }

  function CheckedExport(e: Export): Result<NormalExport, ExportError> {
    var n :- NormaliseExport(e);
    var offending := OffendingFields(n, MODE_FIELDS);
    if offending != [] then Err(FieldsNotValidForMode(offending))
    else
      var required := RequiredFields(n.mode);
      if required != [] && forall f :: f in required ==> FieldLength(n, f) == 0 then Err(MissingRequired(required))
      else Ok(n)
  }

  // ----- The sections -----

  /** Sentences join with a space, except after a Japanese sentence end. */
  function JoinSentences(items: seq<string>, done: string): string {
    if items == [] then done
    else
      var gap := if done != "" && done[|done| - 1] !in "。！？」）" then " " else "";
      JoinSentences(items[1..], done + gap + items[0])
  }

  function PlaceholderFor(field: Field): string {
    if field == RootCause then "未解決"
    else if field == Decisions || field == UnresolvedIssues || field == NextActions || field == Sources then "なし"
    else "未記録"
  }

  function TimelineLines(entries: seq<(Option<string>, string)>): seq<string> {
    if entries == [] then []
    else
      var text := if entries[0].0.Some? && entries[0].0.value != "" then entries[0].0.value + ": " + entries[0].1 else entries[0].1;
      ["- " + EscapeBlockStart(text)] + TimelineLines(entries[1..])
  }

  function DefinitionLines(definitions: seq<(string, string)>): seq<string> {
    if definitions == [] then []
    else ["- " + EscapeBlockStart(definitions[0].0 + ": " + definitions[0].1)] + DefinitionLines(definitions[1..])
  }

  function TopicText(topic: (string, seq<BodyItem>)): string {
    "### " + topic.0 + "\n\n" + (if topic.1 != [] then G.BodyText(topic.1) else "未記録")
  }

  function TopicTexts(topics: seq<(string, seq<BodyItem>)>): seq<string> {
    if topics == [] then [] else [TopicText(topics[0])] + TopicTexts(topics[1..])
  }

  function BodyFor(field: Field, n: NormalExport): string
    requires S.ValidSteps(n.steps)
  {
    if FieldLength(n, field) == 0 then PlaceholderFor(field)
    else
      match field
      case Tldr => EscapeBlockStart(JoinSentences(n.tldr, ""))
      case StepList => S.StepsText(n.steps)
      case Timeline => Join(TimelineLines(n.timeline), "\n")
      case Topics => Join(TopicTexts(n.topics), "\n\n")
      case Definitions => Join(DefinitionLines(n.definitions), "\n")
      case _ => G.BodyText(BodyOf(n.bodies, field))
  }

  function Section(heading: string, body: string): string {
    "## " + heading + "\n\n" + body
  }

  function FieldSection(field: Field, n: NormalExport): string
    requires S.ValidSteps(n.steps)
  {
    Section(HeadingOf(field), BodyFor(field, n))
  }

  function FieldSections(fields: seq<Field>, n: NormalExport): seq<string>
    requires S.ValidSteps(n.steps)
  {
    if fields == [] then [] else [FieldSection(fields[0], n)] + FieldSections(fields[1..], n)
  }

  function CodeTexts(codes: seq<Code>): seq<string> {
    if codes == [] then [] else [G.TopLevelCode(codes[0])] + CodeTexts(codes[1..])
  }

  /** The optional section: there is one exactly when some code block survived. */
  function SupplementarySections(codes: seq<Code>): seq<string> {
    if codes == [] then [] else [Section(CODE_HEADING, Join(CodeTexts(codes), "\n\n"))]
  }

  function EndsWith(s: string, suffix: string): bool {
    |s| >= |suffix| && s[|s| - |suffix|..] == suffix
  }

  /** `is_renderable_wikilink_target` */
  predicate IsRenderableTarget(path: string) {
    && EndsWith(path, ".md")
    && path[..|path| - 3] != "" && !EndsWith(path[..|path| - 3], ".md")
    && (forall c :: c in path ==> c !in "[]|#^" && !IsLineBreak(c) && !IsControl(c))
  }

  function RelatedLines(paths: seq<string>): seq<string> {
    if paths == [] then []
    else
      (if IsRenderableTarget(paths[0]) then ["- [[" + paths[0][..|paths[0]| - 3] + "]]"] else []) + RelatedLines(paths[1..])
  }

  function RelatedSection(paths: seq<string>): string {
    Section(RELATED_HEADING, if RelatedLines(paths) == [] then "なし" else Join(RelatedLines(paths), "\n"))
  }

  /** `_build_content`: title, sections in fixed order, one blank line apart, one final newline. */
  function ContentBlocks(n: NormalExport, title: string, related: seq<string>): seq<string>
    requires S.ValidSteps(n.steps)
  {
    ["# " + OneLine(title)]
    + FieldSections([Tldr, Decisions] + ModeSections(n.mode), n)
    + SupplementarySections(n.codeBlocks)
    + FieldSections([UnresolvedIssues, NextActions], n)
    + [RelatedSection(related)]
    + FieldSections([Sources], n)
  }

  function BuildContent(n: NormalExport, title: string, related: seq<string>): string
    requires S.ValidSteps(n.steps)
  {
    Join(ContentBlocks(n, title, related), "\n\n") + "\n"
  }

  // ----- What normalisation gives the printer -----

  predicate SchemaTopics(topics: seq<(string, seq<BodyBlock>)>) {
    topics != [] ==> N.SchemaBlocks(topics[0].1) && SchemaTopics(topics[1..])
  }

  /** The schema's checks on single blocks. */
  predicate SchemaExport(e: Export) {
    && (forall f :: f in e.bodies ==> N.SchemaBlocks(e.bodies[f]))
    && SchemaTopics(e.topics)
    && N.SchemaSteps(e.steps)
  }

  predicate ValidTimeline(entries: seq<(Option<string>, string)>) {
    entries != [] ==> ValidCaption(entries[0].0) && ValidText(entries[0].1) && ValidTimeline(entries[1..])
  }

  predicate ValidTopics(topics: seq<(string, seq<BodyItem>)>) {
    topics != [] ==> ValidText(topics[0].0) && N.ValidItems(topics[0].1) && ValidTopics(topics[1..])
  }

  predicate ValidDefinitions(definitions: seq<(string, string)>) {
    definitions != [] ==> ValidText(definitions[0].0) && ValidText(definitions[0].1) && ValidDefinitions(definitions[1..])
  }

  predicate ValidCodes(codes: seq<Code>) {
    codes != [] ==> ValidCode(codes[0]) && ValidCodes(codes[1..])
  }

  ghost predicate ValidBodies(bodies: map<Field, seq<BodyItem>>) {
    forall f :: f in bodies ==> N.ValidItems(bodies[f])
  }

  ghost predicate ValidExport(n: NormalExport) {
    && ValidTexts(n.tldr)
    && ValidBodies(n.bodies)
    && ValidCodes(n.codeBlocks)
    && ValidTimeline(n.timeline)
    && ValidTopics(n.topics)
    && S.ValidSteps(n.steps)
    && ValidDefinitions(n.definitions)
  }

  lemma {:induction false} BodiesAreValid(bodies: map<Field, seq<BodyBlock>>, fields: seq<Field>)
    requires forall f :: f in bodies ==> N.SchemaBlocks(bodies[f])
    ensures NormalBodies(bodies, fields).Ok? ==> ValidBodies(NormalBodies(bodies, fields).value)
  {
    hide N.SchemaBlocks, N.ValidItems, B.NormalItems;
    if fields != [] {
      NoBlocks();
      N.ItemsAreValid(BodyOf(bodies, fields[0]), 0, None);
      BodiesAreValid(bodies, fields[1..]);
    }
  }

  lemma NoBlocks()
    ensures N.SchemaBlocks([])
  {
  }

  lemma {:induction false} CodesAreValid(blocks: seq<CodeBlock>)
    ensures ValidCodes(NormalCodes(blocks))
  {
    hide ValidCode, B.NormalCode;
    if blocks != [] {
      N.CodeIsValid(blocks[0]);
      CodesAreValid(blocks[1..]);
      var rest := NormalCodes(blocks[1..]);
      assert [] + rest == rest;
      if B.NormalCode(blocks[0]).Some? {
        assert ([B.NormalCode(blocks[0]).value] + rest)[1..] == rest;
      }
    }
  }

  lemma {:induction false} TimelineIsValid(entries: seq<(Option<string>, string)>, index: nat)
    ensures var r := NormalTimeline(entries, index); r.Ok? ==> ValidTimeline(r.value)
  {
    hide OneLine, IsLine, ValidCaption, Tables.OptionalLine;
    if entries != [] {
      N.OptionalLineIsValid(entries[0].0);
      OneLineIsLine(entries[0].1);
      TimelineIsValid(entries[1..], index + 1);
      var r, rest := NormalTimeline(entries, index), NormalTimeline(entries[1..], index + 1);
      assert r.Ok? ==> r.value[1..] == rest.value;
    }
  }

  lemma {:induction false} TopicsAreValid(topics: seq<(string, seq<BodyBlock>)>, index: nat)
    requires SchemaTopics(topics)
    ensures var r := NormalTopics(topics, index); r.Ok? ==> ValidTopics(r.value)
  {
    hide OneLine, IsLine, N.SchemaBlocks, N.ValidItems, B.NormalItems;
    if topics != [] {
      OneLineIsLine(topics[0].0);
      N.ItemsAreValid(topics[0].1, 0, None);
      TopicsAreValid(topics[1..], index + 1);
      var r, rest := NormalTopics(topics, index), NormalTopics(topics[1..], index + 1);
      assert r.Ok? ==> r.value[1..] == rest.value;
    }
  }

  lemma {:induction false} DefinitionsAreValid(definitions: seq<(string, string)>, index: nat)
    ensures var r := NormalDefinitions(definitions, index); r.Ok? ==> ValidDefinitions(r.value)
  {
    hide OneLine, IsLine;
    if definitions != [] {
      OneLineIsLine(definitions[0].0);
      OneLineIsLine(definitions[0].1);
      DefinitionsAreValid(definitions[1..], index + 1);
      var r, rest := NormalDefinitions(definitions, index), NormalDefinitions(definitions[1..], index + 1);
      assert r.Ok? ==> r.value[1..] == rest.value;
    }
  }

  lemma ExportIsValid(e: Export)
    requires SchemaExport(e)
    ensures NormaliseExport(e).Ok? ==> ValidExport(NormaliseExport(e).value)
  {
    hide N.SchemaBlocks, SchemaTopics, N.SchemaSteps, B.NonEmptyLines, NormalBodies, S.NormalSteps, NormalTimeline, NormalTopics,
      NormalDefinitions, NormalCodes, BlockChars, ValidTexts, ValidBodies, ValidCodes, ValidTimeline, ValidTopics, S.ValidSteps,
      ValidDefinitions;
    N.NonEmptyLinesAreValid(e.tldr);
    BodiesAreValid(e.bodies, BODY_FIELDS);
    CodesAreValid(e.codeBlocks);
    TimelineIsValid(e.timeline, 0);
    TopicsAreValid(e.topics, 0);
    N.StepsAcceptance(e.steps, 0);
    DefinitionsAreValid(e.definitions, 0);
  }
}

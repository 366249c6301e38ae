# Verification of the Obsidian Vault Gateway

This Dafny project models the logic of the Obsidian Vault Gateway, a service that lets a chat client search a vault,
create and append inbox notes, and export a conversation as one structured Markdown note. It proves what the Gateway
promises about five parts of that logic.

**The note printer** (`app/services/chat_export.py`). Untrusted client blocks (paragraphs, nested bullets, code, tables,
quotes, steps) are normalised, escaped, grouped and printed. `Text`, `Escape`, `Paragraph`, `Fence`, `Tables`, `BodyItems`,
`BulletLists`, `Grouping`, `Steps`, `Budget` and `Note` follow the code. `Headings` holds two readers of whole notes: one
looks at the left margin only, the other peels off every indentation, quote marker and list marker first (`Containers`).
`HeadingIntegrity` says that, whatever the client writes, both find exactly the Gateway's headings, and `SectionContents`
and `ExportContents` say what stands under them: a reader that cuts the note at its level-two headings (`SectionReader`)
finds the mode's layout, section by section, and in each the field its heading names, with everything the client sent. Fences,
bullet lists, tables, quotes, captions and steps each have their own reader, written from sections 2.4, 4.5 and 5.2 of the
CommonMark specification and section 4.10 of the GFM specification, and a round trip through it (`PrintedBlocks`,
`StepParts`); `AcceptedBullets` carries the one for bullets over to every accepted field. `KeptBlocks` and `VisibleText` say
what normalisation keeps of a block, `Charges` what the shared budget counts, and `BlockStarts` which lines get the escape.
`Blocks`, `FlatLines`, `Normalised` and `Neutral` hold the data model and the facts that carry the main theorem, and
`TabRuns` says where `one_line` departs from its description.

**The inbox** (`app/services/inbox_service.py`, `filenames.py`). `InboxModel` is a transition system, one file-system call
per step: a directory (names to inodes), inodes (content, mode, modification stamp), the append lock, and one program
counter per request. Any number of creates and appends run interleaved with a host that writes, puts, removes and links
files. `InboxInvariant` and `InboxSteps` prove an inductive invariant by rely and guarantee, one disk effect at a time;
`InboxHistory`, `InboxGrowth`, `InboxOutcomes`, `InboxRefusals`, `InboxNames`, `InboxFailures`, `InboxIdentity` and
`InboxProgress` draw the consequences for every run, `LineEndings` those for the style of a note, and `AppendedLines` those
for its lines, through a line reader of its own. `InboxService` is the same code as methods of a class, for one request at a
time, any call of which may raise. `FileNames` holds titles and candidate names, and `TitleStems` what a name has to do with
its title.

**Frontmatter** (`app/services/markdown_parser.py`). `JsonSafe` converts parsed YAML, a heap graph with sharing and cycles,
under three limits, and is compared with finite unfoldings; `JsonRoundTrip` embeds JSON values and gets them back.
`FrontmatterBlocks` says which block the search finds. `Frontmatter` compares the bounded streaming reader with the
search over the text it reads, and `ReaderAgreement` with the search over the note's raw text.

**Cursors and paging** (`cursor_service.py`, `search_service.py`, `application.py`). `Base64Url`, `CursorPayload`, `Cursor`,
`Search` and `Paging` go from strict base64 over signed cursors to the theorem that following `next_cursor` visits everything
once. `SearchRanking` says which notes match and which come first. `VaultSearch` joins them to the walk: of any vault and
accepted folder, the pages show exactly the matching notes.

**Walk and ranking** (`path_security.py`, `duplicate_notes.py`). `VaultWalk`, `VaultNotes` and `PathSyntax` relate the
prefix-filtered walk to the walk of a folder, and `PathShape` says which paths are accepted; `Duplicates` proves that the
report on possible duplicates does not depend on scan order or limit, and `DuplicateEvidence` on which evidence it rests.
`Ordering` holds the sorting facts both use.

Loops, in-place updates and clean-up blocks of the source are methods here, proved against a function on values; the
properties are lemmas about those functions.

## Assumptions

- Unicode NFC is taken as already applied, so it is the identity; NFKC with casefold is an arbitrary function. Text is a
  sequence of code points; the inbox works on bytes.
- HMAC, truncated to 16 bytes, is an arbitrary function of the body. `json.loads` is an arbitrary function that reads back
  what `json.dumps` wrote for a cursor payload; there is such a function for any digests (`SoundExists`). Percent-decoding is an arbitrary function.
- The schema checks of the client models are assumed where a block needs them (`SchemaExport`): a callout consists of 1 to 32
  letters, digits and hyphens, which its pattern implies, and a table has at least one header. Nothing is assumed of languages.
- Every write to a note's content gives it a new modification stamp, inode numbers are not reused, no two notes are hard
  links of each other, and nothing but the Gateway touches hidden names in the inbox while it runs; a crash may have left some
  before. The host does not write to a note
  between the `lstat` of an append (line 343 of `inbox_service.py`) and its `os.replace` (line 351): the code cannot see such
  a write.
- A vault's file names hold no slash, are not empty and are distinct within a folder.

## Where the code differs from its documentation

- `one_line` is described as collapsing runs of spaces and tabs, but the control characters go first, and tab is one: of
  `a`, tab, `b` it makes `ab`, not `a b` (`TabJoinsWords`). It does what is described exactly when every run of blanks inside
  the text holds a space (`TabRunsVanish`).
- `append_inbox_note` promises that a failed append leaves the note alone. It does, except when what fails is the directory
  `fsync` after the `os.replace` or the `stat` after that: `FailedButChanged` states this in both directions for every run,
  and `FailureMayHideSuccess` is such a run.
- An append promises to respect the note's line endings. It does, except that a note without CR LF that ends in a bare CR
  gets its first CR LF from the separating LF (`StyleIsKept` gives both directions).
- The separating line break is said to be inserted only if the note does not end in a line break. A note with CR LF that
  ends in a bare LF or CR gets one all the same, and reads with an empty line there (`LinesArrive` gives the exact condition,
  `MixedNoteGetsBlankLine` such a note).
- A table's caption is meant as a literal line above the table. If all headers of the table look like delimiter cells and the
  caption has as many cells as there are headers, a reader takes the caption for the header row (`TableReads` gives both
  directions, `CaptionTakenForHeader` such a table).
- The two frontmatter readers promise to agree. They do exactly unless the streaming read returns a block one of whose three
  line ends (of the opening delimiter, in front of the close, of the close) it has made from a bare CR, which the full read
  leaves alone (`ReadersAgree`; `LoneCrDivides` is such a note).
- Paging works beyond the 100,000 results its offset limit suggests: every sequence of page sizes succeeds for up to 100,001
  items, and with one item more pages of one item do not (`PagingBound`). In general following the cursors fails exactly when
  some page ends behind offset 100,000 and short of the end (`PagingVisitsAll`).

## Model

| member | source | states |
|---|---|---|
| Escape.OneLineIsLine | app/services/chat_export.py:530-549 | whatever the client sends becomes one trimmed line without line breaks, control characters or runs of blanks, and a second run changes nothing |
| VisibleText.OneLineKeepsInk | app/services/chat_export.py:530-549 | the line shows the same characters in the same order, whitespace and control characters aside |
| TabRuns.TabRunsVanish | app/services/chat_export.py:545-549 | collapsing spaces and tabs first would give the same line if and only if every run of blanks inside the text holds a space |
| TabRuns.TabJoinsWords | app/services/chat_export.py:545-549 | the smallest text on which it would not: a tab between two letters |
| Escape.EscapeOpensNoBlock | app/services/chat_export.py:1269-1295 | the escaped value matches none of the block-opening patterns; it is the value itself if and only if that already matches none, and otherwise has one backslash more |
| BlockStarts.EscapedIffOpening | app/services/chat_export.py:225-268 | a line is left as it is if and only if, position by position, it opens none of: heading, list item, quote, HTML block, link definition, fence, underline, thematic break, table delimiter; with the escape it opens none |
| PrintedBlocks.EscapeIsInvisible | app/services/chat_export.py:1269-1295 | a reader of backslash escapes shows the same text with and without the block-start escape |
| Paragraph.CanonicaliseParagraph | app/services/chat_export.py:557-634 | the loops that drop blank lines at both ends and outdent block starts compute the canonical lines |
| Paragraph.OutdentLoop | app/services/chat_export.py:621-634 | the block-start flag marks exactly the first line and the lines after a blank one |
| Paragraph.CanonicalLinesAreCanonical | app/services/chat_export.py:557-634 | no leading or trailing blank line, no trailing whitespace, no line break or control character in a line, no indentation where a block starts |
| Paragraph.CanonicalisationIdempotent | app/services/chat_export.py:557-634 | canonicalising the joined canonical lines gives the same lines |
| VisibleText.ParagraphKeepsInk | app/services/chat_export.py:557-634 | the canonical lines show the same characters in the same order as the content |
| Paragraph.RenderParagraph | app/services/chat_export.py:1447-1483 | the loop prints each line with its own text escaped and its indentation kept inside a paragraph only |
| Paragraph.RenderingIsFaithful | app/services/chat_export.py:1447-1483 | rendered lines and canonical lines correspond one to one, up to one backslash; none opens a block behind its indentation, and block starts have no indentation |
| PrintedBlocks.ParagraphShows | app/services/chat_export.py:1447-1483 | line by line, a printed paragraph is shown as its canonical lines |
| Fence.CanonicalCodeIsText | app/services/chat_export.py:816-840 | canonical code holds no carriage return and no control character but tab and newline |
| VisibleText.CodeKeepsInk | app/services/chat_export.py:816-840 | canonical code shows the same characters in the same order |
| VisibleText.CodeIsKept | app/services/chat_export.py:816-840 | a final newline aside, code without control characters and carriage returns is kept character by character |
| Fence.CanonicalCodeStable | app/services/chat_export.py:816-840 | a second canonicalisation changes nothing if and only if the content, line endings unified and control characters removed, does not end in two newlines |
| Fence.CodeIsNotIdempotent | app/services/chat_export.py:838-840 | the input on which a second run takes another newline |
| Fence.ContentDoesNotClose | app/services/chat_export.py:1337-1344 | no line of the content is a closing fence for the fence chosen for it |
| Fence.FenceIsShortest | app/services/chat_export.py:1337-1344 | the content nowhere holds as many backticks in a row as its fence has, and a shorter fence of three or more would not have that |
| Fence.RenderFencedCode | app/services/chat_export.py:1347-1362 | the printed lines are caption, fence, content and fence, each non-empty line behind the indent |
| Fence.FenceRoundTrip | app/services/chat_export.py:1337-1362 | behind every indent and before any further lines, the reader closes at the last rendered line and recovers info string and content exactly |
| PrintedBlocks.CaptionIsLiteral | app/services/chat_export.py:1316-1334 | a caption is shown letter for letter, whatever marks and backslashes it holds |
| PrintedBlocks.CodeReads | app/services/chat_export.py:1347-1362 | a code block is read back with its caption and its content, and the lines behind it are left alone |
| PrintedBlocks.LanguageIsShown | app/services/chat_export.py:843-850 | a language is printed if and only if it is 1 to 32 letters, digits and `+#._-`, the first a letter or a digit |
| Tables.NormaliseTable | app/services/chat_export.py:637-683 | the loops over headers and rows give the normal form or the first offence |
| Tables.TableAcceptance | app/services/chat_export.py:637-683 | accepted if and only if every header has text, alignments match the headers and every row is as wide; otherwise the first offence in that order of checks |
| Tables.RowRoundTrip | app/services/chat_export.py:1368-1386 | splitting a rendered row at unescaped pipes, trimming and unescaping gives back the cells, with any backslashes and pipes in them |
| Tables.TableRoundTrip | app/services/chat_export.py:1385-1409 | the reader recovers headers, alignments and rows of the whole table, all of one width |
| PrintedBlocks.TableReads | app/services/chat_export.py:1397-1409 | a table is read back with its caption if and only if it is not so that its headers are all delimiter cells and the caption has as many cells |
| PrintedBlocks.CaptionTakenForHeader | app/services/chat_export.py:1397-1409 | a table whose caption is read as its header row |
| PrintedBlocks.QuoteReads | app/services/chat_export.py:1420-1436 | a quote is read back with callout and title exactly and with its lines as the client's lines are shown; no client line is taken for a callout |
| PrintedBlocks.TitleHasCallout | app/services/chat_export.py:686-717 | no quote with a title but without a callout gets past the normaliser |
| Budget.ParagraphIsChargedInFull | app/services/chat_export.py:940-961 | a paragraph is charged exactly the length of its text, line breaks included |
| Charges.ChargeIsLength | app/services/chat_export.py:923-1032 | the whole charge is the length of every text inside a rich block, each counted once: content, captions, headers, cells, titles, quote lines and paragraphs |
| BodyItems.NormaliseBodyItems | app/services/chat_export.py:752-813 | the loop with its running depth gives the surviving items or the first error with the client's index |
| BodyItems.Acceptance | app/services/chat_export.py:752-813 | bullets are accepted if and only if every maximal surviving run starts at depth 0 and never rises by more than one, with dropped items not counting; the result is then the survivors |
| BodyItems.RejectionIsFirst | app/services/chat_export.py:752-813 | a rejection names a client item, and everything in front of it would have been accepted |
| KeptBlocks.BlockIsKept | app/services/chat_export.py:752-813 | a block is dropped if and only if there is nothing to see in it; otherwise its item keeps the visible text of every part in place, and depth, checkbox, language, callout and alignments as they were |
| KeptBlocks.FieldIsKept | app/services/chat_export.py:752-813 | an accepted field holds exactly the blocks with something to see in them, each kept so, in the client's order |
| KeptBlocks.ItemComesBack | app/services/chat_export.py:752-813 | every item in normal form, sent again, comes back with all its fields |
| BulletLists.ClimbingIsPreorder | app/services/chat_export.py:720-749 | every run that climbs by at most one from 0 is the preorder of a forest |
| BulletLists.PreorderDetermines | app/services/chat_export.py:1486-1497 | that forest is the only one |
| BulletLists.BulletReads | app/services/chat_export.py:1486-1497 | reading a printed bullet gives back its column, its checkbox and its escaped text |
| BulletLists.BulletRoundTrip | app/services/chat_export.py:1486-1497 | reading the printed lines of a nesting run by indentation rebuilds its forest |
| AcceptedBullets.AcceptedBulletsReadBack | app/services/chat_export.py:1500-1540 | every bullet group of every accepted field prints as text that reads back to its own forest, the only one with that preorder |
| Grouping.GroupsAreGrouped | app/services/chat_export.py:1500-1540 | the groups concatenate to the items in client order, each a bullet run or one other item, no two bullet runs adjacent |
| Grouping.GroupingIsUnique | app/services/chat_export.py:1500-1540 | there is only one such grouping |
| Grouping.RenderBodyItems | app/services/chat_export.py:1500-1540 | the loop with its flushed buffer prints one block per group, one blank line apart |
| Grouping.RenderBlock | app/services/chat_export.py:1531-1538 | the text of one block that is no bullet |
| Steps.NormaliseSteps | app/services/chat_export.py:881-912 | the loop drops empty steps and names the first step that does not start with text |
| Normalised.StepsAcceptance | app/services/chat_export.py:881-912 | accepted if and only if every part is and every surviving step starts with text; the result is the surviving steps, in order |
| KeptBlocks.StepsAreKept | app/services/chat_export.py:881-912 | accepted steps are exactly the client's steps with something to see in them, each with exactly such parts, in order |
| Normalised.ItemsAreValid | app/services/chat_export.py:752-813 | every accepted item satisfies what its printer relies on |
| Steps.RenderStep | app/services/chat_export.py:1543-1577 | the loop prints the first text behind its marker and everything else behind the marker's own width |
| Steps.RenderPart | app/services/chat_export.py:1556-1577 | the indented lines of one part |
| Steps.StepsRoundTrip | app/services/chat_export.py:1543-1577 | splitting the printed steps at unindented lines gives steps 1 to n with the right numbers, each holding its own parts in order, also when the marker grows a digit |
| StepParts.StepPartsRead | app/services/chat_export.py:1543-1577 | the inside of every step is cut back into its parts, in order, whatever blank lines and fences its code holds |
| StepParts.StepReads | app/services/chat_export.py:1543-1577 | each of these parts is read back as the text, code, table or quote it is, but for tables whose caption passes for the header row |
| Note.ExportIsValid | app/services/chat_export.py:1111-1219 | whatever normalisation accepts satisfies what the printers rely on |
| ExportContents.NormalisedIsKept | app/services/chat_export.py:1111-1219 | an export is normalised if and only if each field is well formed on its own and the budget suffices; every field is then kept whole, in order |
| ExportContents.AcceptedExactly | app/services/chat_export.py:1222-1255 | a normalised export is accepted if and only if every field that holds something has a section in its mode and the mode's required field is there; the rejected fields are exactly those that would be lost |
| ExportContents.NothingIsDropped | app/services/chat_export.py:1111-1255 | an accepted export keeps everything there is to see, and every field that holds something has its section |
| HeadingIntegrity.HeadingIntegrity | app/services/chat_export.py:1645-1659 | for every accepted export, title and related notes, a reader of the whole note finds exactly the Gateway's headings and the topics' own, in order: at the left margin, and also behind all indentation, quote markers and list markers |
| HeadingIntegrity.SectionsAreFixed | app/services/chat_export.py:134-147 | the level-two headings among them depend only on the mode and on whether there is code |
| HeadingIntegrity.NoteSectionsAreFixed | app/services/chat_export.py:1645-1659 | the `## ` lines either reader finds in a rendered note are the Gateway's list for the mode, with the code section if and only if some code block survives |
| SectionContents.PrintedSections | app/services/chat_export.py:1605-1659 | cutting a rendered note at its level-two headings gives the title, then exactly the sections of the mode's layout, each showing the field its heading names: sentences, timeline entries, topics, steps, definitions, code, links or body, or its placeholder |
| ExportContents.NoteHoldsExport | app/services/chat_export.py:505-527 | the same for every export the Gateway accepts, any title and any related notes, with the fields holding all the client sent |
| FileNames.SanitisedIsStem | app/services/filenames.py:30-49 | an accepted title gives 1 to 100 safe characters that neither start nor end with a dot or a space |
| TitleStems.StemIsOneComponent | app/services/filenames.py:17-49 | an accepted stem holds none of the nine forbidden characters, each named, and every candidate name is one visible path component |
| TitleStems.TidyTitle | app/services/filenames.py:30-49 | a title with nothing to tidy gives itself, with one hyphen in the place of each forbidden character; only reserved names are refused |
| TitleStems.CleanNameIsKept | app/services/filenames.py:30-49 | a title that is already a clean name comes back unchanged, unless its base name is reserved |
| TitleStems.TitleKeepsLetters | app/services/filenames.py:30-49 | of any title, the stem has the letters in order, forbidden ones as hyphens, and all of them if the title has at most 100 characters |
| TitleStems.EmptyTitles | app/services/filenames.py:44-45 | refused as empty if and only if there is nothing but whitespace, control characters and dots |
| TitleStems.ReservedTitles | app/services/filenames.py:46-47 | refused as reserved if and only if the base name is one of the 22 device names, in any case |
| TitleStems.SanitisingIsIdempotent | app/services/filenames.py:30-49 | sanitising an accepted stem gives it back |
| FileNames.CandidatesAreDistinct | app/services/filenames.py:52-58 | the candidate names of one stem are pairwise distinct and not hidden |
| TitleStems.CandidatesInOrder | app/services/filenames.py:52-58 | the first candidate is the stem itself, the others carry the numbers 2, 3, ... behind a hyphen, in order |
| LineEndings.AppendedStyle | app/services/inbox_service.py:253-271 | in a CRLF note everything appended is in CR LF pairs, in any other note it holds no CR; it ends in the note's line ending |
| LineEndings.StyleIsKept | app/services/inbox_service.py:253-271 | a note has CR LF after an append if and only if it had one before or ends in a bare CR, and it ends in its line ending |
| LineEndings.BareCrTurnsIntoCrlf | app/services/inbox_service.py:269-270 | the smallest note whose style does change |
| AppendedLines.LinesArrive | app/services/inbox_service.py:253-271 | for every note and every text, the note stays in front as it is, and its lines are followed by the client's, each once and in order, with one empty line between them if and only if the note has CR LF and ends in a bare LF or CR |
| AppendedLines.MixedNoteGetsBlankLine | app/services/inbox_service.py:269-270 | a note that gets the empty line |
| AppendedLines.OneStyleStays | app/services/inbox_service.py:253-271 | a note whose line breaks are all LF, or all CR LF, never gets it, and stays of one style |
| AppendedLines.NotesReadInOrder | app/services/inbox_service.py:274-361 | in every run without host writes, such a note reads as its beginning followed by the lines of all appends that landed, in the order they landed |
| InboxSteps.StepKeeps | app/services/inbox_service.py:121-361 | every step of every request and of the host keeps the invariant |
| InboxSteps.RunKeeps | app/services/inbox_service.py:121-361 | every run keeps the invariant |
| InboxSteps.Replaces | app/services/inbox_service.py:342-355 | replacing the target keeps the invariant: the temp file is complete and private, and the note is what was read |
| InboxSteps.LinksName | app/services/inbox_service.py:137-154 | linking a free name keeps the invariant |
| InboxSteps.TempFills | app/services/inbox_service.py:171-194 | writing the temp file, in any portions, keeps the invariant: no one else sees it |
| InboxHistory.StepExplained | app/services/inbox_service.py:121-361 | a step leaves all notes alone or does exactly what one lawful record says |
| InboxHistory.NotesAreReplayed | app/services/inbox_service.py:121-361 | in every run, host included, the notes are the initial ones with the history replayed: created notes appear whole with mode 0644 under names no directory entry had at that moment, appends extend what is there at that moment, keep its mode and stay within their limit |
| InboxGrowth.FinalContent | app/services/inbox_service.py:274-361 | without host writes each note is its beginning folded with the appends that landed on it, each once and in order |
| InboxGrowth.NotesAreFolds | app/services/inbox_service.py:253-271 | the same for any lawful history |
| InboxGrowth.NotesOnlyGrow | app/services/inbox_service.py:274-361 | between any two moments without host writes every note keeps its mode and grows by suffix only |
| InboxGrowth.CreatesAreDistinct | app/services/inbox_service.py:137-154 | in any lawful history without host writes, successful creates get pairwise distinct names, none of which was a note before |
| InboxOutcomes.OutcomesAreTrue | app/services/inbox_service.py:121-361 | a request that reports success changed exactly its note exactly once; one that reports failure changed nothing, except when only a call after the change failed |
| InboxOutcomes.DoneAsAsked | app/services/inbox_service.py:121-361 | every record in the history is the job its request arrived with |
| InboxOutcomes.LandsUnderLock | app/services/inbox_service.py:221-250 | an append lands while its request holds the lock |
| InboxRefusals.RefusedExactly | app/services/inbox_service.py:274-349 | in every run, host included, an append is refused for a reason (unfit or missing target, symlink, too large, modified) if and only if at some moment one of its own calls saw that reason |
| InboxNames.NothingLeftBehind | app/services/inbox_service.py:159-160 | hidden names found at the start stay as they are; every other one, and the lock, belong to an unfinished request |
| InboxNames.GivesUpAfterAll | app/services/inbox_service.py:136-158 | a create that fails for want of a name arrived with that stem, and each of its 100 pairwise distinct candidates had a directory entry at some moment of the run |
| InboxNames.CreatesGetFreeNames | app/services/inbox_service.py:137-154 | without host writes, created names are visible, pairwise distinct and had no entry, note or symlink, at the start |
| InboxFailures.FailedButChanged | app/services/inbox_service.py:350-361 | a request that reports failure has changed a note if and only if the call that raised was the directory `fsync` or the `stat` after the change |
| InboxFailures.FailureMayHideSuccess | app/services/inbox_service.py:350-361 | a run whose one append reports failure and has extended its note |
| InboxIdentity.HostDooms | app/services/inbox_service.py:343-349 | a host change of the note between `fstat` and the check makes it differ from what was read |
| InboxIdentity.ChangedNoteFails | app/services/inbox_service.py:343-349 | from then on that append can only fail, and changes nothing, in every continuation |
| InboxIdentity.UndisturbedNeverModified | app/services/inbox_service.py:343-349 | without host writes no append ends in NOTE_MODIFIED, however many others run |
| InboxProgress.RunsToItsEnd | app/services/inbox_service.py:121-361 | from every reachable state, a request that no other one keeps from the lock is done after a number of its own calls that the state bounds, whichever of them raise; no other request has moved, and the lock it held is given back |
| InboxProgress.HolderMayGo | app/services/inbox_service.py:310-357 | whoever holds the lock is such a request |
| InboxProgress.EveryoneCanFinish | app/services/inbox_service.py:121-361 | no reachable state is a dead end: calls that return bring all requests to their end, and then the lock is free and the hidden names are those of the start |
| InboxService.Inbox.WriteTempBytes | app/services/inbox_service.py:171-194 | a complete private temp file with the wanted mode, or an unchanged directory if a call raised |
| InboxService.Inbox.CreateInboxNote | app/services/inbox_service.py:121-160 | the answer for every inbox, hidden names left by a crash included, and for each call that may raise: the first free candidate gets the whole text with mode 0644 and no other name is touched, or nothing changes; no temp file stays |
| InboxService.Inbox.ReadAll | app/services/inbox_service.py:322-328 | the chunked read returns the whole content, or raises exactly if a read within it does |
| InboxService.Inbox.AppendLocked | app/services/inbox_service.py:313-355 | under the lock the note is extended, keeping its mode, and no other name is touched, or nothing changes, with the exact answer |
| InboxService.Inbox.AppendInboxNote | app/services/inbox_service.py:274-361 | the same for the whole call and for each call that may raise, in the code's order of refusals; lock and temp file are always released |
| JsonSafe.UnfoldingIsUnique | app/services/markdown_parser.py:318-365 | a value of the graph has at most one finite unfolding |
| JsonSafe.OkUnfolds | app/services/markdown_parser.py:318-365 | a conversion that succeeds is an unfolding, with the counters it charged and the depth it reached |
| JsonSafe.UnfoldingConverts | app/services/markdown_parser.py:318-365 | an unfolding within the limits is converted, through any sharing |
| JsonSafe.ConvertsExactly | app/services/markdown_parser.py:302-365 | conversion succeeds if and only if a finite unfolding fits the limits on depth, nodes and characters, and then returns exactly that unfolding |
| JsonSafe.CycleErrorIsHonest | app/services/markdown_parser.py:336-338 | the cycle error is raised only if some container in reach lies below itself |
| JsonSafe.Walk | app/services/markdown_parser.py:318-365 | the recursion with mutable counters and active set computes the conversion and leaves the active set as it was, on return and on every error |
| JsonSafe.ConvertYaml | app/services/markdown_parser.py:302-315 | the whole law for the entry point |
| JsonRoundTrip.JsonComesBack | app/services/markdown_parser.py:318-365 | what the loader gives for a JSON value, shared or not, is converted to exactly that value if it fits the limits |
| JsonRoundTrip.OthersBecomeText | app/services/markdown_parser.py:328-365 | non-finite numbers, dates and all else become their own text, the first at no charge |
| JsonRoundTrip.DictionaryMerges | app/services/markdown_parser.py:343-352 | a dictionary has its distinct keys in the order of their first occurrence, each with the value of its last |
| Frontmatter.StreamsToClose | app/services/markdown_parser.py:154-164 | from any line start of any text the streaming loop returns the part up to the delimiter the search finds, if and only if it fits both bounds |
| FrontmatterBlocks.BlockIsFound | app/services/markdown_parser.py:32-34 | the search finds a block if and only if the text starts with a delimiter line and another starts a line behind it, and then up to the first such line |
| Frontmatter.ReadFrontmatterText | app/services/markdown_parser.py:124-164 | for every note: of its text with line endings folded, the prefix up to the closing delimiter the search over that whole text finds, if it fits 65,536 characters and 1,000 lines after the first, and nothing otherwise |
| ReaderAgreement.ReadersAgree | app/services/markdown_parser.py:142-176 | for every note the streaming read and the full read find the same block or the same none, within the bounds, if and only if it is not so that the streaming read returns a block one of whose three line ends is a bare CR of the note |
| ReaderAgreement.LoneCrDivides | app/services/markdown_parser.py:147-152 | a note with bare carriage returns in which one reader finds a block and the other none |
| ReaderAgreement.SameYaml | app/services/markdown_parser.py:167-186 | whenever they agree on a block, splitting it gives the YAML text of the full read, folded, and nothing behind it |
| Base64Url.DecodesExactly | app/services/cursor_service.py:70-92 | strict decoding gives a byte string exactly on its own encoding; only the empty one is turned away |
| Base64Url.AcceptsCanonical | app/services/cursor_service.py:74-92 | accepted if and only if all letters are of the URL-safe alphabet, the length is possible and the tail bits are zero |
| Base64Url.DecodingIsInjective | app/services/cursor_service.py:74-92 | no two accepted strings decode alike |
| Base64Url.EncodedLength | app/services/cursor_service.py:70-71 | the length of an encoding |
| Cursor.CursorRoundTrip | app/services/cursor_service.py:95-151 | an encoded cursor decodes under its own operation and fingerprint to its offset and is rejected under any other |
| Cursor.AcceptedIsGenuine | app/services/cursor_service.py:113-151 | an accepted cursor is its body with that body's own signature, says this request and holds an offset in range |
| Cursor.CursorsFit | app/services/cursor_service.py:95-110 | search and tree cursors have at most 109 characters, so encoding succeeds exactly for offsets 0 to 100,000 |
| CursorPayload.PayloadIsInjective | app/services/cursor_service.py:95-110 | no two requests, and no two offsets of one request, have the same payload |
| CursorPayload.SoundExists | app/services/cursor_service.py:95-151 | for any digests there is a reader of payloads that satisfies what the cursor theorems assume |
| Search.OrderIsTheOrder | app/services/search_service.py:202-202 | the order of the results is the only arrangement of the hits by score, time and path |
| Search.SearchNotes | app/services/search_service.py:148-205 | the loop finds exactly the readable notes that match, counts what it could not read, and cuts the window out of that order |
| SearchRanking.ResultsMatch | app/services/search_service.py:148-200 | a note is a result if and only if it could be read, has every required tag, and the text, if there is one, stands somewhere in some field |
| SearchRanking.ScoreIsPositive | app/services/search_service.py:86-110 | the score is positive if and only if the text stands somewhere in some field |
| SearchRanking.WeightierFieldFirst | app/services/search_service.py:33-37 | of two notes that match in one field each, title comes before file name, heading, tag and body, in this order, whatever time and path are |
| SearchRanking.MoreFieldsFirst | app/services/search_service.py:86-110 | a further matching field always moves a note up |
| SearchRanking.AlikeByTimeAndPath | app/services/search_service.py:202-202 | notes that match alike stand by time, newest first, then by path |
| SearchRanking.BetterIsEarlier | app/services/search_service.py:202-202 | what is better stands earlier in the order every page is cut from |
| Paging.PageStep | app/application.py:79-112 | a page is the window at the cursor's offset; it can be given if and only if it is the last or ends at an offset a cursor can hold, and its next cursor stands for its end |
| Paging.FollowFrom | app/application.py:102-158 | from any offset of any order, pages of any sizes are given if and only if each ends at the end or at an offset a cursor can hold; they are then the items from there on, without gap or repeat |
| Paging.PagingVisitsAll | app/application.py:114-235 | following the cursors fails if and only if some page ends behind offset 100,000 and short of the end; otherwise every item is visited exactly once and the cursor is null exactly when all have been |
| Paging.SearchVisitsAll | app/application.py:114-158 | the same for a search with any limits from 1 to 200, clamped by the server, over its one order |
| Paging.TreeVisitsAll | app/application.py:183-227 | the same for the children of a folder with limits from 1 to 500 |
| Paging.PagingBound | app/application.py:102-112 | every sequence of page sizes succeeds if and only if there are at most 100,001 items; with more, 100,001 pages of one item do not |
| VaultWalk.IterFiles | app/services/path_security.py:355-373 | the loop over one folder's files yields and counts what the specification does |
| VaultWalk.IterVaultNotes | app/services/path_security.py:323-373 | the recursive walk with its mutable counter yields and counts what the specification does |
| VaultWalk.FilteredIsSubtree | app/services/path_security.py:335-345 | the walk with prefix `F/` is the walk from F with `F/` in front, same order and same skips; nothing if F is not a chain of real visible folders |
| VaultNotes.WalkFindsEligible | app/services/path_security.py:326-334 | a note is found if and only if it is a visible regular `.md` file reached through real visible folders |
| VaultNotes.WalkDistinct | app/services/path_security.py:323-373 | no path is found twice |
| PathSyntax.CheckEveryEncoding | app/services/path_security.py:88-101 | accepted if and only if the path and its first three decodings pass; otherwise the error of the first that fails |
| PathShape.AcceptedPaths | app/services/path_security.py:61-85 | one check accepts exactly the paths of sound shape, said character by character, that end in `.md` where a note is wanted; only that end has its own error |
| PathShape.FoundCanBeRead | app/services/path_security.py:61-85 | a path handed out by the walk passes the check for reading if and only if it is portable: no NUL, no backslash, no drive, not too long |
| PathSyntax.NormaliseRelativeDir | app/services/path_security.py:112-128 | accepted if and only if the trimmed input starts with no slash and, without its trailing slashes, is not empty and passes in every encoding; the folder is then that text |
| PathSyntax.FolderSearchIsSubtree | app/services/search_service.py:145-149 | a search in an accepted folder sees the notes and skips of a walk from that folder |
| VaultSearch.FilteredFinds | app/services/path_security.py:323-373 | the walk of a search finds exactly the eligible notes of its folder, each once |
| VaultSearch.SearchFindsMatches | app/services/search_service.py:145-202 | of every vault and accepted folder, however its notes read, the order of the results is strictly sorted by score, time and path and holds exactly the matches among the eligible notes of that folder |
| VaultSearch.PagesShowMatches | app/application.py:114-158 | following such a search to its last page shows exactly those matches in that order; it fails if and only if some page ends behind offset 100,000 and short of the end |
| Duplicates.NormaliseKeywords | app/services/duplicate_notes.py:110-130 | the loop with its seen set keeps the first of each folded keyword |
| Duplicates.KeywordsAreDistinct | app/services/duplicate_notes.py:110-130 | no two kept keywords fold alike, and every keyword that is not blank is represented |
| Duplicates.EvidenceNeverHurts | app/services/duplicate_notes.py:137-166 | a stronger title signal, an added project match or more matched keywords never lower the confidence |
| DuplicateEvidence.EvidenceDecides | app/services/duplicate_notes.py:137-166 | high, medium, low and none, each by the exact evidence for it |
| DuplicateEvidence.TitleMatches | app/services/duplicate_notes.py:211-340 | exactly the title: the note's own title prints as the same line; loosely: its title, or without one its file name with or without a number, has the same words |
| DuplicateEvidence.KeysAreWords | app/services/duplicate_notes.py:83-93 | two texts have one key if and only if they have the same words, case and width aside |
| DuplicateEvidence.SuffixIsTaken | app/services/duplicate_notes.py:133-134 | a hyphen and digits at the end of a stem are taken off, and nothing else is |
| DuplicateEvidence.CreatedNoteMatches | app/services/duplicate_notes.py:211-340 | a note the Gateway created for a stem is recognised by that stem, whichever number its file name got |
| DuplicateEvidence.ProjectsMatch | app/services/duplicate_notes.py:96-107 | projects match if and only if both are named, with the same words |
| DuplicateEvidence.KeywordsOccur | app/services/duplicate_notes.py:211-340 | the keywords counted are exactly those that stand in the title or in a tag |
| DuplicateEvidence.CandidateShows | app/services/duplicate_notes.py:211-362 | every candidate is the note it stands for, shown under its own title or its file name, with exactly the title match, project match and keywords that note gives, and the confidence they decide |
| DuplicateEvidence.ConfidenceFirst | app/services/duplicate_notes.py:371-378 | more confidence comes first, whatever the scores are |
| DuplicateEvidence.ScoreInKeywords | app/services/duplicate_notes.py:43-46 | counted in keywords, an exact title is worth twenty, a loose one fifteen, the project five |
| Duplicates.FindDuplicateCandidates | app/services/duplicate_notes.py:211-409 | the loop, its counters and the sort give the report |
| Duplicates.ScanOrderIsIrrelevant | app/services/duplicate_notes.py:371-378 | the whole report is the same for every order of the scan |
| Duplicates.LimitOnlyCuts | app/services/duplicate_notes.py:380-409 | a smaller limit gives a prefix and changes nothing else; nothing left out is more confident than anything shown |
| Duplicates.RecommendFromTop | app/services/duplicate_notes.py:380-387 | the recommendation is what the two best candidates say |
| Duplicates.ConfirmShowsTheOne | app/services/duplicate_notes.py:380-387 | on "confirm" the only high candidate comes first at every limit, and all others are low |

## Left out

- Bearer tokens, request models, MCP and HTTP wiring, configuration and logging: thin layers over libraries.
- Length caps of the request schema: the theorems hold for inputs of any length. The shared budget of 100,000 block characters is modelled.
- Tags, project and the YAML text of a new note's frontmatter; `_render_note` of plain notes: a create takes its rendered text as given.
- Inline Markdown and Obsidian syntax inside a line: only block structure and backslash escapes are modelled. Link reference definitions and HTML blocks are covered only through the escape patterns.
- The heading readers know headings, fences, and what stands in front of them; which list item or quote a heading would belong to is not modelled.
- fsync durability, crash recovery, umask, owners, and real file descriptors: a request's open file is its inode.
- The lock's polling interval and clock: a request waiting for the lock may time out at any moment.
- InboxSteps.StepKeeps: the removal of a temp file is taken not to fail, and a temp name is not reused between the replace and the final unlink, because the token is random.
- InboxIdentity.ChangedNoteFails: a change of mode alone is not modelled, because the identity check does not look at it.
- Resolving an append path against the inbox prefix, the check for blank append content, and targets that are no regular files: a target is a name in the inbox, and an entry is a note or a symlink. The lock file's own checks count as a lock that times out.
- `iter_directory`, `list_tree`, `resolve_read_path`, related notes, vault summary and tag counts: they repeat checks and slices already covered.
- YAML parsing and the choice of loader: the YAML text is compared, not parsed.
- Search excerpts and the fold itself; cursors with characters outside ASCII, which fail in encoding before the strict check.
- Duplicates.FindDuplicateCandidates: the text of matched signals is kept as the title signal and the project flag they are made from.

/** Scoped duplicate detection: which inbox notes look like the one about to be exported, and how sure that is. */
module Duplicates {
  import opened Text
  import opened Escape
  import opened Ordering

  /** What the Unicode tables decide: NFKC with casefold. */
  datatype Unicode = Unicode(fold: string -> string)

  // ----- Keys -----

  /** The words of `s`, one space apart. */
  function CollapseWhitespace(s: string): string {
    Strip(Collapse(s, IsSpace, ' '))
  }

  function NormalizedTitleKey(u: Unicode, title: string): string {
    CollapseWhitespace(u.fold(title))
  }

  function ProjectKey(u: Unicode, project: Option<string>): Option<string> {
    if project.None? || CollapseWhitespace(u.fold(project.value)) == "" then None
    else Some(CollapseWhitespace(u.fold(project.value)))
  }

  /** Length of the longest run of digits at the end. */
  function DigitsAtEnd(s: string): (n: nat)
    ensures n <= |s|
  {
    if s == "" || !IsDigit(s[|s| - 1]) then 0 else 1 + DigitsAtEnd(s[..|s| - 1])
  }

  function WithoutSuffix(s: string): string {
    var digits := DigitsAtEnd(s);
    if digits > 0 && digits < |s| && s[|s| - digits - 1] == '-' then s[..|s| - digits - 1] else s
  }

  /** The stem without a hyphen and digits at its end, where a final line feed does not count as the end. */
  function StripSequenceSuffix(stem: string): string {
    if stem != "" && stem[|stem| - 1] == '\n' then WithoutSuffix(stem[..|stem| - 1]) + "\n" else WithoutSuffix(stem)
  }

  // ----- Keywords -----

  /** `normalise_keywords`: trimmed, without blanks, the first of each folded key. */
  function NormalKeywords(u: Unicode, keywords: seq<string>): seq<string> {
    if keywords == [] then []
    else
      var earlier := NormalKeywords(u, keywords[..|keywords| - 1]);
      var stripped := Strip(keywords[|keywords| - 1]);
      if stripped == "" || u.fold(stripped) in Folded(u, earlier) then earlier else earlier + [stripped]
  }

  function Folded(u: Unicode, keywords: seq<string>): seq<string> {
    if keywords == [] then [] else Folded(u, keywords[..|keywords| - 1]) + [u.fold(keywords[|keywords| - 1])]
  }

  method NormaliseKeywords(u: Unicode, keywords: seq<string>) returns (result: seq<string>)
    ensures result == NormalKeywords(u, keywords)
  {
    var seen: set<string> := {};
    result := [];
    for i := 0 to |keywords|
      invariant result == NormalKeywords(u, keywords[..i])
      invariant forall k :: k in seen <==> k in Folded(u, result)
    {
      assert keywords[..i + 1][..i] == keywords[..i];
      var stripped := Strip(keywords[i]);
      if stripped == "" {
        continue;
      }
      var folded := u.fold(stripped);
      if folded in seen {
        continue;
      }
      seen := seen + {folded};
      assert (result + [stripped])[..|result|] == result;
      result := result + [stripped];
    }
    assert keywords[..|keywords|] == keywords;
  }

  ghost predicate NoRepeats(xs: seq<string>) {
    forall i, j :: 0 <= i < j < |xs| ==> xs[i] != xs[j]
  }

  /** No two kept keywords fold alike, and every keyword that is not blank is represented. */
  lemma {:induction false} KeywordsAreDistinct(u: Unicode, keywords: seq<string>)
    ensures NoRepeats(Folded(u, NormalKeywords(u, keywords)))
    ensures forall i :: 0 <= i < |keywords| && Strip(keywords[i]) != "" ==> u.fold(Strip(keywords[i])) in Folded(u, NormalKeywords(u, keywords))
  {
    hide Strip;
    if keywords != [] {
      var earlier := NormalKeywords(u, keywords[..|keywords| - 1]);
      KeywordsAreDistinct(u, keywords[..|keywords| - 1]);
      var stripped := Strip(keywords[|keywords| - 1]);
      assert (earlier + [stripped])[..|earlier|] == earlier;
      assert Folded(u, earlier + [stripped]) == Folded(u, earlier) + [u.fold(stripped)];
      forall i | 0 <= i < |keywords| && Strip(keywords[i]) != ""
        ensures u.fold(Strip(keywords[i])) in Folded(u, NormalKeywords(u, keywords))
      {
        if i < |keywords| - 1 {
          assert keywords[..|keywords| - 1][i] == keywords[i];
        }
      }
    }
  }

  // ----- _confidence -----

  datatype Signal = NoTitle | NormalizedTitle | ExactTitle

  datatype Confidence = High | Medium | Low

  function Decide(title: Signal, projectMatch: bool, matched: nat, total: nat): Option<Confidence> {
    if title.ExactTitle? then Some(High)
    else if title.NormalizedTitle? && projectMatch then Some(High)
    else if title.NormalizedTitle? then Some(Medium)
    else if projectMatch && matched >= 2 then Some(Medium)
    else if projectMatch then None
    else if matched > 0 && total > 0 && matched >= 2 && matched >= (total + 1) / 2 then Some(Low)
    else None
  }

  function Strength(c: Option<Confidence>): nat {
    if c.None? then 0 else if c.value.Low? then 1 else if c.value.Medium? then 2 else 3
  }

  predicate SignalAtMost(a: Signal, b: Signal) {
    a.NoTitle? || b.ExactTitle? || a == b
  }

  /** More evidence never makes the decision weaker. */
  lemma EvidenceNeverHurts(t: Signal, t': Signal, p: bool, p': bool, matched: nat, matched': nat, total: nat)
    requires SignalAtMost(t, t') && (p ==> p') && matched <= matched'
    ensures Strength(Decide(t, p, matched, total)) <= Strength(Decide(t', p', matched', total))
  {
    if Decide(t, p, matched, total) == Some(Low) && p' {
      assert matched' >= 2;
    }
  }

  // ----- The scan -----

  /** What the inbox listing and the frontmatter of its entries give. */
  datatype Found =
    | NotANote              // a folder, or an entry without `stat`
    | BadName               // not a path an append would accept
    | Unreadable
    | Readable(path: string, stem: string, mtime: int, title: Option<string>, project: Option<string>, tags: seq<string>)

  datatype Input = Input(title: string, project: Option<string>, keywords: seq<string>)

  datatype Candidate = Candidate(
    path: string, title: string, project: Option<string>, tags: seq<string>, confidence: Confidence,
    signal: Signal, projectMatch: bool, matched: seq<string>, mtime: int, score: nat)

  const SCORE_EXACT_TITLE := 400
  const SCORE_NORMALIZED_TITLE := 300
  const SCORE_PROJECT := 100
  const SCORE_KEYWORD := 20

  predicate AnyContains(u: Unicode, tags: seq<string>, part: string) {
    tags != [] && (Contains(u.fold(tags[0]), part) || AnyContains(u, tags[1..], part))
  }

  /** The keywords found in the title or in a tag. */
  function Matched(u: Unicode, keywords: seq<string>, title: string, tags: seq<string>): seq<string> {
    if keywords == [] then []
    else
      var hit := Contains(u.fold(title), u.fold(keywords[0])) || AnyContains(u, tags, u.fold(keywords[0]));
      (if hit then [keywords[0]] else []) + Matched(u, keywords[1..], title, tags)
  }

  function TitleSignal(u: Unicode, title: string, note: Found): Signal
    requires note.Readable?
  {
    var hasTitle := note.title.Some? && Strip(note.title.value) != "";
    var shown := if hasTitle then Strip(note.title.value) else note.stem;
    var wanted := NormalizedTitleKey(u, title);
    if hasTitle && OneLine(shown) == OneLine(title) then ExactTitle
    else if NormalizedTitleKey(u, shown) == wanted then NormalizedTitle
    else if !hasTitle && NormalizedTitleKey(u, StripSequenceSuffix(note.stem)) == wanted then NormalizedTitle
    else NoTitle
  }

  /** The candidate a readable note is, or none. */
  function CandidateOf(u: Unicode, input: Input, keywords: seq<string>, note: Found): Option<Candidate>
    requires note.Readable?
  {
    var shown := if note.title.Some? && Strip(note.title.value) != "" then Strip(note.title.value) else note.stem;
    var signal := TitleSignal(u, input.title, note);
    var projectMatch := ProjectKey(u, input.project).Some? && ProjectKey(u, note.project) == ProjectKey(u, input.project);
    var matched := Matched(u, keywords, shown, note.tags);
    var confidence := Decide(signal, projectMatch, |matched|, |keywords|);
    var score :=
      (if signal.ExactTitle? then SCORE_EXACT_TITLE else if signal.NormalizedTitle? then SCORE_NORMALIZED_TITLE else 0)
      + (if projectMatch then SCORE_PROJECT else 0) + |matched| * SCORE_KEYWORD;
    if confidence.None? then None
    else Some(Candidate(note.path, shown, note.project, note.tags, confidence.value, signal, projectMatch, matched, note.mtime, score))
  }

  function One(u: Unicode, input: Input, keywords: seq<string>, note: Found): seq<Candidate> {
    if !note.Readable? || CandidateOf(u, input, keywords, note).None? then []
    else [CandidateOf(u, input, keywords, note).value]
  }

  function Scored(u: Unicode, input: Input, keywords: seq<string>, found: seq<Found>): seq<Candidate> {
    if found == [] then []
    else Scored(u, input, keywords, found[..|found| - 1]) + One(u, input, keywords, found[|found| - 1])
  }

  function Rank(c: Confidence): nat {
    match c
    case High => 0
    case Medium => 1
    case Low => 2
  }

  /** By (confidence, -score, -mtime, path). */
  predicate CandidateLess(a: Candidate, b: Candidate) {
    || Rank(a.confidence) < Rank(b.confidence)
    || (a.confidence == b.confidence
        && (a.score > b.score
            || (a.score == b.score && (a.mtime > b.mtime || (a.mtime == b.mtime && TextLess(a.path, b.path))))))
  }

  function CountOf(candidates: seq<Candidate>, confidence: Confidence): nat {
    if candidates == [] then 0
    else CountOf(candidates[..|candidates| - 1], confidence) + (if candidates[|candidates| - 1].confidence == confidence then 1 else 0)
  }

  datatype Recommendation = Create | Confirm | Choose

  function Recommend(candidates: seq<Candidate>): Recommendation {
    var high, medium := CountOf(candidates, High), CountOf(candidates, Medium);
    if high == 0 && medium == 0 then Create else if high == 1 && medium == 0 then Confirm else Choose
  }

  function CountScanned(found: seq<Found>): nat {
    if found == [] then 0 else CountScanned(found[..|found| - 1]) + (if found[|found| - 1].Readable? then 1 else 0)
  }

  function CountSkipped(found: seq<Found>): nat {
    if found == [] then 0
    else CountSkipped(found[..|found| - 1]) + (if found[|found| - 1].BadName? || found[|found| - 1].Unreadable? then 1 else 0)
  }

  datatype Report = Report(candidates: seq<Candidate>, count: nat, recommendation: Recommendation, scanned: nat, skipped: nat)

  function Take<T>(xs: seq<T>, limit: nat): seq<T> {
    if limit < |xs| then xs[..limit] else xs
  }

  /** All candidates of a scan, most confident first. */
  function Ranked(u: Unicode, input: Input, found: seq<Found>): seq<Candidate> {
    Sort(CandidateLess, Scored(u, input, NormalKeywords(u, input.keywords), found))
  }

  function ReportOf(u: Unicode, input: Input, found: seq<Found>, skippedByListing: nat, limit: nat): Report {
    var ranked := Ranked(u, input, found);
    Report(Take(ranked, limit), |ranked|, Recommend(ranked), CountScanned(found), CountSkipped(found) + skippedByListing)
  }

  datatype Failure = BadLimit | CannotScan

  /** `find_duplicate_candidates`, over what the listing of the inbox yields. */
  method FindDuplicateCandidates(u: Unicode, input: Input, found: seq<Found>, skippedByListing: nat, scanFailed: bool, limit: int)
    returns (report: Result<Report, Failure>)
    ensures report == if limit < 1 then Err(BadLimit) else if scanFailed then Err(CannotScan)
                      else Ok(ReportOf(u, input, found, skippedByListing, limit))
  {
    hide CandidateOf, NormalKeywords, CandidateLess, Sort;
    if limit < 1 {
      return Err(BadLimit);
    }
    var keywords := NormaliseKeywords(u, input.keywords);
    var scanned, skipped := 0, 0;
    var scored := [];
    for i := 0 to |found|
      invariant scored == Scored(u, input, keywords, found[..i])
      invariant scanned == CountScanned(found[..i]) && skipped == CountSkipped(found[..i])
    {
      assert found[..i + 1][..i] == found[..i];
      var note := found[i];
      if note.NotANote? {
        continue;
      }
      if note.BadName? || note.Unreadable? {
        skipped := skipped + 1;
        continue;
      }
      scanned := scanned + 1;
      var candidate := CandidateOf(u, input, keywords, note);
      if candidate.None? {
        continue;
      }
      scored := scored + [candidate.value];
    }
    assert found[..|found|] == found;
    if scanFailed {
      return Err(CannotScan);
    }
    skipped := skipped + skippedByListing;
    var ranked := Sort(CandidateLess, scored);
    return Ok(Report(Take(ranked, limit), |ranked|, Recommend(ranked), scanned, skipped));
  }

  // ----- The order does not depend on the scan -----

  lemma CandidateLessIsStrict()
    ensures Strict(CandidateLess)
  {
    forall x: Candidate
      ensures !CandidateLess(x, x)
    {
      TextNotLessItself(x.path);
    }
    forall x: Candidate, y: Candidate, z: Candidate | CandidateLess(x, y) && CandidateLess(y, z)
      ensures CandidateLess(x, z)
    {
      if TextLess(x.path, y.path) && TextLess(y.path, z.path) {
        TextLessTransitive(x.path, y.path, z.path);
      }
    }
  }

  /** The entries of one folder have different names. */
  ghost predicate DistinctPaths(found: seq<Found>) {
    forall i, j :: 0 <= i < j < |found| && found[i].Readable? && found[j].Readable? ==> found[i].path != found[j].path
  }

  /** The entry a candidate comes from. */
  lemma {:induction false} CandidateHasEntry(u: Unicode, input: Input, keywords: seq<string>, found: seq<Found>, k: nat) returns (i: nat)
    requires k < |Scored(u, input, keywords, found)|
    ensures i < |found| && found[i].Readable? && CandidateOf(u, input, keywords, found[i]) == Some(Scored(u, input, keywords, found)[k])
  {
    hide CandidateOf;
    var rest := found[..|found| - 1];
    if k < |Scored(u, input, keywords, rest)| {
      i := CandidateHasEntry(u, input, keywords, rest, k);
    } else {
      i := |found| - 1;
    }
  }

  lemma CandidatePath(u: Unicode, input: Input, keywords: seq<string>, note: Found)
    requires note.Readable? && CandidateOf(u, input, keywords, note).Some?
    ensures CandidateOf(u, input, keywords, note).value.path == note.path
  {
    hide TitleSignal, ProjectKey, Matched, Decide, Strip;
  }

  lemma {:induction false} CandidatesCompare(u: Unicode, input: Input, keywords: seq<string>, found: seq<Found>)
    requires DistinctPaths(found)
    ensures Comparable(CandidateLess, Scored(u, input, keywords, found))
  {
    hide CandidateOf;
    var scored := Scored(u, input, keywords, found);
    if found != [] {
      var rest := found[..|found| - 1];
      CandidatesCompare(u, input, keywords, rest);
      forall i, j | 0 <= i < j < |scored|
        ensures CandidateLess(scored[i], scored[j]) || CandidateLess(scored[j], scored[i])
      {
        if j == |Scored(u, input, keywords, rest)| {
          var m := CandidateHasEntry(u, input, keywords, rest, i);
          CandidatePath(u, input, keywords, rest[m]);
          CandidatePath(u, input, keywords, found[|found| - 1]);
          assert found[m].path != found[|found| - 1].path;
          TextLessTotal(scored[i].path, scored[j].path);
        }
      }
    }
  }

  /** One entry fewer, seen from the last one on. */
  lemma CutBoth<T>(xs: seq<T>, i: nat)
    requires i < |xs| - 1
    ensures var front, rest := xs[..|xs| - 1], xs[..i] + xs[i + 1..];
      && rest != [] && rest[|rest| - 1] == xs[|xs| - 1]
      && rest[..|rest| - 1] == front[..i] + front[i + 1..] && front[i] == xs[i]
  {
  }

  /** Taking one entry out of the scan takes out its own contribution. */
  lemma {:induction false} WithoutEntry(u: Unicode, input: Input, keywords: seq<string>, found: seq<Found>, i: nat)
    requires i < |found|
    ensures multiset(Scored(u, input, keywords, found))
         == multiset(Scored(u, input, keywords, found[..i] + found[i + 1..])) + multiset(One(u, input, keywords, found[i]))
  {
    hide One;
    if i == |found| - 1 {
      assert found[..i] + found[i + 1..] == found[..|found| - 1];
    } else {
      CutBoth(found, i);
      WithoutEntry(u, input, keywords, found[..|found| - 1], i);
    }
  }

  lemma {:induction false} CountsWithout(found: seq<Found>, i: nat)
    requires i < |found|
    ensures CountScanned(found) == CountScanned(found[..i] + found[i + 1..]) + (if found[i].Readable? then 1 else 0)
    ensures CountSkipped(found)
         == CountSkipped(found[..i] + found[i + 1..]) + (if found[i].BadName? || found[i].Unreadable? then 1 else 0)
  {
    if i == |found| - 1 {
      assert found[..i] + found[i + 1..] == found[..|found| - 1];
    } else {
      CutBoth(found, i);
      CountsWithout(found[..|found| - 1], i);
    }
  }

  lemma ElementsWithout<T>(xs: seq<T>, i: nat)
    requires i < |xs|
    ensures multiset(xs[..i] + xs[i + 1..]) == multiset(xs) - multiset{xs[i]}
  {
    assert xs == xs[..i] + [xs[i]] + xs[i + 1..];
    assert multiset(xs) == multiset(xs[..i] + xs[i + 1..]) + multiset{xs[i]};
  }

  lemma {:induction false} SameEvidence(u: Unicode, input: Input, keywords: seq<string>, found: seq<Found>, found': seq<Found>)
    requires multiset(found) == multiset(found')
    ensures multiset(Scored(u, input, keywords, found)) == multiset(Scored(u, input, keywords, found'))
    ensures CountScanned(found) == CountScanned(found') && CountSkipped(found) == CountSkipped(found')
    decreases |found|
  {
    hide Scored, CountScanned, CountSkipped, One;
    assert |multiset(found)| == |found| && |multiset(found')| == |found'|;
    if found == [] {
      assert found' == [];
    } else {
      var n := |found| - 1;
      assert found[n] in multiset(found');
      var i :| 0 <= i < |found'| && found'[i] == found[n];
      ElementsWithout(found, n);
      ElementsWithout(found', i);
      SameEvidence(u, input, keywords, found[..n] + found[n + 1..], found'[..i] + found'[i + 1..]);
      WithoutEntry(u, input, keywords, found, n);
      WithoutEntry(u, input, keywords, found', i);
      CountsWithout(found, n);
      CountsWithout(found', i);
    }
  }

  /** Whatever order the inbox is listed in, the report is the same. */
  lemma ScanOrderIsIrrelevant(u: Unicode, input: Input, found: seq<Found>, found': seq<Found>, skipped: nat, limit: nat)
    requires DistinctPaths(found) && multiset(found) == multiset(found')
    ensures ReportOf(u, input, found, skipped, limit) == ReportOf(u, input, found', skipped, limit)
  {
    hide Scored, CountScanned, CountSkipped, CandidateLess, Recommend;
    var keywords := NormalKeywords(u, input.keywords);
    SameEvidence(u, input, keywords, found, found');
    CandidatesCompare(u, input, keywords, found);
    CandidateLessIsStrict();
    SortForgetsOrder(CandidateLess, Scored(u, input, keywords, found), Scored(u, input, keywords, found'));
  }

  // ----- The recommendation and the limit -----

  lemma RankedIsSorted(u: Unicode, input: Input, found: seq<Found>)
    requires DistinctPaths(found)
    ensures Sorted(CandidateLess, Ranked(u, input, found))
  {
    hide Scored, CandidateLess;
    var keywords := NormalKeywords(u, input.keywords);
    CandidatesCompare(u, input, keywords, found);
    CandidateLessIsStrict();
    SortSorts(CandidateLess, Scored(u, input, keywords, found));
  }

  ghost predicate OnlyFrom(candidates: seq<Candidate>, rank: nat) {
    forall i :: 0 <= i < |candidates| ==> Rank(candidates[i].confidence) >= rank
  }

  lemma {:induction false} NoneAbove(candidates: seq<Candidate>, confidence: Confidence)
    requires OnlyFrom(candidates, Rank(confidence) + 1)
    ensures CountOf(candidates, confidence) == 0
  {
    if candidates != [] {
      NoneAbove(candidates[..|candidates| - 1], confidence);
    }
  }

  lemma {:induction false} CountFirst(candidates: seq<Candidate>, confidence: Confidence)
    requires candidates != []
    ensures CountOf(candidates, confidence)
         == (if candidates[0].confidence == confidence then 1 else 0) + CountOf(candidates[1..], confidence)
  {
    if |candidates| == 1 {
      assert candidates[..0] == candidates[1..] == [];
    } else {
      CountFirst(candidates[..|candidates| - 1], confidence);
      assert candidates[1..][..|candidates| - 2] == candidates[..|candidates| - 1][1..];
    }
  }

  lemma {:induction false} CountSome(candidates: seq<Candidate>, i: nat)
    requires i < |candidates|
    ensures CountOf(candidates, candidates[i].confidence) > 0
  {
    if i < |candidates| - 1 {
      CountSome(candidates[..|candidates| - 1], i);
    }
  }

  /** What the two best candidates say. */
  function FromTop(candidates: seq<Candidate>): Recommendation {
    if candidates == [] || candidates[0].confidence.Low? then Create
    else if candidates[0].confidence.High? && (|candidates| == 1 || candidates[1].confidence.Low?) then Confirm
    else Choose
  }

  lemma RanksRise(candidates: seq<Candidate>, i: nat)
    requires Sorted(CandidateLess, candidates) && i < |candidates|
    ensures OnlyFrom(candidates[i..], Rank(candidates[i].confidence))
  {
    forall k | 0 <= k < |candidates[i..]|
      ensures Rank(candidates[i..][k].confidence) >= Rank(candidates[i].confidence)
    {
      assert candidates[i..][k] == candidates[i + k];
      assert k > 0 ==> CandidateLess(candidates[i], candidates[i + k]);
    }
  }

  lemma RecommendFromTop(candidates: seq<Candidate>)
    requires Sorted(CandidateLess, candidates)
    ensures Recommend(candidates) == FromTop(candidates)
  {
    hide CandidateLess;
    if candidates != [] {
      RanksRise(candidates, 0);
      assert candidates[0..] == candidates;
      var first, rest := candidates[0].confidence, candidates[1..];
      CountFirst(candidates, High);
      CountFirst(candidates, Medium);
      if first.Low? {
        NoneAbove(candidates, High);
        NoneAbove(candidates, Medium);
      } else if rest == [] {
        assert CountOf(rest, High) == 0 && CountOf(rest, Medium) == 0;
      } else {
        RanksRise(candidates, 1);
        if rest[0].confidence.Low? {
          NoneAbove(rest, High);
          NoneAbove(rest, Medium);
        } else {
          CountSome(rest, 0);
          if first.Medium? {
            NoneAbove(candidates, High);
          }
        }
      }
    }
  }

  /**
   * The limit only cuts: a smaller one gives a prefix, no candidate left out is more confident than one shown, and
   * the recommendation does not change. It is what the two best candidates say, so any limit from 2 on shows why.
   */
  lemma LimitOnlyCuts(u: Unicode, input: Input, found: seq<Found>, skipped: nat, limit: nat, larger: nat)
    requires DistinctPaths(found) && 1 <= limit <= larger
    ensures var a, b := ReportOf(u, input, found, skipped, limit), ReportOf(u, input, found, skipped, larger);
      && a.candidates <= b.candidates && b.(candidates := a.candidates) == a
      && (forall i, j :: 0 <= i < |a.candidates| <= j < |b.candidates| ==>
            Rank(a.candidates[i].confidence) <= Rank(b.candidates[j].confidence))
      && (larger >= 2 ==> b.recommendation == FromTop(b.candidates))
  {
    hide CandidateLess, CountScanned, CountSkipped;
    var ranked := Ranked(u, input, found);
    RankedIsSorted(u, input, found);
    RecommendFromTop(ranked);
    var a, b := Take(ranked, limit), Take(ranked, larger);
    forall i, j | 0 <= i < |a| <= j < |b|
      ensures Rank(a[i].confidence) <= Rank(b[j].confidence)
    {
      RanksRise(ranked, i);
      assert ranked[i..][j - i] == ranked[j];
    }
  }

  /** "confirm" means one candidate to confirm: it is the only high one, nothing is medium, and it comes first at every limit. */
  lemma ConfirmShowsTheOne(u: Unicode, input: Input, found: seq<Found>, skipped: nat, limit: nat)
    requires DistinctPaths(found) && limit >= 1 && ReportOf(u, input, found, skipped, limit).recommendation.Confirm?
    ensures var shown := ReportOf(u, input, found, skipped, limit).candidates;
      shown != [] && shown[0].confidence.High? && forall i :: 0 < i < |shown| ==> shown[i].confidence.Low?
  {
    hide CandidateLess;
    var ranked := Ranked(u, input, found);
    RankedIsSorted(u, input, found);
    RecommendFromTop(ranked);
    if |ranked| > 1 {
      RanksRise(ranked, 1);
      forall i | 0 < i < |ranked|
        ensures ranked[i].confidence.Low?
      {
        assert ranked[1..][i - 1] == ranked[i];
      }
    }
  }
}

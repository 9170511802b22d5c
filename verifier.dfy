/**
 * The note verifier of generators/verifier.py: a citation check, a template
 * structure check and a faithfulness check by a language model, weighted
 * 25/25/50 into a total that passes at 80, and the feedback text a failed
 * attempt hands to the next one.
 *
 * The language model's answer is a parameter (`FaithReply`): what the
 * verifier does with each kind of answer is modelled, the answer is not.
 */
module Verifier {
  import opened Wrappers
  import opened Text
  import opened Citations

  /** A partial score with the issues found while computing it. */
  datatype Check = Check(score: int, issues: seq<string>)

  /** `VerificationResult` without its free-form `details`. */
  datatype VerificationResult = VerificationResult(passed: bool, score: int, issues: seq<string>, suggestions: seq<string>)

  function Max0(x: int): int { if x < 0 then 0 else x }

  /** `xs[:n]`. */
  function Take<T>(xs: seq<T>, n: nat): seq<T> {
    if n <= |xs| then xs[..n] else xs
  }

  // ---------------------------------------------------------------------------
  // verify_citations
  // ---------------------------------------------------------------------------

  const NO_CITATIONS := "인용이 전혀 없습니다. 모든 주요 내용에 출처를 표시해야 합니다."
  const NO_EARLY_CITATION := "노트 초반부에 인용이 없습니다."
  const NO_LATE_CITATION := "노트 후반부에 인용이 없습니다."

  function FewCitations(n: nat): string { "인용이 부족합니다 (" + NatToString(n) + "개). 최소 5개 이상 권장." }
  function SomeCitations(n: nat): string { "인용이 다소 부족합니다 (" + NatToString(n) + "개)." }

  /** The score and issue for the number of citations alone. */
  function CountCheck(n: nat): Check {
    if n == 0 then Check(0, [NO_CITATIONS])
    else if n < 3 then Check(40, [FewCitations(n)])
    else if n < 5 then Check(70, [SomeCitations(n)])
    else Check(100, [])
  }

  /**
   * Whether the first '[' lies beyond 30% of the note (`first > len * 0.3`;
   * the product rounds to the exact value whenever that value is a whole
   * number, so the integer comparison agrees with the float one).
   */
  predicate LateStart(note: string) { 10 * Find(note, '[') > 3 * |note| }

  /** Whether the last ']' lies before 70% of the note. */
  predicate EarlyEnd(note: string) { 10 * RFind(note, ']') < 7 * |note| }

  /** `verify_citations`: the count decides the base score; a cited note then loses 10 per missing end. */
  function CitationCheck(note: string, sourceType: string): Check {
    var n := CitationCount(PatternFor(sourceType), note);
    var base := CountCheck(n);
    if n == 0 then base
    else
      var early := if LateStart(note) then Check(Max0(base.score - 10), base.issues + [NO_EARLY_CITATION]) else base;
      if EarlyEnd(note) then Check(Max0(early.score - 10), early.issues + [NO_LATE_CITATION]) else early
  }

  lemma CitationScoreRange(note: string, sourceType: string)
    ensures var c := CitationCheck(note, sourceType); 0 <= c.score <= 100 && c.score % 10 == 0
  {
  }

  /** Only a note without a single citation scores zero. */
  lemma CitationZeroIff(note: string, sourceType: string)
    ensures CitationCheck(note, sourceType).score == 0 <==> CitationCount(PatternFor(sourceType), note) == 0
  {
  }

  /** Full marks exactly for five or more citations reaching into both the first 30% and the last 30%. */
  lemma CitationFullIff(note: string, sourceType: string)
    ensures var c := CitationCheck(note, sourceType);
      c.score == 100 <==> CitationCount(PatternFor(sourceType), note) >= 5 && !LateStart(note) && !EarlyEnd(note)
    ensures var c := CitationCheck(note, sourceType); c.score == 100 <==> c.issues == []
  {
  }

  /**
   * The spread test looks at brackets, not at citations: a note opening with
   * any bracketed text escapes the early-citation penalty even when all its
   * citations come later.
   */
  lemma SpreadSeesAnyBracket(note: string, sourceType: string)
    requires |note| > 0 && note[0] == '['
    ensures NO_EARLY_CITATION !in CitationCheck(note, sourceType).issues
  {
    assert Find(note, '[') == 0;
    var c := CitationCheck(note, sourceType);
    var base := CountCheck(CitationCount(PatternFor(sourceType), note));
    assert NO_EARLY_CITATION !in base.issues by {
      assert NO_EARLY_CITATION != NO_CITATIONS by { assert NO_EARLY_CITATION[0] != NO_CITATIONS[0]; }
      forall n: nat ensures NO_EARLY_CITATION != FewCitations(n) && NO_EARLY_CITATION != SomeCitations(n) {
        assert NO_EARLY_CITATION[0] != FewCitations(n)[0];
        assert NO_EARLY_CITATION[0] != SomeCitations(n)[0];
      }
    }
    assert NO_EARLY_CITATION != NO_LATE_CITATION by { assert NO_EARLY_CITATION[3] != NO_LATE_CITATION[3]; }
  }

  // ---------------------------------------------------------------------------
  // verify_structure
  // ---------------------------------------------------------------------------

  /** One entry of `REQUIRED_SECTIONS`; absent keys are empty or zero. */
  datatype Rules = Rules(markers: seq<string>, keywords: seq<string>, minSections: nat, treeChars: seq<char>)

  /** `REQUIRED_SECTIONS.get(template_name, REQUIRED_SECTIONS['detailed'])`. */
  function RulesFor(template: string): Rules {
    if template == "essence" then Rules(["# ", "## "], ["핵심", "관계", "요약"], 0, [])
    else if template == "easy" then Rules(["# ", "## "], ["꼭 알아야", "한 줄"], 0, [])
    else if template == "mindmap" then Rules(["# ", "```mermaid", "mindmap"], ["root"], 0, ['├', '└', '│'])
    else Rules(["# ", "## "], [], 3, [])
  }

  function MarkerMsg(m: string): string { "필수 마커 '" + Strip(m) + "' 가 없습니다." }
  function KeywordMsg(k: string): string { "필수 섹션 '" + k + "'이(가) 없습니다." }
  function SectionsMsg(found: nat, least: nat): string {
    "섹션이 부족합니다 (" + NatToString(found) + "개, 최소 " + NatToString(least) + "개 필요)"
  }
  const NO_MERMAID := "Mermaid 다이어그램이 없습니다."
  const NO_TREE := "텍스트 트리 구조가 없습니다."

  /** The messages for the markers missing from the note, in rule order. */
  function MarkerIssues(markers: seq<string>, note: string): seq<string>
    decreases |markers|
  {
    if markers == [] then []
    else
      var m := markers[|markers| - 1];
      MarkerIssues(markers[..|markers| - 1], note) + (if Contains(note, m) then [] else [MarkerMsg(m)])
  }

  /** `keyword.lower() not in note.lower()`. */
  predicate KeywordMissing(note: string, k: string) { !Contains(Lower(note), Lower(k)) }

  /** The messages for the keywords missing from the note, ignoring case, in rule order. */
  function KeywordIssues(keywords: seq<string>, note: string): seq<string>
    decreases |keywords|
  {
    if keywords == [] then []
    else
      var k := keywords[|keywords| - 1];
      KeywordIssues(keywords[..|keywords| - 1], note) + (if KeywordMissing(note, k) then [KeywordMsg(k)] else [])
  }

  /** `any(char in note for char in tree_chars)`. */
  predicate HasAny(note: string, chars: seq<char>) { exists i :: 0 <= i < |chars| && chars[i] in note }

  /** `note.count('\n## ')`: second-level headings after a line break. */
  function H2Count(note: string): nat { CountOf(note, "\n## ") }

  /** The section-count issue, the mermaid issue and the tree issue, each present or not. */
  function TailIssues(note: string, template: string): seq<string> {
    var r := RulesFor(template);
    (if r.minSections > 0 && H2Count(note) < r.minSections then [SectionsMsg(H2Count(note), r.minSections)] else [])
    + (if template == "mindmap" && !Contains(note, "```mermaid") then [NO_MERMAID] else [])
    + (if template == "mindmap" && !HasAny(note, r.treeChars) then [NO_TREE] else [])
  }

  /** The points the section-count, mermaid and tree tests take off. */
  function TailPenalty(note: string, template: string): nat {
    var r := RulesFor(template);
    (if r.minSections > 0 && H2Count(note) < r.minSections then 15 else 0)
    + (if template == "mindmap" && !Contains(note, "```mermaid") then 30 else 0)
    + (if template == "mindmap" && !HasAny(note, r.treeChars) then 20 else 0)
  }

  /** `verify_structure`: 100, less 20 per missing marker, 15 per missing keyword and the tail penalties, floored at 0. */
  function StructureCheck(note: string, template: string): Check {
    var r := RulesFor(template);
    var mi := MarkerIssues(r.markers, note);
    var ki := KeywordIssues(r.keywords, note);
    Check(Max0(100 - 20 * |mi| - 15 * |ki| - TailPenalty(note, template)), mi + ki + TailIssues(note, template))
  }

  /** The marker loop of `verify_structure`: the issues and the points taken off. */
  method CheckMarkers(note: string, markers: seq<string>) returns (issues: seq<string>, lost: int)
    ensures issues == MarkerIssues(markers, note) && lost == 20 * |issues|
  {
    issues, lost := [], 0;
    var i := 0;
    while i < |markers|
      invariant 0 <= i <= |markers|
      invariant issues == MarkerIssues(markers[..i], note) && lost == 20 * |issues|
    {
      assert markers[..i + 1][..i] == markers[..i];
      if !Contains(note, markers[i]) {
        issues := issues + [MarkerMsg(markers[i])];
        lost := lost + 20;
      }
      i := i + 1;
    }
    assert markers[..i] == markers;
  }

  /** The keyword loop of `verify_structure`: the issues and the points taken off. */
  method CheckKeywords(note: string, keywords: seq<string>) returns (issues: seq<string>, lost: int)
    ensures issues == KeywordIssues(keywords, note) && lost == 15 * |issues|
  {
    issues, lost := [], 0;
    var lowered := Lower(note);
    var j := 0;
    while j < |keywords|
      invariant 0 <= j <= |keywords|
      invariant issues == KeywordIssues(keywords[..j], note) && lost == 15 * |issues|
    {
      assert keywords[..j + 1][..j] == keywords[..j];
      if !Contains(lowered, Lower(keywords[j])) {
        issues := issues + [KeywordMsg(keywords[j])];
        lost := lost + 15;
      }
      j := j + 1;
    }
    assert keywords[..j] == keywords;
  }

  /** The section-count, mermaid and tree tests of `verify_structure`. */
  method CheckTail(note: string, template: string) returns (issues: seq<string>, lost: int)
    ensures issues == TailIssues(note, template) && lost == TailPenalty(note, template)
  {
    var r := RulesFor(template);
    issues, lost := [], 0;
    var h2 := CountOf(note, "\n## ");
    if r.minSections > 0 && h2 < r.minSections {
      issues := issues + [SectionsMsg(h2, r.minSections)];
      lost := lost + 15;
    }
    if template == "mindmap" {
      if !Contains(note, "```mermaid") {
        issues := issues + [NO_MERMAID];
        lost := lost + 30;
      }
      if !HasAny(note, r.treeChars) {
        issues := issues + [NO_TREE];
        lost := lost + 20;
      }
    }
  }

  /** `verify_structure`, step by step. */
  method VerifyStructure(note: string, template: string) returns (c: Check)
    ensures c == StructureCheck(note, template)
  {
    var r := RulesFor(template);
    var markerIssues, markerLost := CheckMarkers(note, r.markers);
    var keywordIssues, keywordLost := CheckKeywords(note, r.keywords);
    var tailIssues, tailLost := CheckTail(note, template);
    c := Check(Max0(100 - markerLost - keywordLost - tailLost), markerIssues + keywordIssues + tailIssues);
  }

  /** A missing marker is reported. */
  lemma {:induction false} MissingMarkerReported(markers: seq<string>, note: string, i: nat)
    requires i < |markers| && !Contains(note, markers[i])
    ensures MarkerMsg(markers[i]) in MarkerIssues(markers, note)
    decreases |markers|
  {
    var p := markers[..|markers| - 1];
    var msg := MarkerMsg(markers[i]);
    var m := markers[|markers| - 1];
    var tail := if Contains(note, m) then [] else [MarkerMsg(m)];
    assert MarkerIssues(markers, note) == MarkerIssues(p, note) + tail;
    if i < |p| {
      assert markers[i] == p[i];
      MissingMarkerReported(p, note, i);
      InLeft(MarkerIssues(p, note), tail, msg);
    } else {
      assert tail == [msg];
      InRight(MarkerIssues(p, note), tail, msg);
    }
  }

  lemma InLeft<T>(a: seq<T>, b: seq<T>, x: T)
    requires x in a
    ensures x in a + b
  {
    var k :| 0 <= k < |a| && a[k] == x;
    assert (a + b)[k] == x;
  }

  lemma InRight<T>(a: seq<T>, b: seq<T>, x: T)
    requires x in b
    ensures x in a + b
  {
    var k :| 0 <= k < |b| && b[k] == x;
    assert (a + b)[|a| + k] == x;
  }

  lemma {:induction false} MarkerIssuesBound(markers: seq<string>, note: string)
    ensures |MarkerIssues(markers, note)| <= |markers|
    decreases |markers|
  {
    if markers != [] {
      MarkerIssuesBound(markers[..|markers| - 1], note);
    }
  }

  /** Every missing marker is reported, and there are no more reports than markers. */
  lemma MissingMarkersReported(markers: seq<string>, note: string)
    ensures forall i :: 0 <= i < |markers| && !Contains(note, markers[i]) ==> MarkerMsg(markers[i]) in MarkerIssues(markers, note)
    ensures |MarkerIssues(markers, note)| <= |markers|
  {
    forall i | 0 <= i < |markers| && !Contains(note, markers[i])
      ensures MarkerMsg(markers[i]) in MarkerIssues(markers, note)
    {
      MissingMarkerReported(markers, note, i);
    }
    MarkerIssuesBound(markers, note);
  }

  /** Only missing markers are reported: the k-th issue names the i-th marker, which is missing. */
  lemma {:induction false} ReportedMarker(markers: seq<string>, note: string, k: nat) returns (i: nat)
    requires k < |MarkerIssues(markers, note)|
    ensures i < |markers| && !Contains(note, markers[i]) && MarkerIssues(markers, note)[k] == MarkerMsg(markers[i])
    decreases |markers|
  {
    var p := markers[..|markers| - 1];
    var mp := MarkerIssues(p, note);
    if k < |mp| {
      i := ReportedMarker(p, note, k);
      assert markers[i] == p[i];
    } else {
      i := |markers| - 1;
    }
  }

  lemma {:induction false} KeywordIssuesLength(keywords: seq<string>, note: string)
    ensures |KeywordIssues(keywords, note)| <= |keywords|
    ensures KeywordIssues(keywords, note) == [] <==> forall i :: 0 <= i < |keywords| ==> !KeywordMissing(note, keywords[i])
    decreases |keywords|
  {
    if keywords != [] {
      var p := keywords[..|keywords| - 1];
      KeywordIssuesLength(p, note);
      assert forall i :: 0 <= i < |p| ==> p[i] == keywords[i];
    }
  }

  /** The structure score stays within 0 to 100, and is 100 exactly when nothing is reported. */
  lemma StructureScoreRange(note: string, template: string)
    ensures var c := StructureCheck(note, template); 0 <= c.score <= 100 && (c.score == 100 <==> c.issues == [])
  {
    var r := RulesFor(template);
    MissingMarkersReported(r.markers, note);
    KeywordIssuesLength(r.keywords, note);
  }

  /** A mind map without a mermaid block loses its marker and the diagram test: at most 50. */
  lemma MindmapWithoutMermaid(note: string)
    requires !Contains(note, "```mermaid")
    ensures StructureCheck(note, "mindmap").score <= 50
  {
    var r := RulesFor("mindmap");
    assert r.markers[1] == "```mermaid";
    MissingMarkersReported(r.markers, note);
    var mi := MarkerIssues(r.markers, note);
    assert MarkerMsg(r.markers[1]) in mi;
    assert |mi| >= 1;
  }

  /** An unknown template name is checked against the detailed rules. */
  lemma UnknownTemplateIsDetailed(note: string, template: string)
    requires template !in {"essence", "easy", "mindmap"}
    ensures StructureCheck(note, template) == StructureCheck(note, "detailed")
  {
  }

  /** A `\n## ` occurrence is a `## ` occurrence, which is a `# ` occurrence. */
  lemma HeadingMarkers(note: string)
    requires H2Count(note) > 0
    ensures Contains(note, "## ") && Contains(note, "# ")
  {
    var i := CountOfWitness(note, "\n## ");
    assert note[i + 1..i + 4] == "## ";
    assert note[i + 2..i + 4] == "# ";
    ContainsAt(note, "## ", i + 1);
    ContainsAt(note, "# ", i + 2);
  }

  /** A positive count finds an occurrence. */
  lemma {:induction false} CountOfWitness(s: string, sub: string) returns (i: nat)
    requires |sub| > 0 && CountOf(s, sub) > 0
    ensures i + |sub| <= |s| && s[i..i + |sub|] == sub
    decreases |s|
  {
    if s[..|sub|] == sub {
      i := 0;
    } else {
      var j := CountOfWitness(s[1..], sub);
      i := j + 1;
      assert s[i..i + |sub|] == s[1..][j..j + |sub|];
    }
  }

  /** Three second-level headings after line breaks earn a detailed note full marks. */
  lemma DetailedFullMarks(note: string)
    requires H2Count(note) >= 3
    ensures StructureCheck(note, "detailed") == Check(100, [])
  {
    HeadingMarkers(note);
    var r := RulesFor("detailed");
    assert r.markers == ["# ", "## "];
    assert r.markers[..1] == ["# "];
    assert MarkerIssues(r.markers[..1], note) == [];
  }

  // ---------------------------------------------------------------------------
  // verify_faithfulness
  // ---------------------------------------------------------------------------

  /**
   * What the faithfulness request comes back with: no `anthropic` package,
   * a JSON reply (whose `score` may be absent), a reply that is not JSON, or
   * an exception with its message.
   */
  datatype FaithReply =
    | NoPackage
    | Reply(score: Option<int>, hallucinations: seq<string>, missing: seq<string>, suggestions: seq<string>)
    | Unparsable
    | Failed(message: string)

  /** A faithfulness check and the suggestions the reply carried. */
  datatype Faith = Faith(check: Check, suggestions: seq<string>)

  const MAX_SOURCE_LENGTH := 10000
  const OMITTED := "\n... (이하 생략)"

  /** The part of the source the faithfulness request quotes. */
  function SourceExcerpt(source: string): (r: string)
    ensures |source| <= MAX_SOURCE_LENGTH ==> r == source
    ensures |source| > MAX_SOURCE_LENGTH ==> r == source[..MAX_SOURCE_LENGTH] + OMITTED
  {
    var t := SliceTo(source, MAX_SOURCE_LENGTH);
    if |source| > MAX_SOURCE_LENGTH then t + OMITTED else t
  }

  /** The excerpt starts with the source and is never longer than the limit plus the marker. */
  lemma SourceExcerptBounds(source: string)
    ensures |SourceExcerpt(source)| <= MAX_SOURCE_LENGTH + |OMITTED|
    ensures StartsWith(SourceExcerpt(source), source[..if |source| <= MAX_SOURCE_LENGTH then |source| else MAX_SOURCE_LENGTH])
  {
  }

  function HallucinationMsg(items: seq<string>): string { "원본에 없는 내용 발견: " + Join(Take(items, 3), ", ") }
  function MissingMsg(items: seq<string>): string { "누락된 핵심: " + Join(Take(items, 3), ", ") }

  /** `verify_faithfulness`, given what the request returned. */
  function VerifyFaithfulness(apiKey: string, reply: FaithReply): Faith {
    match reply
    case NoPackage => Faith(Check(80, ["anthropic 패키지 없음 - AI 검증 생략"]), [])
    case _ =>
      if apiKey == "" then Faith(Check(80, ["API 키 없음 - AI 검증 생략"]), [])
      else match reply
        case Reply(score, hs, ms, ss) =>
          Faith(Check(score.GetOr(80),
                      (if hs != [] then [HallucinationMsg(hs)] else []) + (if ms != [] then [MissingMsg(ms)] else [])),
                ss)
        case Unparsable => Faith(Check(70, ["AI 검증 응답 파싱 실패"]), [])
        case Failed(msg) => Faith(Check(80, ["AI 검증 오류: " + SliceTo(msg, 100)]), [])
  }

  /** Every answer other than a reply yields one issue, no suggestion and 70 or 80. */
  lemma FaithFallbacks(apiKey: string, reply: FaithReply)
    requires !reply.Reply? || apiKey == ""
    ensures var f := VerifyFaithfulness(apiKey, reply);
      |f.check.issues| == 1 && f.suggestions == [] && (f.check.score == 80 || (f.check.score == 70 && reply.Unparsable?))
  {
  }

  /** The first three hallucinations are quoted in the first issue. */
  lemma HallucinationsQuoted(apiKey: string, reply: FaithReply, i: nat)
    requires apiKey != "" && reply.Reply? && i < |reply.hallucinations| && i < 3
    ensures Contains(VerifyFaithfulness(apiKey, reply).check.issues[0], reply.hallucinations[i])
  {
    var t := Take(reply.hallucinations, 3);
    assert t[i] == reply.hallucinations[i];
    JoinContainsPart(t, ", ", i);
    ContainsAppend("원본에 없는 내용 발견: ", Join(t, ", "), t[i]);
  }

  // ---------------------------------------------------------------------------
  // verify_note
  // ---------------------------------------------------------------------------

  /** `verify_note`; without an API key the faithfulness score is 80 and nothing is asked. */
  function VerifyNote(note: string, template: string, apiKey: string, sourceType: string, reply: FaithReply): VerificationResult {
    var c := CitationCheck(note, sourceType);
    var s := StructureCheck(note, template);
    var f := if apiKey != "" then VerifyFaithfulness(apiKey, reply) else Faith(Check(80, []), []);
    var total := TruncDiv(c.score + s.score + 2 * f.check.score, 4);
    VerificationResult(total >= 80, total, c.issues + s.issues + f.check.issues, f.suggestions)
  }

  /** The faithfulness score `verify_note` uses. */
  function FaithScore(apiKey: string, reply: FaithReply): int {
    if apiKey != "" then VerifyFaithfulness(apiKey, reply).check.score else 80
  }

  /** The note passes exactly when citation + structure + twice faithfulness reaches 320. */
  lemma PassIff(note: string, template: string, apiKey: string, sourceType: string, reply: FaithReply)
    ensures VerifyNote(note, template, apiKey, sourceType, reply).passed
      <==> CitationCheck(note, sourceType).score + StructureCheck(note, template).score + 2 * FaithScore(apiKey, reply) >= 320
  {
  }

  /** With a faithfulness score in 0..100 the total is in 0..100 too. */
  lemma TotalRange(note: string, template: string, apiKey: string, sourceType: string, reply: FaithReply)
    requires 0 <= FaithScore(apiKey, reply) <= 100
    ensures 0 <= VerifyNote(note, template, apiKey, sourceType, reply).score <= 100
  {
    CitationScoreRange(note, sourceType);
    StructureScoreRange(note, template);
  }

  /** Without a key the two rule-based checks must average 80. */
  lemma PassWithoutKey(note: string, template: string, sourceType: string, reply: FaithReply)
    ensures VerifyNote(note, template, "", sourceType, reply).passed
      <==> CitationCheck(note, sourceType).score + StructureCheck(note, template).score >= 160
  {
  }

  /** A note without citations never passes unless the model scores it above 100. */
  lemma UncitedNoteFails(note: string, template: string, apiKey: string, sourceType: string, reply: FaithReply)
    requires CitationCount(PatternFor(sourceType), note) == 0
    requires FaithScore(apiKey, reply) <= 100
    ensures VerifyNote(note, template, apiKey, sourceType, reply).score <= 75
    ensures !VerifyNote(note, template, apiKey, sourceType, reply).passed
  {
    StructureScoreRange(note, template);
  }

  /** Without citations and without a key, one lost marker (structure 80) leaves a total of 60. */
  lemma UncitedOneMarkerShort(note: string, template: string, sourceType: string, reply: FaithReply)
    requires CitationCount(PatternFor(sourceType), note) == 0
    requires StructureCheck(note, template).score == 80
    ensures VerifyNote(note, template, "", sourceType, reply).score == 60
    ensures CitationCheck(note, sourceType).issues == [NO_CITATIONS]
  {
  }

  // ---------------------------------------------------------------------------
  // format_feedback
  // ---------------------------------------------------------------------------

  const FEEDBACK_HEAD := "\n\n## 이전 생성 피드백\n"
  const ISSUES_HEAD := "\n### 발견된 문제점:\n"
  const SUGGESTIONS_HEAD := "\n### 개선 제안:\n"
  const FEEDBACK_TAIL := "\n위 문제점을 해결하여 다시 생성해주세요.\n"

  /** One `- item` line per entry. */
  function Bullets(items: seq<string>): string
    decreases |items|
  {
    if items == [] then "" else Bullets(items[..|items| - 1]) + "- " + items[|items| - 1] + "\n"
  }

  function Section(head: string, items: seq<string>): string {
    if items == [] then "" else head + Bullets(items)
  }

  function ScoreLine(score: int): string { "이전 시도 점수: " + IntToString(score) + "/100\n" }

  /** The feedback text. */
  function Feedback(r: VerificationResult): string {
    FEEDBACK_HEAD + ScoreLine(r.score) + Section(ISSUES_HEAD, r.issues) + Section(SUGGESTIONS_HEAD, r.suggestions) + FEEDBACK_TAIL
  }

  /** `format_feedback`: the parts appended one by one and joined. */
  method FormatFeedback(r: VerificationResult) returns (text: string)
    ensures text == Feedback(r)
  {
    text := FEEDBACK_HEAD + ScoreLine(r.score);
    if r.issues != [] {
      text := text + ISSUES_HEAD;
      text := AppendBullets(text, r.issues);
    }
    if r.suggestions != [] {
      text := text + SUGGESTIONS_HEAD;
      text := AppendBullets(text, r.suggestions);
    }
    text := text + FEEDBACK_TAIL;
  }

  /** Appends one bullet line per item. */
  method AppendBullets(prefix: string, items: seq<string>) returns (text: string)
    ensures text == prefix + Bullets(items)
  {
    text := prefix;
    var i := 0;
    while i < |items|
      invariant 0 <= i <= |items|
      invariant text == prefix + Bullets(items[..i])
    {
      assert items[..i + 1][..i] == items[..i];
      text := text + "- " + items[i] + "\n";
      i := i + 1;
    }
    assert items[..i] == items;
  }

  /** Every item gets its own bullet line. */
  lemma {:induction false} BulletsList(items: seq<string>, i: nat)
    requires i < |items|
    ensures Contains(Bullets(items), "- " + items[i] + "\n")
    decreases |items|
  {
    var p := items[..|items| - 1];
    var line := "- " + items[|items| - 1] + "\n";
    assert Bullets(items) == Bullets(p) + line;
    if i < |p| {
      assert items[i] == p[i];
      BulletsList(p, i);
      ContainsAppend(Bullets(p), line, "- " + items[i] + "\n");
    } else {
      ContainsAt(line, line, 0);
      ContainsAppend(Bullets(p), line, line);
    }
  }

  /** The feedback opens with its heading, closes with its request, and lists every issue and suggestion. */
  lemma FeedbackContents(r: VerificationResult)
    ensures StartsWith(Feedback(r), FEEDBACK_HEAD) && EndsWith(Feedback(r), FEEDBACK_TAIL)
    ensures forall i :: 0 <= i < |r.issues| ==> Contains(Feedback(r), "- " + r.issues[i] + "\n")
    ensures forall i :: 0 <= i < |r.suggestions| ==> Contains(Feedback(r), "- " + r.suggestions[i] + "\n")
  {
    var a := FEEDBACK_HEAD + ScoreLine(r.score);
    var si := Section(ISSUES_HEAD, r.issues);
    var ss := Section(SUGGESTIONS_HEAD, r.suggestions);
    assert Feedback(r) == (a + si) + (ss + FEEDBACK_TAIL);
    forall i | 0 <= i < |r.issues| ensures Contains(Feedback(r), "- " + r.issues[i] + "\n") {
      BulletsList(r.issues, i);
      ContainsAppend(ISSUES_HEAD, Bullets(r.issues), "- " + r.issues[i] + "\n");
      ContainsAppend(a, si, "- " + r.issues[i] + "\n");
      ContainsAppend(a + si, ss + FEEDBACK_TAIL, "- " + r.issues[i] + "\n");
    }
    forall i | 0 <= i < |r.suggestions| ensures Contains(Feedback(r), "- " + r.suggestions[i] + "\n") {
      BulletsList(r.suggestions, i);
      ContainsAppend(SUGGESTIONS_HEAD, Bullets(r.suggestions), "- " + r.suggestions[i] + "\n");
      ContainsAppend(ss, FEEDBACK_TAIL, "- " + r.suggestions[i] + "\n");
      ContainsAppend(a + si, ss + FEEDBACK_TAIL, "- " + r.suggestions[i] + "\n");
    }
  }
}

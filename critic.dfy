/**
 * The critic agent of generators/agents/critic.py: the same kinds of rule
 * checks as the note verifier, with its own messages and a lighter rule set
 * (no spread penalty, no section count, no tree test), and a language-model
 * review weighted 20/20/60 into a total that passes at 80.
 *
 * The model's reply (or the exception its call raised) is a parameter.
 */
module Critic {
  import opened Wrappers
  import opened Text
  import opened Citations
  import opened Agents
  import Verifier

  type Check = Verifier.Check

  /** `CritiqueResult`; its `details` are the three partial scores. */
  datatype Critique = Critique(
    passed: bool, score: int, issues: seq<string>, suggestions: seq<string>,
    citationScore: int, structureScore: int, aiScore: int)

  // ---------------------------------------------------------------------------
  // _verify_citations
  // ---------------------------------------------------------------------------

  /** `_verify_citations`: the count alone decides; only fewer than three citations raise an issue. */
  function CriticCitations(note: string, sourceType: string): Check {
    var n := CitationCount(PatternFor(sourceType), note);
    if n == 0 then Verifier.Check(0, ["인용이 전혀 없습니다"])
    else if n < 3 then Verifier.Check(40, ["인용이 부족합니다 (" + NatToString(n) + "개)"])
    else if n < 5 then Verifier.Check(70, [])
    else Verifier.Check(100, [])
  }

  /** The four steps, an issue exactly below three citations, and the same score the verifier starts from. */
  lemma CriticCitationSteps(note: string, sourceType: string)
    ensures var c := CriticCitations(note, sourceType);
      c.score in {0, 40, 70, 100} && (c.issues != [] <==> CitationCount(PatternFor(sourceType), note) < 3)
    ensures CriticCitations(note, sourceType).score == Verifier.CountCheck(CitationCount(PatternFor(sourceType), note)).score
  {
  }

  /** More citations never lower the score. */
  lemma CountScoreMonotone(m: nat, n: nat)
    requires m <= n
    ensures Verifier.CountCheck(m).score <= Verifier.CountCheck(n).score
  {
  }

  /** Without the spread penalty the critic never scores citations below the verifier. */
  lemma CriticCitationsLenient(note: string, sourceType: string)
    ensures CriticCitations(note, sourceType).score >= Verifier.CitationCheck(note, sourceType).score
  {
  }

  // ---------------------------------------------------------------------------
  // _verify_structure
  // ---------------------------------------------------------------------------

  /**
   * The critic's `REQUIRED_SECTIONS`: mind maps have no keyword; the section
   * minimum of 'detailed' and the tree characters of 'mindmap' are declared
   * but no check reads them.
   */
  function CriticRulesFor(template: string): Verifier.Rules {
    if template == "essence" then Verifier.Rules(["# ", "## "], ["핵심", "관계", "요약"], 0, [])
    else if template == "easy" then Verifier.Rules(["# ", "## "], ["꼭 알아야", "한 줄"], 0, [])
    else if template == "mindmap" then Verifier.Rules(["# ", "```mermaid", "mindmap"], [], 0, ['├', '└', '│'])
    else Verifier.Rules(["# ", "## "], [], 3, [])
  }

  function MarkerMsg(m: string): string { "필수 마커 '" + Strip(m) + "' 누락" }
  function KeywordMsg(k: string): string { "필수 섹션 '" + k + "' 누락" }
  const NO_MERMAID := "Mermaid 다이어그램 누락"

  function MarkerIssues(markers: seq<string>, note: string): seq<string>
    decreases |markers|
  {
    if markers == [] then []
    else
      var m := markers[|markers| - 1];
      MarkerIssues(markers[..|markers| - 1], note) + (if Contains(note, m) then [] else [MarkerMsg(m)])
  }

  function KeywordIssues(keywords: seq<string>, note: string): seq<string>
    decreases |keywords|
  {
    if keywords == [] then []
    else
      var k := keywords[|keywords| - 1];
      KeywordIssues(keywords[..|keywords| - 1], note) + (if Verifier.KeywordMissing(note, k) then [KeywordMsg(k)] else [])
  }

  predicate MermaidMissing(note: string, template: string) {
    template == "mindmap" && !Contains(note, "```mermaid")
  }

  /** `_verify_structure`: 100, less 20 per missing marker, 15 per missing keyword and 30 for a mind map without mermaid, floored at 0. */
  function CriticStructure(note: string, template: string): Check {
    var r := CriticRulesFor(template);
    var mi := MarkerIssues(r.markers, note);
    var ki := KeywordIssues(r.keywords, note);
    Verifier.Check(
      Verifier.Max0(100 - 20 * |mi| - 15 * |ki| - (if MermaidMissing(note, template) then 30 else 0)),
      mi + ki + (if MermaidMissing(note, template) then [NO_MERMAID] else []))
  }

  method CheckMarkers(note: string, markers: seq<string>) returns (issues: seq<string>, lost: int)
    ensures issues == MarkerIssues(markers, note) && lost == 20 * |issues|
  {
    issues, lost := [], 0;
    var i := 0;
    while i < |markers|
      invariant 0 <= i <= |markers|
      invariant issues == MarkerIssues(markers[..i], note) && lost == 20 * |issues|
    {
      assert markers[..i + 1][..i] == markers[..i];
      if !Contains(note, markers[i]) {
        issues := issues + [MarkerMsg(markers[i])];
        lost := lost + 20;
      }
      i := i + 1;
    }
    assert markers[..i] == markers;
  }

  method CheckKeywords(note: string, keywords: seq<string>) returns (issues: seq<string>, lost: int)
    ensures issues == KeywordIssues(keywords, note) && lost == 15 * |issues|
  {
    issues, lost := [], 0;
    var lowered := Lower(note);
    var j := 0;
    while j < |keywords|
      invariant 0 <= j <= |keywords|
      invariant issues == KeywordIssues(keywords[..j], note) && lost == 15 * |issues|
    {
      assert keywords[..j + 1][..j] == keywords[..j];
      if !Contains(lowered, Lower(keywords[j])) {
        issues := issues + [KeywordMsg(keywords[j])];
        lost := lost + 15;
      }
      j := j + 1;
    }
    assert keywords[..j] == keywords;
  }

  /** `_verify_structure`, step by step. */
  method VerifyStructure(note: string, template: string) returns (c: Check)
    ensures c == CriticStructure(note, template)
  {
    var r := CriticRulesFor(template);
    var markerIssues, markerLost := CheckMarkers(note, r.markers);
    var keywordIssues, keywordLost := CheckKeywords(note, r.keywords);
    var issues := markerIssues + keywordIssues;
    var score := 100 - markerLost - keywordLost;
    if template == "mindmap" {
      if !Contains(note, "```mermaid") {
        issues := issues + [NO_MERMAID];
        score := score - 30;
      }
    }
    c := Verifier.Check(Verifier.Max0(score), issues);
  }

  /** The critic reports a missing marker exactly when the verifier does, under its own wording. */
  lemma {:induction false} SameMarkerCount(markers: seq<string>, note: string)
    ensures |MarkerIssues(markers, note)| == |Verifier.MarkerIssues(markers, note)|
    decreases |markers|
  {
    if markers != [] { SameMarkerCount(markers[..|markers| - 1], note); }
  }

  lemma {:induction false} MarkerIssuesLength(markers: seq<string>, note: string)
    ensures |MarkerIssues(markers, note)| <= |markers|
    ensures MarkerIssues(markers, note) == [] <==> forall i :: 0 <= i < |markers| ==> Contains(note, markers[i])
    decreases |markers|
  {
    if markers != [] {
      var p := markers[..|markers| - 1];
      MarkerIssuesLength(p, note);
      assert forall i :: 0 <= i < |p| ==> p[i] == markers[i];
    }
  }

  lemma {:induction false} KeywordIssuesLength(keywords: seq<string>, note: string)
    ensures |KeywordIssues(keywords, note)| == |Verifier.KeywordIssues(keywords, note)| <= |keywords|
    decreases |keywords|
  {
    if keywords != [] { KeywordIssuesLength(keywords[..|keywords| - 1], note); }
  }

  /** The structure score stays within 0 to 100, and is 100 exactly when nothing is reported. */
  lemma CriticStructureRange(note: string, template: string)
    ensures var c := CriticStructure(note, template); 0 <= c.score <= 100 && (c.score == 100 <==> c.issues == [])
  {
    var r := CriticRulesFor(template);
    MarkerIssuesLength(r.markers, note);
    KeywordIssuesLength(r.keywords, note);
  }

  /** With fewer tests, the critic never scores structure below the verifier. */
  lemma CriticStructureLenient(note: string, template: string)
    ensures CriticStructure(note, template).score >= Verifier.StructureCheck(note, template).score
  {
    var r := CriticRulesFor(template);
    var v := Verifier.RulesFor(template);
    assert r.markers == v.markers;
    SameMarkerCount(r.markers, note);
    KeywordIssuesLength(r.keywords, note);
    if template != "mindmap" {
      assert r.keywords == v.keywords;
    }
  }

  // ---------------------------------------------------------------------------
  // _verify_with_ai
  // ---------------------------------------------------------------------------

  /** The parsed review, or the message of the exception the call or the parse raised. */
  datatype AiReply =
    | Reply(score: Option<int>, hallucinations: seq<string>, missing: seq<string>, inaccurate: seq<string>, suggestions: seq<string>)
    | Raised(message: string)

  datatype AiCheck = AiCheck(score: int, issues: seq<string>, suggestions: seq<string>)

  /** `tag + item` for each item, in order. */
  function Labelled(tag: string, items: seq<string>): (r: seq<string>)
    ensures |r| == |items| && forall i :: 0 <= i < |items| ==> r[i] == tag + items[i]
    decreases |items|
  {
    if items == [] then [] else Labelled(tag, items[..|items| - 1]) + [tag + items[|items| - 1]]
  }

  /** `_verify_with_ai` given the reply: two items of each list at most; on an exception 75 and one issue. */
  function AiCheckOf(reply: AiReply): AiCheck {
    match reply
    case Reply(score, hs, ms, cs, ss) =>
      AiCheck(score.GetOr(80),
              Labelled("환각: ", Verifier.Take(hs, 2)) + Labelled("누락: ", Verifier.Take(ms, 2))
              + Labelled("부정확한 인용: ", Verifier.Take(cs, 2)),
              ss)
    case Raised(msg) => AiCheck(75, ["AI 검증 오류: " + SliceTo(msg, 50)], [])
  }

  /** Appends `tag + item` for the first two items. */
  method AppendFirstTwo(issues: seq<string>, tag: string, items: seq<string>) returns (r: seq<string>)
    ensures r == issues + Labelled(tag, Verifier.Take(items, 2))
  {
    var firstTwo := Verifier.Take(items, 2);
    r := issues;
    var i := 0;
    while i < |firstTwo|
      invariant 0 <= i <= |firstTwo|
      invariant r == issues + Labelled(tag, firstTwo[..i])
    {
      assert firstTwo[..i + 1][..i] == firstTwo[..i];
      r := r + [tag + firstTwo[i]];
      i := i + 1;
    }
    assert firstTwo[..i] == firstTwo;
  }

  /** `_verify_with_ai`, step by step. */
  method VerifyWithAi(reply: AiReply) returns (r: AiCheck)
    ensures r == AiCheckOf(reply)
  {
    match reply
    case Raised(msg) =>
      r := AiCheck(75, ["AI 검증 오류: " + SliceTo(msg, 50)], []);
    case Reply(score, hs, ms, cs, ss) =>
      var issues := AppendFirstTwo([], "환각: ", hs);
      issues := AppendFirstTwo(issues, "누락: ", ms);
      issues := AppendFirstTwo(issues, "부정확한 인용: ", cs);
      r := AiCheck(score.GetOr(80), issues, ss);
  }

  /** At most six issues; a failed review gives 75, one issue and no suggestion; a reply without a score counts 80. */
  lemma AiCheckShape(reply: AiReply)
    ensures |AiCheckOf(reply).issues| <= 6
    ensures reply.Raised? ==> AiCheckOf(reply).score == 75 && |AiCheckOf(reply).issues| == 1 && AiCheckOf(reply).suggestions == []
    ensures reply.Reply? && reply.score.None? ==> AiCheckOf(reply).score == 80
  {
  }

  /** Each of the first two hallucinations becomes an issue of its own. */
  lemma HallucinationReported(reply: AiReply, i: nat)
    requires reply.Reply? && i < 2 && i < |reply.hallucinations|
    ensures "환각: " + reply.hallucinations[i] in AiCheckOf(reply).issues
  {
    var l := Labelled("환각: ", Verifier.Take(reply.hallucinations, 2));
    assert l[i] == "환각: " + reply.hallucinations[i];
    assert AiCheckOf(reply).issues[i] == l[i];
  }

  // ---------------------------------------------------------------------------
  // run
  // ---------------------------------------------------------------------------

  /** `int(c * 0.20 + s * 0.20 + a * 0.60)`, in exact arithmetic. */
  function CriticTotal(c: int, s: int, a: int): int {
    TruncDiv(20 * c + 20 * s + 60 * a, 100)
  }

  /** `CriticAgent.run`: always a success, with zero token counts. */
  function Run(note: string, template: string, sourceType: string, reply: AiReply): AgentResult<Critique> {
    var c := CriticCitations(note, sourceType);
    var s := CriticStructure(note, template);
    var ai := AiCheckOf(reply);
    var total := CriticTotal(c.score, s.score, ai.score);
    Success(Critique(total >= 80, total, c.issues + s.issues + ai.issues, ai.suggestions, c.score, s.score, ai.score),
            map["input" := 0, "output" := 0])
  }

  /** The critique passes exactly at 80 points, which takes 20c + 20s + 60a of at least 8000. */
  lemma RunPassIff(note: string, template: string, sourceType: string, reply: AiReply)
    ensures Run(note, template, sourceType, reply).Success?
    ensures var k := Run(note, template, sourceType, reply).output;
      (k.passed <==> k.score >= 80) && (k.passed <==> 20 * k.citationScore + 20 * k.structureScore + 60 * k.aiScore >= 8000)
    ensures var k := Run(note, template, sourceType, reply).output;
      k.issues == CriticCitations(note, sourceType).issues + CriticStructure(note, template).issues + AiCheckOf(reply).issues
  {
  }

  /** The run adds nothing to the token totals. */
  lemma RunAddsNoTokens(total: Tokens, note: string, template: string, sourceType: string, reply: AiReply)
    ensures AddTokens(total, Run(note, template, sourceType, reply).tokensUsed) == total
  {
  }

  /** When the review fails, passing takes citation and structure scores adding up to 175. */
  lemma FailedReviewPass(note: string, template: string, sourceType: string, msg: string)
    ensures Run(note, template, sourceType, Raised(msg)).output.passed
      <==> CriticCitations(note, sourceType).score + CriticStructure(note, template).score >= 175
  {
  }

  /**
   * Unlike the verifier, the critic can pass a note without a single
   * citation: with perfect structure and review scores the total is exactly 80.
   */
  lemma UncitedPassesOnlyWhenPerfect(note: string, template: string, sourceType: string, reply: AiReply)
    requires CitationCount(PatternFor(sourceType), note) == 0
    requires AiCheckOf(reply).score <= 100
    ensures Run(note, template, sourceType, reply).output.passed
      <==> CriticStructure(note, template).score == 100 && AiCheckOf(reply).score == 100
  {
    CriticStructureRange(note, template);
  }

  /** `get_critique_dict`: the part of a critique the writer's revision receives. */
  datatype CritiqueDict = CritiqueDict(issues: seq<string>, suggestions: seq<string>, score: int)

  function GetCritiqueDict(k: Critique): CritiqueDict {
    CritiqueDict(k.issues, k.suggestions, k.score)
  }
}

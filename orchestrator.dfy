/**
 * The analyse → write → criticise/revise loop of
 * generators/agents/orchestrator.py (`Orchestrator.generate_note`).
 *
 * The agents' answers are given up front as a `Script`: the analyst's and
 * the writer's results, the critic as a function of the draft in hand and
 * the attempt, and the writer's revision at each attempt. `CriticOf` builds
 * that function from the modelled `Critic.Run` and the model's replies (or
 * the exceptions `execute` caught). Timing and printing are left out.
 */
module Orchestrator {
  import opened Wrappers
  import opened Agents
  import Critic

  type Critique = Critic.Critique

  /** `GenerationResult` without `total_time`. */
  datatype GenerationResult<A> = GenerationResult(
    success: bool, note: string, analysis: Option<A>, finalCritique: Option<Critique>,
    attempts: int, totalTokens: Tokens, error: Option<string>)

  /** The returned result, or the `UnboundLocalError` raised when the loop never binds `attempt`. */
  datatype Outcome<A> = Returned(result: GenerationResult<A>) | AttemptUnbound

  /**
   * What every agent call answers: the analyst's and the writer's results,
   * the critic's result for a draft at attempt i (0-based) and the writer's
   * revision at attempt i.
   */
  datatype Script<A> = Script(
    maxAttempts: int, analyst: AgentResult<A>, writer: AgentResult<string>,
    critic: (string, nat) -> AgentResult<Critique>, revisions: seq<AgentResult<string>>)

  /** One revision answer per possible attempt. */
  predicate Supplied<A>(s: Script<A>) {
    |s.revisions| >= s.maxAttempts
  }

  /** The critic's own rule: a critique passes exactly at 80 points. */
  ghost predicate CriticSound<A>(s: Script<A>) {
    forall d: string, i: nat :: s.critic(d, i).Success? ==> (s.critic(d, i).output.passed <==> s.critic(d, i).output.score >= 80)
  }

  /** `critic.execute(draft, ...)`: the critic's run on the model's reply, or the failure `execute` reports. */
  function CriticCall(draft: string, template: string, sourceType: string, review: Result<Critic.AiReply>): AgentResult<Critique> {
    match review
    case Ok(reply) => Critic.Run(draft, template, sourceType, reply)
    case Err(msg) => Failure(msg)
  }

  /** The modelled critic, answering attempt i with the i-th model reply. */
  function CriticOf(template: string, sourceType: string, reviews: seq<Result<Critic.AiReply>>): (string, nat) -> AgentResult<Critique> {
    (d: string, i: nat) => if i < |reviews| then CriticCall(d, template, sourceType, reviews[i]) else Failure("")
  }

  /** The modelled critic keeps the 80-point rule and its results carry no tokens. */
  lemma CriticOfSound<A>(s: Script<A>, template: string, sourceType: string, reviews: seq<Result<Critic.AiReply>>)
    requires s.critic == CriticOf(template, sourceType, reviews)
    ensures CriticSound(s)
    ensures forall d: string, i: nat :: s.critic(d, i).Success? ==> s.critic(d, i).tokensUsed == map["input" := 0, "output" := 0]
  {
    forall d: string, i: nat | s.critic(d, i).Success?
      ensures s.critic(d, i).output.passed <==> s.critic(d, i).output.score >= 80
      ensures s.critic(d, i).tokensUsed == map["input" := 0, "output" := 0]
    {
      Critic.RunPassIff(d, template, sourceType, reviews[i].value);
    }
  }

  /** The draft the critic sees at attempt i. */
  function Draft<A>(s: Script<A>, i: nat): string
    requires Supplied(s) && s.writer.Success? && i <= s.maxAttempts
    decreases i, 0
  {
    if i == 0 then s.writer.output
    else if RevisesAt(s, i - 1) && s.revisions[i - 1].Success? then s.revisions[i - 1].output
    else Draft(s, i - 1)
  }

  /** The critic's result at attempt i. */
  function Review<A>(s: Script<A>, i: nat): AgentResult<Critique>
    requires Supplied(s) && s.writer.Success? && i < s.maxAttempts
    decreases i, 1
  {
    s.critic(Draft(s, i), i)
  }

  predicate PassesAt<A>(s: Script<A>, i: nat)
    requires Supplied(s) && s.writer.Success? && i < s.maxAttempts
  {
    Review(s, i).Success? && Review(s, i).output.passed
  }

  /** A revision is asked for after a critique that fails, unless this was the last attempt. */
  predicate RevisesAt<A>(s: Script<A>, i: nat)
    requires Supplied(s) && s.writer.Success? && i < s.maxAttempts
    decreases i, 2
  {
    Review(s, i).Success? && !Review(s, i).output.passed && i + 1 < s.maxAttempts
  }

  function ScoreAt<A>(s: Script<A>, i: nat): int
    requires Supplied(s) && s.writer.Success? && i < s.maxAttempts && Review(s, i).Success?
  {
    Review(s, i).output.score
  }

  /**
   * Among the first k attempts, b is the first with the highest positive
   * score, or -1 when no critique scored above 0.
   */
  predicate BestOf<A>(s: Script<A>, k: nat, b: int)
    requires Supplied(s) && s.writer.Success? && k <= s.maxAttempts
  {
    if b == -1 then forall i :: 0 <= i < k && Review(s, i).Success? ==> ScoreAt(s, i) <= 0
    else
      0 <= b < k && Review(s, b).Success? && ScoreAt(s, b) > 0
      && (forall i :: 0 <= i < k && Review(s, i).Success? ==> ScoreAt(s, i) <= ScoreAt(s, b))
      && (forall i :: 0 <= i < b && Review(s, i).Success? ==> ScoreAt(s, i) < ScoreAt(s, b))
  }

  /** Attempt i keeps the best critique so far, or replaces it when it scores higher. */
  lemma BestOfStep<A>(s: Script<A>, i: nat, b: int, bestScore: int)
    requires Supplied(s) && s.writer.Success? && i < s.maxAttempts && BestOf(s, i, b)
    requires b == -1 ==> bestScore == 0
    requires b != -1 ==> 0 <= b < i && Review(s, b).Success? && bestScore == ScoreAt(s, b)
    ensures Review(s, i).Success? && Review(s, i).output.score > bestScore ==> BestOf(s, i + 1, i)
    ensures !(Review(s, i).Success? && Review(s, i).output.score > bestScore) ==> BestOf(s, i + 1, b)
  {
  }

  /** Token totals after k attempts: the analyst's, the writer's, and each successful critique's and revision's. */
  function TokensThrough<A>(s: Script<A>, k: nat): Tokens
    requires Supplied(s) && s.analyst.Success? && s.writer.Success? && k <= s.maxAttempts
  {
    if k == 0 then AddTokens(AddTokens(NO_TOKENS, s.analyst.tokensUsed), s.writer.tokensUsed)
    else
      var t := if Review(s, k - 1).Success? then AddTokens(TokensThrough(s, k - 1), Review(s, k - 1).tokensUsed)
               else TokensThrough(s, k - 1);
      if RevisesAt(s, k - 1) && s.revisions[k - 1].Success? then AddTokens(t, s.revisions[k - 1].tokensUsed) else t
  }

  /** The number of revisions asked for in the first k attempts. */
  function Revisions<A>(s: Script<A>, k: nat): nat
    requires Supplied(s) && s.writer.Success? && k <= s.maxAttempts
  {
    if k == 0 then 0 else Revisions(s, k - 1) + (if RevisesAt(s, k - 1) then 1 else 0)
  }

  /** At most one revision per attempt, and none after the last: at most max_attempts - 1 in all. */
  lemma {:induction false} RevisionsBound<A>(s: Script<A>, k: nat)
    requires Supplied(s) && s.writer.Success? && k <= s.maxAttempts
    ensures Revisions(s, k) <= k && (k >= 1 ==> Revisions(s, k) <= s.maxAttempts - 1)
  {
    if k > 0 {
      RevisionsBound(s, k - 1);
    }
  }

  /** One agent call of a run: whether it succeeded, and the counts it reported (none for a failure). */
  datatype Call = Call(ok: bool, used: map<string, int>)

  function CallOf<T>(r: AgentResult<T>): Call {
    match r
    case Success(_, used) => Call(true, used)
    case Failure(_) => Call(false, map[])
  }

  /**
   * The agent calls of the first k attempts, in order: the analyst, the
   * writer, then per attempt the critic and, when one is asked for, the revision.
   */
  function CallsThrough<A>(s: Script<A>, k: nat): seq<Call>
    requires Supplied(s) && s.analyst.Success? && s.writer.Success? && k <= s.maxAttempts
  {
    if k == 0 then [CallOf(s.analyst), CallOf(s.writer)]
    else CallsThrough(s, k - 1) + [CallOf(Review(s, k - 1))]
         + (if RevisesAt(s, k - 1) then [CallOf(s.revisions[k - 1])] else [])
  }

  /** The input and the output counts summed over the successful calls only, a missing key counting 0. */
  function SumOk(calls: seq<Call>): Tokens {
    if calls == [] then NO_TOKENS
    else
      var t := SumOk(calls[1..]);
      if calls[0].ok then Tokens(GetCount(calls[0].used, "input") + t.input, GetCount(calls[0].used, "output") + t.output)
      else t
  }

  lemma {:induction false} SumOkAppend(a: seq<Call>, b: seq<Call>)
    ensures SumOk(a + b) == Tokens(SumOk(a).input + SumOk(b).input, SumOk(a).output + SumOk(b).output)
  {
    if a == [] {
      assert a + b == b;
    } else {
      assert (a + b)[0] == a[0] && (a + b)[1..] == a[1..] + b;
      SumOkAppend(a[1..], b);
    }
  }

  /** Adding one call's counts to the totals is summing it in after the others. */
  lemma AddCall<T>(calls: seq<Call>, r: AgentResult<T>)
    ensures SumOk(calls + [CallOf(r)]) == if r.Success? then AddTokens(SumOk(calls), r.tokensUsed) else SumOk(calls)
  {
    SumOkAppend(calls, [CallOf(r)]);
    assert [CallOf(r)][1..] == [];
  }

  /**
   * `_add_tokens` over a run: the totals after k attempts are the counts of
   * the successful calls summed, and the run makes two calls, one critique
   * per attempt and one call per revision asked for.
   */
  lemma {:induction false} TokensOfSuccessfulCalls<A>(s: Script<A>, k: nat)
    requires Supplied(s) && s.analyst.Success? && s.writer.Success? && k <= s.maxAttempts
    ensures TokensThrough(s, k) == SumOk(CallsThrough(s, k))
    ensures |CallsThrough(s, k)| == 2 + k + Revisions(s, k)
  {
    if k == 0 {
      AddCall([], s.analyst);
      AddCall([CallOf(s.analyst)], s.writer);
      assert [] + [CallOf(s.analyst)] == [CallOf(s.analyst)];
    } else {
      TokensOfSuccessfulCalls(s, k - 1);
      var c := CallsThrough(s, k - 1) + [CallOf(Review(s, k - 1))];
      AddCall(CallsThrough(s, k - 1), Review(s, k - 1));
      if RevisesAt(s, k - 1) {
        AddCall(c, s.revisions[k - 1]);
      } else {
        assert c + [] == c;
      }
    }
  }

  /** `generate_note`. */
  method GenerateNote<A>(s: Script<A>) returns (out: Outcome<A>, ghost criticCalls: nat, ghost reviseCalls: nat, ghost best: int)
    requires Supplied(s)
    ensures !s.analyst.Success? ==>
      out == Returned(GenerationResult(false, "", None, None, 0, NO_TOKENS, Some("분석 실패: " + s.analyst.error))) && criticCalls == 0
    ensures s.analyst.Success? && !s.writer.Success? ==>
      out == Returned(GenerationResult(false, "", Some(s.analyst.output), None, 0, NO_TOKENS, Some("작성 실패: " + s.writer.error)))
      && criticCalls == 0
    ensures s.analyst.Success? && s.writer.Success? && s.maxAttempts < 1 ==> out == AttemptUnbound && criticCalls == 0
    ensures s.analyst.Success? && s.writer.Success? && s.maxAttempts >= 1 ==>
      out.Returned? && 1 <= criticCalls <= s.maxAttempts && reviseCalls == Revisions(s, criticCalls)
      && (forall i :: 0 <= i < criticCalls - 1 ==> !PassesAt(s, i))
      && (criticCalls < s.maxAttempts ==> PassesAt(s, criticCalls - 1))
      && BestOf(s, criticCalls, best)
      && out.result == GenerationResult(
           true,
           if best == -1 then s.writer.output else Draft(s, best),
           Some(s.analyst.output),
           if best == -1 then None else Some(Review(s, best).output),
           criticCalls,
           TokensThrough(s, criticCalls),
           None)
  {
    criticCalls, reviseCalls, best := 0, 0, -1;
    if !s.analyst.Success? {
      out := Returned(GenerationResult(false, "", None, None, 0, NO_TOKENS, Some("분석 실패: " + s.analyst.error)));
      return;
    }
    var analysis := s.analyst.output;
    var total := AddTokens(NO_TOKENS, s.analyst.tokensUsed);
    if !s.writer.Success? {
      out := Returned(GenerationResult(false, "", Some(analysis), None, 0, NO_TOKENS, Some("작성 실패: " + s.writer.error)));
      return;
    }
    var current := s.writer.output;
    total := AddTokens(total, s.writer.tokensUsed);
    var bestDraft := current;
    var bestCritique: Option<Critique> := None;
    var bestScore := 0;
    var attempt := 0;
    var i := 0;
    var done := false;
    while i < s.maxAttempts && !done
      invariant 0 <= i && (s.maxAttempts >= 0 ==> i <= s.maxAttempts)
      invariant i > 0 ==> i <= s.maxAttempts
      invariant attempt == i && criticCalls == i
      invariant i <= s.maxAttempts ==> reviseCalls == Revisions(s, i)
      invariant i <= s.maxAttempts ==> current == Draft(s, i) && total == TokensThrough(s, i)
      invariant i <= s.maxAttempts ==> BestOf(s, i, best)
      invariant best == -1 ==> bestScore == 0 && bestDraft == s.writer.output && bestCritique == None
      invariant best != -1 ==>
        0 <= best < i <= s.maxAttempts && Review(s, best).Success? && bestScore == ScoreAt(s, best)
        && bestDraft == Draft(s, best) && bestCritique == Some(Review(s, best).output)
      invariant forall j :: 0 <= j < i - 1 ==> !PassesAt(s, j)
      invariant i > 0 && !done ==> !PassesAt(s, i - 1)
      invariant done ==> i > 0 && PassesAt(s, i - 1)
    {
      attempt := i + 1;
      var review := s.critic(current, i);
      assert review == Review(s, i);
      BestOfStep(s, i, best, bestScore);
      criticCalls := criticCalls + 1;
      if review.Success? {
        var critique := review.output;
        total := AddTokens(total, review.tokensUsed);
        if critique.score > bestScore {
          bestScore := critique.score;
          bestDraft := current;
          bestCritique := Some(critique);
          best := i;
        }
        if critique.passed {
          done := true;
        } else if attempt < s.maxAttempts {
          reviseCalls := reviseCalls + 1;
          var revision := s.revisions[i];
          if revision.Success? {
            current := revision.output;
            total := AddTokens(total, revision.tokensUsed);
          }
        }
      }
      i := i + 1;
    }
    if s.maxAttempts < 1 {
      out := AttemptUnbound;
    } else {
      out := Returned(GenerationResult(true, bestDraft, Some(analysis), bestCritique, attempt, total, None));
    }
  }

  /** The first highest score is unique: `BestOf` picks one attempt. */
  lemma BestUnique<A>(s: Script<A>, k: nat, b: int, c: int)
    requires Supplied(s) && s.writer.Success? && k <= s.maxAttempts
    requires BestOf(s, k, b) && BestOf(s, k, c)
    ensures b == c
  {
  }

  /**
   * When the loop stops on a passing critique, that critique is the best so
   * far (it scores 80 or more, every earlier one less), so the note returned
   * is the draft that passed.
   */
  lemma PassingDraftReturned<A>(s: Script<A>, k: nat, b: int)
    requires Supplied(s) && CriticSound(s) && s.writer.Success? && 1 <= k <= s.maxAttempts
    requires forall i :: 0 <= i < k - 1 ==> !PassesAt(s, i)
    requires PassesAt(s, k - 1)
    requires BestOf(s, k, b)
    ensures b == k - 1
  {
    assert ScoreAt(s, k - 1) >= 80;
    if b != k - 1 && b != -1 {
      assert PassesAt(s, b);
    }
  }

  /** Whatever is returned is a draft the writer produced. */
  lemma {:induction false} DraftIsWritten<A>(s: Script<A>, i: nat)
    requires Supplied(s) && s.writer.Success? && i <= s.maxAttempts
    ensures Draft(s, i) == s.writer.output
      || exists j :: 0 <= j < i && s.revisions[j].Success? && Draft(s, i) == s.revisions[j].output
  {
    if i > 0 {
      DraftIsWritten(s, i - 1);
    }
  }

  /** A critic failure or a failed revision leaves the draft unchanged for the next attempt. */
  lemma DraftKept<A>(s: Script<A>, i: nat)
    requires Supplied(s) && s.writer.Success? && i + 1 <= s.maxAttempts
    requires !Review(s, i).Success? || !s.revisions[i].Success?
    ensures Draft(s, i + 1) == Draft(s, i)
  {
  }
}

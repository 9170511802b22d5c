/**
 * `sample_source` (generators/chunker.py): a text longer than the allowed
 * length is cut down to its opening 40%, a stretch from 40% of the way in,
 * and its closing 30% of the budget, whole lines only, with a marker naming
 * the line each later section starts at.
 */
module SourceSampling {
  import opened Text
  import opened Chunker

  /** Room reserved for the two section markers. */
  const SEPARATOR_OVERHEAD: int := 80
  const DEFAULT_MAX_LENGTH: int := 12000

  // ---------------------------------------------------------------------------
  // Line budgets
  // ---------------------------------------------------------------------------

  lemma {:induction false} SizeOfCons(x: string, ls: seq<string>)
    ensures SizeOf([x] + ls) == |x| + 1 + SizeOf(ls)
    decreases |ls|
  {
    if ls != [] {
      var l := [x] + ls;
      assert l[..|l| - 1] == [x] + ls[..|ls| - 1];
      SizeOfCons(x, ls[..|ls| - 1]);
    }
  }

  /** Longer prefixes occupy strictly more characters. */
  lemma {:induction false} PrefixSizeGrows(ls: seq<string>, a: nat, b: nat)
    requires a < b <= |ls|
    ensures SizeOf(ls[..a]) < SizeOf(ls[..b])
    decreases b
  {
    assert ls[..b][..b - 1] == ls[..b - 1];
    if a < b - 1 { PrefixSizeGrows(ls, a, b - 1); }
  }

  /** Longer suffixes occupy strictly more characters. */
  lemma {:induction false} SuffixSizeGrows(ls: seq<string>, a: nat, b: nat)
    requires a < b <= |ls|
    ensures SizeOf(ls[b..]) < SizeOf(ls[a..])
    decreases b - a
  {
    assert ls[a..] == [ls[a]] + ls[a + 1..];
    SizeOfCons(ls[a], ls[a + 1..]);
    if a + 1 < b { SuffixSizeGrows(ls, a + 1, b); }
  }

  /** A run of `n` lines occupies at least `n` characters. */
  lemma {:induction false} SizeAtLeastCount(ls: seq<string>)
    ensures SizeOf(ls) >= |ls|
    decreases |ls|
  {
    if ls != [] { SizeAtLeastCount(ls[..|ls| - 1]); }
  }

  /**
   * The number of leading lines that fit `budget`: the whole prefix fits
   * (or is empty), and one more line would not.
   */
  function LongestFit(ls: seq<string>, budget: int): (r: nat)
    ensures r <= |ls|
    ensures r == 0 || SizeOf(ls[..r]) <= budget
    ensures r < |ls| ==> SizeOf(ls[..r + 1]) > budget
    decreases |ls|
  {
    if ls == [] then 0
    else if SizeOf(ls) <= budget then assert ls[..|ls|] == ls; |ls|
    else
      var p := ls[..|ls| - 1];
      var r := LongestFit(p, budget);
      assert p[..r] == ls[..r];
      assert r < |p| ==> p[..r + 1] == ls[..r + 1];
      assert r == |p| ==> ls[..r + 1] == ls;
      r
  }

  /** The number of trailing lines that fit `budget`. */
  function LongestSuffixFit(ls: seq<string>, budget: int): (r: nat)
    ensures r <= |ls|
    decreases |ls|
  {
    if ls == [] then 0
    else if SizeOf(ls) <= budget then |ls|
    else LongestSuffixFit(ls[1..], budget)
  }

  /** The suffix that `LongestSuffixFit` counts fits (or is empty), and one more line would not. */
  lemma {:induction false} LongestSuffixFitSpec(ls: seq<string>, budget: int)
    ensures var r := LongestSuffixFit(ls, budget);
      (r == 0 || SizeOf(ls[|ls| - r..]) <= budget) && (r < |ls| ==> SizeOf(ls[|ls| - r - 1..]) > budget)
    decreases |ls|
  {
    if ls != [] {
      var r := LongestSuffixFit(ls, budget);
      if SizeOf(ls) <= budget {
        assert ls[|ls| - r..] == ls;
      } else {
        var t := ls[1..];
        LongestSuffixFitSpec(t, budget);
        assert t[|t| - r..] == ls[|ls| - r..];
        if r < |t| {
          assert t[|t| - r - 1..] == ls[|ls| - r - 1..];
        } else {
          assert ls[|ls| - r - 1..] == ls;
        }
      }
    }
  }

  /** A prefix that fits is no longer than any prefix that is one line too long. */
  lemma {:induction false} PrefixOrder(ls: seq<string>, budget: int, k: nat, r: nat)
    requires k <= |ls| && r <= |ls|
    requires k < |ls| ==> SizeOf(ls[..k + 1]) > budget
    requires r == 0 || SizeOf(ls[..r]) <= budget
    ensures r <= k
  {
    if k < r {
      if k + 1 < r { PrefixSizeGrows(ls, k + 1, r); }
      assert false;
    }
  }

  /** A suffix that fits is no longer than any suffix that is one line too long. */
  lemma {:induction false} SuffixOrder(ls: seq<string>, budget: int, k: nat, r: nat)
    requires k <= |ls| && r <= |ls|
    requires k < |ls| ==> SizeOf(ls[|ls| - k - 1..]) > budget
    requires r == 0 || SizeOf(ls[|ls| - r..]) <= budget
    ensures r <= k
  {
    var n := |ls|;
    if k < r {
      if k + 1 < r { SuffixSizeGrows(ls, n - r, n - k - 1); }
      assert false;
    }
  }

  /** Only one prefix length meets both conditions of `LongestFit`. */
  lemma {:induction false} FitUnique(ls: seq<string>, budget: int, k: nat)
    requires k <= |ls|
    requires k == 0 || SizeOf(ls[..k]) <= budget
    requires k < |ls| ==> SizeOf(ls[..k + 1]) > budget
    ensures k == LongestFit(ls, budget)
  {
    var r := LongestFit(ls, budget);
    PrefixOrder(ls, budget, k, r);
    PrefixOrder(ls, budget, r, k);
  }

  /** Only one suffix length meets both conditions of `LongestSuffixFit`. */
  lemma {:induction false} SuffixFitUnique(ls: seq<string>, budget: int, k: nat)
    requires k <= |ls|
    requires k == 0 || SizeOf(ls[|ls| - k..]) <= budget
    requires k < |ls| ==> SizeOf(ls[|ls| - k - 1..]) > budget
    ensures k == LongestSuffixFit(ls, budget)
  {
    var r := LongestSuffixFit(ls, budget);
    LongestSuffixFitSpec(ls, budget);
    SuffixOrder(ls, budget, k, r);
    SuffixOrder(ls, budget, r, k);
  }

  /** A budget below one character takes no line. */
  lemma NothingFits(ls: seq<string>, budget: int)
    requires budget <= 0
    ensures LongestFit(ls, budget) == 0 && LongestSuffixFit(ls, budget) == 0
  {
    var r := LongestFit(ls, budget);
    SizeAtLeastCount(ls[..r]);
    var e := LongestSuffixFit(ls, budget);
    LongestSuffixFitSpec(ls, budget);
    SizeAtLeastCount(ls[|ls| - e..]);
  }

  /** The loop that collects leading lines while they fit the budget. */
  method TakeFitting(ls: seq<string>, budget: int) returns (taken: seq<string>)
    ensures taken == ls[..LongestFit(ls, budget)]
  {
    taken := [];
    var current := 0;
    var i := 0;
    while i < |ls| && current + |ls[i]| + 1 <= budget
      invariant 0 <= i <= |ls| && taken == ls[..i] && current == SizeOf(ls[..i])
      invariant i == 0 || current <= budget
    {
      assert ls[..i + 1] == ls[..i] + [ls[i]];
      SizeOfAppend(ls[..i], ls[i]);
      taken := taken + [ls[i]];
      current := current + |ls[i]| + 1;
      i := i + 1;
    }
    if i < |ls| {
      assert ls[..i + 1] == ls[..i] + [ls[i]];
      SizeOfAppend(ls[..i], ls[i]);
    }
    FitUnique(ls, budget, i);
  }

  /** The loop over `reversed(lines)` that puts each fitting line in front. */
  method TakeFittingFromEnd(ls: seq<string>, budget: int) returns (taken: seq<string>)
    ensures taken == ls[|ls| - LongestSuffixFit(ls, budget)..]
  {
    taken := [];
    var current := 0;
    var j := |ls|;
    while j > 0 && current + |ls[j - 1]| + 1 <= budget
      invariant 0 <= j <= |ls| && taken == ls[j..] && current == SizeOf(ls[j..])
      invariant j == |ls| || current <= budget
    {
      assert ls[j - 1..] == [ls[j - 1]] + ls[j..];
      SizeOfCons(ls[j - 1], ls[j..]);
      taken := [ls[j - 1]] + taken;
      current := current + |ls[j - 1]| + 1;
      j := j - 1;
    }
    if j > 0 {
      assert ls[j - 1..] == [ls[j - 1]] + ls[j..];
      SizeOfCons(ls[j - 1], ls[j..]);
    }
    SuffixFitUnique(ls, budget, |ls| - j);
  }

  // ---------------------------------------------------------------------------
  // Sections
  // ---------------------------------------------------------------------------

  /** `int(usable_length * 0.40)`; the product is exact enough that `int` truncates the true ratio. */
  function StartBudget(maxLength: int): int { TruncDiv((maxLength - SEPARATOR_OVERHEAD) * 4, 10) }

  /** `int(usable_length * 0.30)`, the budget of the middle and of the closing section. */
  function LaterBudget(maxLength: int): int { TruncDiv((maxLength - SEPARATOR_OVERHEAD) * 3, 10) }

  /** `int(total_lines * 0.4)`: the line the middle section starts from. */
  function MidStart(totalLines: nat): (m: nat)
    ensures m < totalLines || totalLines == 0
    ensures m <= totalLines
  {
    totalLines * 4 / 10
  }

  function MidMarker(line: nat): (s: string)
    ensures |s| == 26 + |NatToString(line)|
  {
    "\n\n... [중간 부분 ~" + NatToString(line) + "번째 줄부터] ...\n"
  }

  function EndMarker(line: nat): (s: string)
    ensures |s| == 26 + |NatToString(line)|
  {
    "\n\n... [후반 부분 ~" + NatToString(line) + "번째 줄부터] ...\n"
  }

  function StartLines(lines: seq<string>, maxLength: int): seq<string> {
    lines[..LongestFit(lines, StartBudget(maxLength))]
  }

  /** The middle section: the lines from the middle start on that fit the later budget. */
  function MidLines(lines: seq<string>, maxLength: int): (r: seq<string>)
    ensures r == [] || SizeOf(r) <= LaterBudget(maxLength)
  {
    var m := MidStart(|lines|);
    lines[m..][..LongestFit(lines[m..], LaterBudget(maxLength))]
  }

  function EndLines(lines: seq<string>, maxLength: int): seq<string> {
    lines[|lines| - LongestSuffixFit(lines, LaterBudget(maxLength))..]
  }

  /** The sections and their markers, joined by newlines. */
  function Assemble(start: seq<string>, midStart: nat, mid: seq<string>, endStart: nat, end: seq<string>): string {
    var parts := [Join(start, "\n")]
      + (if mid != [] then [MidMarker(midStart), Join(mid, "\n")] else [])
      + (if end != [] then [EndMarker(endStart), Join(end, "\n")] else []);
    Join(parts, "\n")
  }

  /** The three sections of a text of more than ten lines, with their markers. */
  function SampleOfLines(lines: seq<string>, maxLength: int): string {
    var end := EndLines(lines, maxLength);
    Assemble(StartLines(lines, maxLength), MidStart(|lines|), MidLines(lines, maxLength), |lines| - |end|, end)
  }

  /** The sample of `text` that `sample_source(text, maxLength)` returns. */
  function Sample(text: string, maxLength: int): string {
    if |text| <= maxLength then text
    else if |Lines(text)| <= 10 then SliceTo(text, maxLength)
    else SampleOfLines(Lines(text), maxLength)
  }

  /** `sample_source`. */
  method SampleSource(text: string, maxLength: int) returns (r: string)
    ensures r == Sample(text, maxLength)
    ensures |text| <= maxLength ==> r == text
  {
    if |text| <= maxLength {
      return text;
    }
    var lines := Lines(text);
    var totalLines := |lines|;
    if totalLines <= 10 {
      return SliceTo(text, maxLength);
    }
    r := SampleSections(lines, maxLength);
  }

  /** The part of `sample_source` that picks and joins the three sections. */
  method SampleSections(lines: seq<string>, maxLength: int) returns (r: string)
    requires |lines| > 10
    ensures r == SampleOfLines(lines, maxLength)
  {
    var totalLines := |lines|;
    var usable := maxLength - SEPARATOR_OVERHEAD;
    var startLines := TakeFitting(lines, TruncDiv(usable * 4, 10));
    var midStart := MidStart(totalLines);
    var midLines := TakeFitting(lines[midStart..], TruncDiv(usable * 3, 10));
    var endLines := TakeFittingFromEnd(lines, TruncDiv(usable * 3, 10));
    var endStart := totalLines - |endLines|;
    assert startLines == StartLines(lines, maxLength);
    assert midLines == MidLines(lines, maxLength);
    assert endLines == EndLines(lines, maxLength);
    var parts := [Join(startLines, "\n")];
    if midLines != [] {
      parts := parts + [MidMarker(midStart), Join(midLines, "\n")];
    }
    ghost var withMid := parts;
    assert withMid == [Join(startLines, "\n")]
      + (if midLines != [] then [MidMarker(midStart), Join(midLines, "\n")] else []);
    if endLines != [] {
      parts := parts + [EndMarker(endStart), Join(endLines, "\n")];
    }
    assert parts == withMid + (if endLines != [] then [EndMarker(endStart), Join(endLines, "\n")] else []);
    r := Join(parts, "\n");
    assert r == Assemble(startLines, midStart, midLines, endStart, endLines);
  }

  // ---------------------------------------------------------------------------
  // What the sample keeps
  // ---------------------------------------------------------------------------

  /** Joined lines are one character shorter than their size (no newline after the last). */
  lemma {:induction false} JoinedSize(ls: seq<string>)
    ensures |Join(ls, "\n")| == if ls == [] then 0 else SizeOf(ls) - 1
    decreases |ls|
  {
    if |ls| > 1 {
      var p := ls[..|ls| - 1];
      assert ls == p + [ls[|ls| - 1]];
      JoinAppend(p, ls[|ls| - 1], "\n");
      JoinedSize(p);
    } else if |ls| == 1 {
      assert ls[..0] == [];
    }
  }

  /** A prefix of the lines, joined, is a prefix of the text. */
  lemma LeadingLinesPrefix(text: string, k: nat)
    requires k <= |Lines(text)|
    ensures StartsWith(text, Join(Lines(text)[..k], "\n"))
  {
    var lines := Lines(text);
    JoinSplit(text, '\n');
    if k == |lines| {
      assert lines[..k] == lines;
    } else if k > 0 {
      assert lines == lines[..k] + lines[k..];
      JoinConcat(lines[..k], lines[k..], "\n");
    }
  }

  /** A suffix of the lines, joined, is a suffix of the text. */
  lemma TrailingLinesSuffix(text: string, k: nat)
    requires k <= |Lines(text)|
    ensures EndsWith(text, Join(Lines(text)[k..], "\n"))
  {
    var lines := Lines(text);
    JoinSplit(text, '\n');
    if k == 0 {
      assert lines[k..] == lines;
    } else if k < |lines| {
      assert lines == lines[..k] + lines[k..];
      JoinConcat(lines[..k], lines[k..], "\n");
    }
  }

  /** The assembled sample begins with its first section and ends with its last one. */
  lemma AssembleEdges(start: seq<string>, ms: nat, mid: seq<string>, es: nat, end: seq<string>)
    ensures StartsWith(Assemble(start, ms, mid, es, end), Join(start, "\n"))
    ensures end != [] ==> EndsWith(Assemble(start, ms, mid, es, end), Join(end, "\n"))
  {
    var parts := [Join(start, "\n")]
      + (if mid != [] then [MidMarker(ms), Join(mid, "\n")] else [])
      + (if end != [] then [EndMarker(es), Join(end, "\n")] else []);
    JoinPrefix(parts, "\n");
    if end != [] {
      var init := parts[..|parts| - 1];
      assert parts == init + [Join(end, "\n")];
      JoinAppend(init, Join(end, "\n"), "\n");
    }
  }

  /**
   * The sample of a long text opens with the text's own opening lines and,
   * when it has a closing section, ends with the text's own closing lines.
   */
  lemma SampleKeepsOpeningAndEnd(text: string, maxLength: int)
    requires |text| > maxLength && |Lines(text)| > 10
    ensures StartsWith(text, Join(StartLines(Lines(text), maxLength), "\n"))
    ensures StartsWith(Sample(text, maxLength), Join(StartLines(Lines(text), maxLength), "\n"))
    ensures EndsWith(text, Join(EndLines(Lines(text), maxLength), "\n"))
    ensures EndLines(Lines(text), maxLength) != [] ==>
              EndsWith(Sample(text, maxLength), Join(EndLines(Lines(text), maxLength), "\n"))
  {
    var lines := Lines(text);
    var start := StartLines(lines, maxLength);
    var end := EndLines(lines, maxLength);
    LeadingLinesPrefix(text, |start|);
    TrailingLinesSuffix(text, |lines| - |end|);
    assert Sample(text, maxLength) == SampleOfLines(lines, maxLength);
    SampleOfLinesEdges(lines, maxLength);
  }

  /** The assembled sample starts with its opening section and ends with its closing one. */
  lemma SampleOfLinesEdges(lines: seq<string>, maxLength: int)
    ensures StartsWith(SampleOfLines(lines, maxLength), Join(StartLines(lines, maxLength), "\n"))
    ensures EndLines(lines, maxLength) != [] ==>
              EndsWith(SampleOfLines(lines, maxLength), Join(EndLines(lines, maxLength), "\n"))
  {
    var end := EndLines(lines, maxLength);
    AssembleEdges(StartLines(lines, maxLength), MidStart(|lines|), MidLines(lines, maxLength), |lines| - |end|, end);
  }

  /** Decimal strings do not get shorter as numbers grow. */
  lemma {:induction false} NatToStringMonotone(m: nat, n: nat)
    requires m <= n
    ensures |NatToString(m)| <= |NatToString(n)|
    decreases n
  {
    if m >= 10 { NatToStringMonotone(m / 10, n / 10); }
  }

  /** The length of the assembled sections and markers. */
  lemma AssembleLength(start: seq<string>, ms: nat, mid: seq<string>, es: nat, end: seq<string>)
    ensures |Assemble(start, ms, mid, es, end)|
      == |Join(start, "\n")|
       + (if mid != [] then 2 + |MidMarker(ms)| + |Join(mid, "\n")| else 0)
       + (if end != [] then 2 + |EndMarker(es)| + |Join(end, "\n")| else 0)
  {
    var p0 := [Join(start, "\n")];
    var p1 := p0 + (if mid != [] then [MidMarker(ms), Join(mid, "\n")] else []);
    var p2 := p1 + (if end != [] then [EndMarker(es), Join(end, "\n")] else []);
    if mid != [] {
      JoinAppend(p0, MidMarker(ms), "\n");
      JoinAppend(p0 + [MidMarker(ms)], Join(mid, "\n"), "\n");
      assert p1 == p0 + [MidMarker(ms)] + [Join(mid, "\n")];
    }
    if end != [] {
      JoinAppend(p1, EndMarker(es), "\n");
      JoinAppend(p1 + [EndMarker(es)], Join(end, "\n"), "\n");
      assert p2 == p1 + [EndMarker(es)] + [Join(end, "\n")];
    } else {
      assert p2 == p1;
    }
  }

  /** A joined section is no longer than its budget. */
  lemma SectionWithinBudget(ls: seq<string>, budget: int)
    requires ls == [] || SizeOf(ls) <= budget
    ensures |Join(ls, "\n")| <= if ls == [] then 0 else budget
  {
    JoinedSize(ls);
  }

  /** The three budgets add up to no more than the usable length. */
  lemma BudgetsWithinUsable(maxLength: int)
    requires maxLength >= SEPARATOR_OVERHEAD
    ensures StartBudget(maxLength) + 2 * LaterBudget(maxLength) <= maxLength - SEPARATOR_OVERHEAD
  {
    var u := maxLength - SEPARATOR_OVERHEAD;
    assert StartBudget(maxLength) * 10 <= u * 4;
    assert LaterBudget(maxLength) * 10 <= u * 3;
  }

  /**
   * The sample is never longer than `maxLength` (for a non-negative limit),
   * provided the line numbers in the markers have at most twelve digits:
   * the markers then fit the 80 characters set aside for them.
   */
  lemma SampleWithinLimit(text: string, maxLength: int)
    requires maxLength >= 0
    requires |NatToString(|Lines(text)|)| <= 12
    ensures |Sample(text, maxLength)| <= maxLength
  {
    var lines := Lines(text);
    if |text| > maxLength && |lines| > 10 {
      OfLinesWithin(lines, maxLength);
    }
  }

  /** The three sections of more than ten lines, with their markers, fit `maxLength`. */
  lemma OfLinesWithin(lines: seq<string>, maxLength: int)
    requires maxLength >= 0 && |lines| > 10 && |NatToString(|lines|)| <= 12
    ensures |SampleOfLines(lines, maxLength)| <= maxLength
  {
    var start := StartLines(lines, maxLength);
    var mid := MidLines(lines, maxLength);
    var end := EndLines(lines, maxLength);
    var ms := MidStart(|lines|);
    var es := |lines| - |end|;
    AssembleLength(start, ms, mid, es, end);
    if maxLength < SEPARATOR_OVERHEAD {
      NoSections(lines, maxLength);
    } else {
      SectionsWithinBudgets(lines, maxLength);
      NatToStringMonotone(ms, |lines|);
      NatToStringMonotone(es, |lines|);
      BudgetsWithinUsable(maxLength);
    }
  }

  /** Below the markers' reserve no section takes a line. */
  lemma NoSections(lines: seq<string>, maxLength: int)
    requires |lines| > 10 && maxLength < SEPARATOR_OVERHEAD
    ensures StartLines(lines, maxLength) == [] && MidLines(lines, maxLength) == [] && EndLines(lines, maxLength) == []
  {
    NothingFits(lines, StartBudget(maxLength));
    NothingFits(lines[MidStart(|lines|)..], LaterBudget(maxLength));
    NothingFits(lines, LaterBudget(maxLength));
  }

  /** Each joined section is within its budget. */
  lemma SectionsWithinBudgets(lines: seq<string>, maxLength: int)
    requires |lines| > 10 && maxLength >= SEPARATOR_OVERHEAD
    ensures |Join(StartLines(lines, maxLength), "\n")| <= StartBudget(maxLength)
    ensures |Join(MidLines(lines, maxLength), "\n")| <= LaterBudget(maxLength)
    ensures |Join(EndLines(lines, maxLength), "\n")| <= LaterBudget(maxLength)
  {
    SectionWithinBudget(StartLines(lines, maxLength), StartBudget(maxLength));
    SectionWithinBudget(MidLines(lines, maxLength), LaterBudget(maxLength));
    LongestSuffixFitSpec(lines, LaterBudget(maxLength));
    SectionWithinBudget(EndLines(lines, maxLength), LaterBudget(maxLength));
  }
}

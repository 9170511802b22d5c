/**
 * The citation patterns of the note verifier and of the critic
 * (generators/verifier.py and generators/agents/critic.py share one table),
 * written as deterministic matchers, and `re.findall` over them as a
 * left-to-right scan for non-overlapping matches.
 *
 *   youtube, video   \[(\d{1,2}:\d{2}(:\d{2})?)\]     a timestamp
 *   pdf              \[(p\.?\s*\d+)\]                   a page
 *   web              \[([^\]]+)\]                       any bracketed text
 */
module Citations {
  import opened Text
  import Timestamps

  datatype Pattern = Timestamp | Page | Bracketed

  /** `CITATION_PATTERNS.get(source_type, CITATION_PATTERNS['youtube'])`. */
  function PatternFor(sourceType: string): (p: Pattern)
    ensures sourceType == "pdf" <==> p == Page
    ensures sourceType == "web" <==> p == Bracketed
  {
    if sourceType == "pdf" then Page
    else if sourceType == "web" then Bracketed
    else Timestamp
  }

  /** The shortest text each pattern matches: `[0:00]`, `[p1]`, `[x]`. */
  function MinLength(p: Pattern): nat {
    match p
    case Timestamp => 6
    case Page => 4
    case Bracketed => 3
  }

  // ---------------------------------------------------------------------------
  // Matchers: the length of the match starting at index i, or 0
  // ---------------------------------------------------------------------------

  /** After the hour digits: `:\d{2}` then `]`, or `:\d{2}:\d{2}` then `]`. */
  function TimeRest(s: string, j: nat): (n: nat)
    ensures n == 0 || n == 4 || n == 7
    ensures n > 0 ==> j + n <= |s| && s[j + n - 1] == ']'
  {
    if j + 3 < |s| && s[j] == ':' && IsDigit(s[j + 1]) && IsDigit(s[j + 2]) then
      if s[j + 3] == ']' then 4
      else if j + 7 <= |s| && s[j + 3] == ':' && IsDigit(s[j + 4]) && IsDigit(s[j + 5]) && s[j + 6] == ']' then 7
      else 0
    else 0
  }

  /** `\[\d{1,2}:\d{2}(:\d{2})?\]` at index i; two hour digits are tried before one. */
  function TimeMatch(s: string, i: nat): (n: nat)
    ensures n > 0 ==> i + n <= |s| && n >= 6 && s[i] == '[' && s[i + n - 1] == ']'
  {
    if i < |s| && s[i] == '[' then
      if i + 2 < |s| && IsDigit(s[i + 1]) && IsDigit(s[i + 2]) && TimeRest(s, i + 3) > 0 then 3 + TimeRest(s, i + 3)
      else if i + 1 < |s| && IsDigit(s[i + 1]) && TimeRest(s, i + 2) > 0 then 2 + TimeRest(s, i + 2)
      else 0
    else 0
  }

  /** The index after the run of characters satisfying the class from j on. */
  function SkipSpaces(s: string, j: nat): (k: nat)
    requires j <= |s|
    ensures j <= k <= |s| && (k < |s| ==> !IsSpace(s[k]))
    ensures forall m :: j <= m < k ==> IsSpace(s[m])
    decreases |s| - j
  {
    if j < |s| && IsSpace(s[j]) then SkipSpaces(s, j + 1) else j
  }

  function SkipDigits(s: string, j: nat): (k: nat)
    requires j <= |s|
    ensures j <= k <= |s| && (k < |s| ==> !IsDigit(s[k]))
    ensures forall m :: j <= m < k ==> IsDigit(s[m])
    decreases |s| - j
  {
    if j < |s| && IsDigit(s[j]) then SkipDigits(s, j + 1) else j
  }

  /** `\[p\.?\s*\d+\]` at index i. */
  function PageMatch(s: string, i: nat): (n: nat)
    ensures n > 0 ==> i + n <= |s| && n >= 4 && s[i] == '[' && s[i + n - 1] == ']'
  {
    if i + 1 < |s| && s[i] == '[' && s[i + 1] == 'p' then
      var j := if i + 2 < |s| && s[i + 2] == '.' then i + 3 else i + 2;
      var k := SkipDigits(s, SkipSpaces(s, j));
      if k > SkipSpaces(s, j) && k < |s| && s[k] == ']' then k + 1 - i else 0
    else 0
  }

  /** The first index of ']' at or after j, or |s|. */
  function NextClose(s: string, j: nat): (k: nat)
    requires j <= |s|
    ensures j <= k <= |s| && (k < |s| ==> s[k] == ']')
    ensures forall m :: j <= m < k ==> s[m] != ']'
    decreases |s| - j
  {
    if j == |s| || s[j] == ']' then j else NextClose(s, j + 1)
  }

  /** `\[[^\]]+\]` at index i: up to the first ']', which may not follow at once. */
  function BracketMatch(s: string, i: nat): (n: nat)
    ensures n > 0 ==> i + n <= |s| && n >= 3 && s[i] == '[' && s[i + n - 1] == ']'
  {
    if i + 1 < |s| && s[i] == '[' then
      var k := NextClose(s, i + 1);
      if k > i + 1 && k < |s| then k + 1 - i else 0
    else 0
  }

  function MatchAt(p: Pattern, s: string, i: nat): (n: nat)
    ensures n > 0 ==> i + n <= |s| && n >= MinLength(p) && s[i] == '[' && s[i + n - 1] == ']'
  {
    match p
    case Timestamp => TimeMatch(s, i)
    case Page => PageMatch(s, i)
    case Bracketed => BracketMatch(s, i)
  }

  // ---------------------------------------------------------------------------
  // re.findall
  // ---------------------------------------------------------------------------

  /** The matches `re.findall` reports from index i on: after a match the scan resumes past it. */
  function CountFrom(p: Pattern, s: string, i: nat): nat
    requires i <= |s|
    decreases |s| - i
  {
    if i == |s| then 0
    else
      var n := MatchAt(p, s, i);
      if n > 0 then 1 + CountFrom(p, s, i + n) else CountFrom(p, s, i + 1)
  }

  /** `len(re.findall(pattern, s))`. */
  function CitationCount(p: Pattern, s: string): nat {
    CountFrom(p, s, 0)
  }

  /** Every citation takes at least the pattern's shortest length. */
  lemma {:induction false} CountFromBound(p: Pattern, s: string, i: nat)
    requires i <= |s|
    ensures CountFrom(p, s, i) * MinLength(p) <= |s| - i
    decreases |s| - i
  {
    if i < |s| {
      var n := MatchAt(p, s, i);
      if n > 0 { CountFromBound(p, s, i + n); } else { CountFromBound(p, s, i + 1); }
    }
  }

  lemma CitationCountBound(p: Pattern, s: string)
    ensures CitationCount(p, s) * MinLength(p) <= |s|
  {
    CountFromBound(p, s, 0);
  }

  /** When the scan finds a citation, some '[' from i on has a ']' after it. */
  lemma {:induction false} CountFromWitness(p: Pattern, s: string, i: nat) returns (j: nat, k: nat)
    requires i <= |s| && CountFrom(p, s, i) > 0
    ensures i <= j < k < |s| && s[j] == '[' && s[k] == ']'
    decreases |s| - i
  {
    var n := MatchAt(p, s, i);
    if n > 0 { j, k := i, i + n - 1; } else { j, k := CountFromWitness(p, s, i + 1); }
  }

  /** A note with a citation has a '[' and, after the first one, a ']'. */
  lemma CitedHasBrackets(p: Pattern, s: string)
    requires CitationCount(p, s) > 0
    ensures 0 <= Find(s, '[') < RFind(s, ']')
  {
    var j, k := CountFromWitness(p, s, 0);
    assert 0 <= Find(s, '[') <= j;
    assert RFind(s, ']') >= k;
  }

  /** A text without '[' cites nothing. */
  lemma {:induction false} NoBracketNoCitation(p: Pattern, s: string, i: nat)
    requires i <= |s| && '[' !in s
    ensures CountFrom(p, s, i) == 0
    decreases |s| - i
  {
    if i < |s| {
      NoBracketNoCitation(p, s, i + 1);
    }
  }

  // ---------------------------------------------------------------------------
  // The timestamps the extractors write are citations
  // ---------------------------------------------------------------------------

  /** `[MM:SS]` with four digits is a whole timestamp citation. */
  lemma ShortFormCites(c: string)
    requires |c| == 7 && c[0] == '[' && c[6] == ']' && c[3] == ':'
    requires IsDigit(c[1]) && IsDigit(c[2]) && IsDigit(c[4]) && IsDigit(c[5])
    ensures TimeMatch(c, 0) == 7 && CitationCount(Timestamp, c) == 1
  {
    assert TimeRest(c, 3) == 4;
    assert CountFrom(Timestamp, c, 7) == 0;
  }

  /** `[HH:MM:SS]` with six digits is a whole timestamp citation. */
  lemma LongFormCites(c: string)
    requires |c| == 10 && c[0] == '[' && c[9] == ']' && c[3] == ':' && c[6] == ':'
    requires IsDigit(c[1]) && IsDigit(c[2]) && IsDigit(c[4]) && IsDigit(c[5])
    requires IsDigit(c[7]) && IsDigit(c[8])
    ensures TimeMatch(c, 0) == 10 && CitationCount(Timestamp, c) == 1
  {
    assert TimeRest(c, 3) == 7;
    assert CountFrom(Timestamp, c, 10) == 0;
  }

  /** The digits of a two-digit field, by index. */
  lemma Pad2Digits(n: nat)
    requires n < 100
    ensures |Pad2(n)| == 2 && IsDigit(Pad2(n)[0]) && IsDigit(Pad2(n)[1])
  {
    Timestamps.Pad2Shape(n);
    assert Pad2(n)[1..][0] == Pad2(n)[1];
  }

  /** Two-digit fields joined by ':' and bracketed form a whole timestamp citation. */
  lemma BracketedFieldsCite(a: string, b: string, d: string)
    requires |a| == 2 && |b| == 2 && |d| == 2
    requires IsDigit(a[0]) && IsDigit(a[1]) && IsDigit(b[0]) && IsDigit(b[1]) && IsDigit(d[0]) && IsDigit(d[1])
    ensures var c := "[" + (b + ":" + d) + "]"; TimeMatch(c, 0) == |c| && CitationCount(Timestamp, c) == 1
    ensures var c := "[" + (a + ":" + b + ":" + d) + "]"; TimeMatch(c, 0) == |c| && CitationCount(Timestamp, c) == 1
  {
    var c := "[" + (b + ":" + d) + "]";
    assert c[1] == b[0] && c[2] == b[1] && c[3] == ':' && c[4] == d[0] && c[5] == d[1] && c[6] == ']';
    ShortFormCites(c);
    var c' := "[" + (a + ":" + b + ":" + d) + "]";
    assert c'[1] == a[0] && c'[2] == a[1] && c'[3] == ':' && c'[4] == b[0] && c'[5] == b[1];
    assert c'[6] == ':' && c'[7] == d[0] && c'[8] == d[1] && c'[9] == ']';
    LongFormCites(c');
  }

  /** A bracketed `format_timestamp` result (below 100 hours) is one whole timestamp citation. */
  lemma FormattedTimestampCites(seconds: nat)
    requires seconds < 360000
    ensures var c := "[" + Timestamps.FormatTimestamp(seconds) + "]";
      TimeMatch(c, 0) == |c| && CitationCount(Timestamp, c) == 1
  {
    Timestamps.Fields(seconds);
    var h := seconds / 3600;
    var m := (seconds % 3600) / 60;
    var sec := seconds % 60;
    Pad2Digits(h);
    Pad2Digits(m);
    Pad2Digits(sec);
    BracketedFieldsCite(Pad2(h), Pad2(m), Pad2(sec));
  }

  /** `[p.N]` and `[p. N]` are page citations. */
  lemma PageCitationForms(n: nat)
    ensures var c := "[p." + NatToString(n) + "]"; PageMatch(c, 0) == |c|
    ensures var c := "[p. " + NatToString(n) + "]"; PageMatch(c, 0) == |c|
  {
    var d := NatToString(n);
    var c1 := "[p." + d + "]";
    assert c1[3..3 + |d|] == d;
    assert SkipSpaces(c1, 3) == 3;
    SkipDigitsOver(c1, 3, |d|);
    var c2 := "[p. " + d + "]";
    assert c2[4..4 + |d|] == d;
    assert SkipSpaces(c2, 4) == 4;
    assert SkipSpaces(c2, 3) == 4;
    SkipDigitsOver(c2, 4, |d|);
  }

  /** `SkipDigits` runs over a block of digits that ends at a ']'. */
  lemma {:induction false} SkipDigitsOver(s: string, j: nat, len: nat)
    requires j + len < |s| && AllDigits(s[j..j + len]) && s[j + len] == ']'
    ensures SkipDigits(s, j) == j + len
    decreases len
  {
    if len > 0 {
      assert IsDigit(s[j..j + len][0]);
      assert s[j + 1..j + len] == s[j..j + len][1..];
      SkipDigitsOver(s, j + 1, len - 1);
    }
  }
}

/**
 * extractors/web.py: splitting a web page's text into headed sections, the
 * page's quality score, and the assembly of the extraction result.
 *
 * Fetching and parsing the page (trafilatura, requests and BeautifulSoup)
 * and `urlparse` are outside the model: their outcomes are parameters.
 */
module Web {
  import opened Text
  import opened Wrappers
  import Seqs

  /** The heading of text that comes before any heading line. */
  const BODY_HEADING := "본문"

  datatype Section = Section(heading: string, content: string)

  /**
   * A stripped line counts as a heading when it is shorter than 100
   * characters and does not end a sentence with `.`, `?` or `!`.
   */
  predicate IsHeading(line: string) {
    |line| < 100 && !(|line| > 0 && line[|line| - 1] in {'.', '?', '!'})
  }

  // ---------------------------------------------------------------------------
  // parse_sections
  // ---------------------------------------------------------------------------

  /** The stripped, non-blank lines, in order. */
  function Cleaned(lines: seq<string>): (r: seq<string>)
    ensures forall i :: 0 <= i < |r| ==> r[i] != ""
    ensures (forall i :: 0 <= i < |lines| ==> '\n' !in lines[i]) ==> forall i :: 0 <= i < |r| ==> '\n' !in r[i]
    decreases |lines|
  {
    if lines == [] then []
    else
      var last := Strip(lines[|lines| - 1]);
      StripChars(lines[|lines| - 1]);
      Cleaned(lines[..|lines| - 1]) + (if last == "" then [] else [last])
  }

  /** The loop state of `parse_sections`: sections so far and the open section's heading and lines. */
  datatype Scan = Scan(sections: seq<Section>, heading: string, content: seq<string>)

  /** The sections with the open one appended when it has lines. */
  function Flush(s: Scan): seq<Section> {
    if s.content == [] then s.sections else s.sections + [Section(s.heading, Join(s.content, "\n"))]
  }

  /** One clean line: a heading closes the open section and opens a new one, other lines join it. */
  function ScanLine(s: Scan, line: string): Scan {
    if IsHeading(line) then Scan(Flush(s), line, []) else Scan(s.sections, s.heading, s.content + [line])
  }

  function ScanLines(lines: seq<string>): Scan
    decreases |lines|
  {
    if lines == [] then Scan([], BODY_HEADING, [])
    else ScanLine(ScanLines(lines[..|lines| - 1]), lines[|lines| - 1])
  }

  /** `parse_sections`. */
  function ParseSections(text: string): seq<Section> {
    if text == "" then [] else Flush(ScanLines(Cleaned(Split(text, '\n'))))
  }

  lemma ScanLinesSnoc(lines: seq<string>, line: string)
    ensures ScanLines(lines + [line]) == ScanLine(ScanLines(lines), line)
  {
    assert (lines + [line])[..|lines|] == lines;
  }

  lemma CleanedSnoc(lines: seq<string>, i: nat)
    requires i < |lines|
    ensures Cleaned(lines[..i + 1]) ==
      Cleaned(lines[..i]) + (if Strip(lines[i]) == "" then [] else [Strip(lines[i])])
  {
    assert lines[..i + 1][..i] == lines[..i];
  }

  /** A blank line leaves the scan as it is; any other line is scanned stripped. */
  lemma ScanStep(lines: seq<string>, i: nat)
    requires i < |lines|
    ensures ScanLines(Cleaned(lines[..i + 1])) ==
      if Strip(lines[i]) == "" then ScanLines(Cleaned(lines[..i])) else ScanLine(ScanLines(Cleaned(lines[..i])), Strip(lines[i]))
  {
    CleanedSnoc(lines, i);
    var c := Cleaned(lines[..i]);
    if Strip(lines[i]) == "" {
      assert c + [] == c;
    } else {
      ScanLinesSnoc(c, Strip(lines[i]));
    }
  }

  /** The loop of `parse_sections`. */
  method ParseSectionsLoop(text: string) returns (sections: seq<Section>)
    ensures sections == ParseSections(text)
  {
    if text == "" {
      return [];
    }
    sections := [];
    var heading := BODY_HEADING;
    var content: seq<string> := [];
    var lines := Split(text, '\n');
    for i := 0 to |lines|
      invariant Scan(sections, heading, content) == ScanLines(Cleaned(lines[..i]))
    {
      ScanStep(lines, i);
      ghost var before := Scan(sections, heading, content);
      var line := Strip(lines[i]);
      if line == "" {
        continue;
      }
      if IsHeading(line) {
        if content != [] {
          sections := sections + [Section(heading, Join(content, "\n"))];
        }
        heading := line;
        content := [];
      } else {
        content := content + [line];
      }
      assert Scan(sections, heading, content) == ScanLine(before, line);
    }
    assert lines[..|lines|] == lines;
    if content != [] {
      sections := sections + [Section(heading, Join(content, "\n"))];
    }
  }

  // ---------------------------------------------------------------------------
  // What parse_sections returns
  // ---------------------------------------------------------------------------

  /** Lines that are all non-empty and free of newlines, as `Cleaned` gives. */
  predicate CleanLines(lines: seq<string>) {
    forall i :: 0 <= i < |lines| ==> lines[i] != "" && '\n' !in lines[i]
  }

  lemma JoinNonEmpty(parts: seq<string>, sep: string)
    requires |parts| >= 1 && parts[0] != ""
    ensures Join(parts, sep) != ""
  {
    JoinPrefix(parts, sep);
  }

  /** Every section the scan closes, and the open one, has text. */
  predicate Filled(s: Scan) {
    (forall i :: 0 <= i < |s.sections| ==> s.sections[i].content != "")
    && forall i :: 0 <= i < |s.content| ==> s.content[i] != ""
  }

  lemma FlushFilled(s: Scan)
    requires Filled(s)
    ensures forall i :: 0 <= i < |Flush(s)| ==> Flush(s)[i].content != ""
  {
    if s.content != [] {
      JoinNonEmpty(s.content, "\n");
    }
  }

  lemma {:induction false} ScanFilled(lines: seq<string>)
    requires CleanLines(lines)
    ensures Filled(ScanLines(lines))
    decreases |lines|
  {
    if lines != [] {
      var prefix := lines[..|lines| - 1];
      ScanFilled(prefix);
      FlushFilled(ScanLines(prefix));
    }
  }

  /** Every section `parse_sections` returns has non-empty content. */
  lemma SectionsFilled(text: string)
    ensures forall i :: 0 <= i < |ParseSections(text)| ==> ParseSections(text)[i].content != ""
  {
    if text != "" {
      var lines := Cleaned(Split(text, '\n'));
      ScanFilled(lines);
      FlushFilled(ScanLines(lines));
    }
  }

  /** The lines that are not headings, in order. */
  function BodyLines(lines: seq<string>): (r: seq<string>)
    ensures forall i :: 0 <= i < |r| ==> r[i] in lines && !IsHeading(r[i])
    decreases |lines|
  {
    if lines == [] then []
    else
      var last := lines[|lines| - 1];
      BodyLines(lines[..|lines| - 1]) + (if IsHeading(last) then [] else [last])
  }

  /** The lines of every section's content, one section after another. */
  function SectionLines(sections: seq<Section>): seq<string>
    decreases |sections|
  {
    if sections == [] then []
    else SectionLines(sections[..|sections| - 1]) + Split(sections[|sections| - 1].content, '\n')
  }

  lemma SectionLinesSnoc(sections: seq<Section>, sec: Section)
    ensures SectionLines(sections + [sec]) == SectionLines(sections) + Split(sec.content, '\n')
  {
    assert (sections + [sec])[..|sections|] == sections;
  }

  /** Closing the open section hands its lines over to the sections. */
  lemma FlushLines(s: Scan)
    requires forall i :: 0 <= i < |s.content| ==> '\n' !in s.content[i]
    ensures SectionLines(Flush(s)) == SectionLines(s.sections) + s.content
  {
    if s.content != [] {
      SectionLinesSnoc(s.sections, Section(s.heading, Join(s.content, "\n")));
      SplitJoin(s.content, '\n');
    }
  }

  lemma {:induction false} ScanBodyLines(lines: seq<string>)
    requires CleanLines(lines)
    ensures SectionLines(ScanLines(lines).sections) + ScanLines(lines).content == BodyLines(lines)
    ensures forall i :: 0 <= i < |ScanLines(lines).content| ==> '\n' !in ScanLines(lines).content[i]
    decreases |lines|
  {
    if lines != [] {
      var prefix := lines[..|lines| - 1];
      var s := ScanLines(prefix);
      ScanBodyLines(prefix);
      if IsHeading(lines[|lines| - 1]) {
        FlushLines(s);
      }
    }
  }

  /**
   * The sections' contents, split back into lines and put one after
   * another, are exactly the text's stripped non-blank lines that are not
   * headings, in their original order: no body line is lost or moved.
   */
  lemma SectionsKeepBody(text: string)
    requires text != ""
    ensures SectionLines(ParseSections(text)) == BodyLines(Cleaned(Split(text, '\n')))
  {
    var lines := Cleaned(Split(text, '\n'));
    ScanBodyLines(lines);
    FlushLines(ScanLines(lines));
  }

  /** The headings of the sections, in order. */
  function Headings(sections: seq<Section>): (r: seq<string>)
    ensures |r| == |sections|
    decreases |sections|
  {
    if sections == [] then [] else Headings(sections[..|sections| - 1]) + [sections[|sections| - 1].heading]
  }

  /**
   * The headings the sections should carry, read off the lines alone: a
   * section starts at every body line that opens the text (under
   * `본문`) or directly follows a heading line (under that heading).
   */
  function OpenedHeadings(lines: seq<string>): seq<string>
    decreases |lines|
  {
    if lines == [] then []
    else
      var prefix := lines[..|lines| - 1];
      var named := OpenedHeadings(prefix);
      if IsHeading(lines[|lines| - 1]) then named
      else if prefix == [] then [BODY_HEADING]
      else if IsHeading(prefix[|prefix| - 1]) then named + [prefix[|prefix| - 1]]
      else named
  }

  /** The open section's heading: the last heading line, or `본문` before any. */
  function LastHeading(lines: seq<string>): string
    decreases |lines|
  {
    if lines == [] then BODY_HEADING
    else if IsHeading(lines[|lines| - 1]) then lines[|lines| - 1]
    else LastHeading(lines[..|lines| - 1])
  }

  lemma HeadingsSnoc(sections: seq<Section>, sec: Section)
    ensures Headings(sections + [sec]) == Headings(sections) + [sec.heading]
  {
    assert (sections + [sec])[..|sections|] == sections;
  }

  lemma {:induction false} ScanHeadings(lines: seq<string>)
    ensures Headings(Flush(ScanLines(lines))) == OpenedHeadings(lines)
    ensures ScanLines(lines).heading == LastHeading(lines)
    ensures ScanLines(lines).content == [] <==> lines == [] || IsHeading(lines[|lines| - 1])
    decreases |lines|
  {
    if lines != [] {
      var prefix := lines[..|lines| - 1];
      var s := ScanLines(prefix);
      ScanHeadings(prefix);
      var line := lines[|lines| - 1];
      if !IsHeading(line) {
        HeadingsSnoc(s.sections, Section(s.heading, Join(s.content + [line], "\n")));
        if s.content != [] {
          HeadingsSnoc(s.sections, Section(s.heading, Join(s.content, "\n")));
        }
      }
    }
  }

  /**
   * `parse_sections` names its sections exactly as the lines dictate: a
   * heading followed by another heading or by the end of the text opens
   * no section, and body text before the first heading goes under `본문`.
   */
  lemma SectionHeadings(text: string)
    requires text != ""
    ensures Headings(ParseSections(text)) == OpenedHeadings(Cleaned(Split(text, '\n')))
  {
    ScanHeadings(Cleaned(Split(text, '\n')));
  }

  /** An empty page has no sections, and text made only of blank lines has none either. */
  lemma NoSections(text: string)
    requires forall i :: 0 <= i < |Split(text, '\n')| ==> Strip(Split(text, '\n')[i]) == ""
    ensures ParseSections(text) == []
  {
    var raw := Split(text, '\n');
    AllBlankCleaned(raw);
  }

  lemma {:induction false} AllBlankCleaned(raw: seq<string>)
    requires forall i :: 0 <= i < |raw| ==> Strip(raw[i]) == ""
    ensures Cleaned(raw) == []
    decreases |raw|
  {
    if raw != [] {
      AllBlankCleaned(raw[..|raw| - 1]);
    }
  }

  // ---------------------------------------------------------------------------
  // calculate_quality_score
  // ---------------------------------------------------------------------------

  /** How the page text was obtained. */
  datatype Method = Trafilatura | BeautifulSoup

  /** The warnings of `calculate_quality_score`. */
  datatype QualityWarning = NoText | FallbackUsed | VeryShort | Short | FewBreaks

  function WarningText(w: QualityWarning): string {
    match w
    case NoText => "텍스트 없음"
    case FallbackUsed => "폴백 방법 사용 - 광고/네비게이션 포함 가능성"
    case VeryShort => "본문이 매우 짧음"
    case Short => "본문이 짧음"
    case FewBreaks => "단락 구분이 부족함"
  }

  function WarningTexts(ws: seq<QualityWarning>): (r: seq<string>)
    ensures |r| == |ws| && forall i :: 0 <= i < |ws| ==> r[i] == WarningText(ws[i])
  {
    seq(|ws|, i requires 0 <= i < |ws| => WarningText(ws[i]))
  }

  /** The points each warning costs. */
  function Penalty(w: QualityWarning): nat {
    match w
    case NoText => 0
    case FallbackUsed => 15
    case VeryShort => 20
    case Short => 10
    case FewBreaks => 10
  }

  function TotalPenalty(ws: seq<QualityWarning>): nat
    decreases |ws|
  {
    if ws == [] then 0 else TotalPenalty(ws[..|ws| - 1]) + Penalty(ws[|ws| - 1])
  }

  lemma {:induction false} TotalPenaltyAppend(a: seq<QualityWarning>, b: seq<QualityWarning>)
    ensures TotalPenalty(a + b) == TotalPenalty(a) + TotalPenalty(b)
    decreases |b|
  {
    if b == [] {
      assert a + b == a;
    } else {
      var b' := b[..|b| - 1];
      assert (a + b)[..|a + b| - 1] == a + b';
      TotalPenaltyAppend(a, b');
    }
  }

  /** The extraction-method check: 15 points and a warning for the fallback extractor. */
  function MethodCheck(via: Method): (r: (nat, seq<QualityWarning>))
    ensures r.0 == TotalPenalty(r.1) && (r.0 == 15 || r.0 == 0)
    ensures FallbackUsed in r.1 <==> via == BeautifulSoup
    ensures forall w :: w in r.1 ==> w == FallbackUsed
  {
    if via == BeautifulSoup then (15, [FallbackUsed]) else (0, [])
  }

  /** The length check: 20 points under 500 characters, else 10 under 1000. */
  function LengthCheck(length: nat): (r: (nat, seq<QualityWarning>))
    ensures r.0 == TotalPenalty(r.1) && r.0 <= 20
    ensures VeryShort in r.1 <==> length < 500
    ensures Short in r.1 <==> 500 <= length < 1000
    ensures forall w :: w in r.1 ==> w == VeryShort || w == Short
  {
    if length < 500 then (20, [VeryShort])
    else if length < 1000 then (10, [Short])
    else (0, [])
  }

  /** The paragraph check: 10 points for fewer than three line breaks. */
  function BreakCheck(breaks: nat): (r: (nat, seq<QualityWarning>))
    ensures r.0 == TotalPenalty(r.1) && (r.0 == 10 || r.0 == 0)
    ensures FewBreaks in r.1 <==> breaks < 3
    ensures forall w :: w in r.1 ==> w == FewBreaks
  {
    if breaks < 3 then (10, [FewBreaks]) else (0, [])
  }

  /**
   * `calculate_quality_score`: 0 for no text; otherwise 100 less the three
   * checks' deductions, clamped to 0..100. Each deduction comes with its
   * warning, so the warnings account for the score exactly.
   */
  function Quality(text: string, via: Method): (r: (int, seq<QualityWarning>))
    ensures text == "" ==> r == (0, [NoText])
    ensures text != "" ==> 55 <= r.0 <= 100 && r.0 == 100 - TotalPenalty(r.1)
    ensures text != "" && via == Trafilatura ==> 65 <= r.0
  {
    if text == "" then (0, [NoText])
    else
      var (d1, w1) := MethodCheck(via);
      var (d2, w2) := LengthCheck(|text|);
      var (d3, w3) := BreakCheck(CountChar(text, '\n'));
      TotalPenaltyAppend(w1, w2);
      TotalPenaltyAppend(w1 + w2, w3);
      (Clamp(100 - d1 - d2 - d3), w1 + w2 + w3)
  }

  lemma InThree<T>(a: seq<T>, b: seq<T>, c: seq<T>, x: T)
    ensures x in a + b + c <==> x in a || x in b || x in c
  {
  }

  /** Each warning is given exactly when its condition holds. */
  lemma QualityReasons(text: string, via: Method)
    requires text != ""
    ensures FallbackUsed in Quality(text, via).1 <==> via == BeautifulSoup
    ensures VeryShort in Quality(text, via).1 <==> |text| < 500
    ensures Short in Quality(text, via).1 <==> 500 <= |text| < 1000
    ensures FewBreaks in Quality(text, via).1 <==> CountChar(text, '\n') < 3
    ensures NoText !in Quality(text, via).1
  {
    var w1 := MethodCheck(via).1;
    var w2 := LengthCheck(|text|).1;
    var w3 := BreakCheck(CountChar(text, '\n')).1;
    assert Quality(text, via).1 == w1 + w2 + w3;
    ReasonsOf(w1, w2, w3, via == BeautifulSoup, |text| < 500, 500 <= |text| < 1000, CountChar(text, '\n') < 3);
  }

  /** The warnings of the three checks together, each present exactly when its own check gives it. */
  lemma ReasonsOf(w1: seq<QualityWarning>, w2: seq<QualityWarning>, w3: seq<QualityWarning>, a: bool, b: bool, c: bool, d: bool)
    requires (FallbackUsed in w1 <==> a) && forall w :: w in w1 ==> w == FallbackUsed
    requires (VeryShort in w2 <==> b) && (Short in w2 <==> c) && forall w :: w in w2 ==> w == VeryShort || w == Short
    requires (FewBreaks in w3 <==> d) && forall w :: w in w3 ==> w == FewBreaks
    ensures FallbackUsed in w1 + w2 + w3 <==> a
    ensures VeryShort in w1 + w2 + w3 <==> b
    ensures Short in w1 + w2 + w3 <==> c
    ensures FewBreaks in w1 + w2 + w3 <==> d
    ensures NoText !in w1 + w2 + w3
  {
    InThree(w1, w2, w3, FallbackUsed);
    InThree(w1, w2, w3, VeryShort);
    InThree(w1, w2, w3, Short);
    InThree(w1, w2, w3, FewBreaks);
    InThree(w1, w2, w3, NoText);
  }

  // ---------------------------------------------------------------------------
  // extract_web
  // ---------------------------------------------------------------------------

  /** The block of one section in the full text. */
  function SectionBlock(sec: Section): string {
    "## " + sec.heading + "\n" + sec.content
  }

  function SectionBlocks(sections: seq<Section>): (r: seq<string>)
    ensures |r| == |sections|
    ensures forall i :: 0 <= i < |r| ==> r[i] == SectionBlock(sections[i])
  {
    seq(|sections|, i requires 0 <= i < |sections| => SectionBlock(sections[i]))
  }

  /** The full text: the section blocks separated by blank lines, or the raw text when there are none. */
  function FullText(sections: seq<Section>, text: string): string {
    if sections == [] then text else Join(SectionBlocks(sections), "\n\n")
  }

  /** The full text shows every section as its `## heading` line followed by its content. */
  lemma FullTextShowsSections(sections: seq<Section>, text: string)
    ensures sections == [] ==> FullText(sections, text) == text
    ensures forall i :: 0 <= i < |sections| ==>
      Contains(FullText(sections, text), "## " + sections[i].heading + "\n" + sections[i].content)
  {
    forall i | 0 <= i < |sections|
      ensures Contains(FullText(sections, text), "## " + sections[i].heading + "\n" + sections[i].content)
    {
      JoinContainsPart(SectionBlocks(sections), "\n\n", i);
    }
  }

  /** What a page fetcher returns when it finds the article. */
  datatype Page = Page(title: string, text: string, author: string, date: string)

  /** A fetcher's answer: the page, if any, and its warnings. */
  datatype Fetched = Fetched(page: Option<Page>, warnings: seq<string>)

  datatype WebResult = WebResult(
    success: bool, sourceUrl: string, title: string, author: string, date: string,
    domain: string, sections: seq<Section>, fullText: string, qualityScore: int,
    warnings: seq<string>)

  const W_BAD_URL := "유효하지 않은 URL"

  function Failed(url: string, domain: string, warnings: seq<string>): WebResult {
    WebResult(false, url, "", "", "", domain, [], "", 0, warnings)
  }

  /**
   * `extract_web`. `domain` is the URL's network location, `None` when the
   * URL has no scheme or no location; `primary` is what trafilatura gives
   * and `fallback` what BeautifulSoup gives, asked only when trafilatura
   * found nothing.
   */
  method ExtractWeb(url: string, domain: Option<string>, primary: Fetched, fallback: Fetched) returns (r: WebResult)
    ensures domain.None? ==> r == Failed(url, "", [W_BAD_URL])
    ensures r.success <==> domain.Some? && (primary.page.Some? || fallback.page.Some?)
    ensures domain.Some? && primary.page.None? && fallback.page.None? ==>
      r == Failed(url, domain.value, primary.warnings + fallback.warnings)
    ensures r.success ==>
      var via := if primary.page.Some? then Trafilatura else BeautifulSoup;
      var page := if primary.page.Some? then primary.page.value else fallback.page.value;
      var fetchWarnings := if primary.page.Some? then primary.warnings else primary.warnings + fallback.warnings;
      r.sourceUrl == url && r.domain == domain.value
      && r.title == page.title && r.author == page.author && r.date == page.date
      && r.sections == ParseSections(page.text)
      && r.fullText == FullText(r.sections, page.text)
      && r.qualityScore == Quality(page.text, via).0
      && r.warnings == fetchWarnings + WarningTexts(Quality(page.text, via).1)
  {
    if domain.None? {
      return Failed(url, "", [W_BAD_URL]);
    }
    var data := primary.page;
    var warnings := primary.warnings;
    var via := Trafilatura;
    if data.None? {
      data := fallback.page;
      warnings := warnings + fallback.warnings;
      via := BeautifulSoup;
    }
    if data.None? {
      return Failed(url, domain.value, warnings);
    }
    var page := data.value;
    var sections := ParseSectionsLoop(page.text);
    var fullText := FullText(sections, page.text);
    var (qualityScore, qualityWarnings) := Quality(page.text, via);
    r := WebResult(true, url, page.title, page.author, page.date, domain.value, sections, fullText,
                   qualityScore, warnings + WarningTexts(qualityWarnings));
  }
}

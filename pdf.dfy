/**
 * The PDF extractor: per-page text extraction (from the text layer or by
 * OCR), the document metadata with its file-name fallback, the choice
 * between the text layer and OCR, the page-marked full text and the
 * quality score. The PDF libraries themselves are inputs: what they read
 * from each page, the document's own metadata fields, the detected type and
 * the page count.
 */
module Pdf {
  import opened Text
  import opened Wrappers
  import Chunker

  /** One extracted page: its 1-based number and its stripped text. */
  datatype Segment = Segment(page: nat, text: string)

  // ---------------------------------------------------------------------------
  // Page extraction
  // ---------------------------------------------------------------------------

  /** What reading one page gave: its raw text, or the error the reader raised. */
  datatype PageRead = Read(text: string) | ReadFailed(error: string)

  /** What a pass reports about a page without text, or about the pass itself. */
  datatype PageIssue = NoText(page: nat) | NoOcrText(page: nat) | OcrFailed(page: nat, error: string) | OcrMissing

  function IssueText(w: PageIssue): string {
    match w
    case NoText(page) => "페이지 " + NatToString(page) + ": 텍스트 없음"
    case NoOcrText(page) => "페이지 " + NatToString(page) + ": OCR 결과 없음"
    case OcrFailed(page, error) => "페이지 " + NatToString(page) + ": OCR 실패 - " + error
    case OcrMissing => "OCR 라이브러리 미설치 (pymupdf, pytesseract 필요)"
  }

  function IssueTexts(ws: seq<PageIssue>): (r: seq<string>)
    ensures |r| == |ws| && forall i :: 0 <= i < |ws| ==> r[i] == IssueText(ws[i])
  {
    seq(|ws|, i requires 0 <= i < |ws| => IssueText(ws[i]))
  }

  /** The result of one extraction pass: the pages with text and the issues met. */
  datatype Pass = Pass(segments: seq<Segment>, warnings: seq<PageIssue>)

  /**
   * One pass over the pages, numbered from 1: a page whose stripped text is
   * non-empty becomes a segment, an empty one becomes an issue (of the OCR
   * kind when `ocr`), and a failed read becomes a failure issue.
   */
  function PagePass(pages: seq<PageRead>, ocr: bool): Pass {
    Pass(PageSegments(pages, Strip), PageIssues(pages, ocr, Strip))
  }

  /**
   * The segments of a pass, in page order. The cleaning applied to each
   * page's text (`str.strip` in the program) is a parameter, so what is
   * proved about passes holds whatever the cleaning does.
   */
  function PageSegments(pages: seq<PageRead>, clean: string -> string): seq<Segment>
    decreases |pages|
  {
    if pages == [] then []
    else PageSegments(pages[..|pages| - 1], clean) + Kept(pages[|pages| - 1], |pages|, clean)
  }

  /** The issues of a pass, in page order. */
  function PageIssues(pages: seq<PageRead>, ocr: bool, clean: string -> string): seq<PageIssue>
    decreases |pages|
  {
    if pages == [] then []
    else PageIssues(pages[..|pages| - 1], ocr, clean) + Noted(pages[|pages| - 1], |pages|, ocr, clean)
  }

  /** The segment page `page` contributes: its cleaned text when that is non-empty. */
  function Kept(read: PageRead, page: nat, clean: string -> string): seq<Segment> {
    if read.Read? && clean(read.text) != "" then [Segment(page, clean(read.text))] else []
  }

  /** The issue page `page` contributes when it gives no segment. */
  function Noted(read: PageRead, page: nat, ocr: bool, clean: string -> string): seq<PageIssue> {
    match read
    case Read(text) => if clean(text) != "" then [] else [if ocr then NoOcrText(page) else NoText(page)]
    case ReadFailed(error) => [OcrFailed(page, error)]
  }

  /**
   * Pages come out numbered from 1 to at most `pages`, in increasing order,
   * each with non-empty text.
   */
  predicate WellNumbered(segments: seq<Segment>, pages: nat)
    decreases |segments|
  {
    segments == [] ||
    var last := segments[|segments| - 1];
    1 <= last.page <= pages && last.text != "" && WellNumbered(segments[..|segments| - 1], last.page - 1)
  }

  /** Adding the next page's segment keeps the numbering. */
  lemma NumberedAppend(segments: seq<Segment>, seg: Segment)
    requires seg.page >= 1 && WellNumbered(segments, seg.page - 1)
    requires seg.text != ""
    ensures WellNumbered(segments + [seg], seg.page)
  {
    assert (segments + [seg])[..|segments|] == segments;
  }

  /** Numbering up to `n` is numbering up to any later bound. */
  lemma NumberedWiden(segments: seq<Segment>, n: nat, m: nat)
    requires WellNumbered(segments, n) && n <= m
    ensures WellNumbered(segments, m)
  {
  }

  /** What the numbering means element by element. */
  lemma {:induction false} NumberedOrdered(segments: seq<Segment>, pages: nat)
    requires WellNumbered(segments, pages)
    ensures forall i :: 0 <= i < |segments| ==> 1 <= segments[i].page <= pages && segments[i].text != ""
    ensures forall i, j :: 0 <= i < j < |segments| ==> segments[i].page < segments[j].page
    decreases |segments|
  {
    if segments != [] {
      var n := |segments|;
      var init := segments[..n - 1];
      NumberedOrdered(init, segments[n - 1].page - 1);
      assert forall i :: 0 <= i < n - 1 ==> segments[i] == init[i];
    }
  }

  /** Every page gives exactly one segment or one issue. */
  lemma {:induction false} PagePassCount(pages: seq<PageRead>, ocr: bool, clean: string -> string)
    ensures |PageSegments(pages, clean)| + |PageIssues(pages, ocr, clean)| == |pages|
    decreases |pages|
  {
    if pages != [] {
      PagePassCount(pages[..|pages| - 1], ocr, clean);
    }
  }

  /** The segments are numbered in page order and hold non-empty text. */
  lemma {:induction false} PagePassShape(pages: seq<PageRead>, clean: string -> string)
    ensures WellNumbered(PageSegments(pages, clean), |pages|)
    decreases |pages|
  {
    if pages != [] {
      var n := |pages|;
      var before := PageSegments(pages[..n - 1], clean);
      var last := pages[n - 1];
      PagePassShape(pages[..n - 1], clean);
      var kept := Kept(last, n, clean);
      if kept != [] {
        NumberedAppend(before, kept[0]);
        assert before + kept == before + [kept[0]];
      } else {
        NumberedWiden(before, n - 1, n);
        assert before + kept == before;
      }
    }
  }

  /** A page's cleaned text is kept exactly when it is non-empty; otherwise the page has no segment. */
  lemma {:induction false} PagePassKeeps(pages: seq<PageRead>, clean: string -> string, k: nat)
    requires k < |pages|
    ensures pages[k].Read? && clean(pages[k].text) != "" ==>
      Segment(k + 1, clean(pages[k].text)) in PageSegments(pages, clean)
    ensures !(pages[k].Read? && clean(pages[k].text) != "") ==>
      forall i :: 0 <= i < |PageSegments(pages, clean)| ==> PageSegments(pages, clean)[i].page != k + 1
  {
    if pages[k].Read? && clean(pages[k].text) != "" {
      PageKept(pages, clean, k);
    } else {
      PageDropped(pages, clean, k);
    }
  }

  lemma {:induction false} PageKept(pages: seq<PageRead>, clean: string -> string, k: nat)
    requires k < |pages| && pages[k].Read? && clean(pages[k].text) != ""
    ensures Segment(k + 1, clean(pages[k].text)) in PageSegments(pages, clean)
    decreases |pages|
  {
    var n := |pages|;
    var before := PageSegments(pages[..n - 1], clean);
    var kept := Kept(pages[n - 1], n, clean);
    assert PageSegments(pages, clean) == before + kept;
    if k < n - 1 {
      assert pages[..n - 1][k] == pages[k];
      PageKept(pages[..n - 1], clean, k);
    } else {
      assert kept == [Segment(k + 1, clean(pages[k].text))];
    }
  }

  lemma {:induction false} PageDropped(pages: seq<PageRead>, clean: string -> string, k: nat)
    requires k < |pages| && !(pages[k].Read? && clean(pages[k].text) != "")
    ensures forall i :: 0 <= i < |PageSegments(pages, clean)| ==> PageSegments(pages, clean)[i].page != k + 1
    decreases |pages|
  {
    var n := |pages|;
    var before := PageSegments(pages[..n - 1], clean);
    var kept := Kept(pages[n - 1], n, clean);
    var after := PageSegments(pages, clean);
    assert after == before + kept;
    if k < n - 1 {
      assert pages[..n - 1][k] == pages[k];
      PageDropped(pages[..n - 1], clean, k);
    } else {
      PagesAtMost(pages[..n - 1], clean);
    }
    forall i | 0 <= i < |after|
      ensures after[i].page != k + 1
    {
      if i >= |before| {
        assert after[i] == kept[i - |before|];
      } else {
        assert after[i] == before[i];
      }
    }
  }

  /** A pass over `n` pages numbers its segments at most `n`. */
  lemma {:induction false} PagesAtMost(pages: seq<PageRead>, clean: string -> string)
    ensures forall i :: 0 <= i < |PageSegments(pages, clean)| ==> PageSegments(pages, clean)[i].page <= |pages|
    decreases |pages|
  {
    if pages != [] {
      var n := |pages|;
      var before := PageSegments(pages[..n - 1], clean);
      var kept := Kept(pages[n - 1], n, clean);
      assert PageSegments(pages, clean) == before + kept;
      PagesAtMost(pages[..n - 1], clean);
    }
  }

  /** `for i, page in enumerate(pages, 1)`: the extraction loop of one pass. */
  method ReadPages(pages: seq<PageRead>, ocr: bool) returns (segments: seq<Segment>, warnings: seq<PageIssue>)
    ensures Pass(segments, warnings) == PagePass(pages, ocr)
  {
    segments, warnings := [], [];
    for i := 0 to |pages|
      invariant Pass(segments, warnings) == PagePass(pages[..i], ocr)
    {
      assert pages[..i + 1][..i] == pages[..i];
      match pages[i]
      case Read(text) =>
        var t := Strip(text);
        if t != "" {
          segments := segments + [Segment(i + 1, t)];
          warnings := warnings + [];
        } else {
          segments := segments + [];
          warnings := warnings + [if ocr then NoOcrText(i + 1) else NoText(i + 1)];
        }
      case ReadFailed(error) =>
        segments := segments + [];
        warnings := warnings + [OcrFailed(i + 1, error)];
    }
    assert pages[..|pages|] == pages;
  }

  /** `extract_text_pdf`: the text layer of every page. */
  function TextPages(texts: seq<string>): seq<PageRead> {
    seq(|texts|, i requires 0 <= i < |texts| => Read(texts[i]))
  }

  /** `extract_ocr_pdf`: `None` when the OCR libraries are not installed. */
  function OcrPass(pages: Option<seq<PageRead>>): Pass {
    if pages.None? then Pass([], [OcrMissing]) else PagePass(pages.value, true)
  }

  /** The OCR pass as the program runs it. */
  method OcrPages(ocr: Option<seq<PageRead>>) returns (segments: seq<Segment>, warnings: seq<PageIssue>)
    ensures Pass(segments, warnings) == OcrPass(ocr)
  {
    if ocr.None? {
      return [], [OcrMissing];
    }
    segments, warnings := ReadPages(ocr.value, true);
  }

  // ---------------------------------------------------------------------------
  // Metadata
  // ---------------------------------------------------------------------------

  /** The document's own Title, Author and CreationDate fields ("" when absent or unreadable). */
  datatype DocInfo = DocInfo(title: string, author: string, creationDate: string)

  datatype Metadata = Metadata(title: string, author: string, creationDate: string)

  /** `D:` followed by eight digits at position `i`. */
  predicate DateAt(s: string, i: nat) {
    i + 10 <= |s| && s[i] == 'D' && s[i + 1] == ':' && AllDigits(s[i + 2..i + 10])
  }

  /** The first position at or after `i` where a date stamp starts, or -1. */
  function DateFrom(s: string, i: nat): (k: int)
    ensures k == -1 || (i <= k && DateAt(s, k))
    ensures forall j :: i <= j && (k == -1 || j < k) ==> !DateAt(s, j)
    decreases |s| - i
  {
    if i + 10 > |s| then -1
    else if DateAt(s, i) then i
    else DateFrom(s, i + 1)
  }

  /** `re.search(r'D:(\d{8})', s).group(1)`, or "" when there is no match. */
  function DateStamp(s: string): (r: string)
    ensures r == "" <==> forall j :: !DateAt(s, j)
    ensures r != "" ==> |r| == 8 && AllDigits(r) && Contains(s, "D:" + r)
  {
    var k := DateFrom(s, 0);
    if k == -1 then ""
    else
      var r := s[k + 2..k + 10];
      assert s[k..k + 10] == "D:" + r;
      ContainsAt(s, "D:" + r, k);
      r
  }

  predicate IsUpper(c: char) { 'A' <= c <= 'Z' }

  /** The length of the run of ASCII capitals at the start of `s`. */
  function LeadUpperCount(s: string): (k: nat)
    ensures k <= |s| && (forall j :: 0 <= j < k ==> IsUpper(s[j]))
    ensures k < |s| ==> !IsUpper(s[k])
    decreases |s|
  {
    if |s| > 0 && IsUpper(s[0]) then 1 + LeadUpperCount(s[1..]) else 0
  }

  /**
   * `re.match(r'^(\d{4})\.\s*([A-Z]+)\.\s*(.+)', stem)`: the year, the
   * journal and what the last group captures, stripped.
   */
  function YearPattern(stem: string): (r: Option<(string, string, string)>)
    ensures r.Some? ==> |r.value.0| == 4 && AllDigits(r.value.0) && StartsWith(stem, r.value.0 + ".")
    ensures r.Some? ==> |r.value.1| >= 1 && forall j :: 0 <= j < |r.value.1| ==> IsUpper(r.value.1[j])
  {
    if |stem| >= 5 && AllDigits(stem[..4]) && stem[4] == '.' then
      match JournalPart(LStrip(stem[5..]))
      case Some((journal, rest)) =>
        if HasLineChar(rest) then
          assert stem[..5] == stem[..4] + ".";
          Some((stem[..4], journal, LastGroup(rest)))
        else None
      case None => None
    else None
  }

  /** `([A-Z]+)\.`: the run of capitals and what follows the dot after it. */
  function JournalPart(u: string): (r: Option<(string, string)>)
    ensures r.Some? ==> |r.value.0| >= 1 && (forall j :: 0 <= j < |r.value.0| ==> IsUpper(r.value.0[j]))
                        && u == r.value.0 + "." + r.value.1
  {
    var k := LeadUpperCount(u);
    if k >= 1 && k < |u| && u[k] == '.' then
      assert u == u[..k] + "." + u[k + 1..];
      Some((u[..k], u[k + 1..]))
    else None
  }

  /** `\s*(.+)` can match: some character is not a line break. */
  predicate HasLineChar(rest: string) {
    exists j :: 0 <= j < |rest| && rest[j] != '\n'
  }

  /**
   * `\s*(.+)` then `.strip()`: the greedy whitespace run ends at the first
   * non-space (or gives back whitespace that strips away anyway), and the
   * group ends before the next '\n'.
   */
  function LastGroup(rest: string): string {
    Strip(BeforeFirst(LStrip(rest), "\n"))
  }

  /** The text before the first `c` holds no `c`. */
  lemma BeforeFirstChar(s: string, c: char)
    ensures c !in BeforeFirst(s, [c])
  {
  }

  /** Stripping a line keeps it a line, and stripping twice is stripping once. */
  lemma StripLine(line: string, c: char)
    requires c !in line
    ensures c !in Strip(line) && Strip(Strip(line)) == Strip(line)
  {
    StripChars(line);
    StripIdem(line);
  }

  /** The captured title is a single stripped line. */
  lemma LastGroupShape(rest: string)
    ensures '\n' !in LastGroup(rest)
    ensures Strip(LastGroup(rest)) == LastGroup(rest)
  {
    var line := BeforeFirst(LStrip(rest), "\n");
    BeforeFirstChar(LStrip(rest), '\n');
    StripLine(line, '\n');
  }

  /**
   * `extract_pdf_metadata`: the document's own fields, stripped; when the
   * title is blank, the file name supplies it, and a name of the form
   * 'YYYY. JOURNAL. title' supplies the author and a 1 January date as well.
   */
  function MetadataOf(info: DocInfo, path: string): (m: Metadata)
    ensures Strip(info.title) != "" ==> m.title == Strip(info.title)
    ensures m.author == Strip(info.author) || YearPattern(SplitExtStem(FileName(path))).Some?
  {
    var title := Strip(info.title);
    var author := Strip(info.author);
    var date := DateStamp(info.creationDate);
    if title != "" then Metadata(title, author, date)
    else
      var stem := SplitExtStem(FileName(path));
      match YearPattern(stem)
      case Some((year, journal, rest)) => Metadata(rest, journal, year + "0101")
      case None => Metadata(stem, author, date)
  }

  /** A document with a title of its own keeps its own fields. */
  lemma MetadataFromDocument(info: DocInfo, path: string)
    requires Strip(info.title) != ""
    ensures MetadataOf(info, path) == Metadata(Strip(info.title), Strip(info.author), DateStamp(info.creationDate))
    ensures MetadataOf(info, path).creationDate == "" || |MetadataOf(info, path).creationDate| == 8
  {
  }

  /** Without a title and without the year pattern, the title is the file name less its extension. */
  lemma MetadataFromPlainName(info: DocInfo, path: string)
    requires Strip(info.title) == "" && YearPattern(SplitExtStem(FileName(path))).None?
    ensures MetadataOf(info, path) == Metadata(SplitExtStem(FileName(path)), Strip(info.author), DateStamp(info.creationDate))
  {
  }

  /**
   * The conventional file name round trip: naming an untitled document
   * `dir/YYYY. JOURNAL. title.pdf` yields the title, JOURNAL as the author
   * and YYYY0101 as the creation date.
   */
  lemma ConventionalName(info: DocInfo, dir: string, year: string, journal: string, title: string)
    requires Strip(info.title) == ""
    requires dir == "" || dir[|dir| - 1] == '/'
    requires |year| == 4 && AllDigits(year)
    requires |journal| >= 1 && forall j :: 0 <= j < |journal| ==> IsUpper(journal[j])
    requires title != "" && Strip(title) == title && '\n' !in title && '/' !in title
    ensures MetadataOf(info, dir + year + ". " + journal + ". " + title + ".pdf")
      == Metadata(title, journal, year + "0101")
  {
    var stem := year + ". " + journal + ". " + title;
    var name := stem + ".pdf";
    assert dir + year + ". " + journal + ". " + title + ".pdf" == dir + name;
    assert '/' !in name by {
      assert forall i :: 0 <= i < |name| ==> name[i] == '/' ==> i >= |year + ". " + journal + ". "|;
    }
    FileNameAfter(dir, name);
    SplitExtAfter(stem, ".pdf");
    YearPatternOf(year, journal, title);
  }

  /** The year pattern recovers the three parts of a conventional stem. */
  lemma YearPatternOf(year: string, journal: string, title: string)
    requires |year| == 4 && AllDigits(year)
    requires |journal| >= 1 && forall j :: 0 <= j < |journal| ==> IsUpper(journal[j])
    requires title != "" && Strip(title) == title && '\n' !in title
    ensures YearPattern(year + ". " + journal + ". " + title) == Some((year, journal, title))
  {
    var rest := " " + title;
    StemParts(year, journal, title);
    JournalAfterBlank(journal, rest);
    JournalPartOf(journal, rest);
    LastGroupOf(title);
    YearPatternUnfold(year + ". " + journal + ". " + title, journal, rest);
  }

  /** How the pattern reads a stem once its pieces are known. */
  lemma YearPatternUnfold(stem: string, journal: string, rest: string)
    requires |stem| >= 5 && AllDigits(stem[..4]) && stem[4] == '.'
    requires JournalPart(LStrip(stem[5..])) == Some((journal, rest)) && HasLineChar(rest)
    ensures YearPattern(stem) == Some((stem[..4], journal, LastGroup(rest)))
  {
  }

  lemma StemParts(year: string, journal: string, title: string)
    requires |year| == 4
    ensures var stem := year + ". " + journal + ". " + title;
      |stem| >= 5 && stem[..4] == year && stem[4] == '.' && stem[5..] == " " + (journal + "." + (" " + title))
  {
    var stem := year + ". " + journal + ". " + title;
    assert stem == year + "." + (" " + (journal + "." + (" " + title)));
  }

  lemma JournalAfterBlank(journal: string, rest: string)
    requires |journal| >= 1 && IsUpper(journal[0])
    ensures LStrip(" " + (journal + "." + rest)) == journal + "." + rest
  {
    SpaceThenWord(journal + "." + rest);
  }

  /** One leading blank before a word is skipped. */
  lemma SpaceThenWord(u: string)
    requires u != [] && !IsSpace(u[0])
    ensures LStrip(" " + u) == u
  {
    assert (" " + u)[1..] == u;
  }

  lemma JournalPartOf(journal: string, rest: string)
    requires |journal| >= 1 && forall j :: 0 <= j < |journal| ==> IsUpper(journal[j])
    ensures JournalPart(journal + "." + rest) == Some((journal, rest))
  {
    var u := journal + "." + rest;
    LeadUpper(journal, "." + rest);
    assert journal + "." + rest == journal + ("." + rest);
    assert u[..|journal|] == journal;
    assert u[|journal| + 1..] == rest;
  }

  lemma LastGroupOf(title: string)
    requires title != "" && Strip(title) == title && '\n' !in title
    ensures LastGroup(" " + title) == title
  {
    SpaceThenWord(title);
    ContainsChar(title, '\n');
  }

  /** The capital run of `journal + rest` is `journal` when `rest` starts with a non-capital. */
  lemma {:induction false} LeadUpper(journal: string, rest: string)
    requires forall j :: 0 <= j < |journal| ==> IsUpper(journal[j])
    requires |rest| > 0 && !IsUpper(rest[0])
    ensures LeadUpperCount(journal + rest) == |journal|
    decreases |journal|
  {
    if journal == [] {
      assert journal + rest == rest;
    } else {
      assert (journal + rest)[1..] == journal[1..] + rest;
      LeadUpper(journal[1..], rest);
    }
  }

  // ---------------------------------------------------------------------------
  // Quality
  // ---------------------------------------------------------------------------

  /** How the text was obtained: the text layer, OCR, or a mixture. */
  datatype Method = TextLayer | Ocr | Hybrid

  datatype PdfWarning = NothingExtracted | OcrUsed | HybridUsed | PagesMissing(count: nat) | ShortPages

  function WarningText(w: PdfWarning): string {
    match w
    case NothingExtracted => "텍스트 추출 실패"
    case OcrUsed => "OCR 추출 - 오류 가능성 있음"
    case HybridUsed => "혼합 추출 - 일부 페이지 OCR 사용"
    case PagesMissing(n) => NatToString(n) + "개 페이지 텍스트 없음"
    case ShortPages => "평균 페이지 텍스트가 매우 짧음"
  }

  function WarningTexts(ws: seq<PdfWarning>): (r: seq<string>)
    ensures |r| == |ws| && forall i :: 0 <= i < |ws| ==> r[i] == WarningText(ws[i])
  {
    seq(|ws|, i requires 0 <= i < |ws| => WarningText(ws[i]))
  }

  /** The points each warning costs: five per missing page, at most thirty. */
  function Penalty(w: PdfWarning): nat {
    match w
    case NothingExtracted => 0
    case OcrUsed => 15
    case HybridUsed => 10
    case PagesMissing(n) => if 5 * n < 30 then 5 * n else 30
    case ShortPages => 10
  }

  function TotalPenalty(ws: seq<PdfWarning>): nat
    decreases |ws|
  {
    if ws == [] then 0 else TotalPenalty(ws[..|ws| - 1]) + Penalty(ws[|ws| - 1])
  }

  lemma {:induction false} TotalPenaltyAppend(a: seq<PdfWarning>, b: seq<PdfWarning>)
    ensures TotalPenalty(a + b) == TotalPenalty(a) + TotalPenalty(b)
    decreases |b|
  {
    if b == [] {
      assert a + b == a;
    } else {
      var b' := b[..|b| - 1];
      assert (a + b)[..|a + b| - 1] == a + b';
      TotalPenaltyAppend(a, b');
    }
  }

  /** The characters of all segments together. */
  function TotalChars(segments: seq<Segment>): nat
    decreases |segments|
  {
    if segments == [] then 0
    else TotalChars(segments[..|segments| - 1]) + |segments[|segments| - 1].text|
  }

  /** The method check: 15 points for OCR, 10 for a mixture. */
  function MethodCheck(m: Method): (r: (nat, seq<PdfWarning>))
    ensures r.0 == TotalPenalty(r.1) && r.0 <= 15
    ensures OcrUsed in r.1 <==> m == Ocr
    ensures HybridUsed in r.1 <==> m == Hybrid
    ensures forall w :: w in r.1 ==> w == OcrUsed || w == HybridUsed
  {
    match m
    case Ocr => (15, [OcrUsed])
    case Hybrid => (10, [HybridUsed])
    case TextLayer => (0, [])
  }

  /** The page check: five points per page without text, at most thirty. */
  function PagesCheck(extracted: nat, total: nat): (r: (nat, seq<PdfWarning>))
    ensures r.0 == TotalPenalty(r.1) && r.0 <= 30
    ensures forall n :: PagesMissing(n) in r.1 <==> extracted < total && n == total - extracted
    ensures extracted < total ==> r.0 == if 5 * (total - extracted) < 30 then 5 * (total - extracted) else 30
    ensures forall w :: w in r.1 ==> w.PagesMissing?
  {
    if extracted < total then
      var missing := total - extracted;
      (Penalty(PagesMissing(missing)), [PagesMissing(missing)])
    else (0, [])
  }

  /** The length check: ten points when pages average under 100 characters. */
  function LengthCheck(chars: nat, count: nat): (r: (nat, seq<PdfWarning>))
    ensures r.0 == TotalPenalty(r.1) && (r.0 == 10 || r.0 == 0)
    ensures ShortPages in r.1 <==> chars < 100 * count
    ensures forall w :: w in r.1 ==> w == ShortPages
  {
    if chars < 100 * count then (10, [ShortPages]) else (0, [])
  }

  /**
   * `calculate_quality_score`: 0 with no segments; otherwise 100 less the
   * three checks' deductions, clamped. Every deduction comes with its
   * warning, so the warnings account for the score exactly.
   */
  function Quality(segments: seq<Segment>, m: Method, totalPages: nat): (r: (int, seq<PdfWarning>))
    ensures segments == [] ==> r == (0, [NothingExtracted])
    ensures segments != [] ==> 45 <= r.0 <= 100 && r.0 == 100 - TotalPenalty(r.1)
    ensures segments != [] && m == TextLayer ==> 60 <= r.0
  {
    if segments == [] then (0, [NothingExtracted])
    else
      var (d1, w1) := MethodCheck(m);
      var (d2, w2) := PagesCheck(|segments|, totalPages);
      var (d3, w3) := LengthCheck(TotalChars(segments), |segments|);
      TotalPenaltyAppend(w1, w2);
      TotalPenaltyAppend(w1 + w2, w3);
      (Clamp(100 - d1 - d2 - d3), w1 + w2 + w3)
  }

  lemma InThree<T>(a: seq<T>, b: seq<T>, c: seq<T>, x: T)
    ensures x in a + b + c <==> x in a || x in b || x in c
  {
  }

  /** Each warning is given exactly when its condition holds. */
  lemma QualityReasons(segments: seq<Segment>, m: Method, totalPages: nat)
    requires segments != []
    ensures OcrUsed in Quality(segments, m, totalPages).1 <==> m == Ocr
    ensures HybridUsed in Quality(segments, m, totalPages).1 <==> m == Hybrid
    ensures forall n :: PagesMissing(n) in Quality(segments, m, totalPages).1 <==>
      |segments| < totalPages && n == totalPages - |segments|
    ensures ShortPages in Quality(segments, m, totalPages).1 <==> TotalChars(segments) < 100 * |segments|
    ensures NothingExtracted !in Quality(segments, m, totalPages).1
  {
    var w1 := MethodCheck(m).1;
    var w2 := PagesCheck(|segments|, totalPages).1;
    var w3 := LengthCheck(TotalChars(segments), |segments|).1;
    assert Quality(segments, m, totalPages).1 == w1 + w2 + w3;
    InThree(w1, w2, w3, OcrUsed);
    InThree(w1, w2, w3, HybridUsed);
    InThree(w1, w2, w3, ShortPages);
    InThree(w1, w2, w3, NothingExtracted);
    forall n
      ensures PagesMissing(n) in w1 + w2 + w3 <==> |segments| < totalPages && n == totalPages - |segments|
    {
      InThree(w1, w2, w3, PagesMissing(n));
    }
  }

  // ---------------------------------------------------------------------------
  // Full text
  // ---------------------------------------------------------------------------

  /** The marker line that opens a page in the full text. */
  function PageHeader(page: nat): string {
    "[p." + NatToString(page) + "]"
  }

  function PageBlock(seg: Segment): string {
    PageHeader(seg.page) + "\n" + seg.text
  }

  function PageBlocks(segments: seq<Segment>): (r: seq<string>)
    ensures |r| == |segments|
    ensures forall i :: 0 <= i < |r| ==> r[i] == PageBlock(segments[i])
  {
    seq(|segments|, i requires 0 <= i < |segments| => PageBlock(segments[i]))
  }

  /** The full text: the page blocks in segment order, separated by blank lines. */
  function FullText(segments: seq<Segment>): string {
    Join(PageBlocks(segments), "\n\n")
  }

  /** The `full_text_parts` loop followed by the join. */
  method AssembleFullText(segments: seq<Segment>) returns (fullText: string)
    ensures fullText == FullText(segments)
  {
    var parts: seq<string> := [];
    for i := 0 to |segments|
      invariant parts == PageBlocks(segments[..i])
    {
      parts := parts + [PageBlock(segments[i])];
    }
    assert segments[..|segments|] == segments;
    fullText := Join(parts, "\n\n");
  }

  /** The full text holds every page's block, and starts with the first page's header. */
  lemma FullTextShowsPages(segments: seq<Segment>)
    ensures forall i :: 0 <= i < |segments| ==> Contains(FullText(segments), PageBlock(segments[i]))
    ensures segments != [] ==> StartsWith(FullText(segments), PageBlock(segments[0]))
    ensures segments == [] ==> FullText(segments) == ""
  {
    forall i | 0 <= i < |segments|
      ensures Contains(FullText(segments), PageBlock(segments[i]))
    {
      JoinContainsPart(PageBlocks(segments), "\n\n", i);
    }
    if segments != [] {
      JoinPrefix(PageBlocks(segments), "\n\n");
    }
  }

  /** A page header is a page marker for the chunker, so a chunk may always start there. */
  lemma PageHeaderIsBoundary(page: nat, prev: string)
    ensures Chunker.PageMarkerStart(PageHeader(page))
    ensures Chunker.IsParagraphBreak(PageHeader(page), prev)
  {
    var h := PageHeader(page);
    var digits := NatToString(page);
    assert h[3..] == digits + "]";
    LeadDigits(digits, "]");
    assert h[3 + |digits|] == ']';
    assert h[..3] == "[p.";
  }

  lemma {:induction false} LeadDigits(digits: string, rest: string)
    requires AllDigits(digits)
    requires |rest| > 0 && !IsDigit(rest[0])
    ensures Chunker.LeadDigitCount(digits + rest) == |digits|
    decreases |digits|
  {
    if digits == [] {
      assert digits + rest == rest;
    } else {
      assert (digits + rest)[1..] == digits[1..] + rest;
      LeadDigits(digits[1..], rest);
    }
  }

  // ---------------------------------------------------------------------------
  // extract_pdf
  // ---------------------------------------------------------------------------

  /** What the type detector reports. */
  datatype PdfType = TextPdf | Scanned | HybridPdf | Unknown

  datatype PdfResult = PdfResult(
    success: bool, sourcePath: string, title: string, author: string, creationDate: string,
    totalPages: nat, segments: seq<Segment>, fullText: string, qualityScore: int,
    warnings: seq<string>, via: Option<Method>)

  const W_NOT_FOUND := "파일을 찾을 수 없음"

  /** Which pass serves the document: OCR for scans, and for undecided types when the text layer is empty. */
  function ChosenMethod(kind: PdfType, textPass: Pass): Method {
    if kind == Scanned || (kind != TextPdf && textPass.segments == []) then Ocr else TextLayer
  }

  /** A pass has segments exactly when some page was read with text left after cleaning. */
  lemma SegmentsIffText(pages: seq<PageRead>, clean: string -> string)
    ensures PageSegments(pages, clean) != [] <==>
      exists k :: 0 <= k < |pages| && pages[k].Read? && clean(pages[k].text) != ""
  {
    var segs := PageSegments(pages, clean);
    if exists k :: 0 <= k < |pages| && pages[k].Read? && clean(pages[k].text) != "" {
      var k :| 0 <= k < |pages| && pages[k].Read? && clean(pages[k].text) != "";
      PagePassKeeps(pages, clean, k);
    } else if segs != [] {
      PagePassShape(pages, clean);
      var k := segs[|segs| - 1].page - 1;
      PagePassKeeps(pages, clean, k);
    }
  }

  /**
   * OCR serves a scan, and a hybrid or undecided document exactly when no
   * page of its text layer has any text once stripped.
   */
  lemma ChosenMethodCases(kind: PdfType, texts: seq<string>)
    ensures ChosenMethod(kind, PagePass(TextPages(texts), false)) == Ocr <==>
      kind == Scanned || (kind != TextPdf && forall k :: 0 <= k < |texts| ==> Strip(texts[k]) == "")
  {
    var pages := TextPages(texts);
    SegmentsIffText(pages, Strip);
    assert forall k :: 0 <= k < |texts| ==> pages[k] == Read(texts[k]);
  }

  /**
   * What `extract_pdf` ends with: its result, or an exception from one of
   * the passes, which it does not catch.
   */
  datatype PdfOutcome = Extracted(result: PdfResult) | PassRaised

  /**
   * `extract_pdf`. `found` says whether the file is there, `info` is the
   * document's metadata, `kind` the detected type, `texts` the text layer
   * of each page (`None` when pdfplumber is missing or cannot open the
   * file), `ocr` what OCR reads from each page (`None` without the OCR
   * libraries), `ocrOpens` whether PyMuPDF opens and renders every page
   * and `pageCount` the page count (`None` when the document cannot be
   * reopened).
   */
  method ExtractPdf(path: string, found: bool, info: DocInfo, kind: PdfType, texts: Option<seq<string>>,
                    ocr: Option<seq<PageRead>>, ocrOpens: bool, pageCount: Option<nat>) returns (r: PdfOutcome)
    ensures !found ==> r == Extracted(PdfResult(false, path, "", "", "", 0, [], "", 0, [W_NOT_FOUND], None))
    ensures found ==>
      var textPass := PagePass(TextPages(texts.GetOr([])), false);
      var m := ChosenMethod(kind, textPass);
      (r.PassRaised? <==> (kind != Scanned && texts.None?) || (m == Ocr && ocr.Some? && !ocrOpens))
    ensures found && r.Extracted? ==>
      var textPass := PagePass(TextPages(texts.GetOr([])), false);
      var m := ChosenMethod(kind, textPass);
      var pass := if m == TextLayer then textPass else OcrPass(ocr);
      var passWarnings := if kind == Scanned then pass.warnings
                          else if m == Ocr then textPass.warnings + pass.warnings
                          else textPass.warnings;
      var total := if pageCount.Some? then pageCount.value else |pass.segments|;
      var x := r.result;
      x.via == Some(m)
      && x.segments == pass.segments
      && x.totalPages == total
      && x.fullText == FullText(pass.segments)
      && x.qualityScore == Quality(pass.segments, m, total).0
      && x.warnings == IssueTexts(passWarnings) + WarningTexts(Quality(pass.segments, m, total).1)
      && x.title == MetadataOf(info, path).title
      && x.author == MetadataOf(info, path).author
      && x.creationDate == MetadataOf(info, path).creationDate
    ensures r.Extracted? ==> (r.result.success <==> found && r.result.segments != [])
  {
    if !found {
      return Extracted(PdfResult(false, path, "", "", "", 0, [], "", 0, [W_NOT_FOUND], None));
    }
    var meta := MetadataOf(info, path);
    var segments: seq<Segment>;
    var warnings: seq<PageIssue>;
    var m: Method;
    if kind == TextPdf {
      if texts.None? {
        return PassRaised;
      }
      segments, warnings := ReadPages(TextPages(texts.value), false);
      m := TextLayer;
    } else if kind == Scanned {
      if ocr.Some? && !ocrOpens {
        return PassRaised;
      }
      segments, warnings := OcrPages(ocr);
      m := Ocr;
    } else {
      if texts.None? {
        return PassRaised;
      }
      segments, warnings := ReadPages(TextPages(texts.value), false);
      m := TextLayer;
      if segments == [] {
        if ocr.Some? && !ocrOpens {
          return PassRaised;
        }
        var ocrWarnings;
        segments, ocrWarnings := OcrPages(ocr);
        warnings := warnings + ocrWarnings;
        m := Ocr;
      }
    }
    var total := if pageCount.Some? then pageCount.value else |segments|;
    var fullText := AssembleFullText(segments);
    var (score, qualityWarnings) := Quality(segments, m, total);
    r := Extracted(PdfResult(|segments| > 0, path, meta.title, meta.author, meta.creationDate, total,
                   segments, fullText, score, IssueTexts(warnings) + WarningTexts(qualityWarnings), Some(m)));
  }
}

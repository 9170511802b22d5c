/**
 * The command line of main.py: the interactive format menu, the `--formats`
 * option, the output file names built from an extraction, and the raw file
 * the note generator reads back.
 *
 * The clock is a parameter (`today` as `%Y%m%d`, `stamp` as the raw file's
 * `%Y-%m-%d %H:%M`), and the answers typed at the menu are a sequence.
 */
module Cli {
  import opened Text
  import opened Wrappers
  import SafeName
  import NoteGen
  import Seqs

  // ---------------------------------------------------------------------------
  // The raw file
  // ---------------------------------------------------------------------------

  const RAW_TITLE := "# 원문 스크립트"
  const RULE := "---"

  /** A metadata line as the writer spells it: the tag, a space, the value. */
  function TagLine(tag: string, value: string): string {
    tag + " " + value
  }

  /** The quality line's value, `{score}/100`. */
  function QualityText(quality: int): string {
    IntToString(quality) + "/100"
  }

  /** The source written: the URL, or the file path when there is no URL. */
  function RawSource(sourceUrl: string, sourcePath: string): string {
    if sourceUrl != "" then sourceUrl else sourcePath
  }

  /** The video line, written only when the extraction has a video id. */
  function VideoLines(videoId: string): seq<string> {
    if videoId != "" then [TagLine(NoteGen.VIDEO_TAG, videoId)] else []
  }

  /**
   * The header lines before the rule, each followed by a newline: the title,
   * a blank line, the source, the video id when there is one, the date, the
   * quality and a blank line.
   */
  function MetaBlock(source: string, videoId: string, stamp: string, quality: int): (h: seq<string>)
    ensures |h| == if videoId != "" then 7 else 6
  {
    [RAW_TITLE, "", TagLine(NoteGen.SOURCE_TAG, source)]
    + VideoLines(videoId)
    + [TagLine(NoteGen.DATE_TAG, stamp), TagLine(NoteGen.QUALITY_TAG, QualityText(quality)), ""]
  }

  /** The whole header: the metadata block, the rule and a blank line. */
  function RawHeader(source: string, videoId: string, stamp: string, quality: int): seq<string> {
    MetaBlock(source, videoId, stamp, quality) + [RULE, ""]
  }

  /** The raw file main.py writes: the header lines, then the extracted text. */
  function RawFile(source: string, videoId: string, stamp: string, quality: int, fullText: string): string {
    Join(RawHeader(source, videoId, stamp, quality) + [fullText], "\n")
  }

  /** The character facts about the four tags that the reader's `elif` chain depends on. */
  lemma TagChars()
    ensures |NoteGen.SOURCE_TAG| > 2 && NoteGen.SOURCE_TAG[0] == '-' && NoteGen.SOURCE_TAG[1] == ' ' && NoteGen.SOURCE_TAG[2] == '출'
    ensures |NoteGen.VIDEO_TAG| > 2 && NoteGen.VIDEO_TAG[0] == '-' && NoteGen.VIDEO_TAG[1] == ' ' && NoteGen.VIDEO_TAG[2] == 'v'
    ensures |NoteGen.DATE_TAG| > 2 && NoteGen.DATE_TAG[0] == '-' && NoteGen.DATE_TAG[1] == ' ' && NoteGen.DATE_TAG[2] == '추'
    ensures |NoteGen.QUALITY_TAG| > 2 && NoteGen.QUALITY_TAG[0] == '-' && NoteGen.QUALITY_TAG[1] == ' ' && NoteGen.QUALITY_TAG[2] == '품'
    ensures OneLine(NoteGen.SOURCE_TAG) && OneLine(NoteGen.VIDEO_TAG)
    ensures OneLine(NoteGen.DATE_TAG) && OneLine(NoteGen.QUALITY_TAG)
  {
  }

  /** A string differing from `p` at a position both have does not start with `p`. */
  lemma DiffersAt(s: string, p: string, k: nat)
    requires k < |s| && k < |p| && s[k] != p[k]
    ensures !StartsWith(s, p)
  {
    if |p| <= |s| {
      assert s[..|p|][k] == s[k];
    }
  }

  /** Removing a tag from a line that starts with it and a space leaves the space and the value. */
  lemma {:induction false} ReplaceLeadingTag(tag: string, value: string)
    requires |tag| > 0 && tag[0] != ' ' && !Contains(value, tag)
    ensures ReplaceAll(tag + " " + value, tag, "") == " " + value
  {
    var line := tag + " " + value;
    assert line[..|tag|] == tag;
    assert line[|tag|..] == " " + value;
    DiffersAt(" " + value, tag, 0);
    assert (" " + value)[1..] == value;
    ReplaceAllAbsent(value, tag, "");
  }

  /** The value of a written metadata line is the written value, stripped. */
  lemma TagLineValue(tag: string, value: string)
    requires |tag| > 0 && tag[0] != ' ' && !Contains(value, tag)
    ensures NoteGen.TagValue(TagLine(tag, value), tag) == Strip(value)
  {
    ReplaceLeadingTag(tag, value);
    StripSpacePrefix(" ", value);
  }

  lemma StartsWithTag(tag: string, value: string)
    ensures StartsWith(TagLine(tag, value), tag)
  {
    assert (tag + " " + value)[..|tag|] == tag;
  }

  /** The title, blank and rule lines start differently from every tag. */
  lemma UntaggedLines(t: string)
    requires t in {NoteGen.SOURCE_TAG, NoteGen.VIDEO_TAG, NoteGen.DATE_TAG, NoteGen.QUALITY_TAG}
    ensures !StartsWith(RAW_TITLE, t) && !StartsWith(RULE, t) && !StartsWith("", t)
  {
    TagChars();
    assert RAW_TITLE[0] == '#' && RULE[1] == '-';
    DiffersAt(RAW_TITLE, t, 0);
    DiffersAt(RULE, t, 1);
  }

  /** A line starting with none of the tags carries no metadata. */
  lemma NoMeta(line: string)
    requires !StartsWith(line, NoteGen.SOURCE_TAG) && !StartsWith(line, NoteGen.VIDEO_TAG)
    requires !StartsWith(line, NoteGen.DATE_TAG) && !StartsWith(line, NoteGen.QUALITY_TAG)
    ensures NoteGen.LineMeta(line).None?
  {
  }

  /** The reader sees the title line as plain text. */
  lemma TitleKind()
    ensures NoteGen.Kind(RAW_TITLE) == NoteGen.Plain
  {
    UntaggedLines(NoteGen.SOURCE_TAG);
    UntaggedLines(NoteGen.VIDEO_TAG);
    UntaggedLines(NoteGen.DATE_TAG);
    UntaggedLines(NoteGen.QUALITY_TAG);
    NoMeta(RAW_TITLE);
    StripUnpadded(RAW_TITLE);
  }

  lemma StripUnpadded(s: string)
    requires |s| > 0 && !IsSpace(s[0]) && !IsSpace(s[|s| - 1])
    ensures Strip(s) == s
  {
  }

  /** The reader sees a blank line as plain text. */
  lemma BlankKind()
    ensures NoteGen.Kind("") == NoteGen.Plain
  {
    UntaggedLines(NoteGen.SOURCE_TAG);
    UntaggedLines(NoteGen.VIDEO_TAG);
    UntaggedLines(NoteGen.DATE_TAG);
    UntaggedLines(NoteGen.QUALITY_TAG);
    NoMeta("");
  }

  /** The reader sees the written rule as the end of the header. */
  lemma RuleKind()
    ensures NoteGen.Kind(RULE) == NoteGen.Rule
  {
    UntaggedLines(NoteGen.SOURCE_TAG);
    UntaggedLines(NoteGen.VIDEO_TAG);
    UntaggedLines(NoteGen.DATE_TAG);
    UntaggedLines(NoteGen.QUALITY_TAG);
    NoMeta(RULE);
    assert LStrip(RULE) == RULE;
    assert Strip(RULE) == RULE;
  }

  lemma SourceLineKind(source: string)
    requires !Contains(source, NoteGen.SOURCE_TAG)
    ensures NoteGen.Kind(TagLine(NoteGen.SOURCE_TAG, source)) == NoteGen.Tagged(NoteGen.SOURCE, Strip(source))
  {
    TagChars();
    StartsWithTag(NoteGen.SOURCE_TAG, source);
    TagLineValue(NoteGen.SOURCE_TAG, source);
  }

  lemma VideoLineKind(videoId: string)
    requires !Contains(videoId, NoteGen.VIDEO_TAG)
    ensures NoteGen.Kind(TagLine(NoteGen.VIDEO_TAG, videoId)) == NoteGen.Tagged(NoteGen.VIDEO_ID, Strip(videoId))
  {
    TagChars();
    var v := TagLine(NoteGen.VIDEO_TAG, videoId);
    assert v[2] == 'v';
    DiffersAt(v, NoteGen.SOURCE_TAG, 2);
    StartsWithTag(NoteGen.VIDEO_TAG, videoId);
    TagLineValue(NoteGen.VIDEO_TAG, videoId);
  }

  lemma DateLineKind(stamp: string)
    requires !Contains(stamp, NoteGen.DATE_TAG)
    ensures NoteGen.Kind(TagLine(NoteGen.DATE_TAG, stamp)) == NoteGen.Tagged(NoteGen.DATE, Strip(stamp))
  {
    TagChars();
    var d := TagLine(NoteGen.DATE_TAG, stamp);
    assert d[2] == '추';
    DiffersAt(d, NoteGen.SOURCE_TAG, 2);
    DiffersAt(d, NoteGen.VIDEO_TAG, 2);
    StartsWithTag(NoteGen.DATE_TAG, stamp);
    TagLineValue(NoteGen.DATE_TAG, stamp);
  }

  lemma QualityLineKind(value: string)
    requires !Contains(value, NoteGen.QUALITY_TAG)
    ensures NoteGen.Kind(TagLine(NoteGen.QUALITY_TAG, value)) == NoteGen.Tagged(NoteGen.QUALITY, Strip(value))
  {
    TagChars();
    var q := TagLine(NoteGen.QUALITY_TAG, value);
    assert q[2] == '품';
    DiffersAt(q, NoteGen.SOURCE_TAG, 2);
    DiffersAt(q, NoteGen.VIDEO_TAG, 2);
    DiffersAt(q, NoteGen.DATE_TAG, 2);
    StartsWithTag(NoteGen.QUALITY_TAG, value);
    TagLineValue(NoteGen.QUALITY_TAG, value);
  }

  /** `str(score)` is digits after an optional minus sign. */
  lemma IntToStringChars(i: int)
    ensures forall j :: 0 <= j < |IntToString(i)| ==> IntToString(i)[j] == '-' || IsDigit(IntToString(i)[j])
  {
    if i < 0 {
      var d := NatToString(-i);
      assert forall j :: 1 <= j < |"-" + d| ==> ("-" + d)[j] == d[j - 1];
    }
  }

  /** The quality value is free of newlines and of the quality tag, and has no padding to strip. */
  lemma QualityTextShape(quality: int)
    ensures OneLine(QualityText(quality))
    ensures !Contains(QualityText(quality), NoteGen.QUALITY_TAG)
    ensures Strip(QualityText(quality)) == QualityText(quality)
  {
    var t := QualityText(quality);
    var n := IntToString(quality);
    QualityChars(quality);
    assert '\n' !in t && '\r' !in t;
    NoQualityTag(t);
    assert t[0] == n[0];
    assert t == n + ['/', '1', '0', '0'];
    StripUnpadded(t);
  }

  predicate ScoreChar(c: char) { c == '-' || c == '/' || IsDigit(c) }

  /** Every character of the quality value is a digit, '-' or '/'. */
  lemma QualityChars(quality: int)
    ensures forall j :: 0 <= j < |QualityText(quality)| ==> ScoreChar(QualityText(quality)[j])
  {
    var n := IntToString(quality);
    IntToStringChars(quality);
    var suffix := "/100";
    assert suffix == ['/', '1', '0', '0'];
    AllScoreChars(n, suffix);
  }

  lemma AllScoreChars(a: string, b: string)
    requires forall j :: 0 <= j < |a| ==> a[j] == '-' || IsDigit(a[j])
    requires forall j :: 0 <= j < |b| ==> b[j] in {'/', '0', '1'}
    ensures forall j :: 0 <= j < |a + b| ==> ScoreChar((a + b)[j])
  {
    forall j | 0 <= j < |a + b|
      ensures ScoreChar((a + b)[j])
    {
      if j < |a| {
        assert (a + b)[j] == a[j];
      } else {
        assert (a + b)[j] == b[j - |a|];
      }
    }
  }

  /** Text made of digits, '-' and '/' does not contain the quality tag. */
  lemma NoQualityTag(t: string)
    requires forall j :: 0 <= j < |t| ==> ScoreChar(t[j])
    ensures !Contains(t, NoteGen.QUALITY_TAG)
  {
    TagChars();
    assert !ScoreChar('품');
    TagCharsIn(t, NoteGen.QUALITY_TAG, 2);
  }

  /** A text that contains a tag contains each of its characters. */
  lemma TagCharsIn(t: string, tag: string, k: nat)
    requires k < |tag|
    ensures Contains(t, tag) ==> tag[k] in t
  {
    if Contains(t, tag) {
      var i := ContainsWitness(t, tag);
      assert t[i + k] == t[i..i + |tag|][k] == tag[k];
    }
  }

  /** A tag line ends a line only where its tag or value does. */
  lemma TagLineOneLine(tag: string, value: string)
    requires OneLine(tag) && OneLine(value)
    ensures OneLine(TagLine(tag, value))
  {
  }

  /** The block's lines as the reader classifies them, in the order written. */
  function MetaKinds(source: string, videoId: string, stamp: string, quality: int): seq<NoteGen.LineKind> {
    [NoteGen.Plain, NoteGen.Plain, NoteGen.Tagged(NoteGen.SOURCE, Strip(source))]
    + (if videoId != "" then [NoteGen.Tagged(NoteGen.VIDEO_ID, Strip(videoId))] else [])
    + [NoteGen.Tagged(NoteGen.DATE, Strip(stamp)), NoteGen.Tagged(NoteGen.QUALITY, QualityText(quality)), NoteGen.Plain]
  }

  /** The metadata the reader should recover from a raw file main.py wrote. */
  function RawMeta(source: string, videoId: string, stamp: string, quality: int): map<string, string> {
    var m := map[NoteGen.SOURCE := Strip(source)];
    var m' := if videoId != "" then m[NoteGen.VIDEO_ID := Strip(videoId)] else m;
    m'[NoteGen.DATE := Strip(stamp)][NoteGen.QUALITY := QualityText(quality)]
  }

  /** Values that neither end a line (as the text-mode read counts line ends) nor repeat their own tag. */
  predicate Writable(source: string, videoId: string, stamp: string) {
    OneLine(source) && OneLine(videoId) && OneLine(stamp)
    && !Contains(source, NoteGen.SOURCE_TAG) && !Contains(videoId, NoteGen.VIDEO_TAG)
    && !Contains(stamp, NoteGen.DATE_TAG)
  }

  /** Every header line is a single line. */
  lemma HeaderSingleLines(source: string, videoId: string, stamp: string, quality: int)
    requires Writable(source, videoId, stamp)
    ensures forall j :: 0 <= j < |RawHeader(source, videoId, stamp, quality)| ==> OneLine(RawHeader(source, videoId, stamp, quality)[j])
  {
    TagChars();
    QualityTextShape(quality);
    FixedLines();
    var s := TagLine(NoteGen.SOURCE_TAG, source);
    var d := TagLine(NoteGen.DATE_TAG, stamp);
    var q := TagLine(NoteGen.QUALITY_TAG, QualityText(quality));
    TagLineOneLine(NoteGen.SOURCE_TAG, source);
    TagLineOneLine(NoteGen.VIDEO_TAG, videoId);
    TagLineOneLine(NoteGen.DATE_TAG, stamp);
    TagLineOneLine(NoteGen.QUALITY_TAG, QualityText(quality));
    var v := VideoLines(videoId);
    assert forall j :: 0 <= j < |v| ==> OneLine(v[j]);
    assert RawHeader(source, videoId, stamp, quality) == [RAW_TITLE, "", s] + v + [d, q, "", RULE, ""];
  }

  /** The title and the rule are single lines. */
  lemma FixedLines()
    ensures OneLine(RAW_TITLE) && OneLine(RULE) && OneLine("")
  {
  }

  /** The reader classifies the lines of a concatenation piece by piece. */
  lemma KindsAppend(xs: seq<string>, ys: seq<string>)
    ensures NoteGen.Kinds(xs + ys) == NoteGen.Kinds(xs) + NoteGen.Kinds(ys)
  {
    NoteGen.KindsMapped(xs + ys);
    NoteGen.KindsMapped(xs);
    NoteGen.KindsMapped(ys);
    NoteGen.MapAppend(xs, ys, NoteGen.Kind);
  }

  lemma KindsOne(line: string, k: NoteGen.LineKind)
    requires NoteGen.Kind(line) == k
    ensures NoteGen.Kinds([line]) == [k]
  {
  }

  lemma KindsJoin(xs: seq<string>, ys: seq<string>, kx: seq<NoteGen.LineKind>, ky: seq<NoteGen.LineKind>)
    requires NoteGen.Kinds(xs) == kx && NoteGen.Kinds(ys) == ky
    ensures NoteGen.Kinds(xs + ys) == kx + ky
  {
    KindsAppend(xs, ys);
  }

  lemma TitlePairKinds()
    ensures NoteGen.Kinds([RAW_TITLE, ""]) == [NoteGen.Plain, NoteGen.Plain]
  {
    TitleKind();
    BlankKind();
    KindsOne(RAW_TITLE, NoteGen.Plain);
    KindsOne("", NoteGen.Plain);
    KindsJoin([RAW_TITLE], [""], [NoteGen.Plain], [NoteGen.Plain]);
    assert [RAW_TITLE] + [""] == [RAW_TITLE, ""];
  }

  lemma FrontKinds(source: string)
    requires !Contains(source, NoteGen.SOURCE_TAG)
    ensures NoteGen.Kinds([RAW_TITLE, "", TagLine(NoteGen.SOURCE_TAG, source)])
      == [NoteGen.Plain, NoteGen.Plain, NoteGen.Tagged(NoteGen.SOURCE, Strip(source))]
  {
    var src := TagLine(NoteGen.SOURCE_TAG, source);
    var ks := NoteGen.Tagged(NoteGen.SOURCE, Strip(source));
    TitlePairKinds();
    SourceLineKind(source);
    KindsOne(src, ks);
    KindsJoin([RAW_TITLE, ""], [src], [NoteGen.Plain, NoteGen.Plain], [ks]);
    assert [RAW_TITLE, ""] + [src] == [RAW_TITLE, "", src];
  }

  lemma BackKinds(stamp: string, quality: int)
    requires !Contains(stamp, NoteGen.DATE_TAG)
    ensures NoteGen.Kinds([TagLine(NoteGen.DATE_TAG, stamp), TagLine(NoteGen.QUALITY_TAG, QualityText(quality)), ""])
      == [NoteGen.Tagged(NoteGen.DATE, Strip(stamp)), NoteGen.Tagged(NoteGen.QUALITY, QualityText(quality)), NoteGen.Plain]
  {
    var P := NoteGen.Plain;
    var date := TagLine(NoteGen.DATE_TAG, stamp);
    var qual := TagLine(NoteGen.QUALITY_TAG, QualityText(quality));
    var kd := NoteGen.Tagged(NoteGen.DATE, Strip(stamp));
    var kq := NoteGen.Tagged(NoteGen.QUALITY, QualityText(quality));
    DateLineKind(stamp);
    QualityTextShape(quality);
    QualityLineKind(QualityText(quality));
    BlankKind();
    KindsOne(date, kd);
    KindsOne(qual, kq);
    KindsOne("", P);
    KindsJoin([date], [qual], [kd], [kq]);
    assert [date] + [qual] == [date, qual];
    KindsJoin([date, qual], [""], [kd, kq], [P]);
    assert [date, qual] + [""] == [date, qual, ""];
  }

  lemma VideoKinds(videoId: string)
    requires !Contains(videoId, NoteGen.VIDEO_TAG)
    ensures NoteGen.Kinds(VideoLines(videoId))
      == if videoId != "" then [NoteGen.Tagged(NoteGen.VIDEO_ID, Strip(videoId))] else []
  {
    if videoId != "" {
      VideoLineKind(videoId);
      KindsOne(TagLine(NoteGen.VIDEO_TAG, videoId), NoteGen.Tagged(NoteGen.VIDEO_ID, Strip(videoId)));
    }
  }

  /** The reader's view of the metadata block: plain lines around the tagged ones, and no rule. */
  lemma MetaBlockKinds(source: string, videoId: string, stamp: string, quality: int)
    requires Writable(source, videoId, stamp)
    ensures NoteGen.Kinds(MetaBlock(source, videoId, stamp, quality)) == MetaKinds(source, videoId, stamp, quality)
  {
    var front := [RAW_TITLE, "", TagLine(NoteGen.SOURCE_TAG, source)];
    var back := [TagLine(NoteGen.DATE_TAG, stamp), TagLine(NoteGen.QUALITY_TAG, QualityText(quality)), ""];
    FrontKinds(source);
    VideoKinds(videoId);
    BackKinds(stamp, quality);
    KindsAppend(front, VideoLines(videoId));
    KindsAppend(front + VideoLines(videoId), back);
  }

  /** The metadata block holds no rule, so the reader's scan runs past all of it. */
  lemma MetaKindsNoRule(source: string, videoId: string, stamp: string, quality: int)
    ensures forall j :: 0 <= j < |MetaKinds(source, videoId, stamp, quality)| ==> MetaKinds(source, videoId, stamp, quality)[j] != NoteGen.Rule
  {
  }

  /** Gathering the block's kinds yields the written metadata. */
  lemma GatherMeta(source: string, videoId: string, stamp: string, quality: int)
    ensures NoteGen.Gather(map[], MetaKinds(source, videoId, stamp, quality)) == RawMeta(source, videoId, stamp, quality)
  {
    GatherShape(NoteGen.SOURCE, Strip(source), videoId != "", NoteGen.VIDEO_ID, Strip(videoId),
                NoteGen.DATE, Strip(stamp), NoteGen.QUALITY, QualityText(quality));
  }

  /** Gathering plain lines and tagged lines of the metadata block's shape, keys and values left open. */
  lemma GatherShape(sk: string, sv: string, hasVideo: bool, vk: string, vv: string, dk: string, dv: string, qk: string, qv: string)
    ensures NoteGen.Gather(map[],
              [NoteGen.Plain, NoteGen.Plain, NoteGen.Tagged(sk, sv)]
              + (if hasVideo then [NoteGen.Tagged(vk, vv)] else [])
              + [NoteGen.Tagged(dk, dv), NoteGen.Tagged(qk, qv), NoteGen.Plain])
      == (var m := map[sk := sv]; var m' := if hasVideo then m[vk := vv] else m; m'[dk := dv][qk := qv])
  {
    var P := NoteGen.Plain;
    var ks := NoteGen.Tagged(sk, sv);
    var kd := NoteGen.Tagged(dk, dv);
    var kq := NoteGen.Tagged(qk, qv);
    var kc: seq<NoteGen.LineKind> := if hasVideo then [NoteGen.Tagged(vk, vv)] else [];
    var m := map[sk := sv];
    var m' := if hasVideo then m[vk := vv] else m;
    GatherAppend(map[], [P, P, ks] + kc, [kd, kq, P]);
    GatherAppend(map[], [P, P, ks], kc);
    GatherCons(map[], P, [P, ks]);
    GatherCons(map[], P, [ks]);
    GatherCons(map[], ks, []);
    assert [P, P, ks] == [P] + [P, ks] && [P, ks] == [P] + [ks] && [ks] == [ks] + [];
    if hasVideo {
      GatherCons(m, kc[0], []);
      assert kc == [kc[0]] + [];
    }
    GatherCons(m', kd, [kq, P]);
    GatherCons(m'[dk := dv], kq, [P]);
    GatherCons(m'[dk := dv][qk := qv], P, []);
    assert [kd, kq, P] == [kd] + [kq, P] && [kq, P] == [kq] + [P] && [P] == [P] + [];
  }

  lemma GatherCons(m: map<string, string>, k: NoteGen.LineKind, ks: seq<NoteGen.LineKind>)
    ensures NoteGen.Gather(m, [k] + ks) == NoteGen.Gather(if k.Tagged? then m[k.key := k.value] else m, ks)
  {
    assert ([k] + ks)[1..] == ks;
  }

  /** Gathering two runs of lines is gathering the first, then the second. */
  lemma {:induction false} GatherAppend(m: map<string, string>, xs: seq<NoteGen.LineKind>, ys: seq<NoteGen.LineKind>)
    ensures NoteGen.Gather(m, xs + ys) == NoteGen.Gather(NoteGen.Gather(m, xs), ys)
    decreases |xs|
  {
    if xs != [] {
      var m' := if xs[0].Tagged? then m[xs[0].key := xs[0].value] else m;
      assert xs + ys == [xs[0]] + (xs[1..] + ys);
      GatherCons(m, xs[0], xs[1..] + ys);
      GatherAppend(m', xs[1..], ys);
    } else {
      assert xs + ys == ys;
    }
  }

  /** The raw file splits back into the header lines, then the text's own lines. */
  lemma RawLines(source: string, videoId: string, stamp: string, quality: int, fullText: string)
    requires Writable(source, videoId, stamp)
    ensures Split(RawFile(source, videoId, stamp, quality, fullText), '\n')
      == MetaBlock(source, videoId, stamp, quality) + [RULE, ""] + Split(fullText, '\n')
  {
    HeaderSingleLines(source, videoId, stamp, quality);
    SplitJoinLast(RawHeader(source, videoId, stamp, quality), fullText, '\n');
  }

  lemma RuleBlankKinds()
    ensures NoteGen.Kinds([RULE, ""]) == [NoteGen.Rule, NoteGen.Plain]
  {
    RuleKind();
    BlankKind();
    KindsPair(RULE, "", NoteGen.Rule, NoteGen.Plain);
  }

  lemma KindsPair(a: string, b: string, ka: NoteGen.LineKind, kb: NoteGen.LineKind)
    requires NoteGen.Kind(a) == ka && NoteGen.Kind(b) == kb
    ensures NoteGen.Kinds([a, b]) == [ka, kb]
  {
  }

  /** Lines around a rule line: the reader's kinds are the kinds before, the rule and blank, the kinds after. */
  lemma KindsAroundRule(before: seq<string>, after: seq<string>)
    ensures NoteGen.Kinds(before + [RULE, ""] + after)
      == NoteGen.Kinds(before) + [NoteGen.Rule, NoteGen.Plain] + NoteGen.Kinds(after)
  {
    RuleBlankKinds();
    KindsAppend(before, [RULE, ""]);
    KindsAppend(before + [RULE, ""], after);
  }

  /**
   * A file whose lines are a block without a rule, then the rule and a blank
   * line, then the lines of `rest`: its header is the block's metadata and its
   * text is `rest`, stripped.
   */
  lemma ParseBlockThenRule(content: string, block: seq<string>, rest: string)
    requires Split(ReadText(content), '\n') == block + [RULE, ""] + Split(rest, '\n')
    requires 0 < |block| && forall j :: 0 <= j < |block| ==> NoteGen.Kinds(block)[j] != NoteGen.Rule
    ensures NoteGen.ParseRaw(content) == NoteGen.RawContent(NoteGen.Gather(map[], NoteGen.Kinds(block)), Strip(rest))
  {
    var lines := Split(ReadText(content), '\n');
    var after := Split(rest, '\n');
    var kinds := NoteGen.Kinds(lines);
    var kb := NoteGen.Kinds(block);
    var r := |block|;
    KindsAroundRule(block, after);
    assert kinds == kb + [NoteGen.Rule, NoteGen.Plain] + NoteGen.Kinds(after);
    BlockThenRuleScan(kinds, kb, NoteGen.Kinds(after));
    DropThrough(block, RULE, "", after);
    TextAfterRule(rest);
  }

  lemma DropThrough<T>(a: seq<T>, x: T, y: T, b: seq<T>)
    ensures (a + [x, y] + b)[|a| + 1..] == [y] + b
  {
    var s := a + [x, y] + b;
    forall i | 0 <= i < |s| - |a| - 1
      ensures s[|a| + 1..][i] == ([y] + b)[i]
    {
      if i == 0 {
        assert s[|a| + 1] == y;
      } else {
        assert s[|a| + 1 + i] == b[i - 1];
      }
    }
  }

  /** The header scan over a block without a rule, then a rule: it gathers the block and stops past the rule. */
  lemma BlockThenRuleScan(kinds: seq<NoteGen.LineKind>, kb: seq<NoteGen.LineKind>, ka: seq<NoteGen.LineKind>)
    requires kinds == kb + [NoteGen.Rule, NoteGen.Plain] + ka
    requires 0 < |kb| && forall j :: 0 <= j < |kb| ==> kb[j] != NoteGen.Rule
    ensures NoteGen.ScanFrom(kinds, 0, map[]) == (NoteGen.Gather(map[], kb), |kb| + 1)
  {
    var r := |kb|;
    assert kinds[r] == NoteGen.Rule;
    assert kinds[0..r] == kb;
    NoteGen.ScanToRule(kinds, 0, r, map[]);
  }

  /** The text after the rule's blank line reads back as the written text, stripped. */
  lemma TextAfterRule(fullText: string)
    ensures Strip(Join([""] + Split(fullText, '\n'), "\n")) == Strip(fullText)
  {
    JoinCons("", Split(fullText, '\n'), "\n");
    JoinSplit(fullText, '\n');
    assert "" + "\n" + fullText == "\n" + fullText;
    StripSpacePrefix("\n", fullText);
  }

  /**
   * The raw file main.py writes reads back through `load_raw_content`: the
   * metadata holds the source, the video id when there is one, the date and
   * the quality, each stripped, and the text is the extracted text as the
   * text-mode read returns it (the same text when it holds no '\r'), stripped.
   */
  lemma RawRoundTrip(source: string, videoId: string, stamp: string, quality: int, fullText: string)
    requires Writable(source, videoId, stamp)
    ensures NoteGen.ParseRaw(RawFile(source, videoId, stamp, quality, fullText)).metadata == RawMeta(source, videoId, stamp, quality)
    ensures NoteGen.ParseRaw(RawFile(source, videoId, stamp, quality, fullText)).fullText == Strip(ReadText(fullText))
  {
    var block := MetaBlock(source, videoId, stamp, quality);
    var text := ReadText(fullText);
    RawFileRead(source, videoId, stamp, quality, fullText);
    RawLines(source, videoId, stamp, quality, text);
    MetaBlockKinds(source, videoId, stamp, quality);
    MetaKindsNoRule(source, videoId, stamp, quality);
    ParseBlockThenRule(RawFile(source, videoId, stamp, quality, fullText), block, text);
    GatherMeta(source, videoId, stamp, quality);
  }

  /** The text-mode read of a raw file changes only its extracted text. */
  lemma RawFileRead(source: string, videoId: string, stamp: string, quality: int, fullText: string)
    requires Writable(source, videoId, stamp)
    ensures ReadText(RawFile(source, videoId, stamp, quality, fullText)) == RawFile(source, videoId, stamp, quality, ReadText(fullText))
  {
    var header := RawHeader(source, videoId, stamp, quality);
    HeaderSingleLines(source, videoId, stamp, quality);
    JoinAppend(header, fullText, "\n");
    JoinAppend(header, ReadText(fullText), "\n");
    JoinLacks(header, "\n", '\r');
    ReadTextAfter(Join(header, "\n") + "\n", fullText);
  }

  // ---------------------------------------------------------------------------
  // The format menu
  // ---------------------------------------------------------------------------

  /** The menu keys `'1'`..`'4'`. */
  predicate MenuKey(c: char) { '1' <= c <= '4' }

  /** The format a menu key stands for, in menu order. */
  function MenuFormat(c: char): (f: string)
    requires MenuKey(c)
    ensures f in NoteGen.FORMATS
  {
    NoteGen.FORMATS[c as int - '1' as int]
  }

  /** The formats named by the menu keys among `chars`, repeats included, in order. */
  function Picked(chars: string): seq<string>
    decreases |chars|
  {
    if chars == [] then []
    else
      var c := chars[|chars| - 1];
      Picked(chars[..|chars| - 1]) + (if MenuKey(c) then [MenuFormat(c)] else [])
  }

  /** The characters among `chars` that are not menu keys, in order. */
  function Invalid(chars: string): seq<char>
    decreases |chars|
  {
    if chars == [] then []
    else
      var c := chars[|chars| - 1];
      Invalid(chars[..|chars| - 1]) + (if MenuKey(c) then [] else [c])
  }

  /** The typed selection with commas and spaces removed: every other character stays, in order. */
  function SelectionChars(input: string): (r: string)
    ensures r == RemoveChar(RemoveChar(input, ','), ' ')
    ensures forall i :: 0 <= i < |r| ==> r[i] != ',' && r[i] != ' '
  {
    ReplaceByChar(input, ',', ' ');
    ReplaceByEmpty(MapChar(input, ',', ' '), ' ');
    RemoveAfterMap(input, ',', ' ');
    ReplaceAll(ReplaceAll(input, ",", " "), " ", "")
  }

  lemma SelectionStep(chars: string, i: nat)
    requires i < |chars|
    ensures Picked(chars[..i + 1]) == Picked(chars[..i]) + (if MenuKey(chars[i]) then [MenuFormat(chars[i])] else [])
    ensures Invalid(chars[..i + 1]) == Invalid(chars[..i]) + (if MenuKey(chars[i]) then [] else [chars[i]])
    ensures MenuKey(chars[i]) ==> (Seqs.DedupFirst(Picked(chars[..i + 1]))
      == if MenuFormat(chars[i]) in Seqs.DedupFirst(Picked(chars[..i])) then Seqs.DedupFirst(Picked(chars[..i]))
         else Seqs.DedupFirst(Picked(chars[..i])) + [MenuFormat(chars[i])])
    ensures !MenuKey(chars[i]) ==> Seqs.DedupFirst(Picked(chars[..i + 1])) == Seqs.DedupFirst(Picked(chars[..i]))
  {
    var pre := chars[..i + 1];
    assert pre[..|pre| - 1] == chars[..i] && pre[|pre| - 1] == chars[i];
    assert Picked(pre) == Picked(chars[..i]) + (if MenuKey(chars[i]) then [MenuFormat(chars[i])] else []);
    if MenuKey(chars[i]) {
      Seqs.DedupFirstAppend(Picked(chars[..i]), MenuFormat(chars[i]));
    } else {
      assert Picked(chars[..i]) + [] == Picked(chars[..i]);
    }
  }

  /**
   * The selection loop: each menu key adds its format unless already
   * selected; every other character is collected as invalid.
   */
  method ParseSelection(chars: string) returns (selected: seq<string>, invalid: seq<char>)
    ensures selected == Seqs.DedupFirst(Picked(chars))
    ensures invalid == Invalid(chars)
  {
    selected := [];
    invalid := [];
    for i := 0 to |chars|
      invariant selected == Seqs.DedupFirst(Picked(chars[..i]))
      invariant invalid == Invalid(chars[..i])
    {
      var c := chars[i];
      SelectionStep(chars, i);
      if MenuKey(c) {
        var name := MenuFormat(c);
        if name !in selected {
          selected := selected + [name];
        }
      } else {
        invalid := invalid + [c];
      }
    }
    assert chars[..|chars|] == chars;
  }

  /** A format is picked exactly when some character is a menu key naming it. */
  lemma {:induction false} PickedSpec(chars: string)
    ensures forall f :: f in Picked(chars) <==> exists i :: 0 <= i < |chars| && MenuKey(chars[i]) && MenuFormat(chars[i]) == f
    decreases |chars|
  {
    if chars != [] {
      var pre := chars[..|chars| - 1];
      PickedSpec(pre);
      assert forall i :: 0 <= i < |pre| ==> pre[i] == chars[i];
    }
  }

  /** The invalid characters are exactly the typed characters that are not menu keys, in order. */
  lemma {:induction false} InvalidSpec(chars: string)
    ensures forall c :: c in Invalid(chars) ==> c in chars && !MenuKey(c)
    ensures Invalid(chars) == [] <==> forall i :: 0 <= i < |chars| ==> MenuKey(chars[i])
    decreases |chars|
  {
    if chars != [] {
      var pre := chars[..|chars| - 1];
      InvalidSpec(pre);
      assert forall i :: 0 <= i < |pre| ==> pre[i] == chars[i];
    }
  }

  /**
   * What the selection loop keeps: distinct formats from the menu, one for
   * each menu key typed, and nothing else.
   */
  lemma SelectionSpec(chars: string)
    ensures Seqs.Distinct(Seqs.DedupFirst(Picked(chars)))
    ensures forall f :: f in Seqs.DedupFirst(Picked(chars)) ==> f in NoteGen.FORMATS
    ensures forall f :: (f in Seqs.DedupFirst(Picked(chars))
      <==> exists i :: 0 <= i < |chars| && MenuKey(chars[i]) && MenuFormat(chars[i]) == f)
  {
    Seqs.DedupFirstSpec(Picked(chars));
    PickedSpec(chars);
  }

  /** The selected formats come in the order their keys were first typed. */
  lemma SelectionOrder(chars: string, p: nat, q: nat)
    requires p < q < |Seqs.DedupFirst(Picked(chars))|
    ensures Seqs.DedupFirst(Picked(chars))[p] in Picked(chars) && Seqs.DedupFirst(Picked(chars))[q] in Picked(chars)
    ensures Seqs.FirstIndex(Picked(chars), Seqs.DedupFirst(Picked(chars))[p])
      < Seqs.FirstIndex(Picked(chars), Seqs.DedupFirst(Picked(chars))[q])
  {
    Seqs.DedupFirstOrder(Picked(chars), p, q);
  }

  /** Answers accepted at the confirmation question. */
  predicate Confirms(answer: string) {
    var a := Lower(Strip(answer));
    a == "" || a == "y" || a == "yes"
  }

  /**
   * `select_formats_interactive` over the lines typed, in order: `None` when
   * the input ends before an answer is accepted (`input()` then raises).
   */
  function Select(answers: seq<string>): (r: Option<seq<string>>)
    decreases |answers|
  {
    if answers == [] then None
    else
      var choice := Upper(Strip(answers[0]));
      if choice == "Q" then Some([])
      else if choice == "A" then Some(NoteGen.FORMATS)
      else
        var chars := SelectionChars(choice);
        var selected := Seqs.DedupFirst(Picked(chars));
        if Invalid(chars) != [] || selected == [] then Select(answers[1..])
        else if |answers| < 2 then None
        else if Confirms(answers[1]) then Some(selected)
        else Select(answers[2..])
  }

  /** The menu loop: re-asks after an invalid or empty choice and after a refused confirmation. */
  method SelectFormatsInteractive(answers: seq<string>) returns (r: Option<seq<string>>)
    ensures r == Select(answers)
  {
    var next := 0;
    while next < |answers|
      invariant next <= |answers|
      invariant Select(answers) == Select(answers[next..])
      decreases |answers| - next
    {
      var choice := Upper(Strip(answers[next]));
      if choice == "Q" {
        return Some([]);
      }
      if choice == "A" {
        return Some(NoteGen.FORMATS);
      }
      var selected, invalid := ParseSelection(SelectionChars(choice));
      if invalid != [] || selected == [] {
        assert answers[next..][1..] == answers[next + 1..];
        next := next + 1;
        continue;
      }
      if next + 1 == |answers| {
        return None;
      }
      if Confirms(answers[next + 1]) {
        return Some(selected);
      }
      assert answers[next..][2..] == answers[next + 2..];
      next := next + 2;
    }
    return None;
  }

  /** A choice made from the menu: distinct formats, each one of the four. */
  predicate FromMenu(fs: seq<string>) {
    Seqs.Distinct(fs) && forall f :: f in fs ==> f in NoteGen.FORMATS
  }

  lemma FormatsFromMenu()
    ensures FromMenu(NoteGen.FORMATS)
  {
  }

  /**
   * Every outcome of the menu is a choice from it: quitting gives no formats,
   * `A` all four in menu order, anything else a distinct selection.
   */
  lemma {:induction false} SelectOutcomes(answers: seq<string>)
    ensures Select(answers).Some? ==> FromMenu(Select(answers).value)
    decreases |answers|
  {
    if answers != [] {
      var choice := Upper(Strip(answers[0]));
      if choice != "Q" && choice != "A" {
        var chars := SelectionChars(choice);
        SelectionSpec(chars);
        if |answers| >= 2 {
          SelectOutcomes(answers[2..]);
        }
        SelectOutcomes(answers[1..]);
      } else {
        FormatsFromMenu();
      }
    }
  }

  // ---------------------------------------------------------------------------
  // The --formats option
  // ---------------------------------------------------------------------------

  /** The formats main.py goes on with, or why it stops. */
  datatype FormatChoice =
    | Chosen(formats: seq<string>)
    | NothingSelected   // the menu was quit: main.py exits with status 0
    | InputEnded        // the input ended inside the menu

  /** `[f.strip() for f in parts]`. */
  function StripEach(parts: seq<string>): (r: seq<string>)
    ensures |r| == |parts| && forall i :: 0 <= i < |parts| ==> r[i] == Strip(parts[i])
  {
    seq(|parts|, i requires 0 <= i < |parts| => Strip(parts[i]))
  }

  /** Each stripped piece is its own strip. */
  lemma StripEachStripped(parts: seq<string>)
    ensures forall i :: 0 <= i < |parts| ==> Strip(StripEach(parts)[i]) == StripEach(parts)[i]
  {
    forall i | 0 <= i < |parts| ensures Strip(StripEach(parts)[i]) == StripEach(parts)[i] {
      StripIdem(parts[i]);
    }
  }

  /**
   * The formats named by `--formats`: all four for `all`, otherwise the
   * comma-separated names, each stripped (unknown names are kept and fail
   * later, at template lookup).
   */
  function FormatsFromArg(arg: string): (fs: seq<string>)
    ensures arg == "all" ==> fs == NoteGen.FORMATS
    ensures arg != "all" ==> |fs| >= 1 && forall i :: 0 <= i < |fs| ==> Strip(fs[i]) == fs[i]
  {
    if arg == "all" then NoteGen.FORMATS
    else
      StripEachStripped(Split(arg, ','));
      StripEach(Split(arg, ','))
  }

  /** Names joined by commas come back as the same names. */
  lemma FormatsArgRoundTrip(names: seq<string>)
    requires |names| >= 1
    requires forall i :: 0 <= i < |names| ==> ',' !in names[i] && Strip(names[i]) == names[i]
    requires Join(names, ",") != "all"
    ensures FormatsFromArg(Join(names, ",")) == names
  {
    var arg := Join(names, ",");
    SplitJoin(names, ',');
    assert Split(arg, ',') == names;
    StripEachIdem(names);
  }

  lemma StripEachIdem(parts: seq<string>)
    requires forall i :: 0 <= i < |parts| ==> Strip(parts[i]) == parts[i]
    ensures StripEach(parts) == parts
  {
  }

  /** The formats for a run: none with `--extract-only`, the menu without `--formats`, else the option's. */
  function ChooseFormats(extractOnly: bool, formatsArg: Option<string>, answers: seq<string>): (r: FormatChoice)
    ensures extractOnly ==> r == Chosen([])
    ensures !extractOnly && formatsArg.Some? ==> r == Chosen(FormatsFromArg(formatsArg.value))
    ensures r.NothingSelected? || r.InputEnded? ==> !extractOnly && formatsArg.None?
    ensures !extractOnly && formatsArg.None? ==> (r.InputEnded? <==> Select(answers).None?)
  {
    if extractOnly then Chosen([])
    else match formatsArg
      case None =>
        (match Select(answers)
         case None => InputEnded
         case Some(fs) => if fs == [] then NothingSelected else Chosen(fs))
      case Some(arg) => Chosen(FormatsFromArg(arg))
  }

  /** Whatever the option, a run that goes on uses menu formats or the names given. */
  lemma ChosenFromMenu(extractOnly: bool, answers: seq<string>)
    ensures ChooseFormats(extractOnly, None, answers).Chosen? ==> FromMenu(ChooseFormats(extractOnly, None, answers).formats)
  {
    SelectOutcomes(answers);
  }

  // ---------------------------------------------------------------------------
  // Output file names
  // ---------------------------------------------------------------------------

  /** A name part made only of characters the sanitiser keeps, none of them whitespace. */
  predicate SafePart(s: string) {
    forall i :: 0 <= i < |s| ==> SafeName.NameChar(s[i]) && !IsSpace(s[i])
  }

  /** The sanitised text cut to `maxLength`, or `fallback` when nothing is left of it. */
  function Part(text: string, maxLength: nat, fallback: string): (r: string)
    requires 0 < |fallback| <= maxLength && SafePart(fallback)
    ensures 0 < |r| <= maxLength && SafePart(r)
    ensures r == fallback || r == SafeName.Sanitize(text, maxLength)
    ensures SafeName.Sanitize(text, maxLength) != "" ==> r == SafeName.Sanitize(text, maxLength)
  {
    var t := SafeName.Sanitize(text, maxLength);
    if t == "" then fallback else t
  }

  /** A value from the extraction, or today's date when it has none. */
  function DateOr(value: string, today: string): string {
    if value != "" then value else today
  }

  /** Lower-case ASCII words are safe name parts. */
  lemma LowerWordSafe(s: string)
    requires forall i :: 0 <= i < |s| ==> 'a' <= s[i] <= 'z'
    ensures SafePart(s)
  {
  }

  lemma FallbacksSafe()
    ensures SafePart("youtube") && SafePart("unknown") && SafePart("video") && SafePart("pdf") && SafePart("web")
  {
    LowerWordSafe("youtube");
    LowerWordSafe("unknown");
    LowerWordSafe("video");
    LowerWordSafe("pdf");
    LowerWordSafe("web");
  }

  /** A safe part has no dot. */
  lemma SafeNoDot(s: string)
    requires SafePart(s)
    ensures forall i :: 0 <= i < |s| ==> s[i] != '.'
  {
  }

  /** The YouTube title part: at most 30 characters, `youtube` for an empty or placeholder title. */
  function YouTubeTitle(title: string): (r: string)
    ensures 0 < |r| <= 30 && SafePart(r)
    ensures SafeName.Sanitize(title, 30) in {"", "YouTube_Video"} ==> r == "youtube"
    ensures SafeName.Sanitize(title, 30) !in {"", "YouTube_Video"} ==> r == SafeName.Sanitize(title, 30)
  {
    FallbacksSafe();
    var t := SafeName.Sanitize(title, 30);
    if t == "" || t == "YouTube_Video" then "youtube" else t
  }

  /** The YouTube channel part: at most 20 characters, `unknown` for an empty or `Unknown` channel. */
  function YouTubeChannel(channel: string): (r: string)
    ensures 0 < |r| <= 20 && SafePart(r)
    ensures SafeName.Sanitize(channel, 20) in {"", "Unknown"} ==> r == "unknown"
    ensures SafeName.Sanitize(channel, 20) !in {"", "Unknown"} ==> r == SafeName.Sanitize(channel, 20)
  {
    FallbacksSafe();
    var c := SafeName.Sanitize(channel, 20);
    if c == "" || c == "Unknown" then "unknown" else c
  }

  /** The web date part: the date without `-` and `/`, cut to 8 characters, or today. */
  function WebDate(date: string, today: string): (r: string)
    ensures date != "" ==> r == SliceTo(RemoveChar(RemoveChar(date, '-'), '/'), 8)
    ensures date != "" ==> |r| <= 8 && forall i :: 0 <= i < |r| ==> r[i] != '-' && r[i] != '/'
    ensures date == "" ==> r == today
  {
    if date != "" then
      ReplaceByEmpty(date, '-');
      ReplaceByEmpty(RemoveChar(date, '-'), '/');
      SliceTo(ReplaceAll(ReplaceAll(date, "-", ""), "/", ""), 8)
    else today
  }

  /** The web domain part: dots become underscores, then it is sanitised to 20 characters, or `unknown`. */
  function WebDomain(domain: string): (r: string)
    ensures 0 < |r| <= 20 && SafePart(r)
    ensures forall i :: 0 <= i < |r| ==> r[i] != '.'
    ensures var d := SafeName.Sanitize(MapChar(domain, '.', '_'), 20);
      r == (if domain == "" || d == "" then "unknown" else d)
  {
    FallbacksSafe();
    ReplaceByChar(domain, '.', '_');
    var d := if domain != "" then SafeName.Sanitize(ReplaceAll(domain, ".", "_"), 20) else "";
    var r := if d == "" then "unknown" else d;
    SafeNoDot(r);
    r
  }

  /** What `create_output_filename` reads from an extraction; `title` is `None` when the result has none. */
  datatype NameFields = NameFields(
    title: Option<string>, channel: string, uploadDate: string, creationDate: string,
    author: string, domain: string, date: string)

  /** `{title}_{channel}_{date}` for a YouTube video. */
  function YouTubeName(title: string, channel: string, uploadDate: string, today: string): string {
    YouTubeTitle(title) + "_" + YouTubeChannel(channel) + "_" + DateOr(uploadDate, today)
  }

  /** The video title part: at most 40 characters, `video` when nothing is left of the title. */
  function VideoTitle(title: string): (r: string)
    ensures 0 < |r| <= 40 && SafePart(r)
    ensures SafeName.Sanitize(title, 40) != "" ==> r == SafeName.Sanitize(title, 40)
    ensures SafeName.Sanitize(title, 40) == "" ==> r == "video"
  {
    FallbacksSafe();
    Part(title, 40, "video")
  }

  /** The PDF title part: at most 40 characters, `pdf` when nothing is left of the title. */
  function PdfTitle(title: string): (r: string)
    ensures 0 < |r| <= 40 && SafePart(r)
    ensures SafeName.Sanitize(title, 40) != "" ==> r == SafeName.Sanitize(title, 40)
    ensures SafeName.Sanitize(title, 40) == "" ==> r == "pdf"
  {
    FallbacksSafe();
    Part(title, 40, "pdf")
  }

  /** The web title part: at most 40 characters, `web` when nothing is left of the title. */
  function WebTitle(title: string): (r: string)
    ensures 0 < |r| <= 40 && SafePart(r)
    ensures SafeName.Sanitize(title, 40) != "" ==> r == SafeName.Sanitize(title, 40)
    ensures SafeName.Sanitize(title, 40) == "" ==> r == "web"
  {
    FallbacksSafe();
    Part(title, 40, "web")
  }

  /** `{title}_{date}` for a local video. */
  function VideoName(title: string, creationDate: string, today: string): string {
    VideoTitle(title) + "_" + DateOr(creationDate, today)
  }

  /** The PDF author part: the sanitised author, or nothing when there is no author. */
  function PdfAuthor(author: string): string {
    if author != "" then SafeName.Sanitize(author, 20) else ""
  }

  /** `{title}_{author}_{date}` for a PDF with an author, `{title}_{date}` without one. */
  function PdfName(title: string, author: string, creationDate: string, today: string): string {
    var a := PdfAuthor(author);
    if a != "" then PdfTitle(title) + "_" + a + "_" + DateOr(creationDate, today)
    else PdfTitle(title) + "_" + DateOr(creationDate, today)
  }

  /** `{title}_{domain}_{date}` for a web page. */
  function WebName(title: string, domain: string, date: string, today: string): string {
    WebTitle(title) + "_" + WebDomain(domain) + "_" + WebDate(date, today)
  }

  /**
   * `create_output_filename`: the name for the source kind when the result
   * has a title, otherwise `{source}_{timestamp}`. The clock gives `today`
   * (`%Y%m%d`) and `timestamp` (`%Y%m%d_%H%M%S`).
   */
  function OutputFilename(sourceName: string, fields: NameFields, today: string, timestamp: string): string {
    match fields.title
    case None => sourceName + "_" + timestamp
    case Some(title) =>
      if sourceName == "youtube" then YouTubeName(title, fields.channel, fields.uploadDate, today)
      else if sourceName == "video" then VideoName(title, fields.creationDate, today)
      else if sourceName == "pdf" then PdfName(title, fields.author, fields.creationDate, today)
      else if sourceName == "web" then WebName(title, fields.domain, fields.date, today)
      else sourceName + "_" + timestamp
  }

  /** The text after the last `_` of a name. */
  function LastField(name: string): (r: string)
    ensures forall i :: 0 <= i < |r| ==> r[i] != '_'
  {
    name[RFind(name, '_') + 1..]
  }

  /** A field without `_` appended after a `_` is the last field. */
  lemma LastFieldAppend(prefix: string, field: string)
    requires forall i :: 0 <= i < |field| ==> field[i] != '_'
    ensures LastField(prefix + "_" + field) == field
  {
    var s := prefix + "_" + field;
    var k := RFind(s, '_');
    assert s[|prefix|] == '_';
    assert forall j :: |prefix| < j < |s| ==> s[j] == field[j - |prefix| - 1];
    assert k == |prefix|;
    assert s[k + 1..] == field;
  }

  /** The date a named file was made on is its name's last field, whatever the source kind. */
  lemma OutputFilenameDate(sourceName: string, fields: NameFields, today: string, timestamp: string, date: string)
    requires fields.title.Some? && sourceName in {"youtube", "video", "pdf", "web"}
    requires date == (if sourceName == "youtube" then DateOr(fields.uploadDate, today)
                      else if sourceName == "web" then WebDate(fields.date, today)
                      else DateOr(fields.creationDate, today))
    requires forall i :: 0 <= i < |date| ==> date[i] != '_'
    ensures LastField(OutputFilename(sourceName, fields, today, timestamp)) == date
  {
    var title := fields.title.value;
    if sourceName == "youtube" {
      LastFieldAppend(YouTubeTitle(title) + "_" + YouTubeChannel(fields.channel), date);
    } else if sourceName == "video" {
      LastFieldAppend(VideoTitle(title), date);
    } else if sourceName == "pdf" {
      var a := PdfAuthor(fields.author);
      if a != "" {
        LastFieldAppend(PdfTitle(title) + "_" + a, date);
      } else {
        LastFieldAppend(PdfTitle(title), date);
      }
    } else {
      LastFieldAppend(WebTitle(title) + "_" + WebDomain(fields.domain), date);
    }
  }

  /** A PDF name has an author field exactly when the sanitised author is non-empty. */
  lemma PdfNameAuthor(title: string, author: string, creationDate: string, today: string)
    ensures PdfName(title, author, creationDate, today)
      == PdfTitle(title) + "_" + PdfAuthor(author) + "_" + DateOr(creationDate, today)
      <==> PdfAuthor(author) != ""
    ensures PdfAuthor(author) == "" ==> PdfName(title, author, creationDate, today) == PdfTitle(title) + "_" + DateOr(creationDate, today)
  {
  }

  predicate NoSlash(s: string) { forall i :: 0 <= i < |s| ==> s[i] != '/' }

  lemma SafeNoSlash(s: string)
    requires SafePart(s)
    ensures NoSlash(s)
  {
  }

  lemma NoSlashJoin3(a: string, b: string)
    requires NoSlash(a) && NoSlash(b)
    ensures NoSlash(a + "_" + b)
  {
  }

  lemma YouTubeNameNoSlash(title: string, channel: string, uploadDate: string, today: string)
    requires NoSlash(uploadDate) && NoSlash(today)
    ensures NoSlash(YouTubeName(title, channel, uploadDate, today))
  {
    SafeNoSlash(YouTubeTitle(title));
    SafeNoSlash(YouTubeChannel(channel));
    NoSlashJoin3(YouTubeTitle(title), YouTubeChannel(channel));
    NoSlashJoin3(YouTubeTitle(title) + "_" + YouTubeChannel(channel), DateOr(uploadDate, today));
  }

  lemma VideoNameNoSlash(title: string, creationDate: string, today: string)
    requires NoSlash(creationDate) && NoSlash(today)
    ensures NoSlash(VideoName(title, creationDate, today))
  {
    SafeNoSlash(VideoTitle(title));
    NoSlashJoin3(VideoTitle(title), DateOr(creationDate, today));
  }

  lemma PdfNameNoSlash(title: string, author: string, creationDate: string, today: string)
    requires NoSlash(creationDate) && NoSlash(today)
    ensures NoSlash(PdfName(title, author, creationDate, today))
  {
    var t, a, d := PdfTitle(title), PdfAuthor(author), DateOr(creationDate, today);
    SafeNoSlash(t);
    SafeNoSlash(a);
    NoSlashJoin3(t, a);
    NoSlashJoin3(t + "_" + a, d);
    NoSlashJoin3(t, d);
  }

  lemma WebNameNoSlash(title: string, domain: string, date: string, today: string)
    requires NoSlash(today)
    ensures NoSlash(WebName(title, domain, date, today))
  {
    var t, d := WebTitle(title), WebDomain(domain);
    SafeNoSlash(t);
    SafeNoSlash(d);
    NoSlashJoin3(t, d);
    NoSlashJoin3(t + "_" + d, WebDate(date, today));
  }

  /**
   * An output name stays inside the output directory: it has no `/` unless
   * the source name, the clock or an extracted date brings one in (the web
   * date has its `/` removed).
   */
  lemma OutputFilenameNoSlash(sourceName: string, fields: NameFields, today: string, timestamp: string)
    requires NoSlash(sourceName) && NoSlash(today) && NoSlash(timestamp)
    requires NoSlash(fields.uploadDate) && NoSlash(fields.creationDate)
    ensures NoSlash(OutputFilename(sourceName, fields, today, timestamp))
  {
    NoSlashJoin3(sourceName, timestamp);
    if fields.title.Some? {
      var title := fields.title.value;
      if sourceName == "youtube" {
        YouTubeNameNoSlash(title, fields.channel, fields.uploadDate, today);
      } else if sourceName == "video" {
        VideoNameNoSlash(title, fields.creationDate, today);
      } else if sourceName == "pdf" {
        PdfNameNoSlash(title, fields.author, fields.creationDate, today);
      } else if sourceName == "web" {
        WebNameNoSlash(title, fields.domain, fields.date, today);
      }
    }
  }
}

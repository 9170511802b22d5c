/**
 * The YouTube extractor (`extract_youtube`): captions fetched from the
 * caption service become timed transcript segments, noise markers and empty
 * lines dropped, a `[MM:SS] text` full text, a duration and a quality score
 * with its warnings. The caption service, the metadata dump and the URL
 * pattern are parameters.
 */
module YouTube {
  import opened Text
  import opened Wrappers
  import opened Transcript

  // ---------------------------------------------------------------------------
  // Noise
  // ---------------------------------------------------------------------------

  /** The markers the segment filter removes: music, applause, laughter and music playback. */
  predicate IsNoise(text: string) {
    Contains(text, "[음악]") || Contains(text, "[박수]") || Contains(text, "[웃음]")
    || Contains(text, "[Music]") || Contains(text, "[Applause]") || Contains(text, "[음악재생]")
  }

  /** The markers the quality check counts: the filter's list without "[음악재생]". */
  predicate CountedNoise(text: string) {
    Contains(text, "[음악]") || Contains(text, "[박수]") || Contains(text, "[웃음]")
    || Contains(text, "[Music]") || Contains(text, "[Applause]")
  }

  /** Whatever the quality check counts as noise, the filter has removed. */
  lemma CountedIsFiltered(text: string)
    ensures CountedNoise(text) ==> IsNoise(text)
    ensures Contains(text, "[음악재생]") ==> IsNoise(text)
  {
  }

  // ---------------------------------------------------------------------------
  // Quality
  // ---------------------------------------------------------------------------

  /** What the caption service returned: captions written by people or generated ones. */
  datatype Kind = Manual | Auto

  function KindText(k: Kind): string {
    match k
    case Manual => "manual"
    case Auto => "auto"
  }

  datatype YouTubeWarning = AutoCaptions | NoCaptions | EmptySegments(count: nat) | NoiseMarkers(count: nat) | ShortSegments

  function WarningText(w: YouTubeWarning): string {
    match w
    case AutoCaptions => "자동 생성 자막 사용 - 오타/오류 가능성 있음"
    case NoCaptions => "자막 없음"
    case EmptySegments(n) => "빈 세그먼트 " + NatToString(n) + "개 발견"
    case NoiseMarkers(n) => "노이즈 마커 " + NatToString(n) + "개 (자동 필터링됨)"
    case ShortSegments => "평균 세그먼트가 매우 짧음 - 분절 품질 낮음"
  }

  function WarningTexts(ws: seq<YouTubeWarning>): (r: seq<string>)
    ensures |r| == |ws| && forall i :: 0 <= i < |ws| ==> r[i] == WarningText(ws[i])
  {
    seq(|ws|, i requires 0 <= i < |ws| => WarningText(ws[i]))
  }

  /** The points each warning costs; the noise warning is informational. */
  function Penalty(w: YouTubeWarning): nat {
    match w
    case AutoCaptions => 15
    case NoCaptions => 0
    case EmptySegments(_) => 10
    case NoiseMarkers(_) => 0
    case ShortSegments => 10
  }

  function TotalPenalty(ws: seq<YouTubeWarning>): nat
    decreases |ws|
  {
    if ws == [] then 0 else TotalPenalty(ws[..|ws| - 1]) + Penalty(ws[|ws| - 1])
  }

  lemma {:induction false} TotalPenaltyAppend(a: seq<YouTubeWarning>, b: seq<YouTubeWarning>)
    ensures TotalPenalty(a + b) == TotalPenalty(a) + TotalPenalty(b)
    decreases |b|
  {
    if b == [] {
      assert a + b == a;
    } else {
      var b' := b[..|b| - 1];
      assert (a + b)[..|a + b| - 1] == a + b';
      TotalPenaltyAppend(a, b');
    }
  }

  /** The segments whose text is blank once stripped. */
  function EmptyCount(segments: seq<TimedSegment>): (n: nat)
    ensures n <= |segments|
    decreases |segments|
  {
    if segments == [] then 0
    else EmptyCount(segments[..|segments| - 1]) + (if Strip(segments[|segments| - 1].text) == "" then 1 else 0)
  }

  /** The segments whose text holds a counted noise marker. */
  function NoiseCount(segments: seq<TimedSegment>): (n: nat)
    ensures n <= |segments|
    decreases |segments|
  {
    if segments == [] then 0
    else NoiseCount(segments[..|segments| - 1]) + (if CountedNoise(segments[|segments| - 1].text) then 1 else 0)
  }

  /** The caption-kind check: 15 points for generated captions. */
  function KindCheck(kind: Kind): (r: (nat, seq<YouTubeWarning>))
    ensures r.0 == TotalPenalty(r.1)
    ensures AutoCaptions in r.1 <==> kind == Auto
    ensures forall w :: w in r.1 ==> w == AutoCaptions
  {
    if kind == Auto then (15, [AutoCaptions]) else (0, [])
  }

  /**
   * The blank-segment check: 10 points when more than a tenth of the
   * segments are blank (`empty > n * 0.1`, as the exact `10 * empty > n`).
   */
  function EmptyCheck(empty: nat, count: nat): (r: (nat, seq<YouTubeWarning>))
    ensures r.0 == TotalPenalty(r.1) && (r.0 == 0 || r.0 == 10)
    ensures forall n :: EmptySegments(n) in r.1 <==> 10 * empty > count && n == empty
    ensures forall w :: w in r.1 ==> w.EmptySegments?
  {
    if 10 * empty > count then (10, [EmptySegments(empty)]) else (0, [])
  }

  /** The noise check: a warning, no points, with more than five marked segments. */
  function NoiseCheck(noise: nat): (r: (nat, seq<YouTubeWarning>))
    ensures r.0 == TotalPenalty(r.1) && r.0 == 0
    ensures forall n :: NoiseMarkers(n) in r.1 <==> noise > 5 && n == noise
    ensures forall w :: w in r.1 ==> w.NoiseMarkers?
  {
    if noise > 5 then (0, [NoiseMarkers(noise)]) else (0, [])
  }

  /** The length check: 10 points when segments average under 10 characters. */
  function LengthCheck(chars: nat, count: nat): (r: (nat, seq<YouTubeWarning>))
    ensures r.0 == TotalPenalty(r.1) && (r.0 == 0 || r.0 == 10)
    ensures ShortSegments in r.1 <==> chars < 10 * count
    ensures forall w :: w in r.1 ==> w == ShortSegments
  {
    if chars < 10 * count then (10, [ShortSegments]) else (0, [])
  }

  /**
   * The deductions of `calculate_quality_score` on a non-empty transcript
   * of `count` segments, `empty` of them blank, `noise` of them marked, with
   * `chars` characters of text.
   */
  function Score(count: nat, empty: nat, noise: nat, chars: nat, kind: Kind): (r: (int, seq<YouTubeWarning>))
    ensures 65 <= r.0 <= 100 && r.0 == 100 - TotalPenalty(r.1)
    ensures kind == Manual ==> 80 <= r.0
    ensures kind == Auto ==> r.0 <= 85
  {
    var (d1, w1) := KindCheck(kind);
    var (d2, w2) := EmptyCheck(empty, count);
    var (d3, w3) := NoiseCheck(noise);
    var (d4, w4) := LengthCheck(chars, count);
    TotalPenaltyAppend(w1, w2);
    TotalPenaltyAppend(w1 + w2, w3);
    TotalPenaltyAppend(w1 + w2 + w3, w4);
    (Clamp(100 - d1 - d2 - d3 - d4), w1 + w2 + w3 + w4)
  }

  /**
   * `calculate_quality_score`: 0 and "no captions" with no segments, even
   * for generated captions; otherwise 100 less the deductions, each of which
   * comes with its warning.
   */
  function Quality(segments: seq<TimedSegment>, kind: Kind): (r: (int, seq<YouTubeWarning>))
    ensures segments == [] ==> r == (0, [NoCaptions])
    ensures segments != [] ==> 65 <= r.0 <= 100 && r.0 == 100 - TotalPenalty(r.1)
    ensures segments != [] && kind == Manual ==> 80 <= r.0
    ensures segments != [] && kind == Auto ==> r.0 <= 85
  {
    if segments == [] then (0, [NoCaptions])
    else Score(|segments|, EmptyCount(segments), NoiseCount(segments), TotalLength(segments), kind)
  }

  lemma InFour<T>(a: seq<T>, b: seq<T>, c: seq<T>, d: seq<T>, x: T)
    ensures x in a + b + c + d <==> x in a || x in b || x in c || x in d
  {
  }

  /** Each warning is given exactly when its condition holds. */
  lemma QualityReasons(segments: seq<TimedSegment>, kind: Kind)
    requires segments != []
    ensures AutoCaptions in Quality(segments, kind).1 <==> kind == Auto
    ensures forall n :: EmptySegments(n) in Quality(segments, kind).1 <==>
      10 * EmptyCount(segments) > |segments| && n == EmptyCount(segments)
    ensures forall n :: NoiseMarkers(n) in Quality(segments, kind).1 <==>
      NoiseCount(segments) > 5 && n == NoiseCount(segments)
    ensures ShortSegments in Quality(segments, kind).1 <==> TotalLength(segments) < 10 * |segments|
    ensures NoCaptions !in Quality(segments, kind).1
  {
    var w1 := KindCheck(kind).1;
    var w2 := EmptyCheck(EmptyCount(segments), |segments|).1;
    var w3 := NoiseCheck(NoiseCount(segments)).1;
    var w4 := LengthCheck(TotalLength(segments), |segments|).1;
    assert Quality(segments, kind) == Score(|segments|, EmptyCount(segments), NoiseCount(segments), TotalLength(segments), kind);
    assert Quality(segments, kind).1 == w1 + w2 + w3 + w4;
    InFour(w1, w2, w3, w4, AutoCaptions);
    InFour(w1, w2, w3, w4, ShortSegments);
    InFour(w1, w2, w3, w4, NoCaptions);
    forall n
      ensures EmptySegments(n) in w1 + w2 + w3 + w4 <==> 10 * EmptyCount(segments) > |segments| && n == EmptyCount(segments)
    {
      InFour(w1, w2, w3, w4, EmptySegments(n));
    }
    forall n
      ensures NoiseMarkers(n) in w1 + w2 + w3 + w4 <==> NoiseCount(segments) > 5 && n == NoiseCount(segments)
    {
      InFour(w1, w2, w3, w4, NoiseMarkers(n));
    }
  }

  /** A stripped, non-empty text stays non-empty when stripped again. */
  lemma StrippedNotBlank(t: string)
    requires t != "" && t == Strip(t)
    ensures Strip(t) != ""
  {
  }

  /**
   * On the segments the filter produced, the blank and the noise checks can
   * never fire: the counts are zero.
   */
  lemma {:induction false} FilteredCounts(segments: seq<TimedSegment>)
    requires forall i :: 0 <= i < |segments| ==> segments[i].text != "" && !IsNoise(segments[i].text)
    requires forall i :: 0 <= i < |segments| ==> Strip(segments[i].text) == segments[i].text
    ensures EmptyCount(segments) == 0 && NoiseCount(segments) == 0
    decreases |segments|
  {
    if segments != [] {
      var init := segments[..|segments| - 1];
      var last := segments[|segments| - 1];
      FilteredCounts(init);
      CountedIsFiltered(last.text);
    }
  }

  /**
   * What the extractor scores: on filtered segments only the caption-kind
   * and the length checks remain, so the score is 100, less 15 for generated
   * captions, less 10 for short segments.
   */
  lemma FilteredQuality(segments: seq<TimedSegment>, kind: Kind)
    requires segments != []
    requires forall i :: 0 <= i < |segments| ==> segments[i].text != "" && !IsNoise(segments[i].text)
    requires forall i :: 0 <= i < |segments| ==> Strip(segments[i].text) == segments[i].text
    ensures Quality(segments, kind).0
      == 100 - (if kind == Auto then 15 else 0) - (if TotalLength(segments) < 10 * |segments| then 10 else 0)
    ensures forall w :: w in Quality(segments, kind).1 ==> w == AutoCaptions || w == ShortSegments
  {
    FilteredCounts(segments);
    assert Quality(segments, kind) == Score(|segments|, 0, 0, TotalLength(segments), kind);
    ScoreUnmarked(|segments|, TotalLength(segments), kind);
  }

  /** With no blank and no marked segments, only the caption-kind and the length checks apply. */
  lemma ScoreUnmarked(count: nat, chars: nat, kind: Kind)
    ensures Score(count, 0, 0, chars, kind).0
      == 100 - (if kind == Auto then 15 else 0) - (if chars < 10 * count then 10 else 0)
    ensures forall w :: w in Score(count, 0, 0, chars, kind).1 ==> w == AutoCaptions || w == ShortSegments
  {
    var w1 := KindCheck(kind).1;
    var w2 := EmptyCheck(0, count).1;
    var w3 := NoiseCheck(0).1;
    var w4 := LengthCheck(chars, count).1;
    assert w2 == [] && w3 == [];
    forall w | w in Score(count, 0, 0, chars, kind).1
      ensures w == AutoCaptions || w == ShortSegments
    {
      InFour(w1, w2, w3, w4, w);
    }
  }

  /** The extractor's segments meet what `FilteredQuality` needs: stripped, non-blank, noise-free. */
  lemma ExtractedFiltered(raws: seq<RawSegment>)
    ensures var segments := Convert(raws, Strip, IsNoise);
      forall i :: 0 <= i < |segments| ==> segments[i].text != "" && !IsNoise(segments[i].text)
    ensures var segments := Convert(raws, Strip, IsNoise);
      forall i :: 0 <= i < |segments| ==> Strip(segments[i].text) == segments[i].text
  {
    ConvertClean(raws, Strip, IsNoise);
    ConvertStripped(raws, IsNoise);
  }

  // ---------------------------------------------------------------------------
  // Metadata
  // ---------------------------------------------------------------------------

  /** The fields of the metadata dump that are read; `None` when the key is absent. */
  datatype VideoData = VideoData(title: Option<string>, channel: Option<string>, uploader: Option<string>, uploadDate: Option<string>)

  datatype VideoMeta = VideoMeta(title: string, channel: string, uploadDate: string)

  /** `get_video_metadata`: the dump's fields with their defaults; all defaults when the dump is unavailable. */
  function MetadataOf(videoId: string, dump: Option<VideoData>): (m: VideoMeta)
    ensures dump.None? ==> m == VideoMeta("YouTube Video (" + videoId + ")", "Unknown", "")
    ensures dump.Some? && dump.value.title.Some? ==> m.title == dump.value.title.value
    ensures dump.Some? && dump.value.title.None? ==> m.title == "YouTube Video (" + videoId + ")"
    ensures dump.Some? && dump.value.channel.Some? ==> m.channel == dump.value.channel.value
    ensures dump.Some? && dump.value.channel.None? && dump.value.uploader.Some? ==> m.channel == dump.value.uploader.value
    ensures dump.Some? && dump.value.channel.None? && dump.value.uploader.None? ==> m.channel == "Unknown"
    ensures dump.Some? ==> m.uploadDate == if dump.value.uploadDate.Some? then dump.value.uploadDate.value else ""
  {
    var fallback := "YouTube Video (" + videoId + ")";
    match dump
    case None => VideoMeta(fallback, "Unknown", "")
    case Some(d) =>
      VideoMeta(
        if d.title.Some? then d.title.value else fallback,
        if d.channel.Some? then d.channel.value else if d.uploader.Some? then d.uploader.value else "Unknown",
        if d.uploadDate.Some? then d.uploadDate.value else "")
  }

  // ---------------------------------------------------------------------------
  // extract_youtube
  // ---------------------------------------------------------------------------

  /** A caption line as the service delivers it: text, start and length in seconds. */
  datatype Caption = Caption(text: string, start: Seconds, duration: Seconds)

  /** A caption as a raw segment: it ends at start + duration. */
  function Raw(c: Caption): (r: RawSegment)
    ensures r.text == c.text && r.start == c.start && r.end == c.start + c.duration
  {
    RawSegment(c.text, c.start, c.start + c.duration)
  }

  function Raws(captions: seq<Caption>): (r: seq<RawSegment>)
    ensures |r| == |captions| && forall i :: 0 <= i < |r| ==> r[i] == Raw(captions[i])
  {
    seq(|captions|, i requires 0 <= i < |captions| => Raw(captions[i]))
  }

  /** Why no captions came back. */
  datatype Unavailable = Disabled | Failed | NotFound

  function ReasonText(u: Unavailable): string {
    match u
    case Disabled => "disabled"
    case Failed => "error"
    case NotFound => "not_found"
  }

  /** What the prioritised caption lookup returns. */
  datatype Fetch = Fetched(captions: seq<Caption>, kind: Kind, language: string) | NoTranscript(reason: Unavailable)

  datatype YouTubeResult = YouTubeResult(
    success: bool, sourceUrl: string, videoId: string, title: string, channel: string, uploadDate: string,
    duration: string, language: string, transcriptType: string, segments: seq<TimedSegment>,
    fullText: string, qualityScore: int, warnings: seq<string>)

  const W_INVALID_URL := "유효하지 않은 YouTube URL"

  function UnavailableWarning(u: Unavailable): string {
    "자막을 가져올 수 없음: " + ReasonText(u)
  }

  /**
   * The part of `extract_youtube` after the captions arrived: filter and
   * convert them, assemble the full text, score them and measure the
   * duration. Success does not depend on any segment surviving the filter.
   */
  method FromCaptions(url: string, id: string, meta: VideoMeta, captions: seq<Caption>, kind: Kind, language: string)
    returns (r: YouTubeResult)
    ensures var segments := Convert(Raws(captions), Strip, IsNoise);
      r.success && r.sourceUrl == url && r.videoId == id
      && r.title == meta.title && r.channel == meta.channel && r.uploadDate == meta.uploadDate
      && r.segments == segments
      && r.fullText == FullText(segments)
      && r.duration == Duration(segments)
      && r.language == language
      && r.transcriptType == KindText(kind)
      && r.qualityScore == Quality(segments, kind).0
      && r.warnings == WarningTexts(Quality(segments, kind).1)
  {
    var segments := ConvertSegments(Raws(captions), IsNoise);
    var fullText := AssembleFullText(segments);
    var (score, warnings) := Quality(segments, kind);
    var duration := if segments != [] then FormatTime(segments[|segments| - 1].endSeconds) else "00:00";
    r := YouTubeResult(true, url, id, meta.title, meta.channel, meta.uploadDate, duration, language,
                       KindText(kind), segments, fullText, score, WarningTexts(warnings));
  }

  /**
   * `extract_youtube`. `videoId` is what the URL patterns find, `dump` the
   * metadata dump (`None` when it could not be fetched) and `fetch` the
   * caption lookup.
   */
  method ExtractYouTube(url: string, videoId: Option<string>, dump: Option<VideoData>, fetch: Fetch)
    returns (r: YouTubeResult)
    ensures (videoId.None? || videoId.value == "") ==>
      r == YouTubeResult(false, url, "", "", "", "", "", "", "", [], "", 0, [W_INVALID_URL])
    ensures videoId.Some? && videoId.value != "" && fetch.NoTranscript? ==>
      var meta := MetadataOf(videoId.value, dump);
      r == YouTubeResult(false, url, videoId.value, meta.title, meta.channel, meta.uploadDate, "", "",
                         ReasonText(fetch.reason), [], "", 0, [UnavailableWarning(fetch.reason)])
    ensures videoId.Some? && videoId.value != "" && fetch.Fetched? ==>
      var meta := MetadataOf(videoId.value, dump);
      var segments := Convert(Raws(fetch.captions), Strip, IsNoise);
      r.success && r.sourceUrl == url && r.videoId == videoId.value
      && r.title == meta.title && r.channel == meta.channel && r.uploadDate == meta.uploadDate
      && r.segments == segments
      && r.fullText == FullText(segments)
      && r.duration == Duration(segments)
      && r.language == fetch.language
      && r.transcriptType == KindText(fetch.kind)
      && r.qualityScore == Quality(segments, fetch.kind).0
      && r.warnings == WarningTexts(Quality(segments, fetch.kind).1)
    ensures r.success <==> videoId.Some? && videoId.value != "" && fetch.Fetched?
  {
    if videoId.None? || videoId.value == "" {
      return YouTubeResult(false, url, "", "", "", "", "", "", "", [], "", 0, [W_INVALID_URL]);
    }
    var id := videoId.value;
    var meta := MetadataOf(id, dump);
    if fetch.NoTranscript? {
      return YouTubeResult(false, url, id, meta.title, meta.channel, meta.uploadDate, "", "",
                           ReasonText(fetch.reason), [], "", 0, [UnavailableWarning(fetch.reason)]);
    }
    r := FromCaptions(url, id, meta, fetch.captions, fetch.kind, fetch.language);
  }
}

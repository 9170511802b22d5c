/**
 * The local video extractor (`extract_video`): the speech recogniser's
 * segments become timed transcript segments, the file name may carry the
 * recording date, and a quality score with warnings is attached. The
 * recogniser, the file check, the video length and today's date are
 * parameters.
 */
module Video {
  import opened Text
  import opened Transcript

  // ---------------------------------------------------------------------------
  // Metadata from the file name
  // ---------------------------------------------------------------------------

  datatype FileMeta = FileMeta(title: string, creationDate: string)

  /** Whether a name starts with `\d{8}_\d{6}`: a camera's date and time stamp. */
  predicate Stamped(name: string) {
    |name| >= 15 && AllDigits(name[..8]) && name[8] == '_' && AllDigits(name[9..15])
  }

  /**
   * `extract_metadata_from_filename`: a stamped name gives the date as the
   * creation date and `Video_{date}_{time}` as the title; any other name is
   * its own title, with no date.
   */
  function NameMeta(path: string): (m: FileMeta)
    ensures var name := SplitExtStem(FileName(path));
      Stamped(name) ==> m == FileMeta("Video_" + name[..8] + "_" + name[9..15], name[..8])
    ensures var name := SplitExtStem(FileName(path));
      !Stamped(name) ==> m == FileMeta(name, "")
    ensures m.creationDate == "" || (|m.creationDate| == 8 && AllDigits(m.creationDate))
  {
    var name := SplitExtStem(FileName(path));
    if Stamped(name) then FileMeta("Video_" + name[..8] + "_" + name[9..15], name[..8])
    else FileMeta(name, "")
  }

  /** A camera file name: date and time come back as the creation date and in the title. */
  lemma StampedName(dir: string, date: string, time: string, rest: string, ext: string)
    requires dir == "" || dir[|dir| - 1] == '/'
    requires |date| == 8 && AllDigits(date) && |time| == 6 && AllDigits(time)
    requires '/' !in rest && '/' !in ext
    requires |ext| > 0 && ext[0] == '.' && '.' !in ext[1..]
    ensures NameMeta(dir + date + "_" + time + rest + ext) == FileMeta("Video_" + date + "_" + time, date)
  {
    var stem := date + "_" + time + rest;
    StampedStem(date, time, rest);
    assert dir + date + "_" + time + rest + ext == dir + (stem + ext);
    NoSlashJoin(stem, ext);
    FileNameAfter(dir, stem + ext);
    SplitExtAfter(stem, ext);
  }

  /** The parts of a stamped stem. */
  lemma StampedStem(date: string, time: string, rest: string)
    requires |date| == 8 && AllDigits(date) && |time| == 6 && AllDigits(time)
    requires '/' !in rest
    ensures var stem := date + "_" + time + rest;
      Stamped(stem) && stem[..8] == date && stem[9..15] == time && stem[0] != '.' && '/' !in stem
  {
    var stem := date + "_" + time + rest;
    assert stem[..8] == date;
    assert stem[9..15] == time;
    assert stem[0] == date[0];
    forall j | 0 <= j < |stem|
      ensures stem[j] != '/'
    {
      if j < 8 {
        assert stem[j] == date[j];
      } else if 8 < j < 15 {
        assert stem[j] == time[j - 9];
      } else if 15 <= j {
        assert stem[j] == rest[j - 15];
      }
    }
  }

  lemma NoSlashJoin(a: string, b: string)
    requires '/' !in a && '/' !in b
    ensures '/' !in a + b
  {
  }

  /** Any other name is kept whole as the title, with no creation date. */
  lemma PlainName(dir: string, stem: string, ext: string)
    requires dir == "" || dir[|dir| - 1] == '/'
    requires '/' !in stem && '/' !in ext && |stem| > 0 && stem[0] != '.'
    requires |ext| > 0 && ext[0] == '.' && '.' !in ext[1..]
    requires !Stamped(stem)
    ensures NameMeta(dir + stem + ext) == FileMeta(stem, "")
  {
    NoSlashJoin(stem, ext);
    assert dir + stem + ext == dir + (stem + ext);
    FileNameAfter(dir, stem + ext);
    SplitExtAfter(stem, ext);
  }

  // ---------------------------------------------------------------------------
  // Speech recognition
  // ---------------------------------------------------------------------------

  /** What the recogniser run ends with: its segments, a missing library, or an error with its message. */
  datatype Recognition = Recognised(raws: seq<RawSegment>) | WhisperMissing | WhisperError(message: string)

  const W_NO_SPEECH := "음성 인식 결과 없음"
  const W_WHISPER_MISSING := "Whisper 라이브러리 미설치 (pip install openai-whisper)"

  /** The recogniser's segments are all kept unless blank. */
  predicate NeverDropped(text: string) { false }

  /**
   * `transcribe_with_whisper`: the stripped non-blank segments, with a
   * warning when none are left; no segments and a warning when the
   * recogniser is missing or fails.
   */
  function Transcribe(rec: Recognition): (r: (seq<TimedSegment>, seq<string>))
    ensures rec.Recognised? ==> r.0 == Convert(rec.raws, Strip, NeverDropped)
    ensures rec.Recognised? ==> (r.1 == [W_NO_SPEECH] <==> r.0 == []) && (r.1 == [] <==> r.0 != [])
    ensures rec.WhisperMissing? ==> r == ([], [W_WHISPER_MISSING])
    ensures rec.WhisperError? ==> r == ([], ["Whisper 오류: " + rec.message])
  {
    match rec
    case Recognised(raws) =>
      var segments := Convert(raws, Strip, NeverDropped);
      (segments, if segments == [] then [W_NO_SPEECH] else [])
    case WhisperMissing => ([], [W_WHISPER_MISSING])
    case WhisperError(message) => ([], ["Whisper 오류: " + message])
  }

  /** The recogniser loses only blank segments: with no blank input, every segment arrives, in order. */
  lemma TranscribeKeeps(raws: seq<RawSegment>)
    requires forall j :: 0 <= j < |raws| ==> Strip(raws[j].text) != ""
    ensures |Transcribe(Recognised(raws)).0| == |raws|
    ensures forall i :: 0 <= i < |raws| ==>
      Transcribe(Recognised(raws)).0[i] == Timed(raws[i], Strip(raws[i].text))
  {
    ConvertKeepsAll(raws, Strip, NeverDropped);
  }

  // ---------------------------------------------------------------------------
  // Quality
  // ---------------------------------------------------------------------------

  datatype VideoWarning = ExtractionFailed | WhisperUsed | FewSegments | ShortSegments

  function WarningText(w: VideoWarning): string {
    match w
    case ExtractionFailed => "자막 추출 실패"
    case WhisperUsed => "Whisper 자동 인식 - 오류 가능성 있음"
    case FewSegments => "세그먼트가 매우 적음"
    case ShortSegments => "평균 세그먼트가 매우 짧음"
  }

  function WarningTexts(ws: seq<VideoWarning>): (r: seq<string>)
    ensures |r| == |ws| && forall i :: 0 <= i < |ws| ==> r[i] == WarningText(ws[i])
  {
    seq(|ws|, i requires 0 <= i < |ws| => WarningText(ws[i]))
  }

  /** Ten points for each warning but the failure itself. */
  function Penalty(w: VideoWarning): nat {
    if w == ExtractionFailed then 0 else 10
  }

  function TotalPenalty(ws: seq<VideoWarning>): nat
    decreases |ws|
  {
    if ws == [] then 0 else TotalPenalty(ws[..|ws| - 1]) + Penalty(ws[|ws| - 1])
  }

  lemma {:induction false} TotalPenaltyAppend(a: seq<VideoWarning>, b: seq<VideoWarning>)
    ensures TotalPenalty(a + b) == TotalPenalty(a) + TotalPenalty(b)
    decreases |b|
  {
    if b == [] {
      assert a + b == a;
    } else {
      var b' := b[..|b| - 1];
      assert (a + b)[..|a + b| - 1] == a + b';
      TotalPenaltyAppend(a, b');
    }
  }

  /** The segment-count check: ten points for fewer than five segments. */
  function CountCheck(count: nat): (r: (nat, seq<VideoWarning>))
    ensures r.0 == TotalPenalty(r.1) && (r.0 == 0 || r.0 == 10)
    ensures FewSegments in r.1 <==> count < 5
    ensures forall w :: w in r.1 ==> w == FewSegments
  {
    if count < 5 then (10, [FewSegments]) else (0, [])
  }

  /** The length check: ten points when segments average under ten characters. */
  function LengthCheck(chars: nat, count: nat): (r: (nat, seq<VideoWarning>))
    ensures r.0 == TotalPenalty(r.1) && (r.0 == 0 || r.0 == 10)
    ensures ShortSegments in r.1 <==> chars < 10 * count
    ensures forall w :: w in r.1 ==> w == ShortSegments
  {
    if chars < 10 * count then (10, [ShortSegments]) else (0, [])
  }

  /**
   * The deductions of `calculate_quality_score` for a non-empty transcript
   * of `count` segments with `chars` characters of text: always the
   * recogniser's ten points, then the count and the length checks.
   */
  function Score(count: nat, chars: nat): (r: (int, seq<VideoWarning>))
    ensures 70 <= r.0 <= 90 && r.0 == 100 - TotalPenalty(r.1)
    ensures WhisperUsed in r.1
    ensures FewSegments in r.1 <==> count < 5
    ensures ShortSegments in r.1 <==> chars < 10 * count
    ensures ExtractionFailed !in r.1
  {
    var (d2, w2) := CountCheck(count);
    var (d3, w3) := LengthCheck(chars, count);
    assert TotalPenalty([WhisperUsed]) == 10 by {
      assert [WhisperUsed][..0] == [];
    }
    TotalPenaltyAppend([WhisperUsed], w2);
    TotalPenaltyAppend([WhisperUsed] + w2, w3);
    (Clamp(100 - 10 - d2 - d3), [WhisperUsed] + w2 + w3)
  }

  /** `calculate_quality_score`: 0 and "extraction failed" with no segments, otherwise `Score`. */
  function Quality(segments: seq<TimedSegment>): (r: (int, seq<VideoWarning>))
    ensures segments == [] ==> r == (0, [ExtractionFailed])
    ensures segments != [] ==> 70 <= r.0 <= 90 && r.0 == 100 - TotalPenalty(r.1)
    ensures segments != [] ==> WhisperUsed in r.1 && ExtractionFailed !in r.1
    ensures segments != [] ==> (FewSegments in r.1 <==> |segments| < 5)
    ensures segments != [] ==> (ShortSegments in r.1 <==> TotalLength(segments) < 10 * |segments|)
  {
    if segments == [] then (0, [ExtractionFailed]) else Score(|segments|, TotalLength(segments))
  }

  // ---------------------------------------------------------------------------
  // extract_video
  // ---------------------------------------------------------------------------

  datatype VideoResult = VideoResult(
    success: bool, sourcePath: string, title: string, creationDate: string, duration: string,
    language: string, transcriptType: string, segments: seq<TimedSegment>, fullText: string,
    qualityScore: int, warnings: seq<string>)

  const W_NOT_FOUND := "파일을 찾을 수 없음"
  const W_RECOGNITION_FAILED := "음성 인식 실패"

  /** The video's own length as text; a length that could not be read is zero. */
  function LengthText(seconds: Seconds): (r: string)
    ensures seconds == 0.0 ==> r == "00:00"
    ensures seconds > 0.0 ==> r == FormatTime(seconds)
  {
    if seconds > 0.0 then FormatTime(seconds) else "00:00"
  }

  /**
   * `extract_video`. `found` says whether the file is there, `length` is
   * the video's length in seconds (0 when it cannot be read), `rec` what the
   * recogniser produced and `today` the current date as `YYYYMMDD`.
   */
  method ExtractVideo(path: string, found: bool, length: Seconds, rec: Recognition, language: string, today: string)
    returns (r: VideoResult)
    ensures !found ==> r == VideoResult(false, path, "", "", "", "", "", [], "", 0, [W_NOT_FOUND])
    ensures found && Transcribe(rec).0 == [] ==>
      r == VideoResult(false, path, NameMeta(path).title, NameMeta(path).creationDate, LengthText(length),
                       language, "whisper", [], "", 0, Transcribe(rec).1 + [W_RECOGNITION_FAILED])
    ensures found && Transcribe(rec).0 != [] ==>
      var segments := Transcribe(rec).0;
      var meta := NameMeta(path);
      r.success && r.sourcePath == path && r.title == meta.title
      && r.creationDate == (if meta.creationDate != "" then meta.creationDate else today)
      && r.duration == Duration(segments)
      && r.language == language && r.transcriptType == "whisper"
      && r.segments == segments
      && r.fullText == FullText(segments)
      && r.qualityScore == Quality(segments).0
      && r.warnings == WarningTexts(Quality(segments).1)
    ensures r.success <==> found && Transcribe(rec).0 != []
    ensures !r.success ==> r.creationDate == "" || r.creationDate == NameMeta(path).creationDate
  {
    if !found {
      return VideoResult(false, path, "", "", "", "", "", [], "", 0, [W_NOT_FOUND]);
    }
    var meta := NameMeta(path);
    var lengthText := LengthText(length);
    var (segments, warnings) := Transcribe(rec);
    if segments == [] {
      return VideoResult(false, path, meta.title, meta.creationDate, lengthText, language, "whisper",
                         [], "", 0, warnings + [W_RECOGNITION_FAILED]);
    }
    var fullText := AssembleFullText(segments);
    var (score, qualityWarnings) := Quality(segments);
    warnings := warnings + WarningTexts(qualityWarnings);
    var date := if meta.creationDate != "" then meta.creationDate else today;
    r := VideoResult(true, path, meta.title, date, FormatTime(segments[|segments| - 1].endSeconds),
                     language, "whisper", segments, fullText, score, warnings);
  }
}

/**
 * The note generator of generators/note_generator.py: it reads a raw
 * extraction file back into its metadata and text, builds the prompt from a
 * template and the text, and either asks the model for the note or hands
 * the prompt back (and to a prompt file) for a manual run.
 *
 * The template files are a map from template name to text, the raw file is
 * its content or `None` when it is missing, the model call is a parameter,
 * and the files written are returned as a map from path to content.
 */
module NoteGen {
  import opened Text
  import opened Wrappers

  // ---------------------------------------------------------------------------
  // The raw file
  // ---------------------------------------------------------------------------

  /** The metadata line prefixes of a raw file, with the key each one fills. */
  const SOURCE_TAG := "- 출처:"
  const VIDEO_TAG := "- video_id:"
  const DATE_TAG := "- 추출일:"
  const QUALITY_TAG := "- 품질점수:"

  const SOURCE := "source"
  const VIDEO_ID := "video_id"
  const DATE := "date"
  const QUALITY := "quality"

  /** The four templates, in the order they are generated. */
  const FORMATS := ["detailed", "essence", "easy", "mindmap"]

  datatype RawContent = RawContent(metadata: map<string, string>, fullText: string)

  /** The value of a tagged line: the line with every occurrence of the tag removed, stripped. */
  function TagValue(line: string, tag: string): string
    requires |tag| > 0
  {
    Strip(ReplaceAll(line, tag, ""))
  }

  /** The metadata entry a line gives, testing the tags in their `elif` order. */
  function LineMeta(line: string): (r: Option<(string, string)>)
    ensures r.Some? ==> r.value.0 in {SOURCE, VIDEO_ID, DATE, QUALITY}
  {
    if StartsWith(line, SOURCE_TAG) then Some((SOURCE, TagValue(line, SOURCE_TAG)))
    else if StartsWith(line, VIDEO_TAG) then Some((VIDEO_ID, TagValue(line, VIDEO_TAG)))
    else if StartsWith(line, DATE_TAG) then Some((DATE, TagValue(line, DATE_TAG)))
    else if StartsWith(line, QUALITY_TAG) then Some((QUALITY, TagValue(line, QUALITY_TAG)))
    else None
  }

  /** How the header scan sees one line. */
  datatype LineKind = Tagged(key: string, value: string) | Rule | Plain

  /** A tagged line first; otherwise a line that strips to `---`. */
  function Kind(line: string): (k: LineKind)
    ensures k.Rule? <==> LineMeta(line).None? && Strip(line) == "---"
    ensures k.Tagged? ==> k.key in {SOURCE, VIDEO_ID, DATE, QUALITY}
  {
    match LineMeta(line)
    case Some(kv) => Tagged(kv.0, kv.1)
    case None => if Strip(line) == "---" then Rule else Plain
  }

  function Kinds(lines: seq<string>): (ks: seq<LineKind>)
    ensures |ks| == |lines| && forall i :: 0 <= i < |lines| ==> ks[i] == Kind(lines[i])
  {
    seq(|lines|, i requires 0 <= i < |lines| => Kind(lines[i]))
  }

  /** A function applied to every line. */
  function MapLines<T>(lines: seq<string>, f: string -> T): (r: seq<T>)
    ensures |r| == |lines| && forall i :: 0 <= i < |lines| ==> r[i] == f(lines[i])
  {
    seq(|lines|, i requires 0 <= i < |lines| => f(lines[i]))
  }

  lemma MapAppend<T>(xs: seq<string>, ys: seq<string>, f: string -> T)
    ensures MapLines(xs + ys, f) == MapLines(xs, f) + MapLines(ys, f)
  {
    var a := MapLines(xs + ys, f);
    var b := MapLines(xs, f) + MapLines(ys, f);
    forall i | 0 <= i < |a|
      ensures a[i] == b[i]
    {
      if i < |xs| {
        assert (xs + ys)[i] == xs[i];
      } else {
        assert (xs + ys)[i] == ys[i - |xs|];
      }
    }
  }

  lemma KindsMapped(lines: seq<string>)
    ensures Kinds(lines) == MapLines(lines, Kind)
  {
  }

  /**
   * The header scan from line `i` on: the metadata gathered and the index of
   * the first text line, just past the first rule line after line 0, or 0
   * when there is none.
   */
  function ScanFrom(kinds: seq<LineKind>, i: nat, meta: map<string, string>): (r: (map<string, string>, nat))
    requires i <= |kinds|
    ensures r.1 == 0 || (i < r.1 <= |kinds| && 1 < r.1 && kinds[r.1 - 1] == Rule)
    ensures forall k :: k in meta ==> k in r.0
    decreases |kinds| - i
  {
    if i == |kinds| then (meta, 0)
    else match kinds[i]
      case Tagged(key, value) => ScanFrom(kinds, i + 1, meta[key := value])
      case Rule => if i > 0 then (meta, i + 1) else ScanFrom(kinds, i + 1, meta)
      case Plain => ScanFrom(kinds, i + 1, meta)
  }

  /** What `load_raw_content` returns for a file's content, read in text mode. */
  function ParseRaw(content: string): RawContent {
    var lines := Split(ReadText(content), '\n');
    var (meta, start) := ScanFrom(Kinds(lines), 0, map[]);
    RawContent(meta, Strip(Join(lines[start..], "\n")))
  }

  /** `load_raw_content`: reads the file in text mode, splits it into lines, scans the header, keeps the rest as text. */
  method LoadRawContent(content: string) returns (raw: RawContent)
    ensures raw == ParseRaw(content)
  {
    var lines := Split(ReadText(content), '\n');
    var metadata, textStart := ScanHeader(Kinds(lines));
    raw := RawContent(metadata, Strip(Join(lines[textStart..], "\n")));
  }

  /** The header loop: gathers the tagged lines and stops at the first rule line after line 0. */
  method ScanHeader(kinds: seq<LineKind>) returns (metadata: map<string, string>, textStart: nat)
    ensures (metadata, textStart) == ScanFrom(kinds, 0, map[])
  {
    metadata := map[];
    textStart := 0;
    var i := 0;
    while i < |kinds|
      invariant i <= |kinds| && textStart == 0
      invariant ScanFrom(kinds, 0, map[]) == ScanFrom(kinds, i, metadata)
    {
      match kinds[i] {
        case Tagged(key, value) =>
          ScanStep(kinds, i, metadata);
          metadata := metadata[key := value];
        case Rule =>
          if i > 0 {
            textStart := i + 1;
            break;
          }
          ScanStep(kinds, i, metadata);
        case Plain =>
          ScanStep(kinds, i, metadata);
      }
      i := i + 1;
    }
  }

  /** One step of the scan past a line that does not end the header. */
  lemma ScanStep(kinds: seq<LineKind>, i: nat, meta: map<string, string>)
    requires i < |kinds| && !(kinds[i] == Rule && i > 0)
    ensures ScanFrom(kinds, i, meta) ==
      ScanFrom(kinds, i + 1, if kinds[i].Tagged? then meta[kinds[i].key := kinds[i].value] else meta)
  {
  }

  /** The metadata the tagged lines among `ks` add to `meta`, a later line replacing an earlier one. */
  function Gather(meta: map<string, string>, ks: seq<LineKind>): map<string, string>
    decreases |ks|
  {
    if ks == [] then meta
    else Gather(if ks[0].Tagged? then meta[ks[0].key := ks[0].value] else meta, ks[1..])
  }

  /** A scan that meets its first rule line at `r > 0` gathers the lines before it and starts the text after it. */
  lemma {:induction false} ScanToRule(kinds: seq<LineKind>, i: nat, r: nat, meta: map<string, string>)
    requires i <= r < |kinds| && 0 < r && kinds[r] == Rule
    requires forall j :: i <= j < r ==> kinds[j] != Rule
    ensures ScanFrom(kinds, i, meta) == (Gather(meta, kinds[i..r]), r + 1)
    decreases r - i
  {
    if i < r {
      var m := if kinds[i].Tagged? then meta[kinds[i].key := kinds[i].value] else meta;
      ScanStep(kinds, i, meta);
      ScanToRule(kinds, i + 1, r, m);
      assert kinds[i..r][1..] == kinds[i + 1..r];
    }
  }

  /** With no rule line after line 0 the scan keeps the text start at 0. */
  lemma {:induction false} ScanNoRule(kinds: seq<LineKind>, i: nat, meta: map<string, string>)
    requires i <= |kinds|
    requires forall j :: 0 < j < |kinds| ==> kinds[j] != Rule
    ensures ScanFrom(kinds, i, meta).1 == 0
    decreases |kinds| - i
  {
    if i < |kinds| {
      match kinds[i]
      case Tagged(key, value) => ScanNoRule(kinds, i + 1, meta[key := value]);
      case Rule => ScanNoRule(kinds, i + 1, meta);
      case Plain => ScanNoRule(kinds, i + 1, meta);
    }
  }

  /** The scan only ever adds the four metadata keys. */
  lemma {:induction false} ScanKeys(kinds: seq<LineKind>, i: nat, meta: map<string, string>)
    requires i <= |kinds|
    requires forall j :: 0 <= j < |kinds| && kinds[j].Tagged? ==> kinds[j].key in {SOURCE, VIDEO_ID, DATE, QUALITY}
    ensures forall k :: k in ScanFrom(kinds, i, meta).0 ==> k in meta || k in {SOURCE, VIDEO_ID, DATE, QUALITY}
    decreases |kinds| - i
  {
    if i < |kinds| {
      match kinds[i]
      case Tagged(key, value) => ScanKeys(kinds, i + 1, meta[key := value]);
      case Rule => ScanKeys(kinds, i + 1, meta);
      case Plain => ScanKeys(kinds, i + 1, meta);
    }
  }

  /** A raw file's metadata has only the four keys. */
  lemma ParseRawKeys(content: string)
    ensures ParseRaw(content).metadata.Keys <= {SOURCE, VIDEO_ID, DATE, QUALITY}
  {
    HeaderKeys(Split(ReadText(content), '\n'));
  }

  lemma HeaderKeys(lines: seq<string>)
    ensures ScanFrom(Kinds(lines), 0, map[]).0.Keys <= {SOURCE, VIDEO_ID, DATE, QUALITY}
  {
    ScanKeys(Kinds(lines), 0, map[]);
  }

  /** A raw file without a `---` line after its first line is all text, stripped. */
  lemma ParseRawWithoutRule(content: string)
    requires forall j :: 0 < j < |Split(ReadText(content), '\n')| ==> Kind(Split(ReadText(content), '\n')[j]) != Rule
    ensures ParseRaw(content).fullText == Strip(ReadText(content))
  {
    var lines := Split(ReadText(content), '\n');
    var kinds := Kinds(lines);
    assert forall j :: 0 < j < |kinds| ==> kinds[j] != Rule;
    ScanNoRule(kinds, 0, map[]);
    assert lines[0..] == lines;
    JoinSplit(ReadText(content), '\n');
  }

  // ---------------------------------------------------------------------------
  // The prompt
  // ---------------------------------------------------------------------------

  const EMBED_URL := "https://www.youtube.com/embed/"

  /** `get_video_embed_html`: an iframe for the video, or nothing without an id. */
  function GetVideoEmbedHtml(videoId: string, width: int, height: int): (r: string)
    ensures r == "" <==> videoId == ""
    ensures videoId != "" ==> Contains(r, EMBED_URL + videoId)
  {
    if videoId == "" then ""
    else
      var before := "<iframe width=\"" + IntToString(width) + "\" height=\"" + IntToString(height) + "\" src=\"";
      var after := "\" frameborder=\"0\" allowfullscreen></iframe>";
      ContainsMiddle(before, EMBED_URL + videoId, after);
      before + (EMBED_URL + videoId) + after
  }

  const INPUT_HEADING := "## 입력 데이터"

  /** The instruction part of a template: everything before its input-data heading. */
  function Instruction(template: string): (r: string)
    ensures StartsWith(template, r)
    ensures Contains(template, INPUT_HEADING) ==>
      StartsWith(template[|r|..], INPUT_HEADING)
      && forall j :: 0 <= j < |r| ==> !StartsWith(template[j..], INPUT_HEADING)
    ensures !Contains(template, INPUT_HEADING) ==> r == template
  {
    if Contains(template, INPUT_HEADING) then BeforeFirst(template, INPUT_HEADING) else template
  }

  const EMBED_HEAD := "\n### 동영상 임베딩 (필수)\n노트 제목 바로 아래에 다음 임베딩 코드를 반드시 포함하세요:\n```html\n"
  const EMBED_TAIL := "\n```\n"

  /** The embedding instruction added when the raw file names a video. */
  function EmbedInstruction(videoId: string): string {
    if videoId == "" then ""
    else
      EMBED_HEAD + GetVideoEmbedHtml(videoId, 1280, 720) + EMBED_TAIL
  }

  /** `d.get(key, default)`. */
  function Get(meta: map<string, string>, key: string, default: string): string {
    if key in meta then meta[key] else default
  }

  /** One metadata line of the prompt, in the raw file's own `tag value` form. */
  function InfoLine(tag: string, value: string): string {
    tag + " " + value + "\n"
  }

  const DATA_HEAD := "\n" + INPUT_HEADING + "\n\n### 메타 정보\n"
  const TEXT_HEAD := "\n### 원문\n---\n"
  const TEXT_TAIL := "\n---\n\n위 원문을 기반으로 노트를 생성해주세요.\n"

  /**
   * `create_prompt` for the text of the template: the instruction, the
   * input-data heading, the three metadata lines, the embedding instruction
   * and the text between two rules.
   */
  function CreatePrompt(template: string, raw: RawContent): string {
    Instruction(template) + DATA_HEAD
    + InfoLine(SOURCE_TAG, Get(raw.metadata, SOURCE, "Unknown"))
    + InfoLine(DATE_TAG, Get(raw.metadata, DATE, "Unknown"))
    + InfoLine(QUALITY_TAG, Get(raw.metadata, QUALITY, "Unknown"))
    + EmbedInstruction(Get(raw.metadata, VIDEO_ID, ""))
    + TEXT_HEAD + raw.fullText + TEXT_TAIL
  }

  lemma ContainsLast(a: string, b: string)
    ensures Contains(a + b, b)
  {
    assert (a + b)[|a|..|a| + |b|] == b;
    ContainsAt(a + b, b, |a|);
  }

  /**
   * The prompt carries the whole text, the source, date and quality lines
   * (`Unknown` when the raw file has none), and the player when there is a
   * video id.
   */
  lemma PromptContents(template: string, raw: RawContent)
    ensures StartsWith(CreatePrompt(template, raw), Instruction(template))
    ensures Contains(CreatePrompt(template, raw), raw.fullText)
    ensures Contains(CreatePrompt(template, raw), InfoLine(SOURCE_TAG, Get(raw.metadata, SOURCE, "Unknown")))
    ensures Contains(CreatePrompt(template, raw), InfoLine(DATE_TAG, Get(raw.metadata, DATE, "Unknown")))
    ensures Contains(CreatePrompt(template, raw), InfoLine(QUALITY_TAG, Get(raw.metadata, QUALITY, "Unknown")))
    ensures Get(raw.metadata, VIDEO_ID, "") != "" ==>
      Contains(CreatePrompt(template, raw), GetVideoEmbedHtml(Get(raw.metadata, VIDEO_ID, ""), 1280, 720))
  {
    var vid := Get(raw.metadata, VIDEO_ID, "");
    var e := EmbedInstruction(vid);
    Pieces(Instruction(template), DATA_HEAD,
      InfoLine(SOURCE_TAG, Get(raw.metadata, SOURCE, "Unknown")),
      InfoLine(DATE_TAG, Get(raw.metadata, DATE, "Unknown")),
      InfoLine(QUALITY_TAG, Get(raw.metadata, QUALITY, "Unknown")),
      e, TEXT_HEAD, raw.fullText, TEXT_TAIL);
    if vid != "" {
      var html := GetVideoEmbedHtml(vid, 1280, 720);
      ContainsMiddle(EMBED_HEAD, html, EMBED_TAIL);
      ContainsTrans(CreatePrompt(template, raw), e, html);
    }
  }

  /** The first piece starts, and each middle piece occurs in, the concatenation of nine pieces. */
  lemma Pieces(p: string, s0: string, l1: string, l2: string, l3: string, e: string, th: string, t: string, tt: string)
    ensures var r := p + s0 + l1 + l2 + l3 + e + th + t + tt;
      StartsWith(r, p) && Contains(r, l1) && Contains(r, l2) && Contains(r, l3) && Contains(r, e) && Contains(r, t)
  {
    var r := p + s0 + l1 + l2 + l3 + e + th + t + tt;
    assert r[..|p|] == p;
    ContainsLast(p + s0, l1);
    Grow6(p + s0 + l1, l1, l2, l3, e, th, t, tt);
    ContainsLast(p + s0 + l1, l2);
    Grow6(p + s0 + l1 + l2, l2, "", l3, e, th, t, tt);
    ContainsLast(p + s0 + l1 + l2, l3);
    Grow6(p + s0 + l1 + l2 + l3, l3, "", "", e, th, t, tt);
    ContainsLast(p + s0 + l1 + l2 + l3, e);
    Grow6(p + s0 + l1 + l2 + l3 + e, e, "", "", "", th, t, tt);
    ContainsLast(p + s0 + l1 + l2 + l3 + e + th, t);
    ContainsAppend(p + s0 + l1 + l2 + l3 + e + th + t, tt, t);
  }

  /** An occurrence survives six more appended pieces, an empty piece changing nothing. */
  lemma Grow6(x: string, sub: string, a: string, b: string, c: string, d: string, e: string, f: string)
    requires Contains(x, sub)
    ensures Contains(x + a + b + c + d + e + f, sub)
    ensures a == "" ==> Contains(x + b + c + d + e + f, sub)
    ensures a == "" && b == "" ==> Contains(x + c + d + e + f, sub)
    ensures a == "" && b == "" && c == "" ==> Contains(x + d + e + f, sub)
  {
    ContainsAppend(x, a, sub);
    ContainsAppend(x + a, b, sub);
    ContainsAppend(x + a + b, c, sub);
    ContainsAppend(x + a + b + c, d, sub);
    ContainsAppend(x + a + b + c + d, e, sub);
    ContainsAppend(x + a + b + c + d + e, f, sub);
    if a == "" {
      assert x + a == x;
      if b == "" {
        assert x + a + b == x;
        if c == "" {
          assert x + a + b + c == x;
        }
      }
    }
  }

  // ---------------------------------------------------------------------------
  // Paths
  // ---------------------------------------------------------------------------

  /** Whether `os.path.dirname` of the path is non-empty: it has a `/`. */
  predicate HasDir(path: string) {
    RFind(path, '/') >= 0
  }

  /** The directory part of a path, with its trailing `/`, or "" for a bare name. */
  function DirPrefix(path: string): (r: string)
    ensures r == "" <==> !HasDir(path)
    ensures |r| <= |path| && r == path[..|r|] && (r != "" ==> r[|r| - 1] == '/')
  {
    path[..RFind(path, '/') + 1]
  }

  /** `Path.stem`: the name without its last suffix; a leading or trailing dot is not a suffix. */
  function Stem(name: string): (r: string)
    ensures |r| <= |name| && r == name[..|r|]
  {
    var k := RFind(name, '.');
    if 0 < k < |name| - 1 then name[..k] else name
  }

  /** The note name's base: the raw file's stem with `_raw` removed. */
  function BaseName(rawPath: string): string {
    ReplaceAll(Stem(FileName(rawPath)), "_raw", "")
  }

  /** `{base}_{template}.md`. */
  function NoteFileName(rawPath: string, template: string): string {
    BaseName(rawPath) + "_" + template + ".md"
  }

  /** The default output path: beside the raw file. */
  function DefaultOutputPath(rawPath: string, template: string): string {
    DirPrefix(rawPath) + NoteFileName(rawPath, template)
  }

  /** The prompt file beside a note: every `.md` of the path becomes `_prompt.txt`. */
  function PromptPath(outputPath: string): string {
    ReplaceAll(outputPath, ".md", "_prompt.txt")
  }

  /** Two templates never share a note path: a common head and tail cancel. */
  lemma NotePathsDiffer(dir: string, rawPath: string, t1: string, t2: string)
    requires t1 != t2
    ensures dir + NoteFileName(rawPath, t1) != dir + NoteFileName(rawPath, t2)
  {
    TemplateNamesDiffer(dir, BaseName(rawPath), t1, t2);
  }

  lemma TemplateNamesDiffer(dir: string, base: string, t1: string, t2: string)
    requires t1 != t2
    ensures dir + (base + "_" + t1 + ".md") != dir + (base + "_" + t2 + ".md")
  {
    var h := dir + base + "_";
    assert dir + (base + "_" + t1 + ".md") == h + t1 + ".md";
    assert dir + (base + "_" + t2 + ".md") == h + t2 + ".md";
    MiddleDetermined(h, t1, t2, ".md");
  }

  lemma MiddleDetermined(h: string, a: string, b: string, t: string)
    ensures h + a + t == h + b + t ==> a == b
  {
    if h + a + t == h + b + t {
      assert |a| == |b|;
      assert a == (h + a + t)[|h|..|h| + |a|];
      assert b == (h + b + t)[|h|..|h| + |b|];
    }
  }

  // ---------------------------------------------------------------------------
  // Generating a note
  // ---------------------------------------------------------------------------

  /** Why `generate_note` raised. */
  datatype Failure =
    | MissingRawFile
    | MissingTemplate(name: string)
    | ApiFailed(message: string)
    /** `os.makedirs('')` raises when the output path has no directory part. */
    | NoOutputDirectory(path: string)

  datatype NoteResult =
    | Generated(videoId: string, notePath: Option<string>, promptPath: Option<string>, prompt: Option<string>)
    | Failed(reason: Failure)

  /** A result and the files written on the way to it. */
  datatype NoteOutcome = NoteOutcome(result: NoteResult, written: map<string, string>)

  /** The model call: the note for a prompt, or the error the client raised. */
  type NoteModel = string -> Result<string>

  /**
   * The second half of `generate_note`, once the prompt and the output path
   * are known: with an API key the model's note is saved at the output path
   * (the call fails when the model fails or the path has no directory part,
   * and then nothing is written); the prompt file is written when asked for;
   * without a key the prompt comes back in the result.
   */
  function Deliver(prompt: string, out: string, videoId: string, apiKey: string, savePrompt: bool, model: NoteModel): (o: NoteOutcome)
    ensures o.result.Failed? <==> apiKey != "" && (model(prompt).Err? || !HasDir(out))
    ensures o.result.Failed? ==> o.written == map[]
    ensures apiKey != "" && model(prompt).Err? ==> o.result == Failed(ApiFailed(model(prompt).message))
    ensures o.result.Generated? ==>
      o.result == Generated(videoId, if apiKey == "" then None else Some(out),
                            if savePrompt then Some(PromptPath(out)) else None,
                            if apiKey == "" then Some(prompt) else None)
      && (forall p :: p in o.written <==> (apiKey != "" && p == out) || (savePrompt && p == PromptPath(out)))
      && (savePrompt ==> PromptPath(out) in o.written && o.written[PromptPath(out)] == prompt)
      && (apiKey != "" && !(savePrompt && PromptPath(out) == out) ==>
            out in o.written && o.written[out] == model(prompt).value)
  {
    if apiKey != "" && model(prompt).Err? then NoteOutcome(Failed(ApiFailed(model(prompt).message)), map[])
    else if apiKey != "" && !HasDir(out) then NoteOutcome(Failed(NoOutputDirectory(out)), map[])
    else
      var notes := if apiKey == "" then map[] else map[out := model(prompt).value];
      var pp := PromptPath(out);
      NoteOutcome(
        Generated(videoId, if apiKey == "" then None else Some(out),
                  if savePrompt then Some(pp) else None, if apiKey == "" then Some(prompt) else None),
        if savePrompt then notes[pp := prompt] else notes)
  }

  /**
   * `generate_note`: reads the raw file and the template in text mode (either missing
   * fails the call before anything is written), builds the prompt and the
   * output path, and delivers.
   */
  function GenerateNote(
    rawPath: string, rawFile: Option<string>, templates: map<string, string>, template: string,
    outputPath: Option<string>, apiKey: string, savePrompt: bool, model: NoteModel): (o: NoteOutcome)
    ensures o.result.Failed? ==> o.written == map[]
    ensures rawFile.None? ==> o.result == Failed(MissingRawFile)
    ensures rawFile.Some? && template !in templates ==> o.result == Failed(MissingTemplate(template))
    ensures rawFile.Some? && template in templates ==>
      o == Deliver(CreatePrompt(ReadText(templates[template]), ParseRaw(rawFile.value)),
                   outputPath.GetOr(DefaultOutputPath(rawPath, template)),
                   Get(ParseRaw(rawFile.value).metadata, VIDEO_ID, ""), apiKey, savePrompt, model)
  {
    if rawFile.None? then NoteOutcome(Failed(MissingRawFile), map[])
    else if template !in templates then NoteOutcome(Failed(MissingTemplate(template)), map[])
    else
      var raw := ParseRaw(rawFile.value);
      Deliver(CreatePrompt(ReadText(templates[template]), raw), outputPath.GetOr(DefaultOutputPath(rawPath, template)),
              Get(raw.metadata, VIDEO_ID, ""), apiKey, savePrompt, model)
  }

  // ---------------------------------------------------------------------------
  // Generating every format
  // ---------------------------------------------------------------------------

  /**
   * What `generate_all_notes` works from: the raw file, the templates, the
   * output directory ("" for none), the API key ("" for none) and the model.
   */
  datatype NoteJob = NoteJob(
    rawPath: string, rawFile: Option<string>, templates: map<string, string>,
    outputDir: string, apiKey: string, model: NoteModel)

  /** The output path handed down for a template: in the output directory when there is one. */
  function OutputFor(job: NoteJob, template: string): Option<string> {
    if job.outputDir == "" then None else Some(job.outputDir + "/" + NoteFileName(job.rawPath, template))
  }

  /** One format's call: the prompt file is saved exactly when there is no API key. */
  function NoteFor(job: NoteJob, template: string): NoteOutcome {
    GenerateNote(job.rawPath, job.rawFile, job.templates, template, OutputFor(job, template),
                 job.apiKey, job.apiKey == "", job.model)
  }

  /** The outcomes of the calls for `formats`, in order. */
  function Outcomes(job: NoteJob, formats: seq<string>): (os: seq<NoteOutcome>)
    ensures |os| == |formats| && forall i :: 0 <= i < |formats| ==> os[i] == NoteFor(job, formats[i])
  {
    OutcomesOf(formats, CallFor(job))
  }

  /** `generate_note` with the job's settings, as a function of the format. */
  function CallFor(job: NoteJob): string -> NoteOutcome {
    t => NoteFor(job, t)
  }

  /** The outcomes of any per-format call, in order. */
  function OutcomesOf(formats: seq<string>, call: string -> NoteOutcome): (os: seq<NoteOutcome>)
    ensures |os| == |formats| && forall i :: 0 <= i < |formats| ==> os[i] == call(formats[i])
  {
    seq(|formats|, i requires 0 <= i < |formats| => call(formats[i]))
  }

  /** The files left by a run of calls, in order, a later write replacing an earlier one. */
  function WrittenBy(outcomes: seq<NoteOutcome>): map<string, string>
    decreases |outcomes|
  {
    if outcomes == [] then map[]
    else WrittenBy(outcomes[..|outcomes| - 1]) + outcomes[|outcomes| - 1].written
  }

  /**
   * `generate_all_notes`: one call per format (the four templates when no
   * list is given), a failing call recorded as that format's result without
   * stopping the others.
   */
  method GenerateAllNotes(job: NoteJob, formats: Option<seq<string>>)
    returns (results: map<string, NoteResult>, written: map<string, string>)
    ensures forall t :: t in results <==> t in formats.GetOr(FORMATS)
    ensures forall t :: t in results ==> results[t] == NoteFor(job, t).result
    ensures written == WrittenBy(Outcomes(job, formats.GetOr(FORMATS)))
  {
    results, written := CallEach(formats.GetOr(FORMATS), CallFor(job));
  }

  /** The loop of `generate_all_notes`, for any per-format call. */
  method CallEach(fs: seq<string>, call: string -> NoteOutcome)
    returns (results: map<string, NoteResult>, written: map<string, string>)
    ensures forall t :: t in results <==> t in fs
    ensures forall t :: t in results ==> results[t] == call(t).result
    ensures written == WrittenBy(OutcomesOf(fs, call))
  {
    ghost var os := OutcomesOf(fs, call);
    results := map[];
    written := map[];
    for i := 0 to |fs|
      invariant forall t :: t in results <==> t in fs[..i]
      invariant forall t :: t in results ==> results[t] == call(t).result
      invariant written == WrittenBy(os[..i])
    {
      var outcome := call(fs[i]);
      results := results[fs[i] := outcome.result];
      written := written + outcome.written;
      assert fs[..i + 1] == fs[..i] + [fs[i]];
      WrittenByStep(os, i);
    }
    WrittenByAll(os);
  }

  lemma WrittenByStep(os: seq<NoteOutcome>, i: nat)
    requires i < |os|
    ensures WrittenBy(os[..i + 1]) == WrittenBy(os[..i]) + os[i].written
  {
    assert os[..i + 1][..i] == os[..i];
  }

  lemma WrittenByAll(os: seq<NoteOutcome>)
    ensures WrittenBy(os[..|os|]) == WrittenBy(os)
  {
    assert os[..|os|] == os;
  }

  /**
   * When each call writes at most one path of its own, and calls at the same
   * path are the same call, every call's file survives the run.
   */
  lemma {:induction false} LastWriteWins(outcomes: seq<NoteOutcome>, paths: seq<string>, k: nat)
    requires |paths| == |outcomes| && k < |outcomes|
    requires forall i :: 0 <= i < |outcomes| ==> forall p :: p in outcomes[i].written ==> p == paths[i]
    requires forall i, j :: 0 <= i < |outcomes| && 0 <= j < |outcomes| && paths[i] == paths[j] ==> outcomes[i] == outcomes[j]
    requires paths[k] in outcomes[k].written
    ensures paths[k] in WrittenBy(outcomes) && WrittenBy(outcomes)[paths[k]] == outcomes[k].written[paths[k]]
    decreases |outcomes|
  {
    var n := |outcomes| - 1;
    if paths[n] != paths[k] {
      var init := outcomes[..n];
      assert forall i :: 0 <= i < n ==> init[i] == outcomes[i];
      LastWriteWins(init, paths[..n], k);
    }
  }

  /** With an API key and an output directory a call writes its note path and nothing else. */
  lemma NoteForWrites(job: NoteJob, t: string)
    requires job.apiKey != "" && job.outputDir != ""
    ensures var out := job.outputDir + "/" + NoteFileName(job.rawPath, t);
      (forall p :: p in NoteFor(job, t).written ==> p == out)
      && (NoteFor(job, t).result.Generated? ==> out in NoteFor(job, t).written)
  {
  }

  /** The note path of each format, with an output directory. */
  function NotePaths(job: NoteJob, formats: seq<string>): (ps: seq<string>)
    ensures |ps| == |formats|
    ensures forall i :: 0 <= i < |formats| ==> ps[i] == job.outputDir + "/" + NoteFileName(job.rawPath, formats[i])
  {
    seq(|formats|, i requires 0 <= i < |formats| => job.outputDir + "/" + NoteFileName(job.rawPath, formats[i]))
  }

  /** Two formats share a note path only when they are the same format. */
  lemma NotePathsInjective(job: NoteJob, formats: seq<string>)
    ensures var ps := NotePaths(job, formats);
      forall i, j :: 0 <= i < |formats| && 0 <= j < |formats| && ps[i] == ps[j] ==> formats[i] == formats[j]
  {
    var ps := NotePaths(job, formats);
    forall i, j | 0 <= i < |formats| && 0 <= j < |formats| && ps[i] == ps[j]
      ensures formats[i] == formats[j]
    {
      if formats[i] != formats[j] {
        NotePathsDiffer(job.outputDir + "/", job.rawPath, formats[i], formats[j]);
      }
    }
  }

  /** Calls that each write only their own path, distinct for distinct formats, all survive the run. */
  lemma KeptWith(formats: seq<string>, call: string -> NoteOutcome, paths: seq<string>, k: nat)
    requires |paths| == |formats| && k < |formats|
    requires forall i :: 0 <= i < |formats| ==> forall p :: p in call(formats[i]).written ==> p == paths[i]
    requires forall i, j :: 0 <= i < |formats| && 0 <= j < |formats| && paths[i] == paths[j] ==> formats[i] == formats[j]
    requires paths[k] in call(formats[k]).written
    ensures paths[k] in WrittenBy(OutcomesOf(formats, call))
    ensures WrittenBy(OutcomesOf(formats, call))[paths[k]] == call(formats[k]).written[paths[k]]
  {
    LastWriteWins(OutcomesOf(formats, call), paths, k);
  }

  /**
   * With an API key and an output directory, every format's note survives the
   * whole run: two formats' note paths differ, and no prompt files are written.
   */
  lemma NotesKept(job: NoteJob, formats: seq<string>, k: nat)
    requires job.apiKey != "" && job.outputDir != ""
    requires k < |formats| && NoteFor(job, formats[k]).result.Generated?
    ensures var out := NotePaths(job, formats)[k];
      out in WrittenBy(Outcomes(job, formats))
      && WrittenBy(Outcomes(job, formats))[out] == NoteFor(job, formats[k]).written[out]
  {
    var call := CallFor(job);
    var ps := NotePaths(job, formats);
    forall i | 0 <= i < |formats|
      ensures forall p :: p in call(formats[i]).written ==> p == ps[i]
    {
      NoteForWrites(job, formats[i]);
    }
    NotePathsInjective(job, formats);
    NoteForWrites(job, formats[k]);
    KeptWith(formats, call, ps, k);
  }
}

/**
 * add_video_embed.py: puts a YouTube player into notes that were generated
 * without one, right after the note's first `---` line.
 *
 * The note files are a map from path to content; recognising a video id in
 * a URL (two regular expressions) is a function parameter.
 */
module Embed {
  import opened Text
  import opened Wrappers
  import NoteGen

  /** Finds the video id in a URL; `""` when neither pattern matches. */
  type IdOf = string -> string

  // ---------------------------------------------------------------------------
  // The player block
  // ---------------------------------------------------------------------------

  const HEADING := "## \U{1F3A5} 영상 보기"
  const IFRAME_TAG := "<iframe"
  const EMBED_OPEN := "\n"
  const EMBED_DIV := "\n\n<div style=\"position: relative; padding-bottom: 56.25%; height: 0; overflow: hidden; max-width: 100%; margin: 20px 0;\">\n  "
  const EMBED_WIDTH := "\n    style=\"position: absolute; top: 0; left: 0; width: 100%; height: 100%;\"\n    width=\""
  const EMBED_HEIGHT := "\"\n    height=\""
  const EMBED_SRC := "\"\n    src=\"https://www.youtube.com/embed/"
  const EMBED_CLOSE := "\"\n    frameborder=\"0\"\n    allow=\"accelerometer; autoplay; clipboard-write; encrypted-media; gyroscope; picture-in-picture\"\n    allowfullscreen>\n  </iframe>\n</div>\n\n> \U{1F4A1} 영상 제목을 클릭하거나 우측 상단의 \"YouTube에서 보기\" 버튼을 누르면 브라우저에서 YouTube로 이동합니다.\n\n---\n"

  /** The default player width. */
  const DEFAULT_WIDTH := 960

  /** `int(width * 9 / 16)`: the 16:9 height, truncated toward zero. */
  function Height(width: int): (h: int)
    ensures width >= 0 ==> 0 <= 16 * h <= 9 * width < 16 * (h + 1)
  {
    TruncDiv(width * 9, 16)
  }

  /** The default width gives a 540-pixel player. */
  lemma DefaultHeight()
    ensures Height(DEFAULT_WIDTH) == 540
  {
  }

  /** The block inserted into a note: a heading, the player for `videoId`, a hint and a rule. */
  function EmbedHtml(videoId: string, width: int): string {
    EMBED_OPEN + HEADING + EMBED_DIV + IFRAME_TAG + EMBED_WIDTH + IntToString(width)
    + EMBED_HEIGHT + IntToString(Height(width)) + EMBED_SRC + videoId + EMBED_CLOSE
  }

  /** Where a string built from these eleven pieces contains its second, fourth and tenth-with-ninth. */
  lemma Markers(o: string, h: string, d: string, i: string, w: string, wv: string,
                hh: string, hv: string, s: string, id: string, c: string)
    ensures Contains(o + h + d + i + w + wv + hh + hv + s + id + c, h)
    ensures Contains(o + h + d + i + w + wv + hh + hv + s + id + c, i)
    ensures Contains(o + h + d + i + w + wv + hh + hv + s + id + c, s + id)
  {
    var r := o + h + d + i + w + wv + hh + hv + s + id + c;
    assert r[|o|..|o| + |h|] == h;
    ContainsAt(r, h, |o|);
    var k := |o + h + d|;
    assert r[k..k + |i|] == i;
    ContainsAt(r, i, k);
    var m := |o + h + d + i + w + wv + hh + hv|;
    assert r[m..m + |s + id|] == s + id;
    ContainsAt(r, s + id, m);
  }

  /** `create_video_embed`: the block for the URL's video, or nothing when no id is found. */
  function CreateVideoEmbed(videoUrl: string, width: int, idOf: IdOf): (r: string)
    ensures r == "" <==> idOf(videoUrl) == ""
    ensures r != "" ==> Contains(r, IFRAME_TAG) && Contains(r, HEADING)
    ensures r != "" ==> Contains(r, EMBED_SRC + idOf(videoUrl))
  {
    var videoId := idOf(videoUrl);
    if videoId == "" then ""
    else
      Markers(EMBED_OPEN, HEADING, EMBED_DIV, IFRAME_TAG, EMBED_WIDTH, IntToString(width),
              EMBED_HEIGHT, IntToString(Height(width)), EMBED_SRC, videoId, EMBED_CLOSE);
      EmbedHtml(videoId, width)
  }

  // ---------------------------------------------------------------------------
  // Inserting the block into a note
  // ---------------------------------------------------------------------------

  /** A line that strips to `---`. */
  predicate IsRule(line: string) {
    Strip(line) == "---"
  }

  /** Where the block goes: just after the first rule line, or 0 when there is none. */
  function InsertPosition(lines: seq<string>): (p: nat)
    ensures p <= |lines|
    ensures p == 0 <==> forall j :: 0 <= j < |lines| ==> !IsRule(lines[j])
    ensures p > 0 ==> IsRule(lines[p - 1]) && forall j :: 0 <= j < p - 1 ==> !IsRule(lines[j])
  {
    PositionFrom(lines, 0, IsRule)
  }

  /** One past the first line from `i` on that `isRule` accepts, or 0. */
  function PositionFrom(lines: seq<string>, i: nat, isRule: string -> bool): (p: nat)
    requires i <= |lines|
    ensures p == 0 || i < p <= |lines|
    ensures p == 0 <==> forall j :: i <= j < |lines| ==> !isRule(lines[j])
    ensures p > 0 ==> isRule(lines[p - 1]) && forall j :: i <= j < p - 1 ==> !isRule(lines[j])
    decreases |lines| - i
  {
    if i == |lines| then 0
    else if isRule(lines[i]) then i + 1
    else PositionFrom(lines, i + 1, isRule)
  }

  /** The scan of `add_video_to_note`: counts rule lines and stops at the first. */
  method FindInsertPosition(lines: seq<string>) returns (insertPosition: nat)
    ensures insertPosition == InsertPosition(lines)
  {
    var dashCount := 0;
    insertPosition := 0;
    var i := 0;
    while i < |lines|
      invariant i <= |lines| && dashCount == 0 && insertPosition == 0
      invariant PositionFrom(lines, 0, IsRule) == PositionFrom(lines, i, IsRule)
    {
      if IsRule(lines[i]) {
        dashCount := dashCount + 1;
        if dashCount == 1 {
          insertPosition := i + 1;
          break;
        }
      }
      i := i + 1;
    }
  }

  /** What `add_video_to_note` does with a note; only `Embedded` writes the file. */
  datatype EmbedOutcome =
    | AlreadyEmbedded          // the note has a player or the heading
    | BadUrl                   // no video id in the URL
    | NoSeparator              // the note has no `---` line
    | Embedded(content: string)

  /** A note that already shows a player or its heading. */
  predicate HasPlayer(content: string) {
    Contains(content, IFRAME_TAG) || Contains(content, HEADING)
  }

  /** The block inserted as one new line just after the first rule line. */
  function InsertAfterRule(lines: seq<string>, p: nat, block: string): seq<string>
    requires p <= |lines|
  {
    lines[..p] + [block] + lines[p..]
  }

  /** The checks and the insertion of `add_video_to_note`, for the block `create_video_embed` gave. */
  function Insert(content: string, block: string): (r: EmbedOutcome)
    ensures r.AlreadyEmbedded? <==> HasPlayer(content)
    ensures r.BadUrl? <==> !HasPlayer(content) && block == ""
    ensures r.NoSeparator? <==> !HasPlayer(content) && block != "" && InsertPosition(Split(content, '\n')) == 0
  {
    if HasPlayer(content) then AlreadyEmbedded
    else if block == "" then BadUrl
    else
      var lines := Split(content, '\n');
      var p := InsertPosition(lines);
      if p > 0 then Embedded(Join(InsertAfterRule(lines, p, block), "\n")) else NoSeparator
  }

  /** `add_video_to_note` on a note's content. */
  function AddVideo(content: string, videoUrl: string, idOf: IdOf): (r: EmbedOutcome)
    ensures r.AlreadyEmbedded? <==> HasPlayer(content)
    ensures r.BadUrl? <==> !HasPlayer(content) && idOf(videoUrl) == ""
    ensures r.NoSeparator? <==>
      !HasPlayer(content) && idOf(videoUrl) != "" && InsertPosition(Split(content, '\n')) == 0
  {
    Insert(content, CreateVideoEmbed(videoUrl, DEFAULT_WIDTH, idOf))
  }

  /** `add_video_to_note`: the checks, the scan and the in-place insert. */
  method AddVideoToNote(content: string, videoUrl: string, idOf: IdOf) returns (outcome: EmbedOutcome)
    ensures outcome == AddVideo(content, videoUrl, idOf)
  {
    if Contains(content, IFRAME_TAG) || Contains(content, HEADING) {
      return AlreadyEmbedded;
    }
    var embedHtml := CreateVideoEmbed(videoUrl, DEFAULT_WIDTH, idOf);
    if embedHtml == "" {
      return BadUrl;
    }
    var lines := Split(content, '\n');
    var insertPosition := FindInsertPosition(lines);
    if insertPosition > 0 {
      lines := lines[..insertPosition] + [embedHtml] + lines[insertPosition..];
      return Embedded(Join(lines, "\n"));
    }
    return NoSeparator;
  }

  /** Joining the lines with the block inserted after line `p`, for any block. */
  lemma InsertedJoin(lines: seq<string>, p: nat, block: string)
    requires 0 < p <= |lines|
    ensures p < |lines| ==>
      Join(lines, "\n") == Join(lines[..p], "\n") + "\n" + Join(lines[p..], "\n")
      && Join(InsertAfterRule(lines, p, block), "\n") == Join(lines[..p], "\n") + "\n" + block + "\n" + Join(lines[p..], "\n")
    ensures p == |lines| ==> Join(InsertAfterRule(lines, p, block), "\n") == Join(lines, "\n") + "\n" + block
    ensures Contains(Join(InsertAfterRule(lines, p, block), "\n"), block)
  {
    var parts := InsertAfterRule(lines, p, block);
    assert parts[p] == block;
    JoinContainsPart(parts, "\n", p);
    assert lines[..p] + lines[p..] == lines;
    if p < |lines| {
      JoinConcat(lines[..p], lines[p..], "\n");
      assert parts == lines[..p] + ([block] + lines[p..]);
      JoinConcat(lines[..p], [block] + lines[p..], "\n");
      JoinCons(block, lines[p..], "\n");
    } else {
      assert parts == lines + [block];
      JoinAppend(lines, block, "\n");
    }
  }

  /**
   * Where an inserted block lands: the note up to and including the first
   * rule line's newline, then the block and a newline, then the rest of the
   * note unchanged; at the very end when the rule is the last line.
   */
  lemma InsertPlacement(content: string, block: string)
    requires Insert(content, block).Embedded?
    ensures 0 < InsertPosition(Split(content, '\n'))
    ensures var lines := Split(content, '\n'); var p := InsertPosition(lines);
      p < |lines| ==> content == Join(lines[..p], "\n") + "\n" + Join(lines[p..], "\n")
    ensures var lines := Split(content, '\n'); var p := InsertPosition(lines);
      p < |lines| ==> Insert(content, block).content == Join(lines[..p], "\n") + "\n" + block + "\n" + Join(lines[p..], "\n")
    ensures var lines := Split(content, '\n'); var p := InsertPosition(lines);
      p == |lines| ==> Insert(content, block).content == content + "\n" + block
  {
    var lines := Split(content, '\n');
    JoinSplit(content, '\n');
    InsertedJoin(lines, InsertPosition(lines), block);
  }

  /** `add_video_to_note` puts the player right after the note's first `---` line and changes nothing else. */
  lemma EmbeddedPlacement(content: string, videoUrl: string, idOf: IdOf)
    requires AddVideo(content, videoUrl, idOf).Embedded?
    ensures var p := InsertPosition(Split(content, '\n')); 0 < p && IsRule(Split(content, '\n')[p - 1])
    ensures var lines := Split(content, '\n'); var p := InsertPosition(lines);
      p < |lines| ==> content == Join(lines[..p], "\n") + "\n" + Join(lines[p..], "\n")
    ensures var lines := Split(content, '\n'); var p := InsertPosition(lines);
      var block := CreateVideoEmbed(videoUrl, DEFAULT_WIDTH, idOf);
      p < |lines| ==> AddVideo(content, videoUrl, idOf).content == Join(lines[..p], "\n") + "\n" + block + "\n" + Join(lines[p..], "\n")
    ensures var lines := Split(content, '\n'); var p := InsertPosition(lines);
      p == |lines| ==> AddVideo(content, videoUrl, idOf).content == content + "\n" + CreateVideoEmbed(videoUrl, DEFAULT_WIDTH, idOf)
  {
    InsertPlacement(content, CreateVideoEmbed(videoUrl, DEFAULT_WIDTH, idOf));
  }

  /** A note with an inserted block that shows a player is refused the next time. */
  lemma InsertTwice(content: string, block: string, other: string)
    requires Insert(content, block).Embedded? && Contains(block, IFRAME_TAG)
    ensures Insert(Insert(content, block).content, other) == AlreadyEmbedded
  {
    var lines := Split(content, '\n');
    var p := InsertPosition(lines);
    InsertedJoin(lines, p, block);
    ContainsTrans(Join(InsertAfterRule(lines, p, block), "\n"), block, IFRAME_TAG);
  }

  /** Adding the player twice changes nothing the second time: the first result already shows it. */
  lemma AddVideoIdempotent(content: string, videoUrl: string, idOf: IdOf, otherUrl: string, otherIdOf: IdOf)
    requires AddVideo(content, videoUrl, idOf).Embedded?
    ensures AddVideo(AddVideo(content, videoUrl, idOf).content, otherUrl, otherIdOf) == AlreadyEmbedded
  {
    InsertTwice(content, CreateVideoEmbed(videoUrl, DEFAULT_WIDTH, idOf), CreateVideoEmbed(otherUrl, DEFAULT_WIDTH, otherIdOf));
  }

  // ---------------------------------------------------------------------------
  // The command line
  // ---------------------------------------------------------------------------

  /** What the arguments ask for: the usage text, or notes to update and maybe a URL for all of them. */
  datatype Request = Usage | Notes(paths: seq<string>, url: Option<string>)

  /**
   * The argument split of `main` (`argv` includes the program name): with
   * more than two entries and a last one starting with `http`, that last
   * one is the URL; otherwise every argument is a note path.
   */
  function ParseArgs(argv: seq<string>): (r: Request)
    ensures r.Usage? <==> |argv| < 2
    ensures r.Notes? ==> r.paths + (if r.url.Some? then [r.url.value] else []) == argv[1..]
    ensures r.Notes? && r.url.Some? ==> |r.paths| >= 1 && StartsWith(r.url.value, "http")
    ensures r.Notes? ==> (r.url.Some? <==> |argv| > 2 && StartsWith(argv[|argv| - 1], "http"))
  {
    if |argv| < 2 then Usage
    else if |argv| > 2 && StartsWith(argv[|argv| - 1], "http") then
      assert argv[1..|argv| - 1] + [argv[|argv| - 1]] == argv[1..];
      Notes(argv[1..|argv| - 1], Some(argv[|argv| - 1]))
    else Notes(argv[1..], None)
  }

  /** The URL on the note's first line starting with the source tag, stripped. */
  function SourceUrl(content: string): Option<string> {
    SourceUrlFrom(Split(content, '\n'))
  }

  function SourceUrlFrom(lines: seq<string>): (r: Option<string>)
    ensures r.None? <==> forall j :: 0 <= j < |lines| ==> !StartsWith(lines[j], NoteGen.SOURCE_TAG)
    decreases |lines|
  {
    if lines == [] then None
    else if StartsWith(lines[0], NoteGen.SOURCE_TAG) then Some(NoteGen.TagValue(lines[0], NoteGen.SOURCE_TAG))
    else
      assert forall j :: 1 <= j < |lines| ==> lines[1..][j - 1] == lines[j];
      SourceUrlFrom(lines[1..])
  }

  /** What happened to one path of the command line. */
  datatype FileOutcome = Missing | NoSourceUrl | Tried(outcome: EmbedOutcome)

  /** One path: skipped when missing, else the URL given or found in the note, then `add_video_to_note`. */
  function ForPath(notes: map<string, string>, path: string, urlArg: Option<string>, idOf: IdOf): FileOutcome {
    if path !in notes then Missing
    else
      var url := if urlArg.Some? then urlArg else SourceUrl(notes[path]);
      match url
      case None => NoSourceUrl
      case Some(u) => Tried(AddVideo(notes[path], u, idOf))
  }

  /** Whether the outcome for a path writes the note. */
  predicate Writes(o: FileOutcome) {
    o.Tried? && o.outcome.Embedded?
  }

  /** The note files and the success count after one more path. */
  function Step(state: (map<string, string>, nat), path: string, urlArg: Option<string>, idOf: IdOf): (map<string, string>, nat) {
    var o := ForPath(state.0, path, urlArg, idOf);
    if Writes(o) then (state.0[path := o.outcome.content], state.1 + 1) else state
  }

  /** The notes after the paths so far, in order, and how many were updated. */
  function Run(paths: seq<string>, urlArg: Option<string>, notes: map<string, string>, idOf: IdOf): (r: (map<string, string>, nat))
    ensures r.0.Keys == notes.Keys && r.1 <= |paths|
    ensures forall k :: k in notes && k !in paths ==> r.0[k] == notes[k]
    decreases |paths|
  {
    if paths == [] then (notes, 0)
    else Step(Run(paths[..|paths| - 1], urlArg, notes, idOf), paths[|paths| - 1], urlArg, idOf)
  }

  lemma RunSnoc(paths: seq<string>, i: nat, urlArg: Option<string>, notes: map<string, string>, idOf: IdOf)
    requires i < |paths|
    ensures Run(paths[..i + 1], urlArg, notes, idOf) == Step(Run(paths[..i], urlArg, notes, idOf), paths[i], urlArg, idOf)
  {
    assert paths[..i + 1][..i] == paths[..i];
  }

  /** The loop of `main` over the note paths. */
  method EmbedAll(paths: seq<string>, urlArg: Option<string>, notes: map<string, string>, idOf: IdOf)
    returns (updated: map<string, string>, successCount: nat)
    ensures (updated, successCount) == Run(paths, urlArg, notes, idOf)
  {
    updated := notes;
    successCount := 0;
    for i := 0 to |paths|
      invariant (updated, successCount) == Run(paths[..i], urlArg, notes, idOf)
    {
      ghost var before := (updated, successCount);
      RunSnoc(paths, i, urlArg, notes, idOf);
      var notePath := paths[i];
      if notePath in updated {
        var videoUrl := if urlArg.Some? then urlArg else SourceUrl(updated[notePath]);
        if videoUrl.Some? {
          var outcome := AddVideoToNote(updated[notePath], videoUrl.value, idOf);
          assert ForPath(before.0, notePath, urlArg, idOf) == Tried(outcome);
          if outcome.Embedded? {
            updated := updated[notePath := outcome.content];
            successCount := successCount + 1;
          }
        } else {
          assert ForPath(before.0, notePath, urlArg, idOf) == NoSourceUrl;
        }
      } else {
        assert ForPath(before.0, notePath, urlArg, idOf) == Missing;
      }
      assert (updated, successCount) == Step(before, notePath, urlArg, idOf);
    }
    assert paths[..|paths|] == paths;
  }

  /** A note shows a player or the heading after `add_video_to_note` wrote it. */
  lemma WrittenHasPlayer(notes: map<string, string>, path: string, urlArg: Option<string>, idOf: IdOf)
    requires Writes(ForPath(notes, path, urlArg, idOf))
    ensures HasPlayer(ForPath(notes, path, urlArg, idOf).outcome.content)
  {
    var url := if urlArg.Some? then urlArg.value else SourceUrl(notes[path]).value;
    AddVideoIdempotent(notes[path], url, idOf, url, idOf);
  }

  /** A path whose note would not be written again. */
  predicate Settled(notes: map<string, string>, path: string, urlArg: Option<string>, idOf: IdOf) {
    !Writes(ForPath(notes, path, urlArg, idOf))
  }

  /** What happens to a path depends only on that path's note. */
  lemma ForPathLocal(before: map<string, string>, after: map<string, string>, k: string, urlArg: Option<string>, idOf: IdOf)
    requires k in before <==> k in after
    requires k in before ==> before[k] == after[k]
    ensures ForPath(after, k, urlArg, idOf) == ForPath(before, k, urlArg, idOf)
  {
  }

  /** One more path leaves that path settled. */
  lemma StepSettles(state: (map<string, string>, nat), path: string, urlArg: Option<string>, idOf: IdOf)
    ensures Settled(Step(state, path, urlArg, idOf).0, path, urlArg, idOf)
  {
    var notes := state.0;
    var o := ForPath(notes, path, urlArg, idOf);
    if Writes(o) {
      var written := o.outcome.content;
      var url := if urlArg.Some? then urlArg.value else SourceUrl(notes[path]).value;
      assert written == AddVideo(notes[path], url, idOf).content;
      var again := if urlArg.Some? then urlArg else SourceUrl(written);
      if again.Some? {
        AddVideoIdempotent(notes[path], url, idOf, again.value, idOf);
        assert ForPath(notes[path := written], path, urlArg, idOf) == Tried(AddVideo(written, again.value, idOf));
      } else {
        assert ForPath(notes[path := written], path, urlArg, idOf) == NoSourceUrl;
      }
    }
  }

  /** One more path leaves every other path as it was. */
  lemma StepKeepsOthers(state: (map<string, string>, nat), path: string, urlArg: Option<string>, idOf: IdOf)
    ensures forall k :: k != path ==> ForPath(Step(state, path, urlArg, idOf).0, k, urlArg, idOf) == ForPath(state.0, k, urlArg, idOf)
  {
    forall k | k != path
      ensures ForPath(Step(state, path, urlArg, idOf).0, k, urlArg, idOf) == ForPath(state.0, k, urlArg, idOf)
    {
      ForPathLocal(state.0, Step(state, path, urlArg, idOf).0, k, urlArg, idOf);
    }
  }

  /** After a run every path on the command line is settled. */
  lemma {:induction false} RunSettles(paths: seq<string>, urlArg: Option<string>, notes: map<string, string>, idOf: IdOf)
    ensures forall k :: k in paths ==> Settled(Run(paths, urlArg, notes, idOf).0, k, urlArg, idOf)
    decreases |paths|
  {
    if paths != [] {
      var prefix := paths[..|paths| - 1];
      var last := paths[|paths| - 1];
      RunSettles(prefix, urlArg, notes, idOf);
      StepSettles(Run(prefix, urlArg, notes, idOf), last, urlArg, idOf);
      StepKeepsOthers(Run(prefix, urlArg, notes, idOf), last, urlArg, idOf);
      assert forall k :: k in paths ==> k in prefix || k == last;
    }
  }

  /** A run over settled paths writes nothing. */
  lemma {:induction false} RunOverSettled(paths: seq<string>, urlArg: Option<string>, notes: map<string, string>, idOf: IdOf)
    requires forall k :: k in paths ==> Settled(notes, k, urlArg, idOf)
    ensures Run(paths, urlArg, notes, idOf) == (notes, 0)
    decreases |paths|
  {
    if paths != [] {
      var prefix := paths[..|paths| - 1];
      assert forall k :: k in prefix ==> k in paths;
      RunOverSettled(prefix, urlArg, notes, idOf);
    }
  }

  /** Running the command a second time with the same arguments updates no note. */
  lemma RunTwice(paths: seq<string>, urlArg: Option<string>, notes: map<string, string>, idOf: IdOf)
    ensures var once := Run(paths, urlArg, notes, idOf).0;
      Run(paths, urlArg, once, idOf) == (once, 0)
  {
    RunSettles(paths, urlArg, notes, idOf);
    RunOverSettled(paths, urlArg, Run(paths, urlArg, notes, idOf).0, idOf);
  }
}

/**
 * The three-phase pipeline of phased_pipeline.py, over a work directory
 * modelled as a map from file name to content:
 *
 *   phase 1 writes transcript.txt and the `key: value` metadata file,
 *   phase 2 cuts the transcript into chunks and writes one part note per
 *   chunk unless it already exists, and
 *   phase 3 reads the part notes back in file-name order and merges them,
 *   by plain concatenation or through model calls.
 *
 * The extraction itself, the model calls and the clock are parameters.
 */
module Pipeline {
  import opened Text
  import opened Wrappers
  import SafeName
  import Chunker
  import Seqs

  // ---------------------------------------------------------------------------
  // Names
  // ---------------------------------------------------------------------------

  const TRANSCRIPT := "transcript.txt"
  const METADATA := "metadata.txt"
  const FINAL_NOTES := "final_notes.md"

  /** `sanitize_dirname` with its default limit of 60 characters. */
  function SanitizeDirname(text: string): (r: string)
    ensures |r| <= 60 && SafeName.NoDoubleUnderscore(r)
    ensures forall i :: 0 <= i < |r| ==> !IsSpace(r[i])
  {
    SafeName.Sanitize(text, 60)
  }

  /**
   * The work directory phase 1 creates: `{title}_{source}_{YYYYMMDD}`, where
   * the title part is at most 60 characters and holds no whitespace.
   */
  function WorkDirName(title: string, sourceName: string, date: string): (r: string)
    ensures EndsWith(r, "_" + sourceName + "_" + date)
    ensures |r| <= 62 + |sourceName| + |date|
    ensures forall i :: 0 <= i < |r| - |sourceName| - |date| - 2 ==> !IsSpace(r[i])
  {
    var t := SanitizeDirname(title);
    SpaceFreeHead(t, "_" + sourceName + "_" + date);
    t + ("_" + sourceName + "_" + date)
  }

  lemma SpaceFreeHead(t: string, tail: string)
    requires |t| <= 60 && forall i :: 0 <= i < |t| ==> !IsSpace(t[i])
    ensures EndsWith(t + tail, tail) && |t + tail| <= 60 + |tail|
    ensures forall i :: 0 <= i < |t + tail| - |tail| ==> !IsSpace((t + tail)[i])
  {
    assert (t + tail)[|t|..] == tail;
  }

  /** `notes_part{k}.md`: the part number is not zero-padded. */
  function PartName(k: nat): string { "notes_part" + NatToString(k) + ".md" }

  /** `chunks/chunk_{k:03d}.txt`. */
  function ChunkFileName(k: nat): string { "chunks/chunk_" + ZeroPad(NatToString(k), 3) + ".txt" }

  // ---------------------------------------------------------------------------
  // Metadata
  // ---------------------------------------------------------------------------

  /**
   * The extraction result as phase 1 sees it. An attribute the extractor
   * does not set reads as "", except `language`, which then reads as the
   * `--lang` option: the caller passes that value in `language`.
   */
  datatype Extraction = Extraction(
    sourceUrl: string, sourcePath: string, title: string, duration: string, language: string,
    qualityScore: int, videoId: string, modelUsed: string)

  /** The keys phase 1 writes, in order; `video_id` and `model_used` only when set. */
  function Phase1Keys(hasVideo: bool, hasModel: bool): seq<string> {
    ["source_type", "source", "title", "duration", "language", "quality_score", "extraction_date",
     "transcript_chars", "transcript_lines", "needs_chunking"]
    + (if hasVideo then ["video_id"] else []) + (if hasModel then ["model_used"] else [])
  }

  /** The values phase 1 writes, key by key; the source is the URL, or the path when there is none. */
  function Phase1Values(sourceName: string, x: Extraction, timestamp: string, stats: Chunker.TextStats): (r: seq<string>)
    ensures |r| == |Phase1Keys(x.videoId != "", x.modelUsed != "")|
  {
    [sourceName,
     if x.sourceUrl != "" then x.sourceUrl else x.sourcePath,
     x.title, x.duration, x.language,
     IntToString(x.qualityScore),
     timestamp,
     NatToString(stats.chars), NatToString(stats.lines),
     if stats.needsChunking then "True" else "False"]
    + (if x.videoId != "" then [x.videoId] else []) + (if x.modelUsed != "" then [x.modelUsed] else [])
  }

  function Zip(ks: seq<string>, vs: seq<string>): (r: seq<(string, string)>)
    requires |ks| == |vs|
    ensures |r| == |ks| && forall i :: 0 <= i < |r| ==> r[i] == (ks[i], vs[i])
  {
    seq(|ks|, i requires 0 <= i < |ks| => (ks[i], vs[i]))
  }

  /** The `key: value` entries of the metadata file phase 1 writes. */
  function MetadataEntries(sourceName: string, x: Extraction, timestamp: string, stats: Chunker.TextStats): seq<(string, string)> {
    Zip(Phase1Keys(x.videoId != "", x.modelUsed != ""), Phase1Values(sourceName, x, timestamp, stats))
  }

  function EntryLine(e: (string, string)): string { e.0 + ": " + e.1 }

  /** The metadata file: one `key: value` line per entry, each ended by '\n'. */
  function MetadataText(entries: seq<(string, string)>): string
    decreases |entries|
  {
    if entries == [] then "" else MetadataText(entries[..|entries| - 1]) + EntryLine(entries[|entries| - 1]) + "\n"
  }

  /** One line of the metadata file: a line with ':' splits at its first ':' into stripped key and value. */
  function ParseLine(line: string): (r: Option<(string, string)>)
    ensures r.Some? <==> ':' in line
  {
    var k := Find(line, ':');
    if k < 0 then None else Some((Strip(line[..k]), Strip(line[k + 1..])))
  }

  /** The map `load_metadata` builds from the lines read so far: later keys win. */
  function MetaOf(lines: seq<string>): map<string, string> {
    MetaWith(lines, ParseLine)
  }

  /** `MetaOf` with the line parser as a parameter. */
  function MetaWith(lines: seq<string>, parse: string -> Option<(string, string)>): map<string, string>
    decreases |lines|
  {
    if lines == [] then map[]
    else
      var m := MetaWith(lines[..|lines| - 1], parse);
      match parse(lines[|lines| - 1])
      case None => m
      case Some(kv) => m[kv.0 := kv.1]
  }

  /** Reading one more line. */
  lemma MetaOfSnoc(lines: seq<string>, line: string, parse: string -> Option<(string, string)>)
    ensures MetaWith(lines + [line], parse) == match parse(line)
      case None => MetaWith(lines, parse)
      case Some(kv) => MetaWith(lines, parse)[kv.0 := kv.1]
  {
    assert (lines + [line])[..|lines|] == lines;
  }

  lemma MetaStep(lines: seq<string>, i: nat, parse: string -> Option<(string, string)>)
    requires i < |lines|
    ensures MetaWith(lines[..i + 1], parse) == match parse(lines[i])
      case None => MetaWith(lines[..i], parse)
      case Some(kv) => MetaWith(lines[..i], parse)[kv.0 := kv.1]
  {
    assert lines[..i + 1] == lines[..i] + [lines[i]];
    MetaOfSnoc(lines[..i], lines[i], parse);
  }

  /** `load_metadata`: {} when the file is missing, otherwise the lines of its text-mode read, parsed. */
  method LoadMetadata(dir: map<string, string>) returns (meta: map<string, string>)
    ensures METADATA !in dir ==> meta == map[]
    ensures METADATA in dir ==> meta == MetaOf(Split(ReadText(dir[METADATA]), '\n'))
  {
    meta := map[];
    if METADATA !in dir {
      return;
    }
    var lines := Split(ReadText(dir[METADATA]), '\n');
    var i := 0;
    while i < |lines|
      invariant 0 <= i <= |lines|
      invariant meta == MetaWith(lines[..i], ParseLine)
    {
      MetaStep(lines, i, ParseLine);
      var parsed := ParseLine(lines[i]);
      if parsed.Some? {
        meta := meta[parsed.value.0 := parsed.value.1];
      }
      i := i + 1;
    }
    assert lines[..|lines|] == lines;
  }

  /**
   * Entries the reader gets back unchanged: a stripped key without ':', and
   * neither key nor value holding a line end ('\n', or the '\r' that the
   * text-mode read turns into one).
   */
  predicate Readable(e: (string, string)) {
    ':' !in e.0 && OneLine(e.0) && (e.0 == [] || (!IsSpace(e.0[0]) && !IsSpace(e.0[|e.0| - 1]))) && OneLine(e.1)
  }

  function EntryLines(entries: seq<(string, string)>): (r: seq<string>)
    ensures |r| == |entries|
    ensures forall i :: 0 <= i < |r| ==> r[i] == EntryLine(entries[i])
  {
    seq(|entries|, i requires 0 <= i < |entries| => EntryLine(entries[i]))
  }

  /** The written file is the entry lines joined by '\n', plus the final '\n'. */
  lemma {:induction false} MetadataTextLines(entries: seq<(string, string)>)
    ensures MetadataText(entries) == Join(EntryLines(entries) + [""], "\n")
    decreases |entries|
  {
    if entries != [] {
      var init := entries[..|entries| - 1];
      MetadataTextLines(init);
      var ls := EntryLines(init);
      assert EntryLines(entries) + [""] == ls + [EntryLine(entries[|entries| - 1])] + [""];
      if ls == [] {
        assert EntryLines(entries) + [""] == [EntryLine(entries[|entries| - 1]), ""];
      } else {
        JoinAppend(ls, EntryLine(entries[|entries| - 1]), "\n");
        JoinAppend(ls + [EntryLine(entries[|entries| - 1])], "", "\n");
        JoinAppend(ls, "", "\n");
      }
    }
  }

  /** A written line parses back to its key and its stripped value. */
  lemma EntryLineParses(e: (string, string))
    requires Readable(e)
    ensures ParseLine(EntryLine(e)) == Some((e.0, Strip(e.1)))
  {
    var (key, value) := e;
    var line := key + ": " + value;
    assert line == EntryLine(e);
    FirstColon(key, value);
    assert line[..|key|] == key;
    assert line[|key| + 1..] == " " + value;
    StripNoEdgeSpace(key);
    assert AllSpace(" ");
    StripSpacePrefix(" ", value);
    assert ParseLine(line) == Some((Strip(line[..|key|]), Strip(line[|key| + 1..])));
  }

  /** The first ':' of a written line is the one after the key. */
  lemma FirstColon(key: string, value: string)
    requires ':' !in key
    ensures Find(key + ": " + value, ':') == |key|
  {
    var line := key + ": " + value;
    forall j | 0 <= j < |key|
      ensures line[j] != ':'
    {
      assert line[j] == key[j];
    }
    assert line[|key|] == ':';
    IndexOfUnique(line, ':', |key|);
  }

  /** The keys of the entries. */
  function KeySet(entries: seq<(string, string)>): set<string>
    decreases |entries|
  {
    if entries == [] then {} else KeySet(entries[..|entries| - 1]) + {entries[|entries| - 1].0}
  }

  /** A dictionary filled by the assignments in order. */
  function Assign(pairs: seq<(string, string)>): map<string, string>
    decreases |pairs|
  {
    if pairs == [] then map[] else Assign(pairs[..|pairs| - 1])[pairs[|pairs| - 1].0 := pairs[|pairs| - 1].1]
  }

  /** Each entry with its value stripped, as the reader returns it. */
  function StrippedPairs(entries: seq<(string, string)>): (r: seq<(string, string)>)
    ensures |r| == |entries|
    ensures forall i :: 0 <= i < |r| ==> r[i] == (entries[i].0, Strip(entries[i].1))
  {
    seq(|entries|, i requires 0 <= i < |entries| => (entries[i].0, Strip(entries[i].1)))
  }

  /** Lines that each parse to a pair fill the dictionary as the pairs' assignments do. */
  lemma {:induction false} MetaOfParsed(lines: seq<string>, pairs: seq<(string, string)>, parse: string -> Option<(string, string)>)
    requires |lines| == |pairs|
    requires forall i :: 0 <= i < |lines| ==> parse(lines[i]) == Some(pairs[i])
    ensures MetaWith(lines, parse) == Assign(pairs)
    decreases |lines|
  {
    if lines != [] {
      var n := |lines| - 1;
      assert forall i :: 0 <= i < n ==> lines[..n][i] == lines[i] && pairs[..n][i] == pairs[i];
      MetaOfParsed(lines[..n], pairs[..n], parse);
      assert parse(lines[n]) == Some(pairs[n]);
    }
  }

  /** Parsing the written lines performs one assignment per entry. */
  lemma ReadBackAssigns(entries: seq<(string, string)>)
    requires forall i :: 0 <= i < |entries| ==> Readable(entries[i])
    ensures MetaOf(EntryLines(entries)) == Assign(StrippedPairs(entries))
  {
    var ls, ps := EntryLines(entries), StrippedPairs(entries);
    forall i | 0 <= i < |ls|
      ensures ParseLine(ls[i]) == Some(ps[i])
    {
      EntryLineParses(entries[i]);
    }
    MetaOfParsed(ls, ps, ParseLine);
  }

  lemma AssignSnoc(pairs: seq<(string, string)>, kv: (string, string))
    ensures Assign(pairs + [kv]) == Assign(pairs)[kv.0 := kv.1]
  {
    assert (pairs + [kv])[..|pairs|] == pairs;
  }

  /** With distinct keys every assignment survives. */
  lemma {:induction false} AssignDistinct(pairs: seq<(string, string)>)
    requires forall i, j :: 0 <= i < j < |pairs| ==> pairs[i].0 != pairs[j].0
    ensures Assign(pairs).Keys == KeySet(pairs)
    ensures forall i :: 0 <= i < |pairs| ==> pairs[i].0 in Assign(pairs) && Assign(pairs)[pairs[i].0] == pairs[i].1
    decreases |pairs|
  {
    if pairs != [] {
      var n := |pairs| - 1;
      var init := pairs[..n];
      AssignDistinct(init);
      forall i | 0 <= i < n
        ensures pairs[i].0 in Assign(pairs) && Assign(pairs)[pairs[i].0] == pairs[i].1
      {
        assert init[i] == pairs[i];
      }
    }
  }

  /** Reading the written lines back gives each key its stripped value. */
  lemma ReadBackLines(entries: seq<(string, string)>)
    requires forall i :: 0 <= i < |entries| ==> Readable(entries[i])
    requires forall i, j :: 0 <= i < j < |entries| ==> entries[i].0 != entries[j].0
    ensures MetaOf(EntryLines(entries)).Keys == KeySet(entries)
    ensures forall i :: 0 <= i < |entries| ==>
      entries[i].0 in MetaOf(EntryLines(entries)) && MetaOf(EntryLines(entries))[entries[i].0] == Strip(entries[i].1)
  {
    ReadBackAssigns(entries);
    var ps := StrippedPairs(entries);
    AssignDistinct(ps);
    KeySetSame(ps, entries);
  }

  /** Stripping values leaves the keys alone. */
  lemma {:induction false} KeySetSame(ps: seq<(string, string)>, entries: seq<(string, string)>)
    requires |ps| == |entries| && forall i :: 0 <= i < |ps| ==> ps[i].0 == entries[i].0
    ensures KeySet(ps) == KeySet(entries)
    decreases |ps|
  {
    if ps != [] {
      KeySetSame(ps[..|ps| - 1], entries[..|entries| - 1]);
    }
  }

  /** `load_metadata` on the file phase 1 wrote returns every key with its stripped value, and nothing else. */
  lemma MetadataRoundTrip(entries: seq<(string, string)>)
    requires forall i :: 0 <= i < |entries| ==> Readable(entries[i])
    requires forall i, j :: 0 <= i < j < |entries| ==> entries[i].0 != entries[j].0
    ensures MetaOf(Split(ReadText(MetadataText(entries)), '\n')).Keys == KeySet(entries)
    ensures forall i :: 0 <= i < |entries| ==>
      entries[i].0 in MetaOf(Split(ReadText(MetadataText(entries)), '\n'))
      && MetaOf(Split(ReadText(MetadataText(entries)), '\n'))[entries[i].0] == Strip(entries[i].1)
  {
    MetadataTextPlain(entries);
    ReadTextPlain(MetadataText(entries));
    var ls := EntryLines(entries);
    MetadataTextLines(entries);
    EntryLinesOneLine(entries);
    SplitJoin(ls + [""], '\n');
    MetaOfSnoc(ls, "", ParseLine);
    assert ParseLine("") == None;
    assert MetaOf(Split(MetadataText(entries), '\n')) == MetaOf(ls);
    ReadBackLines(entries);
  }

  /** No written line holds a line break. */
  /** A file of entries without line ends has no '\r' for the text-mode read to translate. */
  lemma {:induction false} MetadataTextPlain(entries: seq<(string, string)>)
    requires forall i :: 0 <= i < |entries| ==> Readable(entries[i])
    ensures '\r' !in MetadataText(entries)
    decreases |entries|
  {
    if entries != [] {
      MetadataTextPlain(entries[..|entries| - 1]);
    }
  }

  /**
   * A value holding '\r' does not read back: the text-mode read ends the line
   * at the '\r', and the rest of the value, without ':', is skipped.
   */
  lemma CarriageReturnEndsValue(key: string, a: string, b: string)
    requires Readable((key, a)) && b != [] && ':' !in b && OneLine(b)
    ensures MetaOf(Split(ReadText(MetadataText([(key, a + "\r" + b)])), '\n')) == map[key := Strip(a)]
  {
    var line := EntryLine((key, a));
    assert [(key, a + "\r" + b)][..0] == [];
    assert MetadataText([(key, a + "\r" + b)]) == line + ("\r" + b + "\n");
    CarriageReturnRead(line, b);
    JoinThree(line, b, "");
    SplitJoin([line, b, ""], '\n');
    EntryLineParses((key, a));
    MetaOfThree(line, b, "");
  }

  lemma CarriageReturnRead(h: string, b: string)
    requires '\r' !in h && b != [] && OneLine(b)
    ensures ReadText(h + ("\r" + b + "\n")) == h + "\n" + b + "\n" + ""
  {
    var t := "\r" + b + "\n";
    ReadTextAfter(h, t);
    assert t[0] == '\r' && t[1] == b[0] && t[1..] == b + "\n";
    ReadTextPlain(t[1..]);
    assert ReadText(t) == "\n" + ReadText(t[1..]);
  }

  lemma JoinThree(a: string, b: string, c: string)
    ensures Join([a, b, c], "\n") == a + "\n" + b + "\n" + c
  {
    assert [a, b, c][1..] == [b, c];
    assert [b, c][1..] == [c];
    assert Join([c], "\n") == c;
    assert Join([b, c], "\n") == b + "\n" + c;
  }

  lemma MetaOfThree(a: string, b: string, c: string)
    requires ParseLine(b) == None && ParseLine(c) == None && ParseLine(a).Some?
    ensures MetaOf([a, b, c]) == map[ParseLine(a).value.0 := ParseLine(a).value.1]
  {
    MetaOfSnoc([], a, ParseLine);
    assert [] + [a] == [a] && [a] + [b] == [a, b] && [a, b] + [c] == [a, b, c];
    MetaOfSnoc([a], b, ParseLine);
    MetaOfSnoc([a, b], c, ParseLine);
  }

  lemma EntryLinesOneLine(entries: seq<(string, string)>)
    requires forall i :: 0 <= i < |entries| ==> Readable(entries[i])
    ensures forall i :: 0 <= i < |EntryLines(entries) + [""]| ==> '\n' !in (EntryLines(entries) + [""])[i]
  {
    var ls := EntryLines(entries) + [""];
    forall i | 0 <= i < |ls|
      ensures '\n' !in ls[i]
    {
      if i < |entries| {
        OneEntryLine(entries[i].0, entries[i].1);
      }
    }
  }

  lemma OneEntryLine(k: string, v: string)
    requires '\n' !in k && '\n' !in v
    ensures '\n' !in EntryLine((k, v))
  {
    assert '\n' !in ": ";
  }

  /** Every key in `KeySet` comes from an entry. */
  lemma {:induction false} KeySetHas(entries: seq<(string, string)>, i: nat)
    requires i < |entries|
    ensures entries[i].0 in KeySet(entries)
    decreases |entries|
  {
    if i < |entries| - 1 {
      KeySetHas(entries[..|entries| - 1], i);
    }
  }

  lemma {:induction false} KeySetFrom(entries: seq<(string, string)>, k: string) returns (i: nat)
    requires k in KeySet(entries)
    ensures i < |entries| && entries[i].0 == k
    decreases |entries|
  {
    if entries[|entries| - 1].0 == k {
      i := |entries| - 1;
    } else {
      i := KeySetFrom(entries[..|entries| - 1], k);
    }
  }


  lemma Phase1KeysDistinct(hasVideo: bool, hasModel: bool)
    ensures forall i, j :: 0 <= i < j < |Phase1Keys(hasVideo, hasModel)| ==> Phase1Keys(hasVideo, hasModel)[i] != Phase1Keys(hasVideo, hasModel)[j]
  {
    var ks := Phase1Keys(hasVideo, hasModel);
    forall i, j | 0 <= i < j < |ks|
      ensures ks[i] != ks[j]
    {
      // the keys differ in their length or first character, but for the two `transcript_` keys
      if |ks[i]| == 16 && |ks[j]| == 16 {
        assert ks[i][11] != ks[j][11];
      } else {
        assert |ks[i]| != |ks[j]| || ks[i][0] != ks[j][0];
      }
    }
  }

  /** A key the reader gets back as written. */
  predicate KeyOk(k: string) {
    (forall i :: 0 <= i < |k| ==> k[i] != ':' && k[i] != '\n') && (k == [] || (!IsSpace(k[0]) && !IsSpace(k[|k| - 1])))
  }

  lemma Phase1KeysOk(hasVideo: bool, hasModel: bool)
    ensures forall i :: 0 <= i < |Phase1Keys(hasVideo, hasModel)| ==> KeyOk(Phase1Keys(hasVideo, hasModel)[i])
  {
    KeysOkFirst();
    KeysOkMiddle();
    KeysOkLast();
  }

  lemma KeysOkFirst()
    ensures KeyOk("source_type") && KeyOk("source") && KeyOk("title") && KeyOk("duration")
  {
  }

  lemma KeysOkMiddle()
    ensures KeyOk("language") && KeyOk("quality_score") && KeyOk("extraction_date") && KeyOk("transcript_chars")
  {
  }

  lemma KeysOkLast()
    ensures KeyOk("transcript_lines") && KeyOk("needs_chunking") && KeyOk("video_id") && KeyOk("model_used")
  {
  }

  lemma Phase1ValuesOneLine(sourceName: string, x: Extraction, timestamp: string, stats: Chunker.TextStats)
    requires OneLine(sourceName) && OneLine(x.sourceUrl) && OneLine(x.sourcePath) && OneLine(x.title)
    requires OneLine(x.duration) && OneLine(x.language) && OneLine(timestamp) && OneLine(x.videoId) && OneLine(x.modelUsed)
    ensures forall i :: 0 <= i < |Phase1Values(sourceName, x, timestamp, stats)| ==> OneLine(Phase1Values(sourceName, x, timestamp, stats)[i])
  {
    IntOneLine(x.qualityScore);
    NatOneLine(stats.chars);
    NatOneLine(stats.lines);
  }

  lemma Phase1Readable(sourceName: string, x: Extraction, timestamp: string, stats: Chunker.TextStats)
    requires OneLine(sourceName) && OneLine(x.sourceUrl) && OneLine(x.sourcePath) && OneLine(x.title)
    requires OneLine(x.duration) && OneLine(x.language) && OneLine(timestamp) && OneLine(x.videoId) && OneLine(x.modelUsed)
    ensures forall i :: 0 <= i < |MetadataEntries(sourceName, x, timestamp, stats)| ==> Readable(MetadataEntries(sourceName, x, timestamp, stats)[i])
  {
    Phase1KeysOk(x.videoId != "", x.modelUsed != "");
    Phase1ValuesOneLine(sourceName, x, timestamp, stats);
  }

  lemma NatOneLine(n: nat)
    ensures OneLine(NatToString(n)) && ':' !in NatToString(n)
  {
  }

  lemma IntOneLine(n: int)
    ensures OneLine(IntToString(n))
  {
    if n < 0 { NatOneLine(-n); } else { NatOneLine(n); }
  }

  /**
   * The entries phase 1 writes meet `MetadataRoundTrip`'s conditions (when
   * no value holds a line break): so phases 2 and 3 read back
   * source_type, source, title, ... with their stripped values, and a
   * `video_id` exactly when the extraction had one.
   */
  lemma Phase1EntriesOk(sourceName: string, x: Extraction, timestamp: string, stats: Chunker.TextStats)
    requires OneLine(sourceName) && OneLine(x.sourceUrl) && OneLine(x.sourcePath) && OneLine(x.title)
    requires OneLine(x.duration) && OneLine(x.language) && OneLine(timestamp) && OneLine(x.videoId) && OneLine(x.modelUsed)
    ensures var es := MetadataEntries(sourceName, x, timestamp, stats);
      && |es| >= 10
      && (forall i :: 0 <= i < |es| ==> Readable(es[i]))
      && (forall i, j :: 0 <= i < j < |es| ==> es[i].0 != es[j].0)
      && es[0] == ("source_type", sourceName) && es[2] == ("title", x.title)
      && es[1] == ("source", if x.sourceUrl != "" then x.sourceUrl else x.sourcePath)
      && (x.videoId != "" ==> es[10] == ("video_id", x.videoId))
      && (x.videoId == "" ==> forall i :: 0 <= i < |es| ==> es[i].0 != "video_id")
  {
    Phase1Readable(sourceName, x, timestamp, stats);
    Phase1EntryKeysDistinct(sourceName, x, timestamp, stats);
    Phase1EntryFields(sourceName, x, timestamp, stats);
  }

  lemma Phase1EntryKeysDistinct(sourceName: string, x: Extraction, timestamp: string, stats: Chunker.TextStats)
    ensures var es := MetadataEntries(sourceName, x, timestamp, stats);
      forall i, j :: 0 <= i < j < |es| ==> es[i].0 != es[j].0
  {
    var ks := Phase1Keys(x.videoId != "", x.modelUsed != "");
    Phase1KeysDistinct(x.videoId != "", x.modelUsed != "");
    ZipKeysDistinct(ks, Phase1Values(sourceName, x, timestamp, stats));
  }

  lemma ZipKeysDistinct(ks: seq<string>, vs: seq<string>)
    requires |ks| == |vs| && forall i, j :: 0 <= i < j < |ks| ==> ks[i] != ks[j]
    ensures forall i, j :: 0 <= i < j < |Zip(ks, vs)| ==> Zip(ks, vs)[i].0 != Zip(ks, vs)[j].0
  {
  }

  /** The entries phase 1 writes, field by field. */
  lemma Phase1EntryFields(sourceName: string, x: Extraction, timestamp: string, stats: Chunker.TextStats)
    ensures var es := MetadataEntries(sourceName, x, timestamp, stats);
      && |es| >= 10
      && es[0] == ("source_type", sourceName) && es[2] == ("title", x.title)
      && es[1] == ("source", if x.sourceUrl != "" then x.sourceUrl else x.sourcePath)
      && (x.videoId != "" ==> es[10] == ("video_id", x.videoId))
      && (x.videoId == "" ==> forall i :: 0 <= i < |es| ==> es[i].0 != "video_id")
  {
    var es := MetadataEntries(sourceName, x, timestamp, stats);
    var ks := Phase1Keys(x.videoId != "", x.modelUsed != "");
    if x.videoId == "" {
      forall i | 0 <= i < |es|
        ensures es[i].0 != "video_id"
      {
        assert es[i].0 == ks[i];
        assert |ks[i]| != 8 || ks[i][0] != 'v';
      }
    }
  }

  // ---------------------------------------------------------------------------
  // File names are distinct
  // ---------------------------------------------------------------------------

  /** Leading zeros do not change a number's value. */
  lemma {:induction false} LeadingZeroValue(s: string)
    requires AllDigits(s)
    ensures AllDigits("0" + s) && DigitsValue("0" + s) == DigitsValue(s)
    decreases |s|
  {
    if s != [] {
      var t := "0" + s;
      assert t[..|t| - 1] == "0" + s[..|s| - 1];
      LeadingZeroValue(s[..|s| - 1]);
    }
  }

  lemma {:induction false} ZeroPadValue(s: string, width: nat)
    requires AllDigits(s)
    ensures AllDigits(ZeroPad(s, width)) && DigitsValue(ZeroPad(s, width)) == DigitsValue(s)
    decreases width - |s|
  {
    if |s| < width {
      LeadingZeroValue(s);
      ZeroPadValue("0" + s, width);
    }
  }

  /** The part between a fixed prefix and suffix. */
  lemma Middle(p: string, a: string, b: string, q: string)
    requires p + a + q == p + b + q
    ensures a == b
  {
    assert |a| == |b|;
    assert a == (p + a + q)[|p|..|p| + |a|];
    assert b == (p + b + q)[|p|..|p| + |b|];
  }

  lemma PartNamesDiffer(j: nat, k: nat)
    requires j != k
    ensures PartName(j) != PartName(k)
  {
    if PartName(j) == PartName(k) {
      Middle("notes_part", NatToString(j), NatToString(k), ".md");
      NatToStringValue(j);
      NatToStringValue(k);
    }
  }

  lemma ChunkNamesDiffer(j: nat, k: nat)
    requires j != k
    ensures ChunkFileName(j) != ChunkFileName(k)
  {
    if ChunkFileName(j) == ChunkFileName(k) {
      Middle("chunks/chunk_", ZeroPad(NatToString(j), 3), ZeroPad(NatToString(k), 3), ".txt");
      NatToStringValue(j);
      NatToStringValue(k);
      ZeroPadValue(NatToString(j), 3);
      ZeroPadValue(NatToString(k), 3);
    }
  }

  // ---------------------------------------------------------------------------
  // Phase 2: chunk files and part notes
  // ---------------------------------------------------------------------------

  const MISSING_TRANSCRIPT := "transcript.txt를 찾을 수 없음. Phase 1을 먼저 실행해주세요."

  /** The metadata `load_metadata` returns for a work directory. */
  function Metadata(dir: map<string, string>): map<string, string> {
    if METADATA in dir then MetaOf(Split(ReadText(dir[METADATA]), '\n')) else map[]
  }

  /** The names of the chunk files 1..n, in order. */
  function ChunkNames(n: nat): (names: seq<string>)
    ensures |names| == n && forall i :: 0 <= i < n ==> names[i] == ChunkFileName(i + 1)
  {
    seq(n, i requires 0 <= i => ChunkFileName(i + 1))
  }

  /** The names of the part notes 1..n, in order. */
  function PartNames(n: nat): (names: seq<string>)
    ensures |names| == n && forall i :: 0 <= i < n ==> names[i] == PartName(i + 1)
  {
    seq(n, i requires 0 <= i => PartName(i + 1))
  }

  lemma NamesDistinct(n: nat)
    ensures Seqs.Distinct(ChunkNames(n)) && Seqs.Distinct(PartNames(n))
  {
    ChunkNamesDistinct(n);
    PartNamesDistinct(n);
  }

  lemma ChunkNamesDistinct(n: nat)
    ensures Seqs.Distinct(ChunkNames(n))
  {
    var cs := ChunkNames(n);
    forall i, j | 0 <= i < j < n
      ensures cs[i] != cs[j]
    {
      ChunkNamesDiffer(i + 1, j + 1);
    }
  }

  lemma PartNamesDistinct(n: nat)
    ensures Seqs.Distinct(PartNames(n))
  {
    var ps := PartNames(n);
    forall i, j | 0 <= i < j < n
      ensures ps[i] != ps[j]
    {
      PartNamesDiffer(i + 1, j + 1);
    }
  }

  /** No chunk file is a part note: the first begins with 'c', the second with 'n'. */
  lemma NamesDisjoint(n: nat, m: nat)
    ensures forall name :: name in ChunkNames(n) ==> name !in PartNames(m)
  {
    var cs, ps := ChunkNames(n), PartNames(m);
    forall i, j | 0 <= i < n && 0 <= j < m
      ensures cs[i] != ps[j]
    {
      assert cs[i][0] != ps[j][0];
    }
  }

  /**
   * Writes `contents[i]` under `names[i]`, in order; when `force` is not
   * set, a name already present keeps its content. Returns the positions
   * written.
   */
  method WriteFiles(dir: map<string, string>, names: seq<string>, contents: seq<string>, force: bool)
    returns (out: map<string, string>, ghost written: set<nat>)
    requires |names| == |contents| && Seqs.Distinct(names)
    ensures forall name :: name in out <==> name in dir || name in names
    ensures forall i :: 0 <= i < |names| ==>
      names[i] in out && out[names[i]] == if names[i] in dir && !force then dir[names[i]] else contents[i]
    ensures forall name :: name in dir ==> name in out
    ensures forall name :: name in dir && name !in names ==> out[name] == dir[name]
    ensures written == set i | 0 <= i < |names| && (force || names[i] !in dir)
  {
    out := dir;
    written := {};
    var i := 0;
    while i < |names|
      invariant 0 <= i <= |names|
      invariant forall name :: name in out <==> name in dir || name in names[..i]
      invariant forall j :: 0 <= j < i ==>
        out[names[j]] == if names[j] in dir && !force then dir[names[j]] else contents[j]
      invariant forall name :: name in dir && name !in names[..i] ==> out[name] == dir[name]
      invariant written == set j | 0 <= j < i && (force || names[j] !in dir)
    {
      assert names[..i + 1] == names[..i] + [names[i]];
      assert names[i] !in names[..i];
      if names[i] in out && !force {
        assert names[i] in dir;
      } else {
        out := out[names[i] := contents[i]];
        written := written + {i};
      }
      i := i + 1;
    }
    assert names[..i] == names;
  }

  /**
   * The part note of chunk k: the model's structured note when a key is set,
   * otherwise the prompt text. Given the chunk text, k, the part count and
   * the metadata.
   */
  type PartWriter = (string, nat, nat, map<string, string>) -> string

  /** What part k holds after phase 2: the existing file unless it is absent or `force` is set. */
  function PartAfter(dir: map<string, string>, texts: seq<string>, force: bool, meta: map<string, string>, write: PartWriter, k: nat): string
    requires 1 <= k <= |texts|
  {
    if PartName(k) in dir && !force then dir[PartName(k)] else write(texts[k - 1], k, |texts|, meta)
  }

  /** The part notes phase 2 writes: one per chunk, from the chunk's text. */
  function PartTexts(texts: seq<string>, meta: map<string, string>, write: PartWriter): (ps: seq<string>)
    ensures |ps| == |texts| && forall i :: 0 <= i < |texts| ==> ps[i] == write(texts[i], i + 1, |texts|, meta)
  {
    seq(|texts|, i requires 0 <= i < |texts| => write(texts[i], i + 1, |texts|, meta))
  }

  /** Saves the chunk files, then the part notes, as the loop of phase 2 does. */
  method SaveChunksAndParts(dir: map<string, string>, texts: seq<string>, force: bool, meta: map<string, string>, write: PartWriter)
    returns (out: map<string, string>)
    ensures var cn, pn := ChunkNames(|texts|), PartNames(|texts|);
      && (forall name :: name in out <==> name in dir || name in cn || name in pn)
      && (forall i :: 0 <= i < |texts| ==> cn[i] in out && out[cn[i]] == texts[i])
      && (forall i :: 0 <= i < |texts| ==> pn[i] in out && out[pn[i]] == PartAfter(dir, texts, force, meta, write, i + 1))
      && (forall name :: name in dir && name !in cn && name !in pn ==> out[name] == dir[name])
  {
    var n := |texts|;
    var cn, pn := ChunkNames(n), PartNames(n);
    NamesDistinct(n);
    NamesDisjoint(n, n);
    var withChunks, _ := WriteFiles(dir, cn, texts, true);
    ghost var written;
    out, written := WriteFiles(withChunks, pn, PartTexts(texts, meta, write), force);
  }

  /** The same, stated by chunk number. */
  method SaveNotes(dir: map<string, string>, texts: seq<string>, force: bool, meta: map<string, string>, write: PartWriter)
    returns (out: map<string, string>)
    ensures forall name :: name in out <==> name in dir || name in ChunkNames(|texts|) || name in PartNames(|texts|)
    ensures forall k :: 1 <= k <= |texts| ==>
      ChunkFileName(k) in out && out[ChunkFileName(k)] == texts[k - 1]
    ensures forall k :: 1 <= k <= |texts| ==>
      PartName(k) in out && out[PartName(k)] == PartAfter(dir, texts, force, meta, write, k)
    ensures forall name :: name in dir && name !in ChunkNames(|texts|) && name !in PartNames(|texts|) ==>
      out[name] == dir[name]
  {
    out := SaveChunksAndParts(dir, texts, force, meta, write);
    var n := |texts|;
    forall k | 1 <= k <= n
      ensures ChunkFileName(k) in out && out[ChunkFileName(k)] == texts[k - 1]
      ensures PartName(k) in out && out[PartName(k)] == PartAfter(dir, texts, force, meta, write, k)
    {
      assert ChunkFileName(k) == ChunkNames(n)[k - 1];
      assert PartName(k) == PartNames(n)[k - 1];
    }
  }

  /**
   * `phase2_chunk_notes`: the transcript is cut with the chunker (overlap 5
   * lines), every chunk is saved, and each part note is written unless it
   * exists (or `force` is set). Also returns the chunks, for the statements
   * about them.
   */
  method Phase2(dir: map<string, string>, chunkSize: int, force: bool, write: PartWriter)
    returns (r: Result<map<string, string>>, ghost chunks: seq<Chunker.Chunk>)
    ensures TRANSCRIPT !in dir ==> r == Err(MISSING_TRANSCRIPT)
    ensures TRANSCRIPT in dir ==>
      && r.Ok?
      && Chunker.Slices(chunks, Chunker.Lines(ReadText(dir[TRANSCRIPT])))
      && Chunker.Chained(chunks, 5)
      && chunks[|chunks| - 1].endLine == |Chunker.Lines(ReadText(dir[TRANSCRIPT]))| - 1
      && (forall name :: name in r.value <==> name in dir || name in ChunkNames(|chunks|) || name in PartNames(|chunks|))
      && (forall k :: 1 <= k <= |chunks| ==>
            ChunkFileName(k) in r.value && r.value[ChunkFileName(k)] == chunks[k - 1].text)
      && (forall k :: 1 <= k <= |chunks| ==>
            PartName(k) in r.value && r.value[PartName(k)] == PartAfter(dir, Texts(chunks), force, Metadata(dir), write, k))
      && (forall name :: name in dir && name !in ChunkNames(|chunks|) && name !in PartNames(|chunks|) ==>
            r.value[name] == dir[name])
  {
    if TRANSCRIPT !in dir {
      return Err(MISSING_TRANSCRIPT), [];
    }
    var meta := LoadMetadata(dir);
    var cs, cuts := Chunker.ChunkText(ReadText(dir[TRANSCRIPT]), chunkSize, 5);
    chunks := cs;
    var out := SaveNotes(dir, Texts(cs), force, meta, write);
    r := Ok(out);
  }

  /** The chunk texts in order. */
  function Texts(chunks: seq<Chunker.Chunk>): (ts: seq<string>)
    ensures |ts| == |chunks| && forall i :: 0 <= i < |ts| ==> ts[i] == chunks[i].text
  {
    seq(|chunks|, i requires 0 <= i < |chunks| => chunks[i].text)
  }

  /** Without `force`, phase 2 leaves every existing part note as it was. */
  lemma ExistingPartsKept(dir: map<string, string>, texts: seq<string>, meta: map<string, string>, write: PartWriter, k: nat)
    requires 1 <= k <= |texts| && PartName(k) in dir
    ensures PartAfter(dir, texts, false, meta, write, k) == dir[PartName(k)]
  {
  }

  // ---------------------------------------------------------------------------
  // Phase 3: the part notes in file-name order
  // ---------------------------------------------------------------------------

  const MISSING_PARTS := "notes_partN.md 파일을 찾을 수 없음. Phase 2를 먼저 실행해주세요."

  /** Whether a file of the work directory matches the glob `notes_part*.md`. */
  predicate MatchesPartGlob(name: string) {
    |name| >= 13 && name[..10] == "notes_part" && name[|name| - 3..] == ".md" && '/' !in name
  }

  /** Every part note phase 2 writes is found by phase 3's glob. */
  lemma PartNameMatches(k: nat)
    ensures MatchesPartGlob(PartName(k))
  {
    var d := NatToString(k);
    var name := PartName(k);
    assert name == "notes_part" + d + ".md";
    assert name[..10] == "notes_part";
    assert name[|name| - 3..] == ".md";
    forall i | 0 <= i < |name|
      ensures name[i] != '/'
    {
      if 10 <= i < 10 + |d| {
        assert name[i] == d[i - 10];
        assert IsDigit(d[i - 10]);
      }
    }
  }

  /** Strictly before in Python's string order. */
  predicate Before(a: string, b: string) {
    LexLe(a, b) && a != b
  }

  /** Strictly increasing in Python's string order. */
  predicate Ascending(names: seq<string>) {
    forall i, j :: 0 <= i < j < |names| ==> Before(names[i], names[j])
  }

  /** Inserts a name into an ascending list. */
  function Insert(x: string, names: seq<string>): seq<string>
    decreases |names|
  {
    if names == [] then [x]
    else if LexLe(x, names[0]) then [x] + names
    else [names[0]] + Insert(x, names[1..])
  }

  /** `sorted(names)`. */
  function SortNames(names: seq<string>): seq<string>
    decreases |names|
  {
    if names == [] then [] else Insert(names[0], SortNames(names[1..]))
  }

  lemma {:induction false} InsertMembers(x: string, names: seq<string>)
    ensures multiset(Insert(x, names)) == multiset(names) + multiset{x}
    ensures |Insert(x, names)| == |names| + 1
    decreases |names|
  {
    if names != [] && !LexLe(x, names[0]) {
      InsertMembers(x, names[1..]);
      assert names == [names[0]] + names[1..];
    }
  }

  lemma {:induction false} InsertSpec(x: string, names: seq<string>)
    requires Ascending(names) && x !in names
    ensures Ascending(Insert(x, names))
    ensures multiset(Insert(x, names)) == multiset(names) + multiset{x}
    decreases |names|
  {
    InsertMembers(x, names);
    if names == [] {
    } else if LexLe(x, names[0]) {
      forall j | 0 <= j < |names|
        ensures Before(x, names[j])
      {
        if j > 0 {
          LexLeTrans(x, names[0], names[j]);
        }
      }
      AscendingCons(x, names);
    } else {
      var rest := Insert(x, names[1..]);
      InsertSpec(x, names[1..]);
      LexLeTotal(x, names[0]);
      forall j | 0 <= j < |rest|
        ensures Before(names[0], rest[j])
      {
        assert rest[j] in multiset(rest);
        assert rest[j] == x || rest[j] in names[1..];
      }
      AscendingCons(names[0], rest);
    }
  }

  /** An element before everything of an ascending list can head it. */
  lemma AscendingCons(x: string, names: seq<string>)
    requires Ascending(names)
    requires forall j :: 0 <= j < |names| ==> Before(x, names[j])
    ensures Ascending([x] + names)
  {
    var s := [x] + names;
    forall i, j | 0 <= i < j < |s|
      ensures Before(s[i], s[j])
    {
      if i > 0 {
        assert s[i] == names[i - 1] && s[j] == names[j - 1];
      } else {
        assert s[j] == names[j - 1];
      }
    }
  }

  /** `sorted` of distinct names is ascending and a permutation of them. */
  lemma {:induction false} SortNamesSpec(names: seq<string>)
    requires Seqs.Distinct(names)
    ensures Ascending(SortNames(names))
    ensures multiset(SortNames(names)) == multiset(names)
    decreases |names|
  {
    if names != [] {
      assert names == [names[0]] + names[1..];
      SortNamesSpec(names[1..]);
      assert names[0] !in multiset(names[1..]);
      InsertSpec(names[0], SortNames(names[1..]));
    }
  }

  /**
   * Two ascending lists with the same names are equal: the order of the
   * directory listing does not matter.
   */
  lemma {:induction false} AscendingUnique(a: seq<string>, b: seq<string>)
    requires Ascending(a) && Ascending(b) && multiset(a) == multiset(b)
    ensures a == b
    decreases |a|
  {
    assert |a| == |multiset(a)| == |multiset(b)| == |b|;
    if a != [] {
      HeadFirst(a, b[0]);
      HeadFirst(b, a[0]);
      LexLeAntisym(a[0], b[0]);
      assert a == [a[0]] + a[1..] && b == [b[0]] + b[1..];
      assert multiset(a[1..]) == multiset(a) - multiset{a[0]};
      assert multiset(b[1..]) == multiset(b) - multiset{b[0]};
      AscendingTail(a);
      AscendingTail(b);
      AscendingUnique(a[1..], b[1..]);
    }
  }

  /** The head of an ascending list comes first. */
  lemma HeadFirst(a: seq<string>, x: string)
    requires Ascending(a) && a != [] && x in multiset(a)
    ensures LexLe(a[0], x)
  {
    var i :| 0 <= i < |a| && a[i] == x;
    if i == 0 {
      LexLeRefl(x);
    }
  }

  lemma AscendingTail(a: seq<string>)
    requires Ascending(a) && a != []
    ensures Ascending(a[1..])
  {
    forall i, j | 0 <= i < j < |a| - 1
      ensures Before(a[1..][i], a[1..][j])
    {
      assert a[1..][i] == a[i + 1] && a[1..][j] == a[j + 1];
    }
  }

  /** With at most nine parts, name order is part order. */
  lemma NineInOrder(j: nat, k: nat)
    requires 1 <= j < k <= 9
    ensures Before(PartName(j), PartName(k))
  {
    var a, b := [DigitChar(j)] + ".md", [DigitChar(k)] + ".md";
    assert PartName(j) == "notes_part" + a;
    assert PartName(k) == "notes_part" + b;
    assert a[0] < b[0];
    LexLeCommonPrefix("notes_part", a, b);
    PartNamesDiffer(j, k);
  }

  /** From ten parts on it is not: part 10 is read before part 2. */
  lemma TenBeforeTwo(files: seq<string>, i: nat, j: nat)
    requires Ascending(files)
    requires i < |files| && files[i] == PartName(2)
    requires j < |files| && files[j] == PartName(10)
    ensures j < i
  {
    TwoAfterTen();
  }

  /** "notes_part2.md" sorts after "notes_part10.md". */
  lemma TwoAfterTen()
    ensures !LexLe(PartName(2), PartName(10)) && PartName(2) != PartName(10)
  {
    assert PartName(2) == "notes_part" + "2.md";
    assert PartName(10) == "notes_part" + "10.md";
    LexLeCommonPrefix("notes_part", "2.md", "10.md");
  }

  /** Reads the listed part notes in order, in text mode, and adds up their lengths. */
  method ReadParts(dir: map<string, string>, files: seq<string>) returns (parts: seq<string>, totalChars: nat)
    requires forall f :: f in files ==> f in dir
    ensures |parts| == |files| && forall i :: 0 <= i < |files| ==> parts[i] == ReadText(dir[files[i]])
    ensures totalChars == Seqs.TotalLength(parts)
  {
    parts := [];
    totalChars := 0;
    for i := 0 to |files|
      invariant |parts| == i && forall k :: 0 <= k < i ==> parts[k] == ReadText(dir[files[k]])
      invariant totalChars == Seqs.TotalLength(parts)
    {
      var content := ReadText(dir[files[i]]);
      assert (parts + [content])[..i] == parts;
      parts := parts + [content];
      totalChars := totalChars + |content|;
    }
  }

  // ---------------------------------------------------------------------------
  // Phase 3: merging
  // ---------------------------------------------------------------------------

  const PART_SEP := "\n\n---\n\n"

  /** `meta.get(key, default)`. */
  function MetaGet(meta: map<string, string>, key: string, default: string): string {
    if key in meta then meta[key] else default
  }

  /** The responsive YouTube player block of `merge_simple`. */
  function PlayerHtml(videoId: string): string {
    "<div style=\"position: relative; padding-bottom: 56.25%; height: 0; overflow: hidden; max-width: 100%; margin: 20px 0;\">\n"
    + "  <iframe\n"
    + "    style=\"position: absolute; top: 0; left: 0; width: 100%; height: 100%;\"\n"
    + "    src=\"https://www.youtube.com/embed/" + videoId + "\"\n"
    + "    frameborder=\"0\"\n"
    + "    allow=\"accelerometer; autoplay; clipboard-write; encrypted-media; gyroscope; picture-in-picture\"\n"
    + "    allowfullscreen>\n"
    + "  </iframe>\n"
    + "</div>\n\n"
  }

  /** The four header lines of `merge_simple`: title, source, date and part count. */
  function SimpleTop(meta: map<string, string>, date: string, n: nat): string {
    "# " + MetaGet(meta, "title", "Untitled") + "\n\n"
    + "- 출처: " + MetaGet(meta, "source", "") + "\n"
    + "- 생성일: " + date + "\n"
    + "- 파트 수: " + NatToString(n) + "\n\n"
  }

  /** The player, when the metadata names a video. */
  function PlayerBlock(meta: map<string, string>): string {
    var videoId := MetaGet(meta, "video_id", "");
    if videoId != "" then PlayerHtml(videoId) else ""
  }

  /** The header: the four lines, the player if any, and a rule. */
  function SimpleHeader(meta: map<string, string>, date: string, n: nat): string {
    SimpleTop(meta, date, n) + PlayerBlock(meta) + "---\n\n"
  }

  /** What `merge_simple` returns on the date `date` (`%Y-%m-%d` of the clock). */
  function SimpleText(parts: seq<string>, meta: map<string, string>, date: string): string {
    SimpleHeader(meta, date, |parts|) + Join(parts, PART_SEP)
  }

  /** `merge_simple`: the header, then the parts separated by rules. */
  method MergeSimple(parts: seq<string>, meta: map<string, string>, date: string) returns (combined: string)
    ensures combined == SimpleText(parts, meta, date)
  {
    var header := SimpleHeader(meta, date, |parts|);
    combined := AppendParts(header, parts, PART_SEP);
  }

  /** The loop of `merge_simple`: a separator before every part but the first. */
  method AppendParts(header: string, parts: seq<string>, sep: string) returns (combined: string)
    ensures combined == header + Join(parts, sep)
  {
    combined := header;
    for i := 0 to |parts|
      invariant combined == header + Join(parts[..i], sep)
    {
      if i > 0 {
        combined := combined + sep;
        JoinAppend(parts[..i], parts[i], sep);
      } else {
        assert parts[..1] == [parts[0]];
      }
      combined := combined + parts[i];
      assert parts[..i + 1] == parts[..i] + [parts[i]];
    }
    assert parts[..|parts|] == parts;
  }

  /** Text after a header keeps every joined part, and ends with the last. */
  lemma JoinedKeepsParts(header: string, parts: seq<string>, sep: string)
    ensures forall i :: 0 <= i < |parts| ==> Contains(header + Join(parts, sep), parts[i])
    ensures |parts| >= 1 ==> EndsWith(header + Join(parts, sep), parts[|parts| - 1])
  {
    forall i | 0 <= i < |parts|
      ensures Contains(header + Join(parts, sep), parts[i])
    {
      JoinContainsPart(parts, sep, i);
      ContainsAppend(header, Join(parts, sep), parts[i]);
    }
    if |parts| == 1 {
      assert parts == [parts[0]];
    } else if |parts| > 1 {
      assert parts == parts[..|parts| - 1] + [parts[|parts| - 1]];
      JoinAppend(parts[..|parts| - 1], parts[|parts| - 1], sep);
    }
  }

  /** The plain merge keeps every part, in order, after the header. */
  lemma SimpleKeepsParts(parts: seq<string>, meta: map<string, string>, date: string)
    ensures StartsWith(SimpleText(parts, meta, date), SimpleTop(meta, date, |parts|))
    ensures forall i :: 0 <= i < |parts| ==> Contains(SimpleText(parts, meta, date), parts[i])
    ensures |parts| >= 1 ==> EndsWith(SimpleText(parts, meta, date), parts[|parts| - 1])
  {
    var header := SimpleHeader(meta, date, |parts|);
    StartsWithAppend3(SimpleTop(meta, date, |parts|), PlayerBlock(meta), "---\n\n", Join(parts, PART_SEP));
    JoinedKeepsParts(header, parts, PART_SEP);
  }

  /**
   * A request to the model while merging, with what its prompt is built
   * from: a group of adjacent parts, or the final thematic merge with the
   * metadata fields the prompt shows. The prompt wording is left out.
   */
  datatype MergeRequest =
    | GroupRequest(range: string, totalParts: nat, text: string)
    | FinalRequest(title: string, sourceType: string, source: string, videoId: string, combined: string)

  /** The model's reply to a merge request. */
  type Model = MergeRequest -> string

  /** The final thematic request, with the defaults of the prompt fields. */
  function FinalRequestOf(meta: map<string, string>, combined: string): MergeRequest {
    FinalRequest(MetaGet(meta, "title", "Unknown"), MetaGet(meta, "source_type", "Unknown"),
                 MetaGet(meta, "source", ""), MetaGet(meta, "video_id", ""), combined)
  }

  /**
   * `merge_thematic`: one model call over all parts joined by rules; the
   * plain merge when the anthropic package cannot be imported. Also returns
   * the model requests made.
   */
  method MergeThematic(parts: seq<string>, meta: map<string, string>, date: string, anthropic: bool, ask: Model)
    returns (text: string, ghost requests: seq<MergeRequest>)
    ensures !anthropic ==> text == SimpleText(parts, meta, date) && requests == []
    ensures anthropic ==> requests == [FinalRequestOf(meta, Join(parts, PART_SEP))] && text == ask(requests[0])
  {
    if !anthropic {
      text := MergeSimple(parts, meta, date);
      return text, [];
    }
    var request := FinalRequestOf(meta, Join(parts, PART_SEP));
    text := ask(request);
    requests := [request];
  }

  function Min(a: int, b: int): int {
    if a <= b then a else b
  }

  /** The number of groups of three: n / 3 rounded up. */
  function GroupCount(n: nat): (c: nat)
    ensures 3 * c >= n && (c == 0 || 3 * (c - 1) < n)
  {
    (n + 2) / 3
  }

  /** Group g: parts 3g .. 3g+2, or fewer at the end. */
  function Group(parts: seq<string>, g: nat): (group: seq<string>)
    requires g < GroupCount(|parts|)
    ensures 1 <= |group| <= 3
  {
    parts[3 * g..Min(3 * g + 3, |parts|)]
  }

  /** The groups in order. */
  function Groups(parts: seq<string>): (groups: seq<seq<string>>)
    ensures |groups| == GroupCount(|parts|)
    ensures forall g :: 0 <= g < |groups| ==> groups[g] == Group(parts, g)
  {
    seq(GroupCount(|parts|), g requires 0 <= g < GroupCount(|parts|) => Group(parts, g))
  }

  /** The label `Part {first}-{last}` of group g, numbering parts from 1. */
  function GroupRange(g: nat, n: nat): string {
    "Part " + NatToString(3 * g + 1) + "-" + NatToString(Min(3 * g + 3, n))
  }

  function GroupRequestOf(parts: seq<string>, g: nat): MergeRequest
    requires g < GroupCount(|parts|)
  {
    GroupRequest(GroupRange(g, |parts|), |parts|, Join(Group(parts, g), PART_SEP))
  }

  /** The first-stage requests, one per group. */
  function GroupRequests(parts: seq<string>): (rs: seq<MergeRequest>)
    ensures |rs| == GroupCount(|parts|)
    ensures forall g :: 0 <= g < |rs| ==> rs[g] == GroupRequestOf(parts, g)
  {
    seq(GroupCount(|parts|), g requires 0 <= g < GroupCount(|parts|) => GroupRequestOf(parts, g))
  }

  /** The model's summaries of the groups. */
  function Summaries(parts: seq<string>, ask: Model): (mids: seq<string>)
    ensures |mids| == GroupCount(|parts|)
    ensures forall g :: 0 <= g < |mids| ==> mids[g] == ask(GroupRequestOf(parts, g))
  {
    seq(GroupCount(|parts|), g requires 0 <= g < GroupCount(|parts|) => ask(GroupRequestOf(parts, g)))
  }

  /** The second-stage request, over the group summaries joined by rules. */
  function HierarchicalFinal(parts: seq<string>, meta: map<string, string>, ask: Model): MergeRequest {
    FinalRequestOf(meta, Join(Summaries(parts, ask), PART_SEP))
  }

  /**
   * `merge_hierarchical`: the parts are merged three at a time, then the
   * group summaries are merged thematically; the plain merge when the
   * anthropic package cannot be imported. Also returns the model requests.
   */
  method MergeHierarchical(parts: seq<string>, meta: map<string, string>, date: string, anthropic: bool, ask: Model)
    returns (text: string, ghost requests: seq<MergeRequest>)
    ensures !anthropic ==> text == SimpleText(parts, meta, date) && requests == []
    ensures anthropic ==> requests == GroupRequests(parts) + [HierarchicalFinal(parts, meta, ask)]
    ensures anthropic ==> text == ask(HierarchicalFinal(parts, meta, ask))
  {
    if !anthropic {
      text := MergeSimple(parts, meta, date);
      return text, [];
    }
    var mids;
    mids, requests := SummarizeGroups(parts, ask);
    var final := FinalRequestOf(meta, Join(mids, PART_SEP));
    requests := requests + [final];
    text := ask(final);
  }

  /** The first stage of `merge_hierarchical`: one model call per group of three parts. */
  method SummarizeGroups(parts: seq<string>, ask: Model) returns (mids: seq<string>, ghost requests: seq<MergeRequest>)
    ensures mids == Summaries(parts, ask)
    ensures requests == GroupRequests(parts)
  {
    mids := [];
    requests := [];
    var i := 0;
    while i < |parts|
      invariant i == 3 * |mids| && |mids| <= GroupCount(|parts|)
      invariant mids == Summaries(parts, ask)[..|mids|]
      invariant requests == GroupRequests(parts)[..|mids|]
    {
      var group := parts[i..Min(i + 3, |parts|)];
      var range := "Part " + NatToString(i + 1) + "-" + NatToString(Min(i + 3, |parts|));
      var request := GroupRequest(range, |parts|, Join(group, PART_SEP));
      NextGroup(parts, ask, |mids|);
      assert request == GroupRequestOf(parts, |mids|);
      mids := mids + [ask(request)];
      requests := requests + [request];
      i := i + 3;
    }
    assert mids == Summaries(parts, ask)[..GroupCount(|parts|)];
    assert requests == GroupRequests(parts)[..GroupCount(|parts|)];
  }

  /** One step of the first stage: group g's request and summary extend the prefixes. */
  lemma NextGroup(parts: seq<string>, ask: Model, g: nat)
    requires g < GroupCount(|parts|)
    ensures GroupRequestOf(parts, g) == GroupRequest(
      "Part " + NatToString(3 * g + 1) + "-" + NatToString(Min(3 * g + 3, |parts|)), |parts|,
      Join(parts[3 * g..Min(3 * g + 3, |parts|)], PART_SEP))
    ensures Summaries(parts, ask)[..g + 1] == Summaries(parts, ask)[..g] + [ask(GroupRequestOf(parts, g))]
    ensures GroupRequests(parts)[..g + 1] == GroupRequests(parts)[..g] + [GroupRequestOf(parts, g)]
  {
  }

  /** The first k groups, in order, are the first 3k parts (or all of them). */
  lemma {:induction false} GroupsPrefix(parts: seq<string>, k: nat)
    requires k <= GroupCount(|parts|)
    ensures Seqs.Flatten(Groups(parts)[..k]) == parts[..Min(3 * k, |parts|)]
  {
    if k > 0 {
      var gs := Groups(parts)[..k];
      assert gs[..k - 1] == Groups(parts)[..k - 1];
      GroupsPrefix(parts, k - 1);
      assert parts[..3 * (k - 1)] + Group(parts, k - 1) == parts[..Min(3 * k, |parts|)];
    }
  }

  /** Grouping drops no part and repeats none. */
  lemma GroupsCover(parts: seq<string>)
    ensures Seqs.Flatten(Groups(parts)) == parts
  {
    var n := GroupCount(|parts|);
    GroupsPrefix(parts, n);
    assert Groups(parts)[..n] == Groups(parts);
  }

  /** Seven parts give the groups 1-3, 4-6 and 7-7. */
  lemma SevenParts(parts: seq<string>)
    requires |parts| == 7
    ensures GroupCount(7) == 3
    ensures Group(parts, 0) == parts[0..3] && Group(parts, 1) == parts[3..6] && Group(parts, 2) == [parts[6]]
    ensures GroupRange(0, 7) == "Part 1-3" && GroupRange(1, 7) == "Part 4-6" && GroupRange(2, 7) == "Part 7-7"
  {
    assert NatToString(1) == "1" && NatToString(3) == "3" && NatToString(4) == "4";
    assert NatToString(6) == "6" && NatToString(7) == "7";
  }

  // ---------------------------------------------------------------------------
  // Phase 3
  // ---------------------------------------------------------------------------

  /** How phase 3 merges the parts. */
  datatype Strategy = Simple | Thematic | Hierarchical

  /**
   * The branch of `phase3_combine`: the model only with an API key and
   * without `--no-merge-ai`, in two stages above 100000 characters.
   */
  function ChooseStrategy(hasKey: bool, noMergeAi: bool, totalChars: nat): Strategy {
    if hasKey && !noMergeAi then (if totalChars > 100000 then Hierarchical else Thematic) else Simple
  }

  /** What the chosen merge returns. */
  function Merged(st: Strategy, parts: seq<string>, meta: map<string, string>, date: string, anthropic: bool, ask: Model): string {
    if st == Simple || !anthropic then SimpleText(parts, meta, date)
    else if st == Thematic then ask(FinalRequestOf(meta, Join(parts, PART_SEP)))
    else ask(HierarchicalFinal(parts, meta, ask))
  }

  /** The model requests the chosen merge makes. */
  function MergeRequests(st: Strategy, parts: seq<string>, meta: map<string, string>, anthropic: bool, ask: Model): seq<MergeRequest> {
    if st == Simple || !anthropic then []
    else if st == Thematic then [FinalRequestOf(meta, Join(parts, PART_SEP))]
    else GroupRequests(parts) + [HierarchicalFinal(parts, meta, ask)]
  }

  /**
   * The number of model calls: none without a key, with `--no-merge-ai` or
   * without the package; one up to 100000 characters; one per group of
   * three parts plus one above.
   */
  lemma ModelCalls(hasKey: bool, noMergeAi: bool, parts: seq<string>, meta: map<string, string>, anthropic: bool, ask: Model)
    ensures var st := ChooseStrategy(hasKey, noMergeAi, Seqs.TotalLength(parts));
      |MergeRequests(st, parts, meta, anthropic, ask)| ==
        if !hasKey || noMergeAi || !anthropic then 0
        else if Seqs.TotalLength(parts) <= 100000 then 1
        else GroupCount(|parts|) + 1
  {
  }

  /** The result of phase 3: the work directory, the name of the copy in the output folder, and the merged note. */
  datatype Combined = Combined(workDir: map<string, string>, copyName: string, content: string)

  /**
   * `phase3_combine`: the part notes the glob `notes_part*.md` finds are
   * read in sorted name order, merged, and written to final_notes.md and to
   * `{dir_name}_{note_format}.md`. `listing` is the directory listing (in
   * any order), `hasKey` whether ANTHROPIC_API_KEY is set, `anthropic`
   * whether the package imports, `date` today's date.
   */
  /** Phase 3's choice of merge: by the model when a key is set and `--no-merge-ai` is not, hierarchical above 100000 characters. */
  method MergeChosen(parts: seq<string>, totalChars: nat, meta: map<string, string>, hasKey: bool, noMergeAi: bool,
                     date: string, anthropic: bool, ask: Model)
    returns (content: string, ghost requests: seq<MergeRequest>)
    ensures var st := ChooseStrategy(hasKey, noMergeAi, totalChars);
      content == Merged(st, parts, meta, date, anthropic, ask) && requests == MergeRequests(st, parts, meta, anthropic, ask)
  {
    if hasKey && !noMergeAi {
      if totalChars > 100000 {
        content, requests := MergeHierarchical(parts, meta, date, anthropic, ask);
      } else {
        content, requests := MergeThematic(parts, meta, date, anthropic, ask);
      }
    } else {
      content := MergeSimple(parts, meta, date);
      requests := [];
    }
  }

  /** The sorted listing is empty exactly when the listing is, and names only files of the directory. */
  lemma ListedPartsInDir(dir: map<string, string>, listing: seq<string>, files: seq<string>)
    requires forall name :: name in listing ==> name in dir
    requires multiset(files) == multiset(listing)
    ensures files == [] <==> listing == []
    ensures forall f :: f in files ==> f in dir
  {
    assert |listing| == |multiset(listing)| == |files|;
    forall f | f in files
      ensures f in dir
    {
      assert f in multiset(listing);
    }
  }

  method Phase3(dir: map<string, string>, listing: seq<string>, hasKey: bool, noMergeAi: bool, anthropic: bool,
                date: string, noteFormat: string, dirName: string, ask: Model)
    returns (r: Result<Combined>, files: seq<string>, parts: seq<string>, ghost requests: seq<MergeRequest>)
    requires Seqs.Distinct(listing)
    requires forall name :: name in listing <==> name in dir && MatchesPartGlob(name)
    ensures files == SortNames(listing) && Ascending(files) && multiset(files) == multiset(listing)
    ensures listing == [] <==> r.Err?
    ensures listing == [] ==> r == Err(MISSING_PARTS)
    ensures r.Ok? ==>
      && |parts| == |files|
      && (forall i :: 0 <= i < |files| ==> files[i] in dir && parts[i] == ReadText(dir[files[i]]))
      && var st := ChooseStrategy(hasKey, noMergeAi, Seqs.TotalLength(parts));
      && r.value.content == Merged(st, parts, Metadata(dir), date, anthropic, ask)
      && requests == MergeRequests(st, parts, Metadata(dir), anthropic, ask)
      && r.value.workDir == dir[FINAL_NOTES := r.value.content]
      && r.value.copyName == dirName + "_" + noteFormat + ".md"
  {
    files := SortNames(listing);
    SortNamesSpec(listing);
    ListedPartsInDir(dir, listing, files);
    if files == [] {
      return Err(MISSING_PARTS), files, [], [];
    }
    var meta := LoadMetadata(dir);
    var totalChars;
    parts, totalChars := ReadParts(dir, files);
    var content;
    content, requests := MergeChosen(parts, totalChars, meta, hasKey, noMergeAi, date, anthropic, ask);
    r := Ok(Combined(dir[FINAL_NOTES := content], dirName + "_" + noteFormat + ".md", content));
  }
}

/**
 * What the YouTube and the video extractors share: timed transcript
 * segments, their conversion from the raw recogniser or caption output
 * (strip, drop the empty and the unwanted), the `[MM:SS] text` full text
 * and the total duration.
 */
module Transcript {
  import opened Text
  import Timestamps
  import Wrappers
  import Chunker

  /** A time in seconds as the caption service or the recogniser reports it; never negative. */
  type Seconds = x: real | 0.0 <= x

  /**
   * `format_timestamp` on float seconds. Hours, minutes and seconds are
   * `int(s // 3600)`, `int((s % 3600) // 60)` and `int(s % 60)`, and for
   * s >= 0 each depends only on the whole seconds of s.
   */
  function FormatTime(t: Seconds): (r: string)
    ensures t < 3600.0 ==> |r| == 5 && r[2] == ':'
    ensures 3600.0 <= t < 360000.0 ==> |r| == 8 && r[2] == ':' && r[5] == ':'
  {
    Timestamps.FormatTimestamp(t.Floor as nat)
  }

  /** A transcript segment: formatted and raw start and end, and the stripped text. */
  datatype TimedSegment = TimedSegment(start: string, startSeconds: Seconds, end: string, endSeconds: Seconds, text: string)

  /** A segment as the service or the recogniser reports it. */
  datatype RawSegment = RawSegment(text: string, start: Seconds, end: Seconds)

  /** The dictionary the extractors build for a kept segment. */
  function Timed(raw: RawSegment, text: string): TimedSegment {
    TimedSegment(FormatTime(raw.start), raw.start, FormatTime(raw.end), raw.end, text)
  }

  // ---------------------------------------------------------------------------
  // Conversion
  // ---------------------------------------------------------------------------

  /** The segment `raw` contributes: kept when its cleaned text is non-empty and not dropped. */
  function Kept(raw: RawSegment, clean: string -> string, drop: string -> bool): seq<TimedSegment> {
    var t := clean(raw.text);
    if t != "" && !drop(t) then [Timed(raw, t)] else []
  }

  /**
   * The conversion loop of both extractors: each raw segment in order, its
   * text cleaned (`str.strip` in both), skipped when the cleaned text is
   * empty or `drop` rejects it (the YouTube noise markers; nothing for the
   * recogniser). The lemmas below hold for any cleaning.
   */
  function Convert(raws: seq<RawSegment>, clean: string -> string, drop: string -> bool): seq<TimedSegment>
    decreases |raws|
  {
    if raws == [] then [] else Convert(raws[..|raws| - 1], clean, drop) + Kept(raws[|raws| - 1], clean, drop)
  }

  /** The loop itself. */
  method ConvertSegments(raws: seq<RawSegment>, drop: string -> bool) returns (segments: seq<TimedSegment>)
    ensures segments == Convert(raws, Strip, drop)
  {
    segments := [];
    for i := 0 to |raws|
      invariant segments == Convert(raws[..i], Strip, drop)
    {
      assert raws[..i + 1][..i] == raws[..i];
      var text := Strip(raws[i].text);
      if text == "" || drop(text) {
        assert Kept(raws[i], Strip, drop) == [];
        assert segments + [] == segments;
        continue;
      }
      segments := segments + [Timed(raws[i], text)];
    }
    assert raws[..|raws|] == raws;
  }

  /** Segments are converted one by one and keep their order: the conversion distributes over `+`. */
  lemma {:induction false} ConvertAppend(a: seq<RawSegment>, b: seq<RawSegment>, clean: string -> string, drop: string -> bool)
    ensures Convert(a + b, clean, drop) == Convert(a, clean, drop) + Convert(b, clean, drop)
    decreases |b|
  {
    if b == [] {
      assert a + b == a;
    } else {
      var b' := b[..|b| - 1];
      assert (a + b)[..|a + b| - 1] == a + b';
      assert (a + b)[|a + b| - 1] == b[|b| - 1];
      ConvertAppend(a, b', clean, drop);
    }
  }

  /** What one raw segment becomes. */
  lemma ConvertOne(raw: RawSegment, clean: string -> string, drop: string -> bool)
    ensures Convert([raw], clean, drop) == Kept(raw, clean, drop)
  {
    assert [raw][..0] == [];
  }

  /** Every kept segment has non-empty text that `drop` accepts; there are never more segments than raw ones. */
  lemma {:induction false} ConvertClean(raws: seq<RawSegment>, clean: string -> string, drop: string -> bool)
    ensures forall i :: 0 <= i < |Convert(raws, clean, drop)| ==>
      Convert(raws, clean, drop)[i].text != "" && !drop(Convert(raws, clean, drop)[i].text)
    ensures |Convert(raws, clean, drop)| <= |raws|
    decreases |raws|
  {
    if raws != [] {
      var n := |raws|;
      var init := raws[..n - 1];
      ConvertClean(init, clean, drop);
      var before := Convert(init, clean, drop);
      var kept := Kept(raws[n - 1], clean, drop);
      var r := Convert(raws, clean, drop);
      assert r == before + kept;
      forall i | 0 <= i < |r|
        ensures r[i].text != "" && !drop(r[i].text)
      {
        if i < |before| {
          assert r[i] == before[i];
        } else {
          assert r[i] == kept[0];
        }
      }
    }
  }

  /** Every kept segment is the segment of some raw one, with that raw segment's cleaned text. */
  lemma {:induction false} ConvertOrigin(raws: seq<RawSegment>, clean: string -> string, drop: string -> bool)
    ensures forall i :: 0 <= i < |Convert(raws, clean, drop)| ==>
      exists j :: 0 <= j < |raws| && Convert(raws, clean, drop)[i] == Timed(raws[j], clean(raws[j].text))
    decreases |raws|
  {
    if raws == [] {
      assert Convert(raws, clean, drop) == [];
    } else {
      var n := |raws|;
      var init := raws[..n - 1];
      ConvertOrigin(init, clean, drop);
      var before := Convert(init, clean, drop);
      var last := raws[n - 1];
      var kept := Kept(last, clean, drop);
      var r := Convert(raws, clean, drop);
      assert r == before + kept;
      forall i | 0 <= i < |r|
        ensures exists j :: 0 <= j < n && r[i] == Timed(raws[j], clean(raws[j].text))
      {
        if i < |before| {
          assert r[i] == before[i];
          var j :| 0 <= j < n - 1 && before[i] == Timed(init[j], clean(init[j].text));
          assert init[j] == raws[j];
        } else {
          assert r[i] == Timed(raws[n - 1], clean(raws[n - 1].text));
        }
      }
    }
  }

  /** With `str.strip` as the cleaning, every kept text is already stripped. */
  lemma ConvertStripped(raws: seq<RawSegment>, drop: string -> bool)
    ensures forall i :: 0 <= i < |Convert(raws, Strip, drop)| ==>
      Strip(Convert(raws, Strip, drop)[i].text) == Convert(raws, Strip, drop)[i].text
  {
    var segments := Convert(raws, Strip, drop);
    ConvertOrigin(raws, Strip, drop);
    forall i | 0 <= i < |segments|
      ensures Strip(segments[i].text) == segments[i].text
    {
      var j :| 0 <= j < |raws| && segments[i] == Timed(raws[j], Strip(raws[j].text));
      StripIdem(raws[j].text);
    }
  }

  /** Nothing is lost when every segment qualifies: one output per input, in order. */
  lemma {:induction false} ConvertKeepsAll(raws: seq<RawSegment>, clean: string -> string, drop: string -> bool)
    requires forall j :: 0 <= j < |raws| ==> clean(raws[j].text) != "" && !drop(clean(raws[j].text))
    ensures |Convert(raws, clean, drop)| == |raws|
    ensures forall i :: 0 <= i < |raws| ==> Convert(raws, clean, drop)[i] == Timed(raws[i], clean(raws[i].text))
    decreases |raws|
  {
    if raws != [] {
      var n := |raws|;
      var init := raws[..n - 1];
      ConvertKeepsAll(init, clean, drop);
      var last := raws[n - 1];
      assert Kept(last, clean, drop) == [Timed(last, clean(last.text))];
      var before := Convert(init, clean, drop);
      var r := Convert(raws, clean, drop);
      assert r == before + [Timed(last, clean(last.text))];
      forall i | 0 <= i < n
        ensures r[i] == Timed(raws[i], clean(raws[i].text))
      {
        if i < n - 1 {
          assert r[i] == before[i];
          assert init[i] == raws[i];
        }
      }
    }
  }

  // ---------------------------------------------------------------------------
  // Full text and duration
  // ---------------------------------------------------------------------------

  /** `f"[{start}] {text}"`. */
  function Line(seg: TimedSegment): string {
    "[" + seg.start + "] " + seg.text
  }

  function Lines(segments: seq<TimedSegment>): (r: seq<string>)
    ensures |r| == |segments|
    ensures forall i :: 0 <= i < |r| ==> r[i] == Line(segments[i])
  {
    seq(|segments|, i requires 0 <= i < |segments| => Line(segments[i]))
  }

  /** The full text: one timestamped line per segment. */
  function FullText(segments: seq<TimedSegment>): string {
    Join(Lines(segments), "\n")
  }

  /** The `full_text_parts` loop followed by the join. */
  method AssembleFullText(segments: seq<TimedSegment>) returns (fullText: string)
    ensures fullText == FullText(segments)
  {
    var parts: seq<string> := [];
    for i := 0 to |segments|
      invariant parts == Lines(segments[..i])
    {
      parts := parts + [Line(segments[i])];
    }
    assert segments[..|segments|] == segments;
    fullText := Join(parts, "\n");
  }

  /** With single-line texts, the lines of the full text are exactly the segment lines. */
  lemma FullTextLines(segments: seq<TimedSegment>)
    requires segments != []
    requires forall i :: 0 <= i < |segments| ==> '\n' !in segments[i].text && '\n' !in segments[i].start
    ensures Split(FullText(segments), '\n') == Lines(segments)
  {
    var lines := Lines(segments);
    forall i | 0 <= i < |lines|
      ensures '\n' !in lines[i]
    {
      assert lines[i] == "[" + segments[i].start + "] " + segments[i].text;
    }
    SplitJoin(lines, '\n');
  }

  /** A formatted start time below 100 hours opens a chunk: `^\[?\d{1,2}:\d{2}(:\d{2})?\]?\s`. */
  lemma LineIsBoundary(t: Seconds, text: string)
    requires t < 360000.0
    ensures Chunker.TimestampStart("[" + FormatTime(t) + "] " + text)
  {
    var n := t.Floor as nat;
    var ts := FormatTime(t);
    FormatDigits(n);
    if n < 3600 {
      MinSecBoundary(ts, text);
    } else {
      HourBoundary(ts, text);
    }
  }

  /** The shape of a formatted time below 100 hours: two-digit fields separated by ':'. */
  lemma FormatDigits(n: nat)
    requires n < 360000
    ensures var ts := Timestamps.FormatTimestamp(n);
      n < 3600 ==> MinSecShape(ts)
    ensures var ts := Timestamps.FormatTimestamp(n);
      n >= 3600 ==> HourShape(ts)
  {
    var hours := n / 3600;
    var minutes := (n % 3600) / 60;
    var secs := n % 60;
    Timestamps.Fields(n);
    Timestamps.Pad2Shape(hours);
    Timestamps.Pad2Shape(minutes);
    Timestamps.Pad2Shape(secs);
    if hours > 0 {
      HourOf(Pad2(hours), Pad2(minutes), Pad2(secs));
    } else {
      MinSecOf(Pad2(minutes), Pad2(secs));
    }
  }

  predicate MinSecShape(ts: string) {
    |ts| == 5 && IsDigit(ts[0]) && IsDigit(ts[1]) && ts[2] == ':' && IsDigit(ts[3]) && IsDigit(ts[4])
  }

  predicate HourShape(ts: string) {
    |ts| == 8 && IsDigit(ts[0]) && IsDigit(ts[1]) && ts[2] == ':' && IsDigit(ts[3]) && IsDigit(ts[4])
    && ts[5] == ':' && IsDigit(ts[6]) && IsDigit(ts[7])
  }

  lemma MinSecOf(m: string, s: string)
    requires |m| == 2 && |s| == 2 && AllDigits(m) && AllDigits(s)
    ensures MinSecShape(m + ":" + s)
  {
  }

  lemma HourOf(h: string, m: string, s: string)
    requires |h| == 2 && |m| == 2 && |s| == 2 && AllDigits(h) && AllDigits(m) && AllDigits(s)
    ensures HourShape(h + ":" + m + ":" + s)
  {
  }

  lemma MinSecBoundary(ts: string, text: string)
    requires MinSecShape(ts)
    ensures Chunker.TimestampStart("[" + ts + "] " + text)
  {
    var line := "[" + ts + "] " + text;
    var t := Timestamps.DropBracket(line);
    assert t == ts + "] " + text;
    assert Timestamps.LeadDigits2(t) == 2;
    assert t[5..] == "] " + text;
  }

  lemma HourBoundary(ts: string, text: string)
    requires HourShape(ts)
    ensures Chunker.TimestampStart("[" + ts + "] " + text)
  {
    var line := "[" + ts + "] " + text;
    var t := Timestamps.DropBracket(line);
    assert t == ts + "] " + text;
    assert Timestamps.LeadDigits2(t) == 2;
    var u := t[5..];
    assert u == ts[5..] + "] " + text;
    assert u[3..] == "] " + text;
  }

  /**
   * With single-line texts and start times below 100 hours, every line of the
   * full text opens a chunk for the chunker.
   */
  lemma FullTextBoundaries(segments: seq<TimedSegment>)
    requires segments != []
    requires forall i :: 0 <= i < |segments| ==>
      '\n' !in segments[i].text && segments[i].startSeconds < 360000.0
      && segments[i].start == FormatTime(segments[i].startSeconds)
    ensures forall line :: line in Split(FullText(segments), '\n') ==> Chunker.TimestampStart(line)
  {
    forall i | 0 <= i < |segments|
      ensures '\n' !in segments[i].start
    {
      assert |segments[i].start| <= 8;
      NoBreakInTime(segments[i].startSeconds);
    }
    FullTextLines(segments);
    forall line | line in Lines(segments)
      ensures Chunker.TimestampStart(line)
    {
      var i :| 0 <= i < |segments| && Lines(segments)[i] == line;
      LineIsBoundary(segments[i].startSeconds, segments[i].text);
    }
  }

  lemma NoBreakInTime(t: Seconds)
    requires t < 360000.0
    ensures '\n' !in FormatTime(t)
  {
    var n := t.Floor as nat;
    var ts := FormatTime(t);
    FormatDigits(n);
    NoBreakInShape(ts);
  }

  /** A string of digits and colons holds no line break. */
  lemma NoBreakInShape(ts: string)
    requires MinSecShape(ts) || HourShape(ts)
    ensures '\n' !in ts
  {
    forall i | 0 <= i < |ts|
      ensures ts[i] != '\n'
    {
      assert IsDigit(ts[i]) || ts[i] == ':';
    }
  }

  /** The text length of all segments together. */
  function TotalLength(segments: seq<TimedSegment>): nat
    decreases |segments|
  {
    if segments == [] then 0 else TotalLength(segments[..|segments| - 1]) + |segments[|segments| - 1].text|
  }

  /** The duration reported: the last segment's end, or "00:00" with no segments. */
  function Duration(segments: seq<TimedSegment>): string {
    if segments == [] then "00:00" else FormatTime(segments[|segments| - 1].endSeconds)
  }

  /** The empty default is what a zero time formats to. */
  lemma ZeroDuration()
    ensures Duration([]) == FormatTime(0.0)
  {
    assert Pad2(0) == "00";
  }

  /**
   * The reported duration reads back as the whole seconds of the last
   * segment's end, and as zero without segments (below 100 hours, the
   * range the two-digit hour field of the timestamp pattern covers).
   */
  lemma DurationReadsBack(segments: seq<TimedSegment>)
    requires segments != [] ==> segments[|segments| - 1].endSeconds < 360000.0
    ensures segments == [] ==> Timestamps.ParseTimestampSeconds(Duration(segments)) == Wrappers.Some(0)
    ensures segments != [] ==>
      Timestamps.ParseTimestampSeconds(Duration(segments)) == Wrappers.Some(segments[|segments| - 1].endSeconds.Floor as nat)
  {
    if segments == [] {
      ZeroDuration();
      Timestamps.ParseFormatRoundTrip(0);
    } else {
      Timestamps.ParseFormatRoundTrip(segments[|segments| - 1].endSeconds.Floor as nat);
    }
  }
}

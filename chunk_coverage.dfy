/**
 * What the chunks produced by `chunk_text` (generators/chunker.py) add up to:
 * every line of the text lies in some chunk, the line spans minus the
 * overlaps count every line exactly once, and without overlap the chunk
 * texts joined by newlines give back the text.
 */
module ChunkCoverage {
  import opened Text
  import opened Chunker

  /** The number of lines chunk `c` spans. */
  function Span(c: Chunk): int { c.endLine - c.startLine + 1 }

  /** The spans of the first `n` chunks, added up. */
  function SpanSum(chunks: seq<Chunk>, n: nat): int
    requires n <= |chunks|
  {
    if n == 0 then 0 else SpanSum(chunks, n - 1) + Span(chunks[n - 1])
  }

  /** The overlaps between the first `n` chunks (one per join), added up. */
  function OverlapSum(chunks: seq<Chunk>, overlapLines: int, n: nat): int
    requires n <= |chunks|
  {
    if n <= 1 then 0 else OverlapSum(chunks, overlapLines, n - 1) + OverlapOf(overlapLines, chunks[n - 2])
  }

  /** The largest last line among the first `n` chunks. */
  function MaxEnd(chunks: seq<Chunk>, n: nat): (m: int)
    requires 1 <= n <= |chunks|
    ensures forall k :: 0 <= k < n ==> chunks[k].endLine <= m
    ensures exists k :: 0 <= k < n && chunks[k].endLine == m
  {
    if n == 1 then chunks[0].endLine
    else
      var m := MaxEnd(chunks, n - 1);
      if chunks[n - 1].endLine > m then chunks[n - 1].endLine else m
  }

  /** Over any prefix of a chain, spans minus overlaps reach the last line. */
  lemma {:induction false} SpanTelescope(chunks: seq<Chunk>, overlapLines: int, n: nat)
    requires Chained(chunks, overlapLines) && 1 <= n <= |chunks|
    ensures SpanSum(chunks, n) - OverlapSum(chunks, overlapLines, n) == chunks[n - 1].endLine + 1
  {
    if n > 1 {
      SpanTelescope(chunks, overlapLines, n - 1);
      assert LinkAt(chunks, overlapLines, n - 1);
    }
  }

  /**
   * Adding up the lines of every chunk and taking away the lines repeated
   * as overlap gives exactly the number of lines of the text.
   */
  lemma LineAccounting(chunks: seq<Chunk>, lines: seq<string>, overlapLines: int)
    requires Chained(chunks, overlapLines)
    requires chunks[|chunks| - 1].endLine == |lines| - 1
    ensures SpanSum(chunks, |chunks|) - OverlapSum(chunks, overlapLines, |chunks|) == |lines|
  {
    SpanTelescope(chunks, overlapLines, |chunks|);
  }

  /** Every line up to the furthest end among the first `n` chunks is in one of them. */
  lemma {:induction false} CoveredPrefix(chunks: seq<Chunk>, lines: seq<string>, overlapLines: int, n: nat, j: int)
    requires Slices(chunks, lines) && Chained(chunks, overlapLines)
    requires 1 <= n <= |chunks| && 0 <= j <= MaxEnd(chunks, n)
    ensures exists k :: 0 <= k < n && chunks[k].startLine <= j <= chunks[k].endLine
  {
    if n == 1 {
      assert chunks[0].startLine <= j <= chunks[0].endLine;
    } else if j <= MaxEnd(chunks, n - 1) {
      CoveredPrefix(chunks, lines, overlapLines, n - 1, j);
    } else {
      assert LinkAt(chunks, overlapLines, n - 1);
      assert chunks[n - 2].endLine <= MaxEnd(chunks, n - 1);
      assert chunks[n - 1].startLine <= j <= chunks[n - 1].endLine;
    }
  }

  /** No line of the text is lost: each one lies in at least one chunk. */
  lemma AllLinesCovered(chunks: seq<Chunk>, lines: seq<string>, overlapLines: int, j: int)
    requires Slices(chunks, lines) && Chained(chunks, overlapLines)
    requires chunks[|chunks| - 1].endLine == |lines| - 1
    requires 0 <= j < |lines|
    ensures exists k :: 0 <= k < |chunks| && chunks[k].startLine <= j <= chunks[k].endLine
  {
    assert chunks[|chunks| - 1].endLine <= MaxEnd(chunks, |chunks|);
    CoveredPrefix(chunks, lines, overlapLines, |chunks|, j);
  }

  /** The texts of the chunks, in order. */
  function Texts(chunks: seq<Chunk>): (ts: seq<string>)
    ensures |ts| == |chunks| && forall k :: 0 <= k < |chunks| ==> ts[k] == chunks[k].text
  {
    if chunks == [] then [] else Texts(chunks[..|chunks| - 1]) + [chunks[|chunks| - 1].text]
  }

  /** Without overlap, each chunk starts on the line after the previous one ends. */
  lemma {:induction false} NoOverlapJoin(chunks: seq<Chunk>, lines: seq<string>, overlapLines: int, n: nat)
    requires overlapLines <= 0
    requires Slices(chunks, lines) && Chained(chunks, overlapLines)
    requires 1 <= n <= |chunks|
    ensures Join(Texts(chunks[..n]), "\n") == Join(lines[..chunks[n - 1].endLine + 1], "\n")
  {
    var c := chunks[n - 1];
    assert IsSlice(c, n - 1, lines);
    if n == 1 {
      assert Texts(chunks[..1]) == [c.text];
      assert lines[..c.endLine + 1] == lines[c.startLine..c.endLine + 1];
    } else {
      NoOverlapJoin(chunks, lines, overlapLines, n - 1);
      var e := chunks[n - 2].endLine;
      assert LinkAt(chunks, overlapLines, n - 1);
      assert c.startLine == e + 1;
      assert chunks[..n] == chunks[..n - 1] + [c];
      assert Texts(chunks[..n]) == Texts(chunks[..n - 1]) + [c.text] by {
        assert chunks[..n][..n - 1] == chunks[..n - 1];
      }
      JoinAfter(Texts(chunks[..n - 1]), c.text, lines, e, c.endLine + 1, "\n");
    }
  }

  /** Joining the lines up to `e` and then the next run of lines up to `f` joins the lines up to `f`. */
  lemma JoinAfter(prev: seq<string>, t: string, lines: seq<string>, e: nat, f: nat, sep: string)
    requires |prev| >= 1 && e + 1 < f <= |lines|
    requires Join(prev, sep) == Join(lines[..e + 1], sep) && t == Join(lines[e + 1..f], sep)
    ensures Join(prev + [t], sep) == Join(lines[..f], sep)
  {
    JoinAppend(prev, t, sep);
    assert lines[..f] == lines[..e + 1] + lines[e + 1..f];
    JoinConcat(lines[..e + 1], lines[e + 1..f], sep);
  }

  /** With no overlap, the chunk texts joined by newlines are all the lines joined by newlines. */
  lemma NoOverlapRebuildsLines(chunks: seq<Chunk>, lines: seq<string>, overlapLines: int)
    requires overlapLines <= 0
    requires Slices(chunks, lines) && Chained(chunks, overlapLines)
    requires chunks[|chunks| - 1].endLine == |lines| - 1
    ensures Join(Texts(chunks), "\n") == Join(lines, "\n")
  {
    NoOverlapJoin(chunks, lines, overlapLines, |chunks|);
    assert chunks[..|chunks|] == chunks;
    assert lines[..|lines|] == lines;
  }

  /** With no overlap, the chunk texts joined by newlines are the original text. */
  lemma NoOverlapRebuildsText(chunks: seq<Chunk>, text: string, overlapLines: int)
    requires overlapLines <= 0
    requires Slices(chunks, Lines(text)) && Chained(chunks, overlapLines)
    requires chunks[|chunks| - 1].endLine == |Lines(text)| - 1
    ensures Join(Texts(chunks), "\n") == text
  {
    NoOverlapRebuildsLines(chunks, Lines(text), overlapLines);
    JoinSplit(text, '\n');
  }
}

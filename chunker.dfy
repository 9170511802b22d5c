/**
 * The boundary-aware chunker for long sources: splitting a text into chunks
 * of '\n'-separated lines that prefer natural paragraph boundaries and carry
 * a few lines of overlap, plus the small helpers around it (size statistics,
 * the paragraph-boundary test, start/middle/end sampling, timestamp parsing
 * lives in Timestamps, and the merging of per-chunk analyses).
 */
module Chunker {
  import opened Text
  import opened Wrappers
  import Timestamps

  /** Minimum length (in characters) above which a text is chunked. */
  const CHUNK_THRESHOLD: nat := 20000
  /** Default chunk size in characters. */
  const DEFAULT_CHUNK_SIZE: nat := 20000
  /** Default number of lines repeated at the start of the next chunk. */
  const DEFAULT_OVERLAP_LINES: nat := 5

  /** The lines of a text, `text.split('\n')`. */
  function Lines(text: string): (ls: seq<string>)
    ensures |ls| >= 1
  {
    Split(text, '\n')
  }

  // ---------------------------------------------------------------------------
  // Size statistics
  // ---------------------------------------------------------------------------

  predicate NeedsChunking(text: string, threshold: int) { |text| > threshold }

  datatype TextStats = TextStats(chars: nat, lines: nat, needsChunking: bool, estimatedChunks: nat)

  /** `text_stats`: the estimate is the number of default-size chunks the
      characters need, at least one. */
  function Stats(text: string): (r: TextStats)
    ensures r.chars == |text|
    ensures r.lines == CountChar(text, '\n') + 1
    ensures r.needsChunking <==> |text| > CHUNK_THRESHOLD
    ensures r.estimatedChunks >= 1
    ensures |text| > 0 ==>
      (r.estimatedChunks - 1) * DEFAULT_CHUNK_SIZE < |text| <= r.estimatedChunks * DEFAULT_CHUNK_SIZE
  {
    SplitCount(text, '\n');
    var est := (|text| + DEFAULT_CHUNK_SIZE - 1) / DEFAULT_CHUNK_SIZE;
    TextStats(|text|, |Lines(text)|, NeedsChunking(text, CHUNK_THRESHOLD), if est > 1 then est else 1)
  }

  // ---------------------------------------------------------------------------
  // Paragraph boundaries
  // ---------------------------------------------------------------------------

  /** The length of the run of decimal digits at the start of `s` (`\d+` taken greedily). */
  function LeadDigitCount(s: string): (d: nat)
    ensures d <= |s| && AllDigits(s[..d])
    ensures d < |s| ==> !IsDigit(s[d])
    decreases |s|
  {
    if |s| > 0 && IsDigit(s[0]) then
      var d := 1 + LeadDigitCount(s[1..]);
      assert s[..d] == [s[0]] + s[1..][..d - 1];
      d
    else 0
  }

  /** The line starts like a subtitle segment: `^\[?\d{1,2}:\d{2}(:\d{2})?\]?\s`. */
  predicate TimestampStart(line: string) {
    var t := Timestamps.DropBracket(line);
    Timestamps.LeadMinSec(t) &&
    var u := t[Timestamps.LeadDigits2(t) + 3..];
    var v := if |u| >= 3 && u[0] == ':' && IsDigit(u[1]) && IsDigit(u[2]) then u[3..] else u;
    var w := if |v| > 0 && v[0] == ']' then v[1..] else v;
    |w| > 0 && IsSpace(w[0])
  }

  /** The line starts with a PDF page marker: `^\[p\.\d+\]`. */
  predicate PageMarkerStart(line: string) {
    StartsWith(line, "[p.") &&
    var d := LeadDigitCount(line[3..]);
    d >= 1 && 3 + d < |line| && line[3 + d] == ']'
  }

  /** The previous line, right-stripped, ends a sentence. */
  predicate EndsSentence(prev: string) {
    var p := RStrip(prev);
    EndsWith(p, ".") || EndsWith(p, "!") || EndsWith(p, "?") || EndsWith(p, "。")
    || EndsWith(p, "다.") || EndsWith(p, "요.") || EndsWith(p, "죠.")
  }

  /** `_is_paragraph_break`: whether a chunk may start at `line`, whose predecessor is `prev`. */
  predicate IsParagraphBreak(line: string, prev: string) {
    Strip(line) == "" || TimestampStart(line) || StartsWith(line, "#")
    || PageMarkerStart(line) || EndsSentence(prev)
  }

  // ---------------------------------------------------------------------------
  // Chunking
  // ---------------------------------------------------------------------------

  datatype Chunk = Chunk(index: nat, text: string, startLine: int, endLine: int)

  /** Characters a run of lines occupies, counting one newline per line. */
  function SizeOf(ls: seq<string>): nat
    decreases |ls|
  {
    if ls == [] then 0 else SizeOf(ls[..|ls| - 1]) + |ls[|ls| - 1]| + 1
  }

  lemma SizeOfAppend(ls: seq<string>, x: string)
    ensures SizeOf(ls + [x]) == SizeOf(ls) + |x| + 1
  {
    assert (ls + [x])[..|ls|] == ls;
  }

  /** Line `j` still fits into the window `lines[cs..j]`. */
  predicate Fits(lines: seq<string>, cs: nat, j: nat, maxSize: int)
    requires cs <= j < |lines|
  {
    SizeOf(lines[cs..j]) + |lines[j]| + 1 <= maxSize
  }

  /** `marks[j]` tells whether a break is recorded when line `j` (with a
      predecessor) is scanned. */
  function BreakMarks(lines: seq<string>): (marks: seq<bool>)
    ensures |marks| == |lines|
  {
    seq(|lines|, j requires 0 <= j < |lines| => j >= 1 && IsParagraphBreak(lines[j], lines[j - 1]))
  }

  lemma MarkAt(lines: seq<string>, j: nat)
    requires j < |lines|
    ensures BreakMarks(lines)[j] == (j >= 1 && IsParagraphBreak(lines[j], lines[j - 1]))
  {
  }

  /** The last index `j` in `[lo, hi)` with `marks[j]`, or -1. */
  function LastBreak(marks: seq<bool>, lo: nat, hi: nat): (j: int)
    requires hi <= |marks|
    ensures j == -1 || (lo <= j < hi && marks[j])
    ensures forall k :: j < k < hi && lo <= k ==> !marks[k]
    decreases hi
  {
    if hi <= lo then -1
    else if marks[hi - 1] then hi - 1
    else LastBreak(marks, lo, hi - 1)
  }

  /** The recorded break as an index into the window that starts at `cs`. */
  function WindowBreak(marks: seq<bool>, lo: nat, hi: nat, cs: nat): int
    requires hi <= |marks|
  {
    var j := LastBreak(marks, lo, hi);
    if j < 0 then -1 else j - cs
  }

  /** Where a full window of `n` lines is cut: at the recorded break when it
      lies strictly past the middle, otherwise after all `n` lines. */
  function SplitPoint(lastBreak: int, n: nat): (r: nat)
    requires n >= 1 && lastBreak <= n
    ensures n / 2 < r <= n
    ensures r == n || r == lastBreak
  {
    if lastBreak > n / 2 then lastBreak else n
  }

  /** The number of lines of `c` repeated at the start of the next chunk. */
  function OverlapOf(overlapLines: int, c: Chunk): nat {
    var len := c.endLine - c.startLine + 1;
    if overlapLines <= 0 || len <= 0 then 0 else if overlapLines < len then overlapLines else len
  }

  /** Chunk `k` is the `k`-th chunk and exactly the lines it names. */
  predicate IsSlice(c: Chunk, k: nat, lines: seq<string>) {
    c.index == k && 0 <= c.startLine <= c.endLine < |lines|
    && c.text == Join(lines[c.startLine..c.endLine + 1], "\n")
  }

  predicate Slices(chunks: seq<Chunk>, lines: seq<string>) {
    forall k :: 0 <= k < |chunks| ==> IsSlice(chunks[k], k, lines)
  }

  /** Chunk `k` starts where chunk `k - 1` ended, minus the overlap. */
  predicate LinkAt(chunks: seq<Chunk>, overlapLines: int, k: nat)
    requires 0 < k < |chunks|
  {
    chunks[k].startLine == chunks[k - 1].endLine + 1 - OverlapOf(overlapLines, chunks[k - 1])
  }

  predicate Linked(chunks: seq<Chunk>, overlapLines: int) {
    forall k :: 0 < k < |chunks| ==> LinkAt(chunks, overlapLines, k)
  }

  predicate Chained(chunks: seq<Chunk>, overlapLines: int) {
    |chunks| > 0 && chunks[0].startLine == 0 && Linked(chunks, overlapLines)
  }

  /** The first line after the window start whose break can be recorded, for the window of chunk `k`. */
  function Lo(cuts: seq<nat>, k: nat): nat
    requires k <= |cuts|
  {
    if k == 0 then 1 else cuts[k - 1] + 1
  }

  /** Why a chunk covering lines `s..e` ended: the window started at `s`,
      breaks were recorded from line `lo` on, line `c` was the first that did
      not fit, and the window `lines[s..c]` was cut at `SplitPoint`. */
  predicate CutAt(lines: seq<string>, marks: seq<bool>, maxSize: int, s: int, e: int, lo: nat, c: nat)
    requires |marks| == |lines|
  {
    0 <= s && s + 1 <= lo <= c < |lines|
    && !Fits(lines, s, c, maxSize)
    && (forall j :: lo <= j < c ==> Fits(lines, s, j, maxSize))
    && LastBreak(marks, lo, c + 1) <= c
    && e + 1 - s == SplitPoint(WindowBreak(marks, lo, c + 1, s), c - s)
  }

  /** Chunk `k` ended because of cut `cuts[k]`. */
  predicate CutExplained(lines: seq<string>, marks: seq<bool>, chunks: seq<Chunk>, cuts: seq<nat>, maxSize: int, k: nat)
    requires |marks| == |lines| && k < |cuts| && k < |chunks|
  {
    CutAt(lines, marks, maxSize, chunks[k].startLine, chunks[k].endLine, Lo(cuts, k), cuts[k])
  }

  /** Every chunk that has a cut is explained by it. */
  predicate CutsExplained(lines: seq<string>, marks: seq<bool>, chunks: seq<Chunk>, cuts: seq<nat>, maxSize: int)
    requires |marks| == |lines| && |cuts| <= |chunks|
  {
    forall k :: 0 <= k < |cuts| ==> CutExplained(lines, marks, chunks, cuts, maxSize, k)
  }

  /** Every line from `lo` on fits the window that starts at `s`. */
  predicate TailFits(lines: seq<string>, s: nat, lo: nat, maxSize: int)
    requires s < lo
  {
    forall j :: lo <= j < |lines| ==> Fits(lines, s, j, maxSize)
  }

  // Appending a chunk (and possibly a cut) keeps what held of the earlier ones.

  lemma SlicesAppend(chunks: seq<Chunk>, c: Chunk, lines: seq<string>)
    requires Slices(chunks, lines) && IsSlice(c, |chunks|, lines)
    ensures Slices(chunks + [c], lines)
  {
    forall k | 0 <= k < |chunks| + 1 ensures IsSlice((chunks + [c])[k], k, lines) {
      if k < |chunks| { assert (chunks + [c])[k] == chunks[k]; }
    }
  }

  lemma LinkedAppend(chunks: seq<Chunk>, c: Chunk, overlapLines: int)
    requires Linked(chunks, overlapLines)
    requires |chunks| > 0 ==>
      c.startLine == chunks[|chunks| - 1].endLine + 1 - OverlapOf(overlapLines, chunks[|chunks| - 1])
    ensures Linked(chunks + [c], overlapLines)
  {
    var cc := chunks + [c];
    forall k | 0 < k < |cc| ensures LinkAt(cc, overlapLines, k) {
      assert cc[k - 1] == chunks[k - 1];
      if k < |chunks| {
        assert cc[k] == chunks[k];
        assert LinkAt(chunks, overlapLines, k);
      }
    }
  }

  lemma CutsAppend(lines: seq<string>, marks: seq<bool>, chunks: seq<Chunk>, cuts: seq<nat>, maxSize: int,
                   c: Chunk, more: seq<nat>)
    requires |marks| == |lines| && |cuts| <= |chunks| && |more| <= 1
    requires CutsExplained(lines, marks, chunks, cuts, maxSize)
    ensures CutsExplained(lines, marks, chunks + [c], cuts, maxSize)
    ensures |cuts| == |chunks| ==> forall k :: 0 <= k < |cuts| ==>
      CutExplained(lines, marks, chunks + [c], cuts + more, maxSize, k)
  {
    forall k | 0 <= k < |cuts| ensures CutExplained(lines, marks, chunks + [c], cuts, maxSize, k) {
      assert (chunks + [c])[k] == chunks[k];
      assert CutExplained(lines, marks, chunks, cuts, maxSize, k);
    }
    if |cuts| == |chunks| {
      forall k | 0 <= k < |cuts| ensures CutExplained(lines, marks, chunks + [c], cuts + more, maxSize, k) {
        assert (chunks + [c])[k] == chunks[k];
        assert (cuts + more)[k] == cuts[k];
        assert Lo(cuts + more, k) == Lo(cuts, k);
        assert CutExplained(lines, marks, chunks, cuts, maxSize, k);
      }
    }
  }

  /** The window before line `i`: it is `lines[cs..i]` of size `size`,
      `lastBreak` is the last break recorded since line `lo`, and every line
      scanned since then fitted the window. */
  ghost predicate WindowState(lines: seq<string>, marks: seq<bool>, maxSize: int, window: seq<string>, size: nat,
                              cs: nat, lastBreak: int, lo: nat, i: nat)
  {
    |marks| == |lines| && cs <= i <= |lines|
    && window == lines[cs..i] && size == SizeOf(window)
    && cs + 1 <= lo && (lo <= i || (i == 0 && lo == 1))
    && lastBreak == WindowBreak(marks, lo, i, cs)
    && (forall j :: lo <= j < i ==> Fits(lines, cs, j, maxSize))
  }

  /** The chunks emitted so far: each a slice, linked to its predecessor
      and explained by its cut; the window starts where the last one leaves
      off, and breaks are recorded from just after the last cut. */
  ghost predicate ChunkState(lines: seq<string>, marks: seq<bool>, maxSize: int, overlapLines: int,
                             chunks: seq<Chunk>, cuts: seq<nat>, cs: nat, lo: nat)
  {
    |marks| == |lines| && |cuts| == |chunks| && lo == Lo(cuts, |cuts|)
    && Slices(chunks, lines) && Linked(chunks, overlapLines)
    && (|chunks| == 0 ==> cs == 0)
    && (|chunks| > 0 ==>
          chunks[0].startLine == 0
          && cs == chunks[|chunks| - 1].endLine + 1 - OverlapOf(overlapLines, chunks[|chunks| - 1]))
    && CutsExplained(lines, marks, chunks, cuts, maxSize)
  }

  /** The scan before line `i`. */
  ghost predicate ScanState(lines: seq<string>, marks: seq<bool>, maxSize: int, overlapLines: int,
                            chunks: seq<Chunk>, cuts: seq<nat>, window: seq<string>, size: nat,
                            cs: nat, lastBreak: int, lo: nat, i: nat)
  {
    WindowState(lines, marks, maxSize, window, size, cs, lastBreak, lo, i)
    && ChunkState(lines, marks, maxSize, overlapLines, chunks, cuts, cs, lo)
  }

  /** The break test of the scan, on line `i` against the last line of the
      window, is `marks[i]`. */
  lemma BreakTest(lines: seq<string>, window: seq<string>, cs: nat, i: nat)
    requires cs < i < |lines| && window == lines[cs..i]
    ensures IsParagraphBreak(lines[i], window[|window| - 1]) == BreakMarks(lines)[i]
  {
    assert window[|window| - 1] == lines[i - 1];
    MarkAt(lines, i);
  }

  /** Recording the break on line `i` keeps `lastBreak` the last break of the window. */
  lemma RecordBreak(marks: seq<bool>, window: seq<string>, cs: nat, lastBreak: int, lo: nat, i: nat, brk: bool)
    requires cs <= i < |marks| && |window| == i - cs
    requires cs + 1 <= lo && (lo <= i || (i == 0 && lo == 1))
    requires lastBreak == WindowBreak(marks, lo, i, cs)
    requires brk == (|window| > 0 && marks[i])
    ensures (if brk then |window| else lastBreak) == WindowBreak(marks, lo, i + 1, cs)
    ensures (if brk then |window| else lastBreak) <= |window|
  {
    if i == 0 {
      assert LastBreak(marks, lo, i + 1) == -1;
    } else if marks[i] {
      assert LastBreak(marks, lo, i + 1) == i;
    } else {
      assert LastBreak(marks, lo, i + 1) == LastBreak(marks, lo, i);
    }
  }

  /** Line `i`'s break is recorded and the line is about to join `window`,
      which is `lines[cs..i]`; every line since `lo`, line `i` included, fits. */
  ghost predicate Pending(lines: seq<string>, marks: seq<bool>, maxSize: int, window: seq<string>, size: nat,
                          cs: nat, lastBreak: int, lo: nat, i: nat)
  {
    |marks| == |lines| && cs <= i < |lines|
    && window == lines[cs..i] && size == SizeOf(window)
    && cs + 1 <= lo <= i + 1
    && lastBreak == WindowBreak(marks, lo, i + 1, cs)
    && (forall j :: lo <= j <= i ==> Fits(lines, cs, j, maxSize))
  }

  /** Line `i` fits (or the window is empty): nothing is cut. */
  lemma KeepPending(lines: seq<string>, marks: seq<bool>, maxSize: int, window: seq<string>, size: nat,
                    cs: nat, lastBreak0: int, lastBreak: int, lo: nat, i: nat)
    requires i < |lines|
    requires WindowState(lines, marks, maxSize, window, size, cs, lastBreak0, lo, i)
    requires lastBreak == WindowBreak(marks, lo, i + 1, cs)
    requires !(size + |lines[i]| + 1 > maxSize && |window| > 0)
    ensures Pending(lines, marks, maxSize, window, size, cs, lastBreak, lo, i)
  {
  }

  /** Line `i` joins the window. */
  lemma Append(lines: seq<string>, marks: seq<bool>, maxSize: int, window0: seq<string>, size0: nat,
               cs: nat, lastBreak: int, lo: nat, i0: nat, window: seq<string>, size: nat, i: nat)
    requires Pending(lines, marks, maxSize, window0, size0, cs, lastBreak, lo, i0)
    requires window == window0 + [lines[i0]] && size == size0 + |lines[i0]| + 1 && i == i0 + 1
    ensures WindowState(lines, marks, maxSize, window, size, cs, lastBreak, lo, i)
  {
    SizeOfAppend(window0, lines[i0]);
    assert window0 + [lines[i0]] == lines[cs..i];
  }

  /** The cut explains the new chunk. */
  lemma CutExplainedNew(lines: seq<string>, marks: seq<bool>, maxSize: int, window: seq<string>, size: nat,
                        cs: nat, lo: nat, i: nat, lb: int, splitAt: nat, e: int)
    requires |marks| == |lines| && cs < i < |lines|
    requires window == lines[cs..i] && size == SizeOf(window)
    requires cs + 1 <= lo <= i
    requires forall j :: lo <= j < i ==> Fits(lines, cs, j, maxSize)
    requires lb == WindowBreak(marks, lo, i + 1, cs) && lb <= |window|
    requires size + |lines[i]| + 1 > maxSize
    requires splitAt == SplitPoint(lb, |window|) && e == cs + splitAt - 1
    ensures CutAt(lines, marks, maxSize, cs, e, lo, i)
  {
    var j := LastBreak(marks, lo, i + 1);
    assert j <= i;
  }

  /** The chunk's lines and the new window are slices of the source. */
  lemma CutWindows(lines: seq<string>, window: seq<string>, cs: nat, i: nat, splitAt: nat, ov: nat)
    requires cs <= i <= |lines| && window == lines[cs..i]
    requires splitAt <= |window| && ov <= splitAt
    ensures window[..splitAt] == lines[cs..cs + splitAt]
    ensures window[..splitAt][splitAt - ov..] + window[splitAt..] == lines[cs + splitAt - ov..i]
  {
  }

  /** After a cut the new window starts the scan of line `i + 1` afresh. */
  lemma CutPending(lines: seq<string>, marks: seq<bool>, maxSize: int, window: seq<string>,
                   cs: nat, i: nat, splitAt: nat, ov: nat, window': seq<string>, cs': nat)
    requires |marks| == |lines| && cs <= i < |lines| && window == lines[cs..i]
    requires splitAt <= |window| && ov <= splitAt
    requires window' == window[..splitAt][splitAt - ov..] + window[splitAt..] && cs' == cs + splitAt - ov
    ensures Pending(lines, marks, maxSize, window', SizeOf(window'), cs', -1, i + 1, i)
  {
    CutWindows(lines, window, cs, i, splitAt, ov);
    assert LastBreak(marks, i + 1, i + 1) < 0;
  }

  /** The cut chunk joins the chunks. */
  lemma CutChunkState(lines: seq<string>, marks: seq<bool>, maxSize: int, overlapLines: int,
                      chunks0: seq<Chunk>, cuts0: seq<nat>, window: seq<string>, size: nat,
                      cs0: nat, lo0: nat, i: nat, lb: int, splitAt: nat, c: Chunk, ov: nat,
                      chunks: seq<Chunk>, cuts: seq<nat>, cs: nat)
    requires |marks| == |lines| && cs0 < i < |lines|
    requires window == lines[cs0..i] && size == SizeOf(window)
    requires cs0 + 1 <= lo0 <= i
    requires forall j :: lo0 <= j < i ==> Fits(lines, cs0, j, maxSize)
    requires ChunkState(lines, marks, maxSize, overlapLines, chunks0, cuts0, cs0, lo0)
    requires lb == WindowBreak(marks, lo0, i + 1, cs0) && lb <= |window|
    requires size + |lines[i]| + 1 > maxSize
    requires splitAt == SplitPoint(lb, |window|)
    requires c == Chunk(|chunks0|, Join(lines[cs0..cs0 + splitAt], "\n"), cs0, cs0 + splitAt - 1)
    requires ov == OverlapOf(overlapLines, c)
    requires chunks == chunks0 + [c] && cuts == cuts0 + [i] && cs == cs0 + splitAt - ov
    ensures ChunkState(lines, marks, maxSize, overlapLines, chunks, cuts, cs, i + 1)
  {
    assert IsSlice(c, |chunks0|, lines);
    SlicesAppend(chunks0, c, lines);
    LinkedAppend(chunks0, c, overlapLines);
    CutsAppend(lines, marks, chunks0, cuts0, maxSize, c, [i]);
    CutExplainedNew(lines, marks, maxSize, window, size, cs0, lo0, i, lb, splitAt, c.endLine);
    assert Lo(cuts, |cuts0|) == lo0;
    assert CutExplained(lines, marks, chunks, cuts, maxSize, |cuts0|);
    assert chunks[0].startLine == 0;
  }

  /**
   * The cut of `chunk_text`: line `i` does not fit the non-empty window
   * `lines[cs..i]`. The window is split at the recorded break when that lies
   * past its middle, otherwise after all its lines; the first part becomes a
   * chunk, and the new window is the chunk's last `overlapLines` lines
   * followed by the rest.
   */
  method Cut(lines: seq<string>, ghost marks: seq<bool>, maxSize: int, overlapLines: int,
             chunks: seq<Chunk>, ghost cuts: seq<nat>, window: seq<string>, size: nat,
             cs: nat, lastBreak: int, ghost lo: nat, i: nat)
    returns (chunks': seq<Chunk>, ghost cuts': seq<nat>, window': seq<string>, size': nat, cs': nat)
    requires |marks| == |lines| && cs < i < |lines|
    requires window == lines[cs..i] && size == SizeOf(window)
    requires cs + 1 <= lo <= i
    requires forall j :: lo <= j < i ==> Fits(lines, cs, j, maxSize)
    requires ChunkState(lines, marks, maxSize, overlapLines, chunks, cuts, cs, lo)
    requires lastBreak == WindowBreak(marks, lo, i + 1, cs) && lastBreak <= |window|
    requires size + |lines[i]| + 1 > maxSize
    ensures |chunks'| == |chunks| + 1 && chunks'[..|chunks|] == chunks && cuts' == cuts + [i]
    ensures Pending(lines, marks, maxSize, window', size', cs', -1, i + 1, i)
    ensures ChunkState(lines, marks, maxSize, overlapLines, chunks', cuts', cs', i + 1)
  {
    var minBreak := |window| / 2;
    var splitAt := if lastBreak > minBreak then lastBreak else |window|;
    var chunkLines := window[..splitAt];
    var remaining := window[splitAt..];
    var c := Chunk(|chunks|, Join(chunkLines, "\n"), cs, cs + |chunkLines| - 1);
    var ovLen := if overlapLines <= 0 then 0 else if overlapLines < |chunkLines| then overlapLines else |chunkLines|;
    var overlap := chunkLines[|chunkLines| - ovLen..];
    chunks' := chunks + [c];
    cuts' := cuts + [i];
    cs' := cs + |chunkLines| - |overlap|;
    window' := overlap + remaining;
    size' := SizeOf(window');
    CutStep(lines, marks, maxSize, overlapLines, chunks, cuts, window, size, cs, lastBreak, lo, i,
            splitAt, c, ovLen, chunks', cuts', window', cs');
  }

  /** The state after `Cut`, from the split point, the chunk and its overlap. */
  lemma CutStep(lines: seq<string>, marks: seq<bool>, maxSize: int, overlapLines: int,
                chunks: seq<Chunk>, cuts: seq<nat>, window: seq<string>, size: nat,
                cs: nat, lastBreak: int, lo: nat, i: nat,
                splitAt: nat, c: Chunk, ov: nat, chunks': seq<Chunk>, cuts': seq<nat>, window': seq<string>, cs': nat)
    requires |marks| == |lines| && cs < i < |lines|
    requires window == lines[cs..i] && size == SizeOf(window)
    requires cs + 1 <= lo <= i
    requires forall j :: lo <= j < i ==> Fits(lines, cs, j, maxSize)
    requires ChunkState(lines, marks, maxSize, overlapLines, chunks, cuts, cs, lo)
    requires lastBreak == WindowBreak(marks, lo, i + 1, cs) && lastBreak <= |window|
    requires size + |lines[i]| + 1 > maxSize
    requires splitAt == (if lastBreak > |window| / 2 then lastBreak else |window|)
    requires c == Chunk(|chunks|, Join(window[..splitAt], "\n"), cs, cs + splitAt - 1)
    requires ov == (if overlapLines <= 0 then 0 else if overlapLines < splitAt then overlapLines else splitAt)
    requires chunks' == chunks + [c] && cuts' == cuts + [i]
    requires window' == window[..splitAt][splitAt - ov..] + window[splitAt..] && cs' == cs + splitAt - ov
    ensures |chunks'| == |chunks| + 1 && chunks'[..|chunks|] == chunks && cuts' == cuts + [i]
    ensures Pending(lines, marks, maxSize, window', SizeOf(window'), cs', -1, i + 1, i)
    ensures ChunkState(lines, marks, maxSize, overlapLines, chunks', cuts', cs', i + 1)
  {
    assert splitAt == SplitPoint(lastBreak, |window|);
    CutWindows(lines, window, cs, i, splitAt, ov);
    CutPending(lines, marks, maxSize, window, cs, i, splitAt, ov, window', cs');
    CutChunkState(lines, marks, maxSize, overlapLines, chunks, cuts, window, size, cs, lo, i,
                  lastBreak, splitAt, c, ov, chunks', cuts', cs');
  }

  /** The last window becomes the last chunk. */
  lemma Finish(lines: seq<string>, marks: seq<bool>, maxSize: int, overlapLines: int,
               chunks: seq<Chunk>, cuts: seq<nat>, window: seq<string>, size: nat,
               cs: nat, lastBreak: int, lo: nat, last: Chunk)
    requires |lines| >= 1
    requires ScanState(lines, marks, maxSize, overlapLines, chunks, cuts, window, size, cs, lastBreak, lo, |lines|)
    requires last == Chunk(|chunks|, Join(window, "\n"), cs, cs + |window| - 1)
    ensures Slices(chunks + [last], lines) && Chained(chunks + [last], overlapLines)
    ensures last.endLine == |lines| - 1
    ensures CutsExplained(lines, marks, chunks + [last], cuts, maxSize)
    ensures 0 <= cs < Lo(cuts, |cuts|) && TailFits(lines, cs, Lo(cuts, |cuts|), maxSize)
  {
    assert IsSlice(last, |chunks|, lines);
    SlicesAppend(chunks, last, lines);
    LinkedAppend(chunks, last, overlapLines);
    CutsAppend(lines, marks, chunks, cuts, maxSize, last, []);
    assert (chunks + [last])[0].startLine == 0;
  }

  /**
   * The scan of `chunk_text` over the lines of a text too long for one
   * chunk. A line that does not fit the current (non-empty) window makes a
   * `Cut`, and then joins the window; the last window is the last chunk.
   * The ghost `cuts` records, per chunk but the last, the line that
   * triggered its cut.
   */
  method ScanLines(lines: seq<string>, maxSize: int, overlapLines: int) returns (chunks: seq<Chunk>, ghost cuts: seq<nat>)
    requires |lines| >= 1
    ensures Slices(chunks, lines) && Chained(chunks, overlapLines)
    ensures chunks[|chunks| - 1].endLine == |lines| - 1
    ensures |cuts| == |chunks| - 1
    ensures CutsExplained(lines, BreakMarks(lines), chunks, cuts, maxSize)
    ensures 0 <= chunks[|chunks| - 1].startLine < Lo(cuts, |cuts|)
    ensures TailFits(lines, chunks[|chunks| - 1].startLine, Lo(cuts, |cuts|), maxSize)
  {
    ghost var marks := BreakMarks(lines);
    chunks, cuts := [], [];
    var window: seq<string> := [];
    var size: nat := 0;
    var cs: nat := 0;
    var lastBreak: int := -1;
    ghost var lo: nat := 1;
    var i: nat := 0;
    while i < |lines|
      invariant ScanState(lines, marks, maxSize, overlapLines, chunks, cuts, window, size, cs, lastBreak, lo, i)
    {
      var line := lines[i];
      var lineSize := |line| + 1;
      var brk := |window| > 0 && IsParagraphBreak(line, window[|window| - 1]);
      if |window| > 0 { BreakTest(lines, window, cs, i); }
      RecordBreak(marks, window, cs, lastBreak, lo, i, brk);
      ghost var lastBreak0 := lastBreak;
      if brk {
        lastBreak := |window|;
      }
      if size + lineSize > maxSize && |window| > 0 {
        chunks, cuts, window, size, cs := Cut(lines, marks, maxSize, overlapLines, chunks, cuts, window, size,
                                              cs, lastBreak, lo, i);
        lastBreak := -1;
        lo := i + 1;
      } else {
        KeepPending(lines, marks, maxSize, window, size, cs, lastBreak0, lastBreak, lo, i);
      }
      ghost var window0, size0, i0 := window, size, i;
      window := window + [line];
      size := size + lineSize;
      i := i + 1;
      Append(lines, marks, maxSize, window0, size0, cs, lastBreak, lo, i0, window, size, i);
    }
    var last := Chunk(|chunks|, Join(window, "\n"), cs, cs + |window| - 1);
    Finish(lines, marks, maxSize, overlapLines, chunks, cuts, window, size, cs, lastBreak, lo, last);
    chunks := chunks + [last];
  }

  /**
   * `chunk_text`: a text that fits is one chunk holding all of it; a longer
   * one is scanned line by line.
   */
  method ChunkText(text: string, maxSize: int, overlapLines: int) returns (chunks: seq<Chunk>, ghost cuts: seq<nat>)
    ensures |text| <= maxSize ==> chunks == [Chunk(0, text, 0, |Lines(text)| - 1)]
    ensures Slices(chunks, Lines(text)) && Chained(chunks, overlapLines)
    ensures chunks[|chunks| - 1].endLine == |Lines(text)| - 1
    ensures |text| > maxSize ==> |cuts| == |chunks| - 1
    ensures |text| > maxSize ==> CutsExplained(Lines(text), BreakMarks(Lines(text)), chunks, cuts, maxSize)
    ensures |text| > maxSize ==> (0 <= chunks[|chunks| - 1].startLine < Lo(cuts, |cuts|)
      && TailFits(Lines(text), chunks[|chunks| - 1].startLine, Lo(cuts, |cuts|), maxSize))
  {
    var lines := Lines(text);
    if |text| <= maxSize {
      JoinSplit(text, '\n');
      assert lines[0..|lines|] == lines;
      chunks, cuts := [Chunk(0, text, 0, |lines| - 1)], [];
      assert IsSlice(chunks[0], 0, lines);
    } else {
      chunks, cuts := ScanLines(lines, maxSize, overlapLines);
    }
  }
}

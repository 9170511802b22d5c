# content-summarizer-agent in Dafny

This project models the core of content-summarizer-agent. The system
turns a YouTube video, a web page, a PDF or a local video into a
structured Markdown study note. Each extractor produces timestamped or
page-marked text with a quality score and warnings. `main.py` stores that
text as a raw file. The note generator, or the writer/critic agents
steered by the orchestrator, turn it into a note. The verifier and the
critic score the note's citations, structure and faithfulness. For long
sources, the phased pipeline splits the text into overlapping chunks at
natural paragraph boundaries, writes one note per part and merges the
parts. `add_video_embed.py` inserts a YouTube player into finished notes.

The model follows the source file by file, with one Dafny module per core
file and a few shared ones:

| module | file(s) | what it holds |
|---|---|---|
| `Text`, `Seqs`, `Wrappers` | — | Python string and list behaviour the core relies on: `strip` (Python whitespace), `split`/`join`, `find`/`rfind`, `in`, `count`, `replace`, zero-padding, `os.path.basename`/`splitext`, truncating `int()`; first-occurrence de-duplication; `Option`/`Result` |
| `Timestamps` | extractors/youtube.py, extractors/video.py, generators/chunker.py | `format_timestamp` (identical in both extractors) and `parse_timestamp_seconds` |
| `Chunker`, `ChunkCoverage` | generators/chunker.py | `text_stats`, `_is_paragraph_break`, `chunk_text` and what its chunks add up to |
| `SourceSampling` | generators/chunker.py | `sample_source` |
| `AnalysisMerge` | generators/chunker.py | `merge_analysis_dicts`, `_most_common` |
| `Citations` | generators/verifier.py, generators/agents/critic.py | hand-written matchers for the citation patterns both checks count |
| `Verifier` | generators/verifier.py | citation, structure and faithfulness checks, the weighted total, the feedback text |
| `Critic`, `Agents` | generators/agents/critic.py, generators/agents/base.py | the critic's checks and verdict; the token counts of an agent call |
| `Orchestrator` | generators/agents/orchestrator.py | the write/critique/revise loop |
| `SafeName` | phased_pipeline.py, main.py | `sanitize_dirname` and `sanitize_filename`, which share one substitution chain |
| `Pipeline` | phased_pipeline.py | the three phases over a work directory held as a map from file name to content |
| `NoteGen` | generators/note_generator.py | raw-file parsing, the prompt, note paths and results |
| `Cli` | main.py | the format menu, `--formats`, the raw file writer, output file names |
| `Embed` | add_video_embed.py | the player block, its insertion and its idempotence |
| `Web`, `Pdf`, `Transcript`, `YouTube`, `Video` | extractors/*.py | the four extractors; `Transcript` holds what the YouTube and the video extractors share |

Every call into an outside service is a parameter of the model: the
language model, the caption service, yt-dlp, Whisper, OCR, the PDF
libraries, the HTML extractors, the file system checks and the clock. A
parameter is either a value (a reply, a page's text, today's date) or a
function the caller supplies.

## Model

| member | source | states |
|---|---|---|
| Timestamps.FormatTimestamp | extractors/youtube.py:92-99 | `HH:MM:SS` from one hour on, `MM:SS` below; below 100 hours the result is 5 or 8 characters with ':' separators |
| Timestamps.ParseTimestampSeconds | generators/chunker.py:221-235 | a value comes back exactly when the text (after an optional '[') starts with one or two digits, ':' and two digits |
| Timestamps.ParseFormatRoundTrip | generators/chunker.py:221-235 | parsing a formatted timestamp gives back the seconds, for every whole number of seconds below 100 hours |
| Chunker.Lines | generators/chunker.py:29 | `text.split('\n')` has at least one line |
| Chunker.Stats | generators/chunker.py:27-35 | character count, line count (newlines + 1), whether the text exceeds the threshold, and an estimate e ≥ 1 with (e−1)·20000 < length ≤ e·20000 for non-empty text |
| Chunker.LastBreak | generators/chunker.py:100-101 | the most recent recorded break in a window, or −1; no later line in the window is a break |
| Chunker.SplitPoint | generators/chunker.py:105-110 | the split lies strictly past half of the window and is either the last break or the whole window |
| Chunker.Cut | generators/chunker.py:103-127 | a cut appends exactly one chunk, the new window starts with the overlap plus the remaining lines, and the chunk invariant holds again |
| Chunker.Finish | generators/chunker.py:132-139 | the last window becomes the last chunk and ends on the text's last line |
| Chunker.ScanLines | generators/chunker.py:88-141 | the chunks are slices of the lines, each starting where the previous ended minus the overlap; the last ends on the last line; every cut happened because the next line did not fit, at the recorded break when one lay past half the window |
| Chunker.ChunkText | generators/chunker.py:58-141 | a text that fits is one chunk with all of it; otherwise the chunks of `ScanLines` |
| ChunkCoverage.SpanTelescope | generators/chunker.py:118-124 | over any prefix of the chunks, spans minus overlaps reach the last line covered |
| ChunkCoverage.LineAccounting | generators/chunker.py:112-139 | the lines of all chunks less the repeated overlap lines equal the number of lines of the text |
| ChunkCoverage.CoveredPrefix | generators/chunker.py:112-139 | every line up to the furthest end so far lies in some chunk |
| ChunkCoverage.AllLinesCovered | generators/chunker.py:58-141 | no line of the text is lost: each one lies in at least one chunk |
| ChunkCoverage.NoOverlapJoin | generators/chunker.py:112-125 | with overlap 0, the first n chunk texts joined by newlines are the lines up to the n-th chunk's end |
| ChunkCoverage.NoOverlapRebuildsLines | generators/chunker.py:112-139 | with overlap 0, the chunk texts joined by newlines are all the lines joined by newlines |
| ChunkCoverage.NoOverlapRebuildsText | generators/chunker.py:58-141 | with overlap 0, joining the chunk texts by newlines gives back the original text |
| SourceSampling.LongestFit | generators/chunker.py:178-185 | the number of leading lines taken: they fit the budget and one more would not |
| SourceSampling.LongestSuffixFitSpec | generators/chunker.py:197-204 | the trailing lines taken fit the budget and one more would not |
| SourceSampling.FitUnique | generators/chunker.py:178-185 | the leading count is the only count with that property |
| SourceSampling.NothingFits | generators/chunker.py:181-204 | with a budget of 0 or less nothing is taken from either end |
| SourceSampling.TakeFitting | generators/chunker.py:178-195 | the loop collects exactly the longest fitting prefix |
| SourceSampling.TakeFittingFromEnd | generators/chunker.py:197-205 | the reverse loop with `insert(0)` collects exactly the longest fitting suffix, in text order |
| SourceSampling.MidStart | generators/chunker.py:188 | the middle section starts inside the text |
| SourceSampling.SampleSource | generators/chunker.py:144-218 | a text within the limit comes back unchanged; otherwise the first characters (10 lines or fewer) or the three sections with their markers |
| SourceSampling.SampleSections | generators/chunker.py:161-218 | the loops compute the three-section sample |
| SourceSampling.SampleKeepsOpeningAndEnd | generators/chunker.py:178-218 | the sample starts with the text's opening lines and, when any end lines were taken, ends with the text's closing lines |
| SourceSampling.AssembleLength | generators/chunker.py:207-218 | the sample's length is the sum of its sections and markers |
| SourceSampling.SectionWithinBudget | generators/chunker.py:178-204 | each joined section is no longer than its budget |
| SourceSampling.BudgetsWithinUsable | generators/chunker.py:167-176 | the three budgets together stay within the usable length |
| SourceSampling.SampleWithinLimit | generators/chunker.py:144-218 | the sample is never longer than `max_length` (for texts with fewer than 10^12 lines) |
| AnalysisMerge.CountItems | generators/chunker.py:301-303 | the dict's keys are the items' first occurrences in order, and each count is the item's number of occurrences |
| AnalysisMerge.MostCommon | generators/chunker.py:297-304 | '' for no items; otherwise an item with the highest count, the first such in order of first appearance |
| AnalysisMerge.MostCommonUnique | generators/chunker.py:297-304 | at most one item is the most common one |
| AnalysisMerge.MostCommonPick | generators/chunker.py:304 | the first key with the highest count is the most common item |
| AnalysisMerge.Summaries | generators/chunker.py:291 | only non-empty summaries are joined |
| AnalysisMerge.ConcatAll | generators/chunker.py:270-271 | the structure lists appended in order |
| AnalysisMerge.DedupAll | generators/chunker.py:274-288 | the seen-set loops keep each item whose key is new, in order |
| AnalysisMerge.MergeAnalyses | generators/chunker.py:238-294 | {} for none, the analysis itself for one; otherwise the first topic and format, the most common type and level, all structures, de-duplicated concepts and relationships, and the summaries joined by spaces |
| AnalysisMerge.MergedConcepts | generators/chunker.py:273-279 | the merged concepts are duplicate-free and a concept is among them exactly when some analysis lists it |
| AnalysisMerge.MergedRelationships | generators/chunker.py:281-288 | no two merged relationships share (from, to, type); each comes from some analysis; every key of the input is represented |
| AnalysisMerge.MergedStructureLength | generators/chunker.py:269-271 | the merged structure holds every section of every analysis |
| Seqs.DedupByDistinctKeys | generators/chunker.py:282-288 | a seen-set loop never keeps two items with the same key |
| Seqs.DedupByKeys | generators/chunker.py:282-288 | a seen-set loop keeps every key of its input and no other |
| Seqs.DedupFirstSpec | generators/chunker.py:274-279 | keeping first occurrences gives a duplicate-free list with the same elements |
| Seqs.DedupFirstOrder | generators/chunker.py:274-279 | keeping first occurrences keeps their order |
| Citations.PatternFor | generators/verifier.py:49-65 | 'pdf' selects the page pattern, 'web' the bracket pattern, every other source type the timestamp pattern |
| Citations.TimeMatch | generators/verifier.py:50 | a match of `\[\d{1,2}:\d{2}(:\d{2})?\]` spans at least 6 characters, starting with '[' and ending with ']' |
| Citations.PageMatch | generators/verifier.py:52 | a match of `\[p\.?\s*\d+\]` spans at least 4 characters, starting with '[' and ending with ']' |
| Citations.BracketMatch | generators/verifier.py:53 | a match of `\[[^\]]+\]` spans at least 3 characters, starting with '[' and ending with ']' |
| Citations.MatchAt | generators/verifier.py:67 | any match is at least the pattern's shortest length and lies between '[' and ']' |
| Citations.CountFromBound | generators/verifier.py:67 | scanning from any index, the matches found times the shortest match fit in what is left |
| Citations.CitationCountBound | generators/verifier.py:67-68 | the number of `re.findall` matches times the shortest match fits in the note |
| Citations.CitedHasBrackets | generators/verifier.py:95-97 | a note with a citation has a '[' before its last ']' |
| Citations.NoBracketNoCitation | generators/verifier.py:67 | a text without '[' has no citation |
| Citations.ShortFormCites | generators/verifier.py:50 | `[MM:SS]` is one whole timestamp citation |
| Citations.LongFormCites | generators/verifier.py:50 | `[HH:MM:SS]` is one whole timestamp citation |
| Citations.BracketedFieldsCite | generators/verifier.py:50 | two-digit fields joined by ':' and bracketed are one whole citation |
| Citations.FormattedTimestampCites | extractors/youtube.py:92-99 | a bracketed `format_timestamp` result below 100 hours is one whole timestamp citation of the verifier |
| Citations.PageCitationForms | generators/verifier.py:52 | `[p.N]` and `[p. N]` are page citations |
| Verifier.CitationScoreRange | generators/verifier.py:81-105 | the citation score is a multiple of 10 within 0..100 |
| Verifier.CitationZeroIff | generators/verifier.py:82-105 | the citation score is 0 exactly when the note has no citation |
| Verifier.CitationFullIff | generators/verifier.py:82-105 | the score is 100 exactly when there are 5 or more citations, the first '[' lies within the first 30% and the last ']' within the last 30%; and exactly when there is no issue |
| Verifier.SpreadSeesAnyBracket | generators/verifier.py:96-100 | the early-position test looks at any '[', cited or not |
| Verifier.CheckMarkers | generators/verifier.py:129-134 | one issue per missing marker, in rule order, 20 points each |
| Verifier.CheckKeywords | generators/verifier.py:137-142 | one issue per keyword missing from the lower-cased note, 15 points each |
| Verifier.CheckTail | generators/verifier.py:144-162 | the section-count, mermaid and tree issues with their 15, 30 and 20 points |
| Verifier.VerifyStructure | generators/verifier.py:110-167 | the structure check: 100 less all deductions, floored at 0, with all issues in order |
| Verifier.MissingMarkersReported | generators/verifier.py:129-132 | every missing marker is reported |
| Verifier.ReportedMarker | generators/verifier.py:129-132 | every marker issue names a marker the note lacks |
| Verifier.KeywordIssuesLength | generators/verifier.py:137-140 | no keyword issue exactly when every keyword is present |
| Verifier.StructureScoreRange | generators/verifier.py:126-167 | the structure score lies in 0..100 and is 100 exactly when there is no issue |
| Verifier.MindmapWithoutMermaid | generators/verifier.py:128-162 | a mind map without a mermaid block scores at most 50 |
| Verifier.UnknownTemplateIsDetailed | generators/verifier.py:118 | an unknown template is checked by the 'detailed' rules |
| Verifier.HeadingMarkers | generators/verifier.py:129-145 | a note with a second-level heading has both heading markers |
| Verifier.DetailedFullMarks | generators/verifier.py:126-167 | a note with 3 or more second-level headings gets full marks under 'detailed' |
| Verifier.SourceExcerpt | generators/verifier.py:190-194 | a source up to 10000 characters is sent whole; a longer one is cut to 10000 with the omission note |
| Verifier.SourceExcerptBounds | generators/verifier.py:190-194 | the excerpt is at most 10000 characters plus the note, and starts with the source's opening |
| Verifier.FaithFallbacks | generators/verifier.py:182-269 | without the package, without a key, on an unparsable reply or on an error: one issue, no suggestion, and 80 (70 for the unparsable reply) |
| Verifier.HallucinationsQuoted | generators/verifier.py:250-252 | each of the first three hallucinations appears in the first issue |
| Verifier.PassIff | generators/verifier.py:317-332 | the note passes exactly when citation + structure + 2·faithfulness reaches 320 |
| Verifier.TotalRange | generators/verifier.py:318-322 | the total lies in 0..100 |
| Verifier.PassWithoutKey | generators/verifier.py:314-315 | without a key the faithfulness score is 80, so passing needs citation + structure ≥ 160 |
| Verifier.UncitedNoteFails | generators/verifier.py:318-332 | a note without citations scores at most 75 and never passes |
| Verifier.UncitedOneMarkerShort | generators/verifier.py:318-322 | with no citation, a structure score of 80 and no key, the total is 60 |
| Verifier.FormatFeedback | generators/verifier.py:340-359 | the feedback text: head, score line, the issue and suggestion sections when non-empty, tail |
| Verifier.AppendBullets | generators/verifier.py:349-355 | the bullet loop appends `- item` lines in order |
| Verifier.BulletsList | generators/verifier.py:349-355 | every item appears as a bullet line |
| Verifier.FeedbackContents | generators/verifier.py:340-359 | the feedback starts with the head, ends with the closing line and lists every issue and suggestion as a bullet |
| Critic.CriticCitationSteps | generators/agents/critic.py:148-167 | the critic's citation score is 0, 40, 70 or 100, with an issue exactly below three citations, and equals the verifier's score before its spread penalty |
| Critic.CountScoreMonotone | generators/agents/critic.py:156-165 | more citations never lower the citation score |
| Critic.CriticCitationsLenient | generators/agents/critic.py:148-167 | the critic never scores citations below the verifier |
| Critic.CheckMarkers | generators/agents/critic.py:175-179 | one issue per missing marker, 20 points each |
| Critic.CheckKeywords | generators/agents/critic.py:181-185 | one issue per keyword missing from the lower-cased note, 15 points each |
| Critic.VerifyStructure | generators/agents/critic.py:169-193 | the structure check: 100 less 20 per marker, 15 per keyword and 30 for a mind map without mermaid, floored at 0 |
| Critic.SameMarkerCount | generators/agents/critic.py:175-179 | the critic reports exactly as many missing markers as the verifier |
| Critic.MarkerIssuesLength | generators/agents/critic.py:175-179 | no marker issue exactly when every marker is present |
| Critic.KeywordIssuesLength | generators/agents/critic.py:181-185 | the critic reports exactly as many missing keywords as the verifier |
| Critic.CriticStructureRange | generators/agents/critic.py:173-193 | the structure score lies in 0..100 and is 100 exactly when there is no issue |
| Critic.CriticStructureLenient | generators/agents/critic.py:169-193 | the critic never scores structure below the verifier |
| Critic.Labelled | generators/agents/critic.py:258-271 | each item becomes `tag + item`, in order |
| Critic.AppendFirstTwo | generators/agents/critic.py:258-271 | the loop appends the labelled first two items |
| Critic.VerifyWithAi | generators/agents/critic.py:248-279 | the review's score (80 when missing), up to two issues of each kind, the suggestions; 75 and one issue on an exception |
| Critic.AiCheckShape | generators/agents/critic.py:252-279 | at most six issues; an exception gives 75, one issue, no suggestion; a reply without a score counts 80 |
| Critic.HallucinationReported | generators/agents/critic.py:256-259 | each of the first two hallucinations becomes its own issue |
| Critic.RunPassIff | generators/agents/critic.py:80-146 | the run succeeds; it passes exactly at 80 points, i.e. when 20c + 20s + 60a ≥ 8000; its issues are the three lists in order |
| Critic.RunAddsNoTokens | generators/agents/critic.py:142-146 | the run reports zero tokens, so it leaves the totals unchanged |
| Critic.FailedReviewPass | generators/agents/critic.py:114-121 | when the review fails, passing needs citation + structure ≥ 175 |
| Critic.UncitedPassesOnlyWhenPerfect | generators/agents/critic.py:114-158 | a note without citations passes exactly when structure and review both score 100 |
| Orchestrator.CriticOfSound | generators/agents/critic.py:114-146 | the critic run inside the loop passes exactly at 80 points and reports no tokens |
| Orchestrator.RevisionsBound | generators/agents/orchestrator.py:135-181 | at most one revision per attempt and none after the last: at most max_attempts - 1 |
| Orchestrator.TokensOfSuccessfulCalls | generators/agents/orchestrator.py:105-204 | the token totals after k attempts are the input and output counts of the successful calls only, summed with a missing key counting 0; the run makes 2 + k + (revisions asked for) calls |
| Orchestrator.GenerateNote | generators/agents/orchestrator.py:63-199 | analyst and writer failures return their messages; otherwise the loop makes between 1 and max_attempts critic calls, stops early only on a passing critique, and returns the first best-scoring draft (the first draft when none scored above 0), its critique, the attempt count and the token totals |
| Orchestrator.BestUnique | generators/agents/orchestrator.py:157-160 | the first highest-scoring attempt is unique |
| Orchestrator.PassingDraftReturned | generators/agents/orchestrator.py:157-166 | when the loop stops on a passing critique, the draft returned is the one that passed |
| Orchestrator.DraftIsWritten | generators/agents/orchestrator.py:124-180 | every draft the critic sees is the writer's or a successful revision |
| Orchestrator.DraftKept | generators/agents/orchestrator.py:148-180 | a critic failure or a failed revision keeps the current draft |
| SafeName.RemoveDisallowed | main.py:90 | only word characters, whitespace and '-' remain; a character occurs in the result exactly when it occurs in the input and is one of those; a text of those is unchanged |
| SafeName.SpaceRunsToUnderscore | main.py:92 | no whitespace remains, every other character comes from the input, and a text without whitespace is unchanged |
| SafeName.DropUnderscores | main.py:94 | the run-skipping step of the `_{2,}` squeeze: a suffix of the input that does not start with '_' |
| SafeName.SqueezeUnderscores | main.py:94 | no two '_' in a row remain, nothing new appears, and a text without a double '_' is unchanged |
| SafeName.Truncate | main.py:96-97 | a prefix of the input no longer than the limit, the input itself when it fits |
| SafeName.Substitute | main.py:90-94 | after the three substitutions only word characters and '-' remain, and no two '_' in a row |
| SafeName.Sanitize | main.py:82-98 | the sanitised name has only word characters and '-', no double '_', and respects a non-negative limit |
| SafeName.SanitizeIdempotent | main.py:82-98 | sanitising a sanitised name changes nothing |
| Pipeline.SanitizeDirname | phased_pipeline.py:39-46 | a work-directory title is at most 60 characters, without whitespace or a double '_' |
| Pipeline.WorkDirName | phased_pipeline.py:105-107 | the work directory name ends with `_{source}_{date}` and its title part is at most 60 characters without whitespace |
| Pipeline.ParseLine | phased_pipeline.py:360-362 | a metadata line yields a pair exactly when it holds ':' |
| Text.ReadTextLines | generators/note_generator.py:29-30 | no '\r' survives the text-mode read, and a content reads back unchanged exactly when it holds no '\r' |
| Pipeline.LoadMetadata | phased_pipeline.py:353-363 | `{}` without the metadata file; otherwise each line of the text-mode read (which ends lines at '\n', '\r\n' and '\r') with ':' assigns its stripped value to its stripped key, later lines winning |
| Pipeline.MetadataTextLines | phased_pipeline.py:133-147 | the metadata file is the `key: value` lines joined by line breaks, with a final one |
| Pipeline.EntryLineParses | phased_pipeline.py:360-362 | a written `key: value` line reads back as the key and the stripped value |
| Pipeline.ReadBackAssigns | phased_pipeline.py:359-362 | reading the written lines performs one assignment per entry, in order |
| Pipeline.AssignDistinct | phased_pipeline.py:362 | with distinct keys every assignment survives |
| Pipeline.ReadBackLines | phased_pipeline.py:359-362 | reading the written lines back gives exactly the written keys, each with its stripped value |
| Pipeline.MetadataRoundTrip | phased_pipeline.py:353-363 | `load_metadata` on a file of entries holding neither '\n' nor '\r', with distinct keys, returns exactly those keys, each with its stripped value |
| Pipeline.CarriageReturnEndsValue | phased_pipeline.py:358-363 | a value `a\rb` reads back as `a`, stripped: the text-mode read ends the line at the '\r' and the rest, without ':', is skipped |
| Pipeline.Phase1Values | phased_pipeline.py:134-147 | one value per written key |
| Pipeline.Phase1KeysDistinct | phased_pipeline.py:134-147 | phase 1 writes no key twice |
| Pipeline.Phase1Readable | phased_pipeline.py:134-147 | every phase 1 entry reads back unchanged when no value holds '\n' or '\r' |
| Pipeline.Phase1EntriesOk | phased_pipeline.py:134-147 | at least ten distinct readable entries: source_type, the URL or else the path as source, title, and video_id exactly when the result has one |
| Pipeline.ZeroPadValue | phased_pipeline.py:212 | zero-padding a number's digits keeps its value |
| Pipeline.PartNamesDiffer | phased_pipeline.py:229 | different part numbers give different part file names |
| Pipeline.ChunkNamesDiffer | phased_pipeline.py:212 | different chunk numbers give different chunk file names |
| Pipeline.NamesDistinct | phased_pipeline.py:211-229 | chunk names are pairwise distinct, and so are part names |
| Pipeline.NamesDisjoint | phased_pipeline.py:211-229 | no chunk file name is a part note name |
| Pipeline.WriteFiles | phased_pipeline.py:227-251 | each listed name gets its content, except that without `force` an existing file keeps its content; nothing else changes |
| Pipeline.SaveChunksAndParts | phased_pipeline.py:209-251 | the chunk files are written, then the part notes, each as WriteFiles states |
| Pipeline.SaveNotes | phased_pipeline.py:209-251 | chunk k holds chunk k's text, part k holds the new note unless kept, every other file is unchanged |
| Pipeline.Phase2 | phased_pipeline.py:159-262 | an error without transcript.txt; otherwise the transcript, as read in text mode, is cut by the chunker with an overlap of 5 lines, covering every line, and the chunk and part files are written as SaveNotes states |
| Pipeline.ExistingPartsKept | phased_pipeline.py:233-235 | without `force` an existing part note is left as it was |
| Pipeline.PartNameMatches | phased_pipeline.py:229-288 | every part note phase 2 writes matches phase 3's `notes_part*.md` glob |
| Pipeline.SortNamesSpec | phased_pipeline.py:288 | `sorted` returns the names ascending and as a permutation |
| Pipeline.AscendingUnique | phased_pipeline.py:288 | the sorted order does not depend on the directory listing's order |
| Pipeline.NineInOrder | phased_pipeline.py:229-288 | up to nine parts, name order is part order |
| Pipeline.TenBeforeTwo | phased_pipeline.py:229-288 | from ten parts on, notes_part10.md is read before notes_part2.md |
| Pipeline.ReadParts | phased_pipeline.py:302-308 | the parts are the listed files' contents, as read in text mode, in order, and the total is the sum of their lengths |
| Pipeline.MergeSimple | phased_pipeline.py:632-667 | the header, then the parts separated by rules |
| Pipeline.AppendParts | phased_pipeline.py:661-665 | the loop gives the header followed by the parts joined with the separator |
| Pipeline.JoinedKeepsParts | phased_pipeline.py:661-665 | every part appears in the result and the last one ends it |
| Pipeline.SimpleKeepsParts | phased_pipeline.py:632-667 | the plain merge starts with its header lines, contains every part and ends with the last |
| Pipeline.MergeThematic | phased_pipeline.py:513-553 | without the anthropic package the plain merge and no request; otherwise one request over all parts joined by rules, and its answer |
| Pipeline.GroupCount | phased_pipeline.py:571-574 | the number of groups of three is n / 3 rounded up |
| Pipeline.Group | phased_pipeline.py:575 | a group holds one to three parts |
| Pipeline.MergeHierarchical | phased_pipeline.py:556-629 | without the package the plain merge; otherwise the group requests, then one final request over the joined summaries, whose answer is returned |
| Pipeline.SummarizeGroups | phased_pipeline.py:571-597 | the loop makes the group requests in order and collects their summaries |
| Pipeline.GroupsPrefix | phased_pipeline.py:574-575 | the first k groups are the first 3k parts |
| Pipeline.GroupsCover | phased_pipeline.py:574-575 | grouping drops no part and repeats none |
| Pipeline.SevenParts | phased_pipeline.py:574-577 | seven parts form the groups "Part 1-3", "Part 4-6" and "Part 7-7" |
| Pipeline.ModelCalls | phased_pipeline.py:313-325 | no model call without a key, with `--no-merge-ai` or without the package; one up to 100000 characters; one per group plus one above |
| Pipeline.MergeChosen | phased_pipeline.py:313-324 | with a key and without `--no-merge-ai`, the hierarchical merge above 100000 characters and the thematic merge otherwise; else the plain merge: the text and the model requests are those of the chosen strategy |
| Pipeline.Phase3 | phased_pipeline.py:265-346 | an error exactly when no part note exists; otherwise the parts are read in text mode in sorted name order, merged by the chosen strategy, written to final_notes.md and copied as `{dir}_{format}.md` |
| NoteGen.LineMeta | generators/note_generator.py:38-45 | a tagged header line yields only the source, video_id, date or quality key |
| NoteGen.Kind | generators/note_generator.py:38-46 | a line is a rule exactly when it carries no tag and strips to `---` |
| NoteGen.ScanFrom | generators/note_generator.py:37-48 | the text starts at 0, or just past a rule line that is not line 0; gathered keys are never lost |
| NoteGen.ScanHeader | generators/note_generator.py:34-48 | the header loop gathers the metadata and finds the text start as ScanFrom does |
| NoteGen.LoadRawContent | generators/note_generator.py:27-56 | the file, read in text mode, is split into lines, the header scanned, the rest joined and stripped |
| NoteGen.ScanToRule | generators/note_generator.py:37-48 | a scan meeting its first rule line after line 0 gathers the tagged lines before it and starts the text after it |
| NoteGen.ScanNoRule | generators/note_generator.py:35-46 | without a rule line after line 0 the text starts at line 0 |
| NoteGen.ScanKeys | generators/note_generator.py:38-45 | the scan adds no key but the four metadata keys |
| NoteGen.ParseRawKeys | generators/note_generator.py:34-45 | a raw file's metadata has only the four keys |
| NoteGen.ParseRawWithoutRule | generators/note_generator.py:35-51 | a raw file without a rule line after its first line is all text, as read in text mode, stripped |
| NoteGen.GetVideoEmbedHtml | generators/note_generator.py:59-63 | empty exactly without a video id; otherwise the iframe names the embed URL of the video |
| NoteGen.Instruction | generators/note_generator.py:71-75 | the instruction is a prefix of the template: the part before the input-data heading, or the whole template without one |
| NoteGen.PromptContents | generators/note_generator.py:66-105 | the prompt starts with the instruction and carries the whole text, the source, date and quality lines (`Unknown` when missing) and the player when there is a video id |
| NoteGen.DirPrefix | generators/note_generator.py:132-174 | the directory part of a path is a prefix ending in '/', empty exactly for a bare name |
| NoteGen.Stem | generators/note_generator.py:172-173 | the stem is a prefix of the file name |
| NoteGen.NotePathsDiffer | generators/note_generator.py:175-226 | two templates never share a note path |
| NoteGen.Deliver | generators/note_generator.py:177-202 | with a key the model's note is saved at the output path (failing on a model error or an output path without a directory); the prompt file only when asked; the prompt returned only without a key |
| NoteGen.GenerateNote | generators/note_generator.py:138-202 | a missing raw file or template fails before anything is written; otherwise the prompt is built from the template and the parsed raw file, both read in text mode, and delivered at the given or default path |
| NoteGen.GenerateAllNotes | generators/note_generator.py:205-253 | one result per format (the four templates by default), a failing call recorded without stopping the others; the files are those the calls write, in order |
| NoteGen.CallEach | generators/note_generator.py:221-251 | the per-format loop: a result for exactly the formats asked for, each the call's own result, and the files of all calls in order |
| NoteGen.NotePathsInjective | generators/note_generator.py:223-226 | two formats share a note path only when they are the same format |
| NoteGen.KeptWith | generators/note_generator.py:221-251 | calls that write only their own, distinct paths all keep their file |
| NoteGen.LastWriteWins | generators/note_generator.py:221-251 | when calls write only their own paths, every call's file survives the run |
| NoteGen.NoteForWrites | generators/note_generator.py:222-235 | with a key and an output directory a call writes its note path and nothing else |
| NoteGen.NotesKept | generators/note_generator.py:205-253 | with a key and an output directory every generated note survives the whole run |
| Cli.MetaBlock | main.py:276-282 | the header block has seven lines with a video id and six without |
| Cli.TagLineValue | main.py:277-282 | a written metadata line reads back as its value, stripped |
| Cli.QualityTextShape | main.py:282 | the `{score}/100` value holds no '\n' or '\r', no tag and no padding |
| Cli.HeaderSingleLines | main.py:276-283 | every header line is free of '\n' and '\r' when the values are |
| Cli.MetaBlockKinds | main.py:276-282 | the reader sees the title and blank lines as plain and each metadata line as its tag |
| Cli.GatherMeta | main.py:277-282 | gathering the block yields the source, the video id when written, the date and the quality |
| Cli.ParseBlockThenRule | generators/note_generator.py:33-56 | a file whose text-mode read is a rule-free block, the rule, a blank line and a text parses to the block's metadata and the stripped text |
| Cli.TextAfterRule | main.py:283-284 | the text after the rule's blank line reads back as the written text, stripped |
| Cli.RawRoundTrip | main.py:274-284 | the raw file main.py writes reads back through `load_raw_content` with its source, video id, date and quality (values holding neither '\n' nor '\r'), and its text as the text-mode read returns it, stripped |
| Cli.RawFileRead | main.py:274-284 | the text-mode read of the raw file changes only the extracted text after the header |
| Cli.MenuFormat | main.py:18-23 | each menu key names one of the four formats |
| Cli.SelectionChars | main.py:53 | the selection with every comma and every space removed and all other characters kept in order, as `replace(',', ' ')` then `replace(' ', '')` |
| Cli.ParseSelection | main.py:54-63 | the loop keeps the formats of the menu keys typed, each once in first-typed order, and collects every other character as invalid |
| Cli.PickedSpec | main.py:57-61 | a format is picked exactly when some typed character is its menu key |
| Cli.InvalidSpec | main.py:62-63 | the invalid characters are the typed non-keys, and there are none exactly when every character is a key |
| Cli.SelectionSpec | main.py:54-63 | the selection is distinct, from the menu, and holds exactly the formats whose keys were typed |
| Cli.SelectionOrder | main.py:60-61 | the formats come in the order their keys were first typed |
| Cli.SelectFormatsInteractive | main.py:40-79 | the menu loop returns [] on Q, all four on A, an accepted selection after confirmation, and re-asks otherwise |
| Cli.FormatsFromMenu | main.py:48 | the four formats are distinct menu formats |
| Cli.SelectOutcomes | main.py:40-79 | every outcome of the menu is a choice of distinct menu formats |
| Cli.FormatsFromArg | main.py:221-224 | `all` gives the four formats; otherwise at least one name, each stripped |
| Cli.FormatsArgRoundTrip | main.py:224 | stripped names without commas joined by commas come back as the same names |
| Cli.ChooseFormats | main.py:212-224 | none with `--extract-only`, the option's formats when given, otherwise the menu's (the run stops when nothing is selected or the input ends) |
| Cli.ChosenFromMenu | main.py:215-220 | without `--formats` a run that goes on uses menu formats |
| Cli.Part | main.py:112-161 | the sanitised part cut to its limit, or the fallback when nothing is left: never empty, within the limit, safe for a file name |
| Cli.YouTubeTitle | main.py:112-118 | at most 30 characters; `youtube` for an empty or placeholder title |
| Cli.YouTubeChannel | main.py:113-120 | at most 20 characters; `unknown` for an empty or `Unknown` channel |
| Cli.WebDate | main.py:155 | a given date with every '-' and '/' removed, then cut to its first 8 characters; today's date when none is given |
| Cli.WebDomain | main.py:153-161 | the domain with every '.' turned into '_', sanitised to at most 20 characters, or `unknown` when the domain is empty or nothing survives; always a non-empty safe part without a dot |
| Cli.VideoTitle | main.py:126-131 | at most 40 characters; `video` when nothing is left |
| Cli.PdfTitle | main.py:137-143 | at most 40 characters; `pdf` when nothing is left |
| Cli.WebTitle | main.py:152-159 | at most 40 characters; `web` when nothing is left |
| Cli.LastField | main.py:122-163 | the last field of a name holds no '_' |
| Cli.OutputFilenameDate | main.py:101-163 | for every source kind with a title, the name's last field is the date used |
| Cli.PdfNameAuthor | main.py:138-148 | a PDF name has an author field exactly when the sanitised author is non-empty |
| Cli.OutputFilenameNoSlash | main.py:101-168 | an output name has no '/' unless the source name, the clock or an extracted date brings one |
| Embed.Height | add_video_embed.py:32 | the height is 9/16 of the width, truncated |
| Embed.DefaultHeight | add_video_embed.py:24-32 | the default width of 960 gives a 540-pixel player |
| Embed.CreateVideoEmbed | add_video_embed.py:24-54 | empty exactly when no video id is found; otherwise the block has the heading and an iframe on the video's embed URL |
| Embed.PositionFrom | add_video_embed.py:84-89 | one past the first rule line from i on, or 0 when there is none |
| Embed.InsertPosition | add_video_embed.py:81-89 | one past the first line that strips to `---`, or 0 exactly when there is none |
| Embed.FindInsertPosition | add_video_embed.py:81-89 | the counting loop finds the position InsertPosition states |
| Embed.Insert | add_video_embed.py:65-104 | refused exactly when the note already shows a player, when the block is empty, or when there is no rule line; inserted otherwise |
| Embed.AddVideo | add_video_embed.py:57-104 | the same outcomes, for the URL's video |
| Embed.AddVideoToNote | add_video_embed.py:57-104 | the checks, the scan and the insertion give AddVideo's outcome |
| Embed.InsertPlacement | add_video_embed.py:78-94 | the note up to its first rule line, then the block, then the rest of the note unchanged |
| Embed.EmbeddedPlacement | add_video_embed.py:57-104 | the player lands right after the first `---` line and nothing else changes |
| Embed.InsertTwice | add_video_embed.py:65-67 | a note with an inserted iframe is refused the next time |
| Embed.AddVideoIdempotent | add_video_embed.py:57-104 | adding a player twice changes nothing the second time |
| Embed.ParseArgs | add_video_embed.py:108-129 | usage below two arguments; otherwise the paths and a trailing `http` argument, which together are all the arguments |
| Embed.SourceUrlFrom | add_video_embed.py:145-152 | no URL exactly when no line starts with the source tag |
| Embed.Run | add_video_embed.py:131-156 | the notes keep their names, at most one update per path, and notes not named are untouched |
| Embed.EmbedAll | add_video_embed.py:131-158 | the loop over the paths gives Run's notes and success count |
| Embed.WrittenHasPlayer | add_video_embed.py:65-101 | a note the tool wrote shows a player |
| Embed.ForPathLocal | add_video_embed.py:133-156 | what happens to a path depends only on that path's note |
| Embed.StepSettles | add_video_embed.py:133-156 | after its step, a path would not be written again |
| Embed.StepKeepsOthers | add_video_embed.py:133-156 | a step leaves every other path as it was |
| Embed.RunSettles | add_video_embed.py:131-156 | after a run every named path is settled |
| Embed.RunOverSettled | add_video_embed.py:131-156 | a run over settled paths writes nothing |
| Embed.RunTwice | add_video_embed.py:107-158 | running the tool again with the same arguments updates no note |
| Web.Cleaned | extractors/web.py:121-125 | the stripped non-blank lines: none empty, and none with a line break when the input has none |
| Web.ParseSectionsLoop | extractors/web.py:113-145 | the loop builds the sections `parse_sections` returns |
| Web.SectionsFilled | extractors/web.py:129-143 | every section returned has non-empty content |
| Web.BodyLines | extractors/web.py:128-136 | the non-heading lines, each one of the input lines |
| Web.SectionsKeepBody | extractors/web.py:113-145 | the sections' contents, split back into lines, are exactly the stripped non-blank non-heading lines, in order |
| Web.Headings | extractors/web.py:130-141 | one heading per section |
| Web.SectionHeadings | extractors/web.py:119-143 | a section opens under `본문` or under the heading line right before its first body line; a heading without body lines opens none |
| Web.NoSections | extractors/web.py:115-125 | an empty or all-blank text has no section |
| Web.TotalPenaltyAppend | extractors/web.py:156-172 | the deductions of two warning lists add up |
| Web.MethodCheck | extractors/web.py:157-159 | 15 points and a warning exactly for the fallback extractor |
| Web.LengthCheck | extractors/web.py:162-167 | 20 points under 500 characters, else 10 under 1000, each with its warning |
| Web.BreakCheck | extractors/web.py:170-172 | 10 points and a warning for fewer than three line breaks |
| Web.Quality | extractors/web.py:148-174 | 0 and `텍스트 없음` for no text; otherwise 100 less the deductions of the warnings given, between 55 and 100, at least 65 with trafilatura |
| Web.QualityReasons | extractors/web.py:148-174 | each warning is given exactly when its condition holds |
| Web.FullTextShowsSections | extractors/web.py:243-246 | the raw text when there is no section; otherwise each section as its heading line followed by its content |
| Web.ExtractWeb | extractors/web.py:177-264 | an invalid URL fails with its warning; success exactly with a page from trafilatura or else from the fallback, whose title, author, date, sections, full text, score and warnings the result carries; otherwise failure with the fetch warnings |
| Pdf.PagePassCount | extractors/pdf.py:133-180 | every page gives exactly one segment or one issue |
| Pdf.PagePassShape | extractors/pdf.py:133-176 | the segments are numbered from 1 in increasing page order, within the page count, each with non-empty text |
| Pdf.PagePassKeeps | extractors/pdf.py:134-180 | a page's cleaned text is kept under its number exactly when it is non-empty; otherwise no segment has that number |
| Pdf.SegmentsIffText | extractors/pdf.py:133-143 | a pass yields a segment exactly when some page was read and keeps text after cleaning |
| Pdf.ReadPages | extractors/pdf.py:129-183 | the loop over the pages builds the segments and issues of one pass |
| Pdf.OcrPages | extractors/pdf.py:148-183 | the OCR pass: one warning and no segment without the libraries, otherwise the page loop |
| Pdf.DateFrom | extractors/pdf.py:64 | the first position from i on where `D:` and eight digits start, or -1 when there is none |
| Pdf.DateStamp | extractors/pdf.py:61-66 | empty exactly when there is no `D:` stamp; otherwise eight digits that follow `D:` in the input |
| Pdf.LeadUpperCount | extractors/pdf.py:77 | the length of the leading run of capitals |
| Pdf.YearPattern | extractors/pdf.py:77-81 | a match gives a four-digit year that opens the stem before a '.', and a journal of capitals |
| Pdf.JournalPart | extractors/pdf.py:77 | a match gives a non-empty run of capitals |
| Pdf.LastGroupShape | extractors/pdf.py:77-81 | the captured title is a single stripped line |
| Pdf.MetadataOf | extractors/pdf.py:31-88 | a document title wins, stripped; the author is the document's unless the file name follows the year pattern |
| Pdf.MetadataFromDocument | extractors/pdf.py:53-66 | a document with a title keeps its stripped title and author and its `D:` date (eight digits or none) |
| Pdf.MetadataFromPlainName | extractors/pdf.py:71-86 | without a title or the year pattern, the title is the file name less its extension |
| Pdf.ConventionalName | extractors/pdf.py:71-84 | an untitled `dir/YYYY. JOURNAL. title.pdf` yields the title, JOURNAL as author and YYYY0101 as date |
| Pdf.YearPatternOf | extractors/pdf.py:77-81 | the pattern recovers the year, journal and title of a conventional stem |
| Pdf.TotalPenaltyAppend | extractors/pdf.py:194-213 | the deductions of two warning lists add up |
| Pdf.MethodCheck | extractors/pdf.py:195-200 | 15 points for OCR, 10 for a mixture, each with its warning |
| Pdf.PagesCheck | extractors/pdf.py:203-207 | five points per page without text, at most thirty, with a warning naming the count |
| Pdf.LengthCheck | extractors/pdf.py:210-213 | 10 points and a warning when pages average under 100 characters |
| Pdf.Quality | extractors/pdf.py:186-215 | 0 and one warning without segments; otherwise 100 less the deductions of the warnings given, between 45 and 100, at least 60 for the text layer |
| Pdf.QualityReasons | extractors/pdf.py:186-215 | each warning is given exactly when its condition holds |
| Pdf.AssembleFullText | extractors/pdf.py:276-279 | the loop and join give the page blocks separated by blank lines |
| Pdf.FullTextShowsPages | extractors/pdf.py:276-279 | the full text holds every page's block and starts with the first; it is empty without segments |
| Pdf.PageHeaderIsBoundary | extractors/pdf.py:278 | a `[p.N]` header line is a page marker where the chunker may cut |
| Pdf.ExtractPdf | extractors/pdf.py:218-297 | a missing file fails with its warning; an exception of the text pass (run for every type but a scan) or of opening the document for OCR (run when OCR is chosen and its libraries are there) escapes; otherwise the detected type picks the text pass or OCR (OCR also when an undecided type's text layer is empty), and the result carries that pass's segments, the page count, the full text, the score, the warnings and the metadata; success exactly when there are segments |
| Pdf.ChosenMethodCases | extractors/pdf.py:251-265 | OCR serves a scan, never a text PDF, and serves a hybrid or undecided document exactly when every page of its text layer is blank once stripped |
| Transcript.FormatTime | extractors/youtube.py:92-99 | below an hour `MM:SS` (5 characters), from an hour to 100 hours `HH:MM:SS` (8 characters) |
| Transcript.ConvertSegments | extractors/youtube.py:233-258 | the loop converts the raw segments one by one, dropping those the filter rejects |
| Transcript.ConvertAppend | extractors/youtube.py:235-258 | conversion distributes over concatenation and keeps order |
| Transcript.ConvertClean | extractors/youtube.py:246-250 | every kept segment has non-empty text the filter accepts, and there are never more segments than raw ones |
| Transcript.ConvertOrigin | extractors/youtube.py:252-258 | every kept segment comes from some raw segment, with that segment's cleaned text |
| Transcript.ConvertStripped | extractors/youtube.py:238-242 | with `str.strip` as the cleaning, every kept text is already stripped |
| Transcript.ConvertKeepsAll | extractors/youtube.py:235-258 | when every segment qualifies, one output per input, in order |
| Transcript.AssembleFullText | extractors/youtube.py:261-264 | the loop and join give the segment lines joined by line breaks |
| Transcript.FullTextLines | extractors/youtube.py:261-264 | with single-line texts the full text splits back into exactly the segment lines |
| Transcript.LineIsBoundary | extractors/youtube.py:263 | a line opening with a formatted start time below 100 hours is one where the chunker may cut |
| Transcript.FormatDigits | extractors/youtube.py:92-99 | a formatted time below 100 hours is two-digit fields separated by ':' |
| Transcript.FullTextBoundaries | extractors/youtube.py:261-264 | with single-line texts every line of the full text opens a chunk |
| Transcript.ZeroDuration | extractors/youtube.py:270-273 | the empty-transcript default `00:00` is what a zero time formats to |
| Transcript.DurationReadsBack | extractors/youtube.py:270-273 | below 100 hours, the reported duration parses back to the whole seconds of the last segment's end, and to 0 without segments |
| YouTube.CountedIsFiltered | extractors/youtube.py:232-250 | whatever the quality check counts as noise, the filter has already removed |
| YouTube.TotalPenaltyAppend | extractors/youtube.py:145-171 | the deductions of two warning lists add up |
| YouTube.EmptyCount | extractors/youtube.py:156 | at most one blank per segment |
| YouTube.NoiseCount | extractors/youtube.py:162-163 | at most one marked segment per segment |
| YouTube.KindCheck | extractors/youtube.py:148-150 | 15 points and a warning exactly for generated captions |
| YouTube.EmptyCheck | extractors/youtube.py:156-159 | 10 points and a warning naming the count when more than a tenth of the segments are blank |
| YouTube.NoiseCheck | extractors/youtube.py:162-165 | a warning naming the count, and no points, with more than five marked segments |
| YouTube.LengthCheck | extractors/youtube.py:168-171 | 10 points and a warning when segments average under 10 characters |
| YouTube.Score | extractors/youtube.py:145-173 | 100 less the deductions of the warnings given, between 65 and 100; at least 80 for manual captions, at most 85 for generated ones |
| YouTube.Quality | extractors/youtube.py:140-173 | 0 and `자막 없음` with no segments, even for generated captions; otherwise Score |
| YouTube.QualityReasons | extractors/youtube.py:140-173 | each warning is given exactly when its condition holds |
| YouTube.FilteredCounts | extractors/youtube.py:156-163 | on the extractor's segments the blank and noise counts are zero |
| YouTube.FilteredQuality | extractors/youtube.py:152-171 | on the extractor's segments the score is 100, less 15 for generated captions and 10 for short segments, and those are the only warnings |
| YouTube.ExtractedFiltered | extractors/youtube.py:232-258 | the extractor's segments are stripped, non-blank and free of noise markers |
| YouTube.Raw | extractors/youtube.py:237-244 | a caption becomes a raw segment with its text, its start, and an end at start + duration |
| YouTube.MetadataOf | extractors/youtube.py:49-89 | the dump's title, channel (else uploader, else `Unknown`) and upload date, with their defaults; all defaults without a dump |
| YouTube.FromCaptions | extractors/youtube.py:231-290 | the result carries the filtered segments, their full text, the score and its warnings, the last end time as duration, and the metadata |
| YouTube.ExtractYouTube | extractors/youtube.py:176-290 | an invalid URL fails with its warning; missing captions fail with the reason and the metadata; success exactly with a video id and captions |
| Video.NameMeta | extractors/video.py:43-64 | the title and a creation date that is empty or eight digits |
| Video.StampedName | extractors/video.py:56-62 | a camera name `YYYYMMDD_HHMMSS…` gives the date as creation date and `Video_{date}_{time}` as title |
| Video.PlainName | extractors/video.py:48-53 | any other name is its own title, with no creation date |
| Video.Transcribe | extractors/video.py:67-112 | the stripped non-blank segments, with a warning exactly when none are left; no segment and the matching warning when the recogniser is missing or fails |
| Video.TranscribeKeeps | extractors/video.py:91-102 | with no blank input, every segment arrives, in order |
| Video.TotalPenaltyAppend | extractors/video.py:131-150 | the deductions of two warning lists add up |
| Video.CountCheck | extractors/video.py:142-144 | 10 points and a warning for fewer than five segments |
| Video.LengthCheck | extractors/video.py:147-150 | 10 points and a warning when segments average under 10 characters |
| Video.Score | extractors/video.py:137-152 | 100 less the deductions of the warnings given, between 70 and 90, always with the recogniser's warning |
| Video.Quality | extractors/video.py:129-152 | 0 and `자막 추출 실패` with no segments; otherwise Score |
| Video.LengthText | extractors/video.py:186-187 | the formatted length, or `00:00` when it is zero |
| Video.ExtractVideo | extractors/video.py:155-237 | a missing file fails; no segments fail with the recogniser's warnings and `음성 인식 실패`; otherwise the result carries the name's metadata (today's date when it has none), the last end time, the segments, the full text, the score and its warnings |

## Left out

- Language-model calls are parameters: the analyst, writer, revision and critic replies, the faithfulness check's reply, the merge calls of phase 3 and the note generator's call. The prompt wording each one is sent is not modelled; only what the program does with each reply is.
- Extraction libraries are parameters too: pdfplumber, PyMuPDF and Tesseract OCR, trafilatura, requests and BeautifulSoup, the caption service, the yt-dlp metadata dump, Whisper, and the video-length probe. Each one is what it returned for the input, or, where the program handles it, the error it raised. In `extract_pdf`, an exception from opening the document for the text pass or for OCR escapes the call (`Pdf.PdfOutcome.PassRaised`). An exception while rendering one page for OCR is folded into that case, and one from the per-page table count is not modelled.
- `detect_pdf_type` and `get_transcript_with_priority` are inputs. The model takes the detected PDF type and the fetched captions with their kind; how the libraries decide them is not modelled.
- The per-page `tables` count that the PDF text pass records is not modelled. Nothing downstream reads it.
- Captions given as dicts and as objects are one `YouTube.Caption` with a duration. A dict without a `duration` key defaulting to 0 is not modelled separately.
- Recognising a YouTube video id in a URL is a function parameter in `Embed` and `YouTube`. The two URL regular expressions are not modelled.
- SafeName.IsWordChar stands for Python's Unicode `\w`, but only over these ranges: ASCII letters and digits, '_', U+00C0..U+024F without '×' and '÷', the kana U+3041..U+3096, U+309D..U+309F, U+30A1..U+30FA and U+30FC..U+30FF, the CJK ideographs U+4E00..U+9FFF, the Hangul jamo U+1100..U+11FF and U+3131..U+318E, and the Hangul syllables. The kana punctuation '゛', '゜', '゠' and '・' and the kana combining marks are removed, as in Python. In the other direction, letters and digits of every other script, which Python keeps, are removed here: Greek 'Α', Cyrillic, '²' and the full-width '１', for example. The ideograph range also includes the last few code points that older Unicode versions leave unassigned.
- SafeName.RemoveDisallowed, and through it `SafeName.Sanitize`, `Pipeline.SanitizeDirname` and the `Cli` file names, inherit that gap: a name in another script loses its letters here, although Python would keep them.
- Text.IsDigit accepts only the ASCII digits, while Python's `\d` matches every Unicode decimal digit. The citation patterns (`Citations`), the chunker's timestamp and page markers (`Chunker.IsParagraphBreak`), the PDF date and year patterns (`Pdf.DateStamp`, `Pdf.YearPattern`) and the camera-name pattern (`Video.NameMeta`) therefore do not match full-width or other non-ASCII digits, for example `[１２:３４]`, which Python counts as a citation.
- Text.Lower and Text.Upper fold only ASCII letters, while Python's `lower()` and `upper()` fold every cased letter. This reaches the keyword checks of the verifier and the critic (`Verifier.CheckKeywords`, `Critic.CheckKeywords`) on notes with non-ASCII cased letters, and the menu answers in `Cli`.
- Critic.GetCritiqueDict: the revision answers are inputs of the loop (`Orchestrator.Script`), so what the writer receives from `get_critique_dict` is not tied to them and nothing is stated about it.
- NoteGen.DirPrefix: the output directory is joined with '/' as a string. `Path`'s normalisation (a trailing '/', `.` components) is not modelled.
- Embed.AddVideoToNote, Embed.SourceUrl and Embed.Run read a note's stored content without Python's universal-newline translation. The reads of the metadata file, the transcript, the part notes, the raw file and the template do apply it (`Text.ReadText`). For '\r\n' line ends the decisions are the same, because the `---` test and the source value strip the trailing '\r', but the rewritten note keeps the '\r' characters that Python's rewrite drops. For lone '\r' line ends the model does not split the lines that Python splits. Writes are taken as POSIX text-mode writes, which store '\n' as it is.
- File I/O is a map from file name to content: the work directory, the note files and the raw files. `glob`, `os.makedirs`, encodings and write failures are left out, except the missing-file and missing-directory cases the program reports.
- Clocks are parameters: today's date, the raw file's timestamp and the merge date. The timing fields (`total_time`, `execution_time`) are dropped.
- Printing, logging, progress output, argparse help text, `input()` prompts (the menu answers are a sequence), JSON (`to_json`, `json.loads`) and the `__init__.py` re-exports are left out.
- In `main.py`, only format selection, the `--formats` option, output file names and the raw-file writer are modelled. The rest of `main()`'s orchestration is left out.
- Floating point:
  - Seconds are real numbers (`Transcript.Seconds`), floored where the program calls `int`.
  - The YouTube 10% blank check, the verifier's 30%/70% spread checks and the sampler's 40%/30% budgets are exact integer comparisons.
  - The verifier's 25/25/50 total equals `(c + s + 2f) div 4` exactly.
  - The embed height is truncated integer division.
- Critic.Run: the 20/20/60 total is taken in exact arithmetic, `(20c + 20s + 60a) div 100`. Python's float sum may land one point lower at an exact boundary, so the model does not claim the float result there.
- Chunker.ChunkText: no bound on a chunk's length is claimed. The carried overlap and the appended line are never re-checked against the maximum size, so the program does not keep one.

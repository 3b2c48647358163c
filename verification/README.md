# Notesmith: a model of its index, calendar, parsers and agent session

This project models the parts of Notesmith whose correctness depends on several mechanisms at once,
and proves what their documentation and tests promise about them, for all inputs, all runs and all
interleavings.

| files | part of Notesmith |
|---|---|
| `Text`, `Decimal`, `Sorting` | characters, trimming, searching and words; decimal printing and parsing; stable sorting |
| `ChunkerLoops`, `ChunkerUnits`, `ChunkerChain`, `Chunker`, `ChunkerHeadings`, `ChunkerLaws` | the note chunker of `notesmith-embed` |
| `Rows`, `Store`, `Worker`, `Incremental`, `WorkerRows` | `embeddings.db`, the embed worker, and histories of opens and passes |
| `VectorSearch` | brute-force cosine search |
| `Calendar`, `Periodic`, `PeriodicKeys`, `PeriodicNotes`, `PeriodicPanics` | day numbers and ISO weeks, period keys and bounds, recognising periodic notes by path, and where that panics |
| `JsonScan`, `JsonObjects` | the brace scanner over watch pages |
| `Captions`, `CaptionPrinting`, `CaptionNumbers` | the srv3 caption parser |
| `UrlScheme`, `UrlPrinting`, `UrlErrors` | `notesmith://` deep links |
| `Permission`, `Driver`, `DriverRuns` | the permission policy and the ACP session driver |
| `DocumentText` | document chunking and text normalisation |
| `TranscriptMatch`, `Resample` | matching transcripts to meetings; audio downmix and resampling |

Where the program works step by step, a method with the same loop is proved equal to a function, and
lemmas prove what that function promises. Concurrent parts are state machines over their atomic steps.

The main results:

- **Chunking.** For every body and all options, the spans run through all the words in order, cut none,
  hold between 1 and `max(max_tokens, 1)` words each, start strictly later and end no earlier than the
  one before, skip no word, and share at most the overlap in force. Measured against the options themselves: where
  each span stops and how far the next backs up, and exactly the overlap between spans of one oversized paragraph.
  A heading within the limit starts a span of its own and is inside no other.
- **Indexing.** From any store reached by any sequence of opens (schema bumps included), passes (failing
  ones included) and edits, a pass brings every note it can process to its fresh embedding. It equals a
  rebuild when nothing fails, and a second pass then changes nothing. Row by row: span i of a note has its own offsets
  and the embedder's answer for the text between them.
- **Calendar.** For all five kinds and every date a `NaiveDate` holds, keys, bounds and dates partition alike, and
  looking up a date's key does exactly what computing its bounds does; the exceptions are stated exactly.
- **Parsers.** The JSON scanner, the caption parser, the deep-link parser and the filename templates undo
  natural printers; the JSON scanner is also characterised on arbitrary input.
- **Sessions.** Over every interleaving: one handshake report, commands first in first out, the preamble
  once, one event per prompt, no replayed update forwarded, and the state told by the actions; every grant explained by
  a seed or an answer, and every decision answered with the option it calls for.

Floats are reals, text is a sequence of characters, the content hash is an injective function, and the
embedder is a function that may fail or return the wrong number of vectors. The database is a map of rows
whose writes and deletes may be refused note by note.

Where code and comment disagree, the model follows the code:

- `percent_decode` is said to pass a malformed escape through; it keeps the `%` and drops the two
  characters after it (`crates/notesmith-core/src/url_scheme.rs:245-255`). `UrlScheme.PassesThroughExactly`
  says for which inputs the comment holds, and `MalformedExample` gives one for which it does not.
- `cosine_distance` gives mismatched and zero vectors 1.0 as the maximum distance, to sort last; opposite
  vectors are at distance 2.0 (`crates/notesmith-embed/src/vector.rs:142-155`). `VectorSearch.OppositeDistance`
  proves it, and `MismatchRanksBefore` says exactly which chunks a mismatched one ranks before.
- ADR 0018 asks for a full re-embed when the model changes; the store refuses the pass instead
  (`crates/notesmith-embed/src/store.rs:161-187`).

Two promises do not hold for every input, and their exact conditions are proved:

- Matching a note path panics exactly when, for the first kind whose folder is the note's, the stem has the
  template's prefix and suffix but is shorter than both together, or the key read from it stands for a date in
  December, the fourth quarter or the last week of the range of dates (years -262143 to 262142), whose period's
  end is computed past that range. `PeriodicPanics.MatchPanicsExactly` states it, `ShortStemExample` and
  `RangeEndExample` are a path for each half; `RecordPanicsExactly` and `AnyFolderExample` follow it into the indexer.
- A date's key parses back to its period except for the months of negative years and for the week cut off by
  the first date (`PeriodicKeys.KeyRoundTrip`).

## Model

| member | source | states |
|---|---|---|
| ChunkerLoops.Clamped | crates/notesmith-embed/src/chunker.rs:52-54 | overlap < target <= max, with max at least 1, and each size is the option itself unless one of these bounds is in the way, for all options including zeros |
| ChunkerLoops.PushUnit | crates/notesmith-embed/src/chunker.rs:143-159 | a range is pushed as one unit with its word count and heading flag, unless it has no word |
| ChunkerLoops.TakeLine | crates/notesmith-embed/src/chunker.rs:115-136 | one turn of the line loop: blank and heading lines close the open unit, other lines extend or open one |
| ChunkerLoops.SplitUnits | crates/notesmith-embed/src/chunker.rs:110-141 | the line loop computes the unit list of the body |
| ChunkerLoops.WordBounds | crates/notesmith-embed/src/chunker.rs:181-194 | the single character scan finds exactly the words of the text with their offsets |
| Text.WordsAreRuns | crates/notesmith-embed/src/chunker.rs:181-194 | words are the maximal runs of non-spaces, and every non-space lies in one |
| ChunkerLoops.SplitUnit | crates/notesmith-embed/src/chunker.rs:179-211 | an oversized unit becomes windows of target words at stride target minus overlap |
| ChunkerLoops.SplitOversized | crates/notesmith-embed/src/chunker.rs:165-214 | units within the limit are kept, the others replaced by their windows, in order |
| ChunkerUnits.UnitsTile | crates/notesmith-embed/src/chunker.rs:110-141 | the line units cover all words in order without overlap, cut none, and count them correctly |
| ChunkerChain.WindowsChain | crates/notesmith-embed/src/chunker.rs:195-211 | windows share exactly the overlap with their neighbours, and each has more words than the overlap |
| ChunkerChain.FitAllChain | crates/notesmith-embed/src/chunker.rs:165-214 | after splitting, every unit is within the limit and only neighbouring windows overlap |
| Chunker.FillSpan | crates/notesmith-embed/src/chunker.rs:65-81 | the inner loop stops where the filling function says |
| Chunker.NextStart | crates/notesmith-embed/src/chunker.rs:92-103 | the overlap loop finds the next start, after the current one and not past the span's end |
| Chunker.PackUnits | crates/notesmith-embed/src/chunker.rs:62-105 | the packing loop terminates and computes the span list |
| Chunker.ChunkNote | crates/notesmith-embed/src/chunker.rs:51-106 | chunking a body computes the spans the theorems below are about |
| Chunker.NextSpan | crates/notesmith-embed/src/chunker.rs:64-103 | the next span starts later, re-includes at most the overlap in units, and ends no earlier |
| Chunker.SpanIsGreedy | crates/notesmith-embed/src/chunker.rs:67-103 | a span stops only at the end, the target, a heading or a unit that would not fit; the overlap re-included is maximal |
| Chunker.SpansCover | crates/notesmith-embed/src/chunker.rs:51-106 | coverage, size and overlap together: spans run through all words, each with 1 to max words, starts strictly later, ends no earlier, no gap, overlap never compounded |
| Chunker.EveryWordCovered | crates/notesmith-embed/src/chunker.rs:51-106 | every word of the body lies wholly inside some span |
| Chunker.SpanText | crates/notesmith-embed/src/chunker.rs:82-88 | a span's text is the body at its offsets, made of whole consecutive words, at most max(max_tokens, 1) of them |
| Chunker.OverlapBounded | crates/notesmith-embed/src/chunker.rs:92-103 | the words two consecutive spans both hold are one range of at most the clamped overlap |
| ChunkerLaws.SpansByOptions | crates/notesmith-embed/src/chunker.rs:51-104 | for every body and all options: a span takes units up to the target, no heading after its first and none past the limit, stops short only at a heading or a unit that would not fit, and the next backs up over every whole unit that fits the overlap |
| ChunkerLaws.OversizedShare | crates/notesmith-embed/src/chunker.rs:165-214 | two spans in a row inside one oversized unit share exactly the overlap in force |
| ChunkerHeadings.HeadingsStartSpans | crates/notesmith-embed/src/chunker.rs:67-81 | a heading unit within the limit is the first unit of some span and strictly inside none |
| ChunkerHeadings.HeadingLinesAreUnits | crates/notesmith-embed/src/chunker.rs:115-136 | every line whose first non-space character is '#' opens a heading unit at its own start |
| ChunkerHeadings.UnitsAreBlocks | crates/notesmith-embed/src/chunker.rs:110-141 | no unit runs across a blank line or onto a heading line; each starts at a heading line, after a blank line, or at the front, and is a heading unit exactly at a heading line |
| Rows.NoteOfReplaced | crates/notesmith-embed/src/store.rs:256-290 | replacing a note's chunks leaves exactly those chunks in it and every other note as it was |
| Rows.TableOfIndexed | crates/notesmith-embed/src/store.rs:268-286 | chunks with consecutive ids are all kept, each under its own id |
| Store.EmbeddingStore.EnsureSchema | crates/notesmith-embed/src/store.rs:68-118 | a schema version other than the stored one drops all chunks and the identity; otherwise nothing changes |
| Store.EmbeddingStore.EnsureEmbedder | crates/notesmith-embed/src/store.rs:164-187 | the identity is stamped once; a different id or dimension is an error and changes nothing |
| Store.StampDecided | crates/notesmith-embed/src/store.rs:164-187 | a worker is let in exactly when no embedder was stamped, or its own id with its dimension or none; else the error names both |
| Store.EmbeddingStore.StoredHashes | crates/notesmith-embed/src/store.rs:239-252 | each note with rows gets the hash of some one of its rows, which is all the grouped query promises |
| Store.EmbeddingStore.ReplaceNoteChunks | crates/notesmith-embed/src/store.rs:256-290 | one transaction: all of the note's rows are replaced, or none when the database refuses |
| Store.EmbeddingStore.DeleteNote | crates/notesmith-embed/src/store.rs:322-330 | all rows of the note are gone, or nothing changes when the database refuses |
| Worker.Walk | crates/notesmith-embed/src/worker.rs:86-110 | the notes are the visible markdown files with UTF-8 paths, in walk order |
| WorkerRows.WalkedByPath | crates/notesmith-embed/src/worker.rs:86-110 | an entry is a note exactly when it is a file whose path is UTF-8, ends in ".md" and has no component that starts with a dot |
| Worker.ProcessNote | crates/notesmith-embed/src/worker.rs:153-210 | a note is skipped on an equal hash, replaced by its fresh chunks, or left alone on any failure |
| WorkerRows.ChangeDecided | crates/notesmith-embed/src/worker.rs:159-208 | a note is skipped exactly on an equal hash, and written exactly when its texts are embedded one for one and the database accepts |
| WorkerRows.NoteProcessed | crates/notesmith-embed/src/worker.rs:184-208 | a written note holds exactly one row for each span, row i with the offsets of span i, the hash, and element i of the answer for the texts between the offsets; all other rows are as they were |
| Worker.ReportFor | crates/notesmith-embed/src/worker.rs:118-136 | embedded + skipped + failed is the number of notes walked |
| WorkerRows.ReportCounts | crates/notesmith-embed/src/worker.rs:118-136 | the report counts the notes written, skipped and failed |
| WorkerRows.ChunksWrittenOne | crates/notesmith-embed/src/worker.rs:121-124 | a written note counts as many chunks as it has spans |
| WorkerRows.ChunksWrittenAdd | crates/notesmith-embed/src/worker.rs:121-124 | the chunks written add up over the notes |
| Worker.ProcessNotes | crates/notesmith-embed/src/worker.rs:118-136 | each note is processed on its own, whatever happens to the others |
| Worker.DeleteMissing | crates/notesmith-embed/src/worker.rs:138-147 | stored notes no longer on disk lose their rows unless refused, in whatever order they are visited |
| Worker.Run | crates/notesmith-embed/src/worker.rs:71-151 | a refused identity changes no row; otherwise the table and the report after the pass |
| WorkerRows.PassRows | crates/notesmith-embed/src/worker.rs:71-210 | the same of each note of a whole pass: a row for each span with its own offsets and vector, and no other row |
| WorkerRows.FailedKeepsRows | crates/notesmith-embed/src/worker.rs:118-136 | a walked note that cannot be read, or whose texts are not embedded one for one, keeps its rows |
| Incremental.OneHashPerNote | crates/notesmith-embed/src/store.rs:237-252 | all rows of one note carry one content hash |
| Incremental.GroupedIsUnique | crates/notesmith-embed/src/store.rs:239-252 | so the GROUP BY read has only one possible answer |
| Incremental.SkipIsFresh | crates/notesmith-embed/src/worker.rs:159-163 | a note is skipped only when it already holds the fresh embedding of its bytes |
| Incremental.PassRefreshes | crates/notesmith-embed/src/worker.rs:71-210 | what a pass leaves in each note of each vault |
| Incremental.PassKeepsFaithful | crates/notesmith-embed/src/worker.rs:71-210 | a pass keeps every note equal to what the named embedder makes of some content |
| Incremental.IncrementalEqualsRebuild | crates/notesmith-embed/src/worker.rs:71-151 | a pass without failures leaves the vault as a rebuild from an empty store does, and other vaults untouched |
| Incremental.SecondPassChangesNothing | crates/notesmith-embed/src/worker.rs:71-151 | after such a pass a second one changes no row and deletes nothing, whatever its own failures |
| Incremental.SecondPassSkips | crates/notesmith-embed/src/worker.rs:161-163 | in that second pass every note that has rows is skipped |
| Incremental.Perform | crates/notesmith-embed/src/worker.rs:71-151 | the store and worker operations take exactly the steps of the history relation |
| Incremental.OpensKeepOrLose | crates/notesmith-embed/src/store.rs:68-118 | any number of opens changes nothing if all are of the stored schema version, and loses chunks and identity otherwise |
| Incremental.ReachedIdentified | crates/notesmith-embed/src/store.rs:68-187 | over every sequence of opens and passes, each stored row was produced by the embedder named in `_meta` |
| Incremental.ReachedOneHash | crates/notesmith-embed/src/store.rs:239-252 | in every reached store the rows of a note carry one hash |
| Incremental.ReachedWellKeyed | crates/notesmith-embed/src/store.rs:89-100 | in every reached store rows are stored under their own key columns |
| Incremental.ReachedPassRefreshes | crates/notesmith-embed/src/worker.rs:71-210 | from every reached store: fresh rows for each walked note, previous rows if it failed, none for notes not walked unless their delete is refused, other vaults untouched |
| Incremental.StoredNoteIsLost | crates/notesmith-embed/src/worker.rs:86-147 | a stored note still on disk loses its rows exactly when the walk missed it and its delete goes through, or it was walked and has no text any more |
| Incremental.UnreadableLosesNote | crates/notesmith-embed/src/worker.rs:93-96 | an unreadable directory costs the notes below it their rows, though they are on disk |
| Incremental.ReachedPassEqualsRebuild | crates/notesmith-embed/src/worker.rs:71-151 | the rebuild theorem for every reached store |
| VectorSearch.CauchySchwarz | crates/notesmith-embed/src/vector.rs:138-155 | the dot product is at most the product of the norms in absolute value |
| VectorSearch.DistanceInRange | crates/notesmith-embed/src/vector.rs:142-155 | every distance is between 0 and 2, mismatched and zero vectors included |
| VectorSearch.OppositeDistance | crates/notesmith-embed/src/vector.rs:142-155 | a non-zero vector and its opposite are at distance 2, so 1 is not the maximum |
| VectorSearch.SidesOfOne | crates/notesmith-embed/src/vector.rs:145-155 | mismatched and zero vectors are at distance 1; others beyond 1 exactly when their dot product with the query is negative |
| VectorSearch.MismatchRanksBefore | crates/notesmith-embed/src/vector.rs:142-155 | a mismatched chunk ranks before a comparable one exactly when that one's dot product is negative, or zero and it loads later |
| VectorSearch.DotPush | crates/notesmith-embed/src/vector.rs:148-152 | the dot product adds up the products of the components |
| VectorSearch.DistanceIsCosine | crates/notesmith-embed/src/vector.rs:142-155 | for comparable vectors one minus the distance, times both norms, is the dot product |
| VectorSearch.NearerByCosine | crates/notesmith-embed/src/vector.rs:142-155 | of two comparable vectors the one with the larger cosine is strictly nearer |
| VectorSearch.LoadChunks | crates/notesmith-embed/src/store.rs:335-386 | every row of the vault once, by path and chunk id |
| VectorSearch.LoadedInOrder | crates/notesmith-embed/src/store.rs:335-386 | rows come by path, and those of one note by chunk id |
| VectorSearch.StrLessMeans | crates/notesmith-embed/src/store.rs:335-386 | paths are ordered by their first difference, a prefix first |
| VectorSearch.CandidatesArePermitted | crates/notesmith-embed/src/vector.rs:118-127 | the candidates are exactly the permitted chunks with their distances, all in range |
| VectorSearch.RefCites | crates/notesmith-embed/src/vector.rs:118-127 | a result cites the note, offsets and hash of its chunk |
| VectorSearch.SortRanked | crates/notesmith-embed/src/vector.rs:128 | the stable sort breaks ties by path and chunk id |
| VectorSearch.Search | crates/notesmith-embed/src/vector.rs:112-131 | the result is the first min(k, permitted) of the ranking by distance, path and chunk id |
| VectorSearch.NothingNearerLeftOut | crates/notesmith-embed/src/vector.rs:128-130 | nothing left out ranks before, or is nearer than, anything kept |
| VectorSearch.KeptHasLargerCosine | crates/notesmith-embed/src/vector.rs:112-131 | no permitted comparable chunk left out has a larger cosine than one kept |
| Calendar.YmdOfDay | crates/notesmith-core/src/periodic.rs:1 | every date has a valid year, month and day that name it |
| Calendar.DayOfYmd | crates/notesmith-core/src/periodic.rs:1 | every valid year, month and day name a date with that year, month and day |
| Calendar.DayNumberInClosedForm | crates/notesmith-core/src/periodic.rs:1 | the day number of every valid date is the closed form of the Gregorian calendar |
| Calendar.IsoRoundTrip | crates/notesmith-core/src/periodic.rs:113-116 | the Monday found from an ISO year and week (week of January 4) is that of the week whose Thursday gave them, unless it is out of range |
| Calendar.FoundWeek | crates/notesmith-core/src/periodic.rs:113-116 | a week that is found starts on a Monday and has the ISO year and number it was asked for |
| Periodic.DateInBounds | crates/notesmith-core/src/periodic.rs:47-71 | every date lies in its own period, for all five kinds |
| Periodic.SamePeriod | crates/notesmith-core/src/periodic.rs:34-71 | all dates of a period have the same bounds and the same key |
| Periodic.BoundsOfDate | crates/notesmith-core/src/periodic.rs:47-71 | computing the bounds of a date gives its period, and panics exactly when the range cannot close it |
| Periodic.LastDay | crates/notesmith-core/src/periodic.rs:118-125 | the last day of a month is the day before the next month, and panics exactly for December of the last year |
| PeriodicKeys.YmdRoundTrip | crates/notesmith-core/src/periodic.rs:75 | parsing a printed daily date gives the date back, for years of any sign and length |
| PeriodicKeys.KeyRoundTrip | crates/notesmith-core/src/periodic.rs:34-90 | for every date, looking up its key does what computing its bounds does; months of negative years and the week cut off at the first date are the only keys that name no period |
| PeriodicKeys.CommonKeyRoundTrip | crates/notesmith-core/src/periodic.rs:34-90 | in years 1 to 9999 the key of a date's period gives back that period's bounds |
| PeriodicKeys.KeysPartition | crates/notesmith-core/src/periodic.rs:34-71 | any two dates have the same key exactly when they lie in the same bounds |
| PeriodicKeys.KeyShapes | crates/notesmith-core/src/periodic.rs:34-46 | the daily, weekly, monthly and yearly keys hold the year, month, day and ISO week in digits at fixed places |
| PeriodicKeys.QuarterlyShape | crates/notesmith-core/src/periodic.rs:34-46 | the quarterly key holds the year without padding and the number of the quarter, whose months are the three up to its triple |
| PeriodicKeys.TrailingTextRefused | crates/notesmith-core/src/periodic.rs:75 | nothing may follow a daily key |
| PeriodicKeys.EmptyFieldRefused | crates/notesmith-core/src/periodic.rs:75 | the year, month and day of a daily key each need a digit |
| PeriodicKeys.WrappedQuarter | crates/notesmith-core/src/periodic.rs:82-86 | quarter 1431655767 of any year is read as its March, the month being computed in 32 bits |
| PeriodicKeys.KeyPanics | crates/notesmith-core/src/periodic.rs:73-91 | looking up a key panics exactly when its date is in the last month, quarter or week, which the range cannot close |
| PeriodicKeys.AcceptedKey | crates/notesmith-core/src/periodic.rs:73-91 | every accepted key, canonical or not, gives the bounds of a genuine period, which that period's own key gives too |
| PeriodicNotes.SplitTemplateAroundToken | crates/notesmith-config/src/vault.rs:869-894 | the cursor loop finds the text before and after the first matching variable |
| PeriodicNotes.MatchNotePath | crates/notesmith-config/src/vault.rs:285-304 | the loop over the kinds computes the match of a path |
| PeriodicNotes.FirstFolderDecides | crates/notesmith-config/src/vault.rs:287-302 | the first kind whose folder matches decides, even when its key does not parse |
| PeriodicNotes.MarkdownBySuffix | crates/notesmith-config/src/vault.rs:839-843 | a path is taken for a note exactly when it ends in ".md" |
| PeriodicNotes.MatchRoundTrip | crates/notesmith-config/src/vault.rs:235-304 | for every date, the path built from folder, template and key is matched to that kind, key and bounds, or panics where computing the bounds does |
| PeriodicNotes.CommonMatchRoundTrip | crates/notesmith-config/src/vault.rs:235-304 | in years 1 to 9999 it is matched to that kind, key and bounds |
| PeriodicNotes.DefaultMatchRoundTrip | crates/notesmith-config/src/vault.rs:107-135 | with the default filenames a kind matches its notes named by their keys, weekly ones after "Week " |
| PeriodicPanics.MatchPanicsExactly | crates/notesmith-config/src/vault.rs:285-304 | matching a path panics exactly when, for the first kind with its folder, the stem is too short for the template or its key is at the end of the range |
| PeriodicPanics.SharedEndsPanic | crates/notesmith-config/src/vault.rs:857-861 | a kind whose template has the same text on both sides panics on the note named by just that text |
| PeriodicPanics.ShortStemExample | crates/notesmith-config/src/vault.rs:285-304 | the template "a{{date}}a" and the note "a.md" in its folder |
| PeriodicPanics.RangeEndExample | crates/notesmith-core/src/periodic.rs:118-125 | the template "{{month}}" and the note "262142-12.md" in its folder |
| PeriodicPanics.ExtractPeriodicNote | crates/notesmith-index/src/indexer.rs:694-723 | the indexer's record of a note: its match by path, or else its stem taken as a key of the first kind that decides |
| PeriodicPanics.FirstKindRecords | crates/notesmith-index/src/indexer.rs:710-721 | a note with no match by path is recorded for the first kind, in order, that is its type or reads its stem |
| PeriodicPanics.RecordPanicsExactly | crates/notesmith-index/src/indexer.rs:694-723 | recording a note panics exactly when matching its path does, or it has no match and its stem is at the end of the range for the first kind that decides |
| PeriodicPanics.AnyFolderExample | crates/notesmith-index/src/indexer.rs:710-721 | the note "262142-12.md" in any folder that is no kind's |
| JsonScan.ScanObject | crates/notesmith-clip/src/youtube.rs:286-315 | the scan finds the closing brace; the depth counter never underflows |
| JsonScan.ExtractJsonObjectAfter | crates/notesmith-clip/src/youtube.rs:275-316 | the marker, the gap and the scan together compute the extracted slice |
| JsonObjects.ReturnedSliceCloses | crates/notesmith-clip/src/youtube.rs:275-316 | on any input a returned slice closes its braces outside strings at its end and nowhere earlier |
| JsonObjects.NothingReturned | crates/notesmith-clip/src/youtube.rs:275-316 | nothing is returned exactly when the marker is missing, something else follows it, or no brace closes in time |
| JsonObjects.ObjectCloses | crates/notesmith-clip/src/youtube.rs:290-315 | a printed JSON object closes its braces at its end and nowhere earlier |
| JsonObjects.ObjectIsReturned | crates/notesmith-clip/src/youtube.rs:275-316 | for every JSON object printed after the marker and a gap, with anything following, exactly that object is returned |
| JsonObjects.OtherIsNotReturned | crates/notesmith-clip/src/youtube.rs:279-285 | nothing is returned when anything but an opening brace follows the marker and a gap of blanks and '=' |
| JsonObjects.GapIsNotReturned | crates/notesmith-clip/src/youtube.rs:279-316 | nor when only a gap follows |
| Captions.DecodeEntities | crates/notesmith-clip/src/youtube.rs:216-254 | the entity loop computes the decoded text |
| Captions.StripTags | crates/notesmith-clip/src/youtube.rs:258-269 | the tag loop keeps exactly the characters outside angle brackets |
| Captions.ParseTimedtextSrv3 | crates/notesmith-clip/src/youtube.rs:492-525 | the element loop computes the segments, skipping elements without a time or text |
| CaptionPrinting.DecodeEscape | crates/notesmith-clip/src/youtube.rs:216-254 | decoding undoes escaping with the predefined entities, for every text |
| CaptionPrinting.DecodeDecimal | crates/notesmith-clip/src/youtube.rs:232-243 | a decimal reference is the character with that number, and is kept as text for a surrogate |
| CaptionPrinting.DecodeHex | crates/notesmith-clip/src/youtube.rs:232-243 | a hexadecimal reference likewise, with either x and digits of either case |
| CaptionPrinting.DecodeUnnamed | crates/notesmith-clip/src/youtube.rs:221-250 | a name that stands for nothing, or is twelve characters long or more, is kept with its ampersand |
| CaptionPrinting.KnownNames | crates/notesmith-clip/src/youtube.rs:224-231 | the names that stand for something are the five of XML and "nbsp" |
| CaptionPrinting.StripBody | crates/notesmith-clip/src/youtube.rs:258-269 | stripping a body of bare and tagged pieces leaves its escaped text |
| CaptionPrinting.StartAttr | crates/notesmith-clip/src/youtube.rs:560-566 | the start attribute of a printed element is found |
| CaptionPrinting.DurationAttr | crates/notesmith-clip/src/youtube.rs:560-566 | the duration attribute of a printed element is found |
| CaptionPrinting.CaptionRoundTrip | crates/notesmith-clip/src/youtube.rs:492-525 | printing any list of captions, with or without durations, and parsing it gives back the same times and texts |
| CaptionNumbers.ParseFraction | crates/notesmith-clip/src/youtube.rs:509-514 | a decimal fraction has its exact value |
| CaptionNumbers.ParseLarge | crates/notesmith-clip/src/youtube.rs:509-514 | an exponent multiplies by a power of ten |
| CaptionNumbers.ParseSmall | crates/notesmith-clip/src/youtube.rs:509-514 | a negative exponent divides by one |
| CaptionNumbers.ParseSigned | crates/notesmith-clip/src/youtube.rs:509-514 | a sign is read in front of any number |
| CaptionNumbers.ParseWords | crates/notesmith-clip/src/youtube.rs:509-514 | "inf", "infinity" and "nan" in any case are the only words read as numbers |
| CaptionNumbers.LowerEach | crates/notesmith-clip/src/youtube.rs:509-514 | a case is that of the twenty-six letters |
| CaptionNumbers.SumsOfFloats | crates/notesmith-clip/src/youtube.rs:519-523 | start and duration add up exactly; infinities of opposite signs, and what is no number, make no number |
| CaptionNumbers.SegmentDecided | crates/notesmith-clip/src/youtube.rs:509-519 | an element makes no segment exactly when its start is missing or no number, or its text is blank |
| CaptionNumbers.BadDurationIsNone | crates/notesmith-clip/src/youtube.rs:512-514 | a duration that is missing or no number is none |
| CaptionNumbers.UnfinishedElement | crates/notesmith-clip/src/youtube.rs:495-506 | an element without an end tag takes all that follows; one whose tag does not close is not read |
| UrlScheme.PercentDecode | crates/notesmith-core/src/url_scheme.rs:241-263 | the byte loop computes the decoded text |
| UrlScheme.ParseQueryParams | crates/notesmith-core/src/url_scheme.rs:227-238 | the pair loop computes the parameter map |
| UrlScheme.PassesThroughExactly | crates/notesmith-core/src/url_scheme.rs:245-255 | malformed escapes pass through exactly when each one met is the last character; otherwise characters are lost |
| UrlScheme.MalformedExample | crates/notesmith-core/src/url_scheme.rs:245-255 | "%zz" decodes to "%" |
| UrlScheme.NotResumed | crates/notesmith-core/src/url_scheme.rs:245-255 | nor does decoding resume after the '%' of a malformed escape, unless it is last, if no '%' is among the two characters lost |
| UrlScheme.ResumingVaries | crates/notesmith-core/src/url_scheme.rs:245-255 | when a '%' is lost, the text after it decides too: the same two characters lost, two outcomes |
| UrlPrinting.DecodeEncode | crates/notesmith-core/src/url_scheme.rs:241-272 | decoding undoes percent-encoding, with hex digits of either case |
| UrlPrinting.QueryRoundTrip | crates/notesmith-core/src/url_scheme.rs:227-238 | a printed query gives back its parameters, in whatever order they were printed |
| UrlPrinting.RoutePrinted | crates/notesmith-core/src/url_scheme.rs:94-225 | the encoded segments and parameters of a link are routed back to that link |
| UrlPrinting.UrlRoundTrip | crates/notesmith-core/src/url_scheme.rs:67-272 | printing any valid link and parsing it gives the link back |
| UrlErrors.DecodeEach | crates/notesmith-core/src/url_scheme.rs:241-272 | every escaped byte is the character with its number, '+' is a space, and what is neither is itself |
| UrlErrors.LastPairWins | crates/notesmith-core/src/url_scheme.rs:227-238 | of pairs with one key the last is read |
| UrlErrors.SlashesCollapse | crates/notesmith-core/src/url_scheme.rs:80-84 | a slash more changes no segment |
| UrlErrors.RouteDecided | crates/notesmith-core/src/url_scheme.rs:85-225 | a link is accepted exactly when it has a known route with the segments and parameters that route needs, or is a user action; else the error says what fails first |
| UrlErrors.SchemeDecided | crates/notesmith-core/src/url_scheme.rs:67-80 | a link of another scheme is refused as such; the query starts at the first question mark |
| Permission.SelectedPolarity | crates/notesmith-agent/src/acp.rs:310-338 | an offered option of the decided polarity is answered, and it is cancelled only when none was offered |
| Permission.SelectedAnswers | crates/notesmith-agent/src/acp.rs:310-338 | a refusal answers the earliest lone refusal offered, allowing always the earliest always, allowing otherwise the earliest lone allow, and the other kind only failing that |
| Permission.PermissionState.IsAlways | crates/notesmith-agent/src/permission.rs:111-116 | whether the tool is granted |
| Permission.PermissionState.Remember | crates/notesmith-agent/src/permission.rs:119-123 | the tool is granted and nothing else changes |
| Permission.AnswerPermission | crates/notesmith-agent/src/acp.rs:346-423 | the decider is asked exactly when neither scope nor grant settles the request, only its AllowAlways is remembered, under the title, or the kind or a placeholder if that is empty, and the option answered is the one its decision calls for |
| Permission.RunKeepsInv | crates/notesmith-agent/src/acp.rs:405-423 | in every interleaving the invariant holds and the grants only grow |
| Permission.CheckAsksUngranted | crates/notesmith-agent/src/acp.rs:412-417 | at its check a request asks the decider exactly when its tool is not granted at that moment |
| Permission.SeenIsKept | crates/notesmith-agent/src/acp.rs:405-423 | what a request saw at its check, and its answer once given, never change |
| Permission.ReadWriteSafety | crates/notesmith-agent/src/acp.rs:405-423 | grants are exactly seeds and AllowAlways answers; the decider is bypassed exactly for tools granted at check time; allow options only if granted or decided, and each answer is the option its decision calls for |
| Permission.ReadOnlySilence | crates/notesmith-agent/src/permission.rs:150-160 | a read-only session never asks, never grants, and answers the earliest lone allow, failing that the earliest always |
| Permission.RequestCanSettle | crates/notesmith-agent/src/acp.rs:405-423 | from every session a request can arrive, check, and be decided either way |
| Driver.HandshakeReported | crates/notesmith-agent/src/acp.rs:426-432 | the handshake outcome is delivered at most once, and exactly once in a run that reaches the loop or ends |
| Driver.PromptsInOrder | crates/notesmith-agent/src/acp.rs:1344-1362 | commands are taken first in first out; a prompt is sent as its message, after its editor context if it has one, after the preamble if it is the first |
| Driver.OneEventPerPrompt | crates/notesmith-agent/src/acp.rs:1358-1383 | each completed prompt has exactly one Done or Error, and only the last can be an Error |
| Driver.NothingAfterError | crates/notesmith-agent/src/acp.rs:1370-1382 | after an Error nothing more is taken, sent or emitted by the loop |
| Driver.ReplaySuppressed | crates/notesmith-agent/src/acp.rs:1095-1110 | exactly the updates picked up outside the two stores of the replay flag are forwarded |
| DriverRuns.NothingLost | crates/notesmith-agent/src/acp.rs:1330-1395 | the commands, prompt ends and updates of a run are those of its actions, none lost, doubled or reordered, and the loop closes by itself only when no command is left |
| DriverRuns.SessionOpened | crates/notesmith-agent/src/acp.rs:1245-1325 | a session in its loop was loaded if that was asked for, offered and went well, and was created otherwise; the replay flag is stored only around a load |
| DriverRuns.FailureReported | crates/notesmith-agent/src/acp.rs:1225-1451 | a failed handshake is reported with its own error; a run that fails ends with one error event, and one that ends by itself with none |
| DriverRuns.EveryCommandCanBeServed | crates/notesmith-agent/src/acp.rs:1330-1395 | for every list of commands and way of opening the session there is a run that serves them all and ends |
| DocumentText.WindowEnd | crates/notesmith-document/src/lib.rs:284-296 | a window is never empty, never longer than the target, and ends after the last newline it can break at |
| DocumentText.ChunkText | crates/notesmith-document/src/lib.rs:275-319 | the loop computes one chunk for each window that is not blank |
| DocumentText.ChunksInOrder | crates/notesmith-document/src/lib.rs:305-314 | chunks are numbered consecutively, trimmed, not empty, within the target, and do not overlap |
| DocumentText.ChunkingIsLossless | crates/notesmith-document/src/lib.rs:275-319 | the windows tile the text, and the chunks hold all its non-whitespace characters in order |
| DocumentText.WindowsBreakAtNewlines | crates/notesmith-document/src/lib.rs:284-296 | every window ends with the text, else after its last newline that is not its first character, else at the target |
| DocumentText.NormalizeText | crates/notesmith-document/src/lib.rs:254-271 | the line loop computes the normalised text |
| DocumentText.NormalizeKeepsInk | crates/notesmith-document/src/lib.rs:254-271 | normalising keeps the sequence of non-whitespace characters |
| DocumentText.NormalizedIsNormal | crates/notesmith-document/src/lib.rs:254-271 | normalised text has no space before a newline, no two blank lines in a row, and no space at its ends |
| DocumentText.NormalizeIdempotent | crates/notesmith-document/src/lib.rs:254-271 | normalising twice is normalising once |
| DocumentText.UnchangedExactly | crates/notesmith-document/src/lib.rs:254-271 | exactly the normal texts are left as they are |
| DocumentText.NormalizeKeepsParagraphs | crates/notesmith-document/src/lib.rs:254-271 | the paragraphs, their lines and the breaks between them are kept |
| TranscriptMatch.MatchTranscript | spikes/transcript-occurrence-matching/probe.py:104-140 | the loop and the sort compute the match |
| TranscriptMatch.BestIsNearest | spikes/transcript-occurrence-matching/probe.py:104-140 | the chosen occurrence is a nearest usable one, the earliest of those, and every other is farther by at least the margin |
| TranscriptMatch.NothingChosen | spikes/transcript-occurrence-matching/probe.py:120-138 | something is chosen exactly when a usable occurrence is within the tolerance |
| TranscriptMatch.NoMatchVerdicts | spikes/transcript-occurrence-matching/probe.py:119-138 | no timestamp, no usable occurrence and too far are told apart, the last with the least distance |
| TranscriptMatch.MarginIsAttained | spikes/transcript-occurrence-matching/probe.py:129-139 | the margin is attained by another entry, and missing exactly for a single one |
| TranscriptMatch.TiesGoToTheFirst | spikes/transcript-occurrence-matching/probe.py:129-139 | of entries at the same distance with the same start the first in the list is chosen |
| TranscriptMatch.DistanceIsLeast | spikes/transcript-occurrence-matching/probe.py:93-101 | the distance is that to the nearest moment of the window, its ends in either order |
| TranscriptMatch.DistanceLipschitz | spikes/transcript-occurrence-matching/probe.py:93-101 | the distance changes by no more than the moment does |
| TranscriptMatch.MatchIsRobust | spikes/transcript-occurrence-matching/probe.py:104-140 | if the margin exceeds twice a shift, a timestamp off by at most that shift gives the same occurrence or none |
| Resample.ResampleLinear | crates/notesmith-clip/src/youtube_audio.rs:150-166 | the loop computes the interpolated signal |
| Resample.PositionInside | crates/notesmith-clip/src/youtube_audio.rs:155-161 | no index read as the left sample passes the end of the input |
| Resample.OutputWithin | crates/notesmith-clip/src/youtube_audio.rs:137-166 | every sample after downmix and resample lies between any bounds of the input samples |
| Resample.ResampleMonotone | crates/notesmith-clip/src/youtube_audio.rs:150-166 | a non-decreasing mono signal stays non-decreasing |
| Resample.DownmixAverages | crates/notesmith-clip/src/youtube_audio.rs:137-146 | mono input is returned as it is; else there is one sample for each frame begun, and it is the average of that frame |
| Resample.ResampledExactly | crates/notesmith-clip/src/youtube_audio.rs:150-166 | each output sample is the exact weighted mean of the two input samples around its position |
| Resample.LengthExactly | crates/notesmith-clip/src/youtube_audio.rs:153-154 | the output length is the scaled length rounded to the nearest, and at least 1 |

## Left out

- ChunkNote: offsets count characters, not UTF-8 bytes; the source's offsets are the corresponding byte positions.
- Run: the chunker options and the note parser are fixed over a history; a caller that changes `ChunkerOptions` between passes keeps old spans of unchanged notes.
- Run: progress counters, log lines and the error texts of the filesystem and SQLite.
- LoadChunks: vectors are stored as such, so the skipping of misaligned blobs is not modelled.
- Search: rounding, infinities and NaN of `f32`; distances are exact reals and the norm is an exact square root.
- KeyPanics: the overflow of `(quarter - 1) * 3`, which a debug build traps; the release build wraps, as modelled.
- MatchRoundTrip: prefix and suffix without '/', since a filename template with one names a deeper folder.
- ExtractJsonObjectAfter: scans characters instead of bytes; the characters it looks for are ASCII, so the slices are the same.
- ObjectIsReturned: an atom is any text without structural characters or quotes, which includes every number and literal of RFC 8259.
- ParseTimedtextSrv3: float rounding, with the overflow of large decimals to infinity; the legacy `<text>` format and its fallback.
- PercentDecode: input characters are single bytes; a character outside ASCII would be decoded byte by byte.
- HandshakeReported: aborting the driver by dropping the session, which discards the receiver of the report as well.
- PromptsInOrder: the routing and replies of model changes; they are commands taken in the same order.
- ReplaySuppressed: the mapping of one session update to several events, and the diagnostics log.
- AnswerPermission: mutex poisoning, the construction of the diff preview, and the serialisation of a tool kind to its name.
- BestIsNearest: the text of the reason for an absent match.
- Read-only store handles, `upsert_chunks`, metrics and SQLite itself: foreign calls or easy members.
- Terminal supervision, local file access, MCP binding selection and process spawning in the agent.
- EPUB and PDF parsing, HTML conversion, note templates, and the user interface.

# Verified models of the document and dictation pipelines

This project models the parts of the repository where a small slip loses text, moves an edge to the
wrong document or shows a stale caption, and proves what those parts are meant to guarantee. The
theorems are about all inputs, but for the few lemmas named below that each show one input. Each
algorithm that the repository writes step by step is a method with the same loops and in-place updates
and is proved equal to a specification function; what the algorithm is for is then proved about that
function. What the code takes from outside (regular
expression matches, the neural tagger, the voice activity detector, the database's row order, the
clock) is an arbitrary input.

* **Chunking text** (`Text`, `Sorting`, `Pieces`, `Splitter`, `SplitRules`, `ProtectedSpans`, `SpanRules`,
  `IsolatedCuts`, `HeaderTracker`, `HeaderSteps`, `TableText`, `Merging`, `ChunkPlan`, `TextSplitter`,
  `SplitPlan`, `RepeatedStart`). A text is cut by separators, the cuts are moved around protected spans,
  and the pieces are merged into chunks with overlap and a repeated table header. The chunks give the
  text back, none is longer than the limit, header included, and every protected span that fits lies
  whole in one of them. Where the chunks part, what they repeat and which of them get a header is stated
  exactly, and so is which headers are in force after every unit.
* **PDF columns** (`Columns`, `ColumnLimit`). The gutter search finds a widest empty strip, and the
  recursive cut along it puts the glyphs in reading order without losing one; a gutter is left exactly
  when the depth limit was hit.
* **Dictation** (`Casing`, `Capu`, `Punctuation`, `Transcript`, `Dictation`, `DictationLedger`).
  Punctuating a session changes case and adds marks but keeps every word, whatever the tagger answers,
  and puts in exactly the marks and capitals the labels ask for; the session protocol keeps its promises
  under every interleaving of the receive loop and the partial decode, and what a run sends is read off
  its events.
* **Markdown clean-up** (`MarkdownFences`, `MarkdownNormalizer`, `MarkdownLines`). Normalising is
  idempotent, keeps exactly the lines it should, leaves fenced lines alone and leaves no two blank lines
  in a row elsewhere.
* **Merged table cells** (`MergedCells`, `Expansion`, `FillCounts`, `VerticalMerge`, `NestedTables`,
  `NestedRules`). The pass that fills continuation cells agrees with the meaning of a merged block, and a
  second pass changes nothing.
* **Legal relations** (`TwinAliases`, `TwinResolution`, `TwinCompleteness`, `TwinSurvivors`, `Relations`,
  `RelationMerge`, `CatalogImport`, with `Options`, `Batches` and `StringOrder`). Resolving the twins of
  an import drops a new document exactly if a copy of it is held, brings the new copies of one document
  to one row, and gives chains of at most two steps, so the four steps that are followed always reach the
  end; an import replaces its own edges, moves the edges of twins and touches nothing else.
* **Provision links** (`Decimals`, `ProvisionPages`, `ActingDocuments`, `ProvisionRows`,
  `ProvisionUpsert`, `ProvisionImport`). Afterwards the editors' links at the documents read are exactly
  those found on the pages, or the import did nothing at all.
* **Component labels** (`Segments`, `Units`, `UnitRules`, `Labeling`). A label written is the label read back.
* **Degenerate tails** (`DegenerateTail`). A page is cut exactly where a repeated run at its end begins.

Some properties one would expect do not hold of the code for every input. The lemmas named here give
inputs for which they fail and the conditions under which they hold:

* For an arbitrary alias map a merge leaves no edge at a twin if and only if the chains at both ends of
  every edge it moves end within four steps (`RelationMerge.MergeLeavesNoTwinIffMovedEndInTime`); five
  twins in a row are too many (`TwinAliases.FiveTwinsAreTooMany`). The maps that `ResolveTwins` builds
  are never that long (`TwinResolution.ChainsAreShort`), so an import always leaves none
  (`CatalogImport.NothingIsLeftAtTwins`).
* Running the same relation import twice is not always the same as running it once: an edge that was
  moved from a twin to an imported survivor is dropped by the second run unless the import lists it
  (`RelationMerge.MovedEdgeIsGoneNextTime`; the condition in `RelationMerge.SecondMergeIsExact`).
* A column may keep a gutter: of thirteen dots on a page two are left in one column
  (`ColumnLimit.AGutterCanStay`). One does if and only if the recursion arrived at its depth limit with
  a part that could be cut, for which a page needs at least twelve wide gaps
  (`ColumnLimit.ColumnsAreReadable`).
* The assertion that the tagger never adds or drops words holds if and only if no word given is itself
  a mark (`Capu.DecorateAssertHolds`).
* Cutting a degenerate tail once may leave another (`DegenerateTail.TwoRunsTakeTwoPasses`, on a text of
  ten lines). The second pass changes nothing if and only if no run ends the items in front of the first
  cut (`DegenerateTail.SecondPassIffEarlierRun`).
* Two chunks may begin at the same place (`RepeatedStart.StartsCanRepeat`, on a table behind an empty
  match, with the default tracker). A chunk begins where the one before it did if and only if that one,
  when it was finished, had no text but its header, or was full, its table not having ended, and carried
  a header in front of an empty piece and fits without it (`Merging.StartStaysIff`); there are no empty
  pieces without an empty match of a protected pattern (`TextSplitting.NoEmptyPiece`).
* A partial text may follow "too long": the receive loop waits while it sends that message and closes
  the session, and the decode in flight is cancelled only afterwards
  (`Dictation.PartialMayFollowTooLong`). One can if and only if a partial of the utterance in progress
  is being decoded when the message arrives that is one too many (`Dictation.PartialFollowsTooLongIff`);
  nothing else follows (`Dictation.OnlyPartialsAfterTooLong`).

The round trip of the splitter has no exception: with the trackers a splitter is built with, a chunk
size of at least 1 and separators that are not empty, it holds for every text and all matches, whatever
was split before (`TextSplitting.InstalledRoundTrip`).

Where a comment and the code differ, the model follows the code: `split_text_keep_separator` puts the
separator at the front of a piece, not at its end; `restore_text` sorts by end and then start; and the
fence test of the Markdown clean-up lets a backtick follow in the info string of a backtick fence, which
section 4.5 of the CommonMark Spec does not.

## Model

| member | source | states |
|---|---|---|
| SeparatorSplitting.KeepSeparatorKeepsText | docreader/utils/split.py:5-24 | the pieces cut at a separator are not empty and concatenate to the text |
| SeparatorSplitting.CharsKeepText | docreader/utils/split.py:43-49 | the character split gives one piece per character and loses nothing |
| SeparatorSplitting.FirstSplitShrinks | docreader/splitter/splitter.py:167-172 | for a text of two characters or more some split function yields at least two pieces, each shorter than the text: the measure on which the recursion ends |
| SeparatorSplitting.SplitFits | docreader/splitter/splitter.py:148-183 | the recursive split terminates, keeps the text, and leaves only non-empty pieces of at most the chunk size |
| SeparatorSplitting.TrySeparators | docreader/splitter/splitter.py:167-172 | the loop over the split functions picks the first that yields more than one piece, else the characters |
| SeparatorSplitting.SplitRecursively | docreader/splitter/splitter.py:148-183 | the recursion with its list of pieces computes the split that is proved to fit |
| SplitRules.KeepSeparatorCutsAll | docreader/utils/split.py:5-24 | each piece but perhaps the first begins with the separator, and no piece holds another |
| SplitRules.FirstThatCuts | docreader/splitter/splitter.py:167-172 | the first separator in order that yields more than one piece is used, and the characters only where none does |
| SplitRules.SplitOnlyWhereNeeded | docreader/splitter/splitter.py:148-183 | a text that fits is left whole; any other is cut by that separator and its parts are split in their turn |
| ProtectedSpans.KeptExactly | docreader/splitter/splitter.py:330-346 | a span is kept if and only if it is shorter than a chunk and begins at or after the end of every match sorted before it, kept or not |
| ProtectedSpans.KeptAreDisjoint | docreader/splitter/splitter.py:312-346 | the kept spans are in text order, disjoint, shorter than a chunk, and carry exactly the text at their place |
| SpanRules.KeptIffProtected | docreader/splitter/splitter.py:312-346 | a span is kept if and only if its match is shorter than a chunk, begins behind the end of all that begin earlier, and is the longest of those that begin with it |
| ProtectedSpans.SplitProtected | docreader/splitter/splitter.py:312-346 | sorting by start and falling length and folding with the furthest end computes the kept spans |
| ProtectedSpans.IsolateKeepsText | docreader/splitter/splitter.py:348-420 | cutting the splits around the kept spans leaves a list of pieces that concatenates to the text |
| ProtectedSpans.GuardsArePieces | docreader/splitter/splitter.py:348-420 | every kept span that is not empty is exactly one piece at its own position, also when it crosses several splits |
| IsolatedCuts.JoinCutsExactly | docreader/splitter/splitter.py:348-420 | the text is cut at both edges of every kept span, at the ends of the splits that lie in none, and nowhere else |
| ProtectedSpans.IsolatedFit | docreader/splitter/splitter.py:348-420 | no piece is longer than a chunk if no split is, and only an empty span gives an empty piece |
| ProtectedSpans.TakeGuards | docreader/splitter/splitter.py:383-411 | the inner loop over the spans of one split cuts off what lies before and inside them, and stops at the first span beyond the split |
| ProtectedSpans.JoinPieces | docreader/splitter/splitter.py:348-420 | the loop with its moving point and remainder computes the pieces cut around the spans |
| HeaderTracking.HeaderTracker.ClearTableHeader | docreader/splitter/header_hook.py:138-141 | the table header moves from the active headers to the ended ones and is no longer waiting for its column names |
| HeaderTracking.HeaderTracker.EndPhase | docreader/splitter/header_hook.py:146-179 | the pending break, the end patterns and the change of the column count, in this order, give the state the specification gives |
| HeaderTracking.HeaderTracker.ExtendPhase | docreader/splitter/header_hook.py:181-186 | headers waiting for column names take them from a table row, and none waits afterwards |
| HeaderTracking.HeaderTracker.Update | docreader/splitter/header_hook.py:143-206 | one unit takes the tracker to the specified state and returns the headers begun with it |
| HeaderTracking.BeforeStartsKeeps | docreader/splitter/header_hook.py:146-186 | when headers may start, nothing waits, no active header is an ended one or has a matching end pattern, and an end is reported only for a table header that is gone and a unit that is a table row |
| HeaderTracking.StartHeadersKeeps | docreader/splitter/header_hook.py:188-200 | starting headers leaves the ended ones and the active ones alone, and only headers begun by it are waiting or new |
| HeaderTracking.StepKeeps | docreader/splitter/header_hook.py:143-206 | one unit keeps the invariant; only headers begun by it wait for names, and a header it ended is not begun again by it |
| HeaderTracking.RunKeeps | docreader/splitter/header_hook.py:128-206 | after any units and for any patterns: active and ended headers are disjoint, waiting headers are active, a pending table break implies an active table header, and a reported end implies none |
| HeaderSteps.StepIsExact | docreader/splitter/header_hook.py:143-206 | header by header: it is in force after a unit if and only if it stays or begins with it; it stays unless its end pattern matches, the table was broken off or the columns differ; it begins if it was neither in force nor ended and its pattern matches; it keeps its text, or takes the row and its own separator line if it waits; all may begin again once none is in force |
| HeaderSteps.StepReports | docreader/splitter/header_hook.py:146-179 | a break is pending, and an end reported, exactly for a table header in force, by the unit and the state before it |
| HeaderSteps.StartedAreBegun | docreader/splitter/header_hook.py:188-206 | what is returned are the headers begun with the unit, with their texts |
| HeaderSteps.NextHeaderBegins | docreader/splitter/header_hook.py:203-204 | in every text, behind a unit that leaves no header in force one begins whenever its pattern matches |
| HeaderSteps.HeadersAreJoined | docreader/splitter/header_hook.py:208-216 | the headers in force are joined line by line, the highest priority first |
| TableText.RowHasItsColumns | docreader/splitter/header_hook.py:85-94 | a row has as many columns as cells, whatever the cells hold but pipes |
| TableText.EmptyHeaderIff | docreader/splitter/header_hook.py:69-75 | a header waits for its names if and only if every cell of its first row is blank |
| TableText.SeparatorIsFirstWithDashes | docreader/splitter/header_hook.py:78-82 | the separator line of a header is its first line with three dashes |
| HeaderTracking.EmptyUnitIsQuiet | docreader/splitter/header_hook.py:53-63 | with the default hook an empty unit switches every header off without reporting an end |
| Merging.RetainIsLongest | docreader/splitter/splitter.py:261-278 | the overlap that is kept is the longest tail of the chunk within both limits: from any earlier piece on they fail, also among empty pieces |
| Merging.RetainedIsRoomy | docreader/splitter/splitter.py:261-278 | the overlap that is kept is within both limits, or it is empty |
| Merging.StartStaysIff | docreader/splitter/splitter.py:226-293 | for any chunk of the result and the next: some piece finishes the first, and the next begins where it began if and only if the first had no text but its header, or its table had not ended and it had a header in front of an empty piece and fits without it |
| RepeatedStart.StartsCanRepeat | docreader/splitter/splitter.py:118-298 | with the default tracker, a table behind an empty match gives two chunks that begin at one place |
| Merging.PopFront | docreader/splitter/splitter.py:265-278 | the loop that pops the front of the chunk, a header with the piece behind it, leaves no header, leaves exactly the overlap, and keeps the counter equal to the length |
| Merging.Finish | docreader/splitter/splitter.py:253-259 | a chunk is the first start, the last end and the joined texts of its elements |
| Merging.HeadersOpenChunks | docreader/splitter/splitter.py:280-293 | the header of a finished chunk is the one the tracker reported with the piece that opened it, the first piece behind the chunk before, and is one that piece may have put in front of it |
| Merging.AfterIsChunked | docreader/splitter/splitter.py:213-298 | after every piece the finished chunks are in shape: header and slice, length bound, no gap, bounded overlap |
| Merging.MergedShape | docreader/splitter/splitter.py:185-310 | all chunks are in shape, the first begins at 0 and the last ends with the text |
| ChunkPlan.MergedIsPlanned | docreader/splitter/splitter.py:185-310 | every chunk takes pieces until one finds no room or a table ends with it, and is closed only then; the next repeats the most that is allowed, in whole pieces, and has the header reported with its first new piece if and only if that leaves room and is apt, and behind a table's end neither |
| Merging.PiecesAreCovered | docreader/splitter/splitter.py:295-298 | every piece lies whole inside some chunk |
| Merging.EndsAscend | docreader/splitter/splitter.py:559 | the ends of the chunks strictly increase, so the sort in restore_text changes nothing |
| Merging.ShapeRestores | docreader/splitter/splitter.py:555-568 | chunks in shape restore their text: no negative index is 0 by accident and each slice stays behind the header |
| Merging.RestoreText | docreader/splitter/splitter.py:530-568 | the loop over the sorted chunks with its negative slices computes the restored text |
| TextSplitting.TextSplitter.Create | docreader/splitter/splitter.py:67-112 | a splitter is built if and only if the overlap is not larger than the chunk size, whatever the size and the separators; with a size of 1 or more and no empty separator it is fit for every text |
| TextSplitting.TextSplitter.EndTable | docreader/splitter/splitter.py:226-236 | when a table ends with this unit the chunk in hand is closed and the next one begins empty |
| TextSplitting.TextSplitter.AddPiece | docreader/splitter/splitter.py:237-298 | overlong headers are skipped, a full chunk is closed, the overlap kept, the header put in front, and the piece added, with the counter always the true length |
| TextSplitting.TextSplitter.Merge | docreader/splitter/splitter.py:185-310 | the loop over the pieces, feeding the tracker, yields the specified chunks and leaves the tracker in the specified state |
| TextSplitting.TextSplitter.SplitText | docreader/splitter/splitter.py:118-146 | the four stages together give the specified chunks, and the chunks restore the text |
| TextSplitting.PiecesFit | docreader/splitter/splitter.py:137-141 | the assertion before merging holds: the pieces concatenate to the text, and none exceeds the chunk size |
| TextSplitting.RoundTrip | docreader/splitter/splitter.py:118-146 | restoring the chunks of a text gives the text, for any separators, matches, hooks and tracker state, if no header can come with an empty piece |
| TextSplitting.InstalledRoundTrip | docreader/splitter/splitter.py:60-146 | with the tracker a splitter is built with, after any earlier texts, restoring the chunks of any text with any matches gives the text |
| TextSplitting.ChunkShape | docreader/splitter/splitter.py:226-298 | a chunk, header included, is within the limit; it is at most one header, the one in force at the piece that opened it, followed by exactly its slice; starts do not fall back, ends increase, there is no gap and the overlap is bounded |
| SplitPlan.PiecesPartExactly | docreader/splitter/splitter.py:118-146 | the pieces that are merged part at the edges of kept spans and at the ends of splits outside them, and nowhere else |
| SplitPlan.ChunksArePlanned | docreader/splitter/splitter.py:118-310 | the plan of the merge holds for every text, any matches and any tracker |
| SplitPlan.HeaderIsPutExactly | docreader/splitter/splitter.py:280-293 | a chunk behind another has the headers in force at the piece that ended that one, if no table ended with it, piece and headers are shorter than a chunk, the piece does not hold them and its columns do not differ from theirs; else it has none |
| TextSplitting.NoEmptyPiece | docreader/splitter/splitter.py:321-346 | when no match is empty no piece is, so the starts of the chunks strictly increase too and the round trip holds for every tracker |
| TextSplitting.ProtectedSurvives | docreader/splitter/splitter.py:312-346 | every kept protected span lies whole inside at least one final chunk |
| Columns.FindSplit | docreader/parser/pdf_parser.py:719-735 | the sweep over the sorted intervals computes the specified cut |
| Columns.CutIsExact | docreader/parser/pdf_parser.py:719-735 | no cut means no empty strip of the minimal width with items on both sides; a cut is the middle of a widest such strip |
| Columns.SplitIsClean | docreader/parser/pdf_parser.py:746-749 | neither side of a cut is empty, so the fallback is unreachable, and no glyph straddles the gutter |
| Columns.SplitIsInReadingOrder | docreader/parser/pdf_parser.py:738-752 | columns run left to right: every glyph of an earlier column ends at least the minimal gap before any glyph of a later one begins |
| Columns.ColumnsHoldAll | docreader/parser/pdf_parser.py:738-752 | the columns together hold exactly the glyphs, each as often as before |
| ColumnLimit.ColumnsAreReadable | docreader/parser/pdf_parser.py:738-752 | the columns of a page partition its glyphs in reading order, none is empty, and none keeps a gutter if and only if the depth limit was not hit, which is so with at most eleven wide gaps or at most eleven columns |
| ColumnLimit.GutterLeftIffLimitHit | docreader/parser/pdf_parser.py:738-752 | whatever exact cut is used and at any depth, some column can still be cut if and only if the recursion arrived at its limit with a part that could be |
| ColumnLimit.LimitTakesManyGaps | docreader/parser/pdf_parser.py:719-752 | every level of the recursion uses up a wide gap of the page, so the limit is hit only on pages with at least twelve |
| ColumnLimit.LimitLeavesManyColumns | docreader/parser/pdf_parser.py:738-752 | where the limit is hit there are at least twelve columns |
| ColumnLimit.AGutterCanStay | docreader/parser/pdf_parser.py:738-752 | on a page 500 wide, with thirteen dots on it and gaps wider than the least gutter between them, one column is left with a gutter |
| Casing.RecaseKeepsWord | docker/sherpa-asr/capu.py:92-108 | a case edit keeps the folded word and makes a token a mark exactly if it was one |
| Capu.LabelTokens | docker/sherpa-asr/capu.py:73-85 | the window loop terminates and leaves for every token the label of the window chosen for it |
| Capu.ChosenIsFurthest | docker/sherpa-asr/capu.py:74-85 | the chosen window is the one in which the token is furthest from the nearest edge, also when the last window is short; at most two windows cover a token |
| Capu.LabelIsOfWindow | docker/sherpa-asr/capu.py:73-85 | the label of a token is the answer for it in the chosen window of sixty, of those begun every 48 tokens |
| Capu.EditLoop | docker/sherpa-asr/capu.py:86-108 | the loop over tokens and labels computes the edited tokens |
| Capu.DedupLoop | docker/sherpa-asr/capu.py:109-115 | the loop that drops a second mark computes the deduplicated tokens |
| Capu.DedupSeparatesMarks | docker/sherpa-asr/capu.py:109-115 | no two marks in a row remain |
| Capu.RunPass | docker/sherpa-asr/capu.py:70-115 | one pass is labelling, editing and dropping second marks |
| Capu.PassKeepsWords | docker/sherpa-asr/capu.py:70-115 | a pass keeps the words up to case, in order, for any tagger |
| Punctuation.RecaseIsExact | docker/sherpa-asr/capu.py:91-105 | letter by letter: which letters of a word become capital or small, by its label, the threshold of 0.9 and the start of a sentence |
| Punctuation.EditedAt | docker/sherpa-asr/capu.py:86-108 | a token becomes its edited word, with behind it the mark its label asks for, unless the token is a mark, and a colon only from 0.9 on; a sentence starts behind a full stop or question mark there already or put there |
| Punctuation.DedupDropsSecondMarks | docker/sherpa-asr/capu.py:109-115 | exactly the marks behind a mark are dropped |
| Punctuation.PassPunctuates | docker/sherpa-asr/capu.py:70-115 | after a pass each word is spelt as its label says and followed by the mark its label asks for, or else by the one that stood there |
| Capu.DecorateAssertHolds | docker/sherpa-asr/capu.py:133-136 | the assertion holds if and only if no given word is a mark |
| Capu.DecorateKeepsWords | docker/sherpa-asr/capu.py:117-137 | each output is its word up to case with at most one mark attached |
| Capu.PassLoop | docker/sherpa-asr/capu.py:121-126 | the loop stops at a fixed point or after the given number of passes |
| Capu.GroupLoop | docker/sherpa-asr/capu.py:127-133 | marks are attached to the word before them |
| Punctuation.GroupIsWordAndMark | docker/sherpa-asr/capu.py:127-133 | the group of a word is the word and the mark right behind it |
| Punctuation.GroupsKeepText | docker/sherpa-asr/capu.py:127-133 | joined, the groups are the tokens less the marks before the first word |
| Punctuation.TwoPasses | docker/sherpa-asr/capu.py:121-126 | stopping at a fixed point makes no difference to two passes |
| Punctuation.DecoratedIsWordAndMark | docker/sherpa-asr/capu.py:117-137 | decorated word i is the word of its number behind the context after two passes, with the mark behind it |
| Capu.Decorate | docker/sherpa-asr/capu.py:117-137 | decorating returns the groups behind the context, as many as there are words |
| Transcripts.SessionKeepsWords | docker/sherpa-asr/capu.py:150-177 | after any utterances, frozen and live text together are the words of all utterances up to case, each with at most one mark; at most twice the live limit are live |
| Transcripts.FrozenOnlyGrows | docker/sherpa-asr/capu.py:171-174 | frozen text never changes; it only grows at its end |
| Transcripts.AddShowsDecorated | docker/sherpa-asr/capu.py:167-174 | behind the frozen words everything live is shown decorated anew, and with more than 48 live words all but the last 24 are frozen |
| Transcripts.ContextIsLast | docker/sherpa-asr/capu.py:169 | the context is the last 24 tokens of the draft and the frozen text, or all of them |
| Transcripts.AnyTaggerKeepsWords | docker/sherpa-asr/capu.py:117-137 | what a session needs of decorating holds for every tagger |
| Transcripts.Transcript.ReadContext | docker/sherpa-asr/capu.py:169 | the context is the last tokens of the draft and the frozen text |
| Transcripts.Transcript.AddUtterance | docker/sherpa-asr/capu.py:167-174 | adding an utterance updates the three lists as specified and keeps the words said |
| Transcripts.Transcript.FreezeFront | docker/sherpa-asr/capu.py:171-174 | when the live list has grown too long its front is frozen and the rest stays live |
| Dictation.FeedLoop | docker/sherpa-asr/server.py:213-218 | the detector gets exactly the unseen samples in whole windows, in order and once each, and speech is noticed if any window has it |
| Dictation.FeedMessage | docker/sherpa-asr/server.py:212-218 | appending a message and feeding it to the detector takes the session to the specified state |
| Dictation.HandleAudio | docker/sherpa-asr/server.py:206-231 | one audio message, with its refusal, feed, trim and start of a partial decode, takes a session in order to the specified state, which is in order again |
| Dictation.TrimKeeps | docker/sherpa-asr/server.py:223-226 | with less than a window unseen the trim drops only samples the detector has seen, keeps the unseen ones, and leaves the lead-in at most unless someone speaks |
| Dictation.StepKeeps | docker/sherpa-asr/server.py:163-231 | every step of the loop or of a decode task, at each of the awaits, keeps the session invariant |
| Dictation.EveryRunIsSafe | docker/sherpa-asr/server.py:154-231 | over all interleavings messages are in order, at most one partial decode runs, the offset lies in the buffer with less than a window unseen, and every sample received is accounted for |
| Dictation.NoStalePartial | docker/sherpa-asr/server.py:163-169 | no partial of an utterance is sent after a final or "done" that closed it |
| Dictation.OnlyPartialsAfterTooLong | docker/sherpa-asr/server.py:206-211 | after "too long" nothing is sent but partials of the utterance in progress |
| Dictation.PartialFollowsTooLongIff | docker/sherpa-asr/server.py:163-211 | a session that is refused may still send something if and only if a partial of the utterance in progress was being decoded when the message arrived |
| Dictation.RefusedSaysLittle | docker/sherpa-asr/server.py:206-237 | and then it sends that partial, once, and nothing more |
| Dictation.PartialMayFollowTooLong | docker/sherpa-asr/server.py:163-211 | a run of silence, speech and a decode in flight, with no message of more than a quarter of the limit, in which such a partial is sent while the session is being closed |
| Dictation.OnePartialInFlight | docker/sherpa-asr/server.py:227-231 | of all partial decodes ever started at most the last one still runs |
| DictationLedger.LogIsExact | docker/sherpa-asr/server.py:163-237 | the log of every run is what its events send, in order and once each: a final with the utterance it closes for every final sent, "done" for every one sent, "too long" with the message that is one too many, and a partial with each decode of the utterance in progress that has text |
| DictationLedger.CountsBalance | docker/sherpa-asr/server.py:163-237 | after every step: segments queued or flushed are decoded, being decoded or still to come, texts decoded are sent or about to be, stops are answered or being answered, and the utterance is the number of segments and stops closed |
| DictationLedger.NothingIsOwedWhileWaiting | docker/sherpa-asr/server.py:171-200 | whenever the loop waits every segment was decoded, every text sent as a final and every stop answered |
| DictationLedger.AllTextsAreSent | docker/sherpa-asr/server.py:171-200 | the log then holds as many finals as there were texts and one "done" for every stop |
| DictationLedger.LoopComesBack | docker/sherpa-asr/server.py:171-200 | each step of the loop that is not a wait brings it nearer to one |
| DictationLedger.PartialBeginsIff | docker/sherpa-asr/server.py:227-231 | a partial decode begins exactly if there is speech, none is running, one is due and no segment is queued |
| DictationLedger.TrimIsExact | docker/sherpa-asr/server.py:223-226 | of silence exactly ten windows are kept, and while someone speaks nothing is dropped |
| DictationLedger.ComesBackEmpty | docker/sherpa-asr/server.py:219-222 | when the loop comes back from finals it waits with an empty buffer |
| MarkdownFences.OpeningFenceIsExact | docreader/parser/mhtml_parser.py:341-351 | a line opens a fence if and only if it is at most three spaces and then a maximal run of at least three backticks or tildes |
| MarkdownFences.ClosingFenceIsExact | docreader/parser/mhtml_parser.py:354-361 | a line closes a fence if and only if it is at most three spaces, a run at least as long of the same character, and blanks |
| MarkdownNormalizer.NormalizeMarkdown | docreader/parser/mhtml_parser.py:298-338 | the loop with its pending blank and open fence computes the specified text |
| MarkdownNormalizer.NormalizedKeepsItems | docreader/parser/mhtml_parser.py:298-338 | the result reads as the same lines: fenced ones verbatim, others trimmed, gaps and order kept |
| MarkdownNormalizer.NormalizedIsIdempotent | docreader/parser/mhtml_parser.py:298-338 | normalising a normalised text changes nothing |
| MarkdownNormalizer.NormalizedIsTidy | docreader/parser/mhtml_parser.py:323-338 | outside fences there are no two blank lines in a row and no untrimmed line, and the text neither begins nor ends with an empty line |
| MarkdownNormalizer.FencesAreVerbatim | docreader/parser/mhtml_parser.py:307-321 | every line from an opening fence to its close is kept as it stands, but for empty lines at the very end |
| MarkdownLines.ItemsAreLines | docreader/parser/mhtml_parser.py:307-340 | the lines kept are those in a fence and those that are not blank, all of them and in order, fenced ones as they are, others trimmed, and with a gap exactly where a blank line stands before |
| MarkdownLines.TrimmedLineIs | docreader/parser/mhtml_parser.py:331-336 | blanks at the end of a line go, but for the two of a hard break |
| MergedCells.MasterIsTopOfChain | docreader/parser/docx_merge.py:107-146 | a cell is found to show a restart cell if and only if a chain of overlapping continue cells leads up to one, and it shows one that a chain leads to |
| MergedCells.LeftmostColumnDecides | docreader/parser/docx_merge.py:127-134 | a continue cell takes over from the cell above that covers the leftmost of its columns in which anything is shown |
| Expansion.ExpansionFollowsChains | docreader/parser/docx_merge.py:98-150 | a cell no chain leads up from is left alone; any other loses its mark and shows the content of a restart cell a chain leads to, as it was before the pass |
| VerticalMerge.FirstActive | docreader/parser/docx_merge.py:126-133 | the first of a cell's columns with an entry in the dictionary gives the content the row above shows there, and there is none if no column has one |
| VerticalMerge.WordTable.FillCell | docreader/parser/docx_merge.py:107-146 | one cell is dealt with in place, and the dictionary of the row then holds what its cells show |
| VerticalMerge.WordTable.FillRow | docreader/parser/docx_merge.py:103-148 | one row is dealt with in place, and the dictionary handed down is what the row shows |
| VerticalMerge.WordTable.FillVerticalMerges | docreader/parser/docx_merge.py:98-150 | the pass leaves the expanded table, counts the continue cells filled, and reports a change if and only if the table had a restart cell |
| FillCounts.CountIsExact | docreader/parser/docx_merge.py:98-150 | the count is the number of continue cells that a chain leads up from |
| FillCounts.ChangeIsExact | docreader/parser/docx_merge.py:98-150 | a change is reported if and only if some cell is a restart cell |
| FillCounts.CellsStandSideBySide | docreader/parser/docx_merge.py:153-177 | a cell is as wide as its span, or one column where that is no number from 0 on |
| Expansion.SecondPassChangesNothing | docreader/parser/docx_merge.py:98-150 | a second pass reports no change, fills nothing and leaves the table as it is |
| NestedTables.NormalizedIsIdempotent | docreader/parser/docx_merge.py:85-91 | with tables nested to any depth, inner ones first, expanding a document twice is expanding it once |
| NestedRules.InnerTablesComeFirst | docreader/parser/docx_merge.py:85-91 | a table becomes the expansion of itself with every node in its cells expanded |
| TwinAliases.Survivor | cmd/legal-catalog-import/main.go:354-363 | the loop of four steps finds the row reached by following the aliases |
| TwinAliases.SurvivorIsEnd | cmd/legal-catalog-import/main.go:352-363 | the row found is no twin if and only if the chain ends within four steps, and then it is the chain's end whatever its length |
| TwinAliases.FiveTwinsAreTooMany | cmd/legal-catalog-import/main.go:354-363 | a chain of five twins ends, but the row found is still a twin: what four steps cannot do for an arbitrary alias map |
| TwinAliases.ALoopNeverEnds | cmd/legal-catalog-import/main.go:354-363 | two twins of each other have no end |
| TwinAliases.PruneCandidates | cmd/legal-catalog-import/main.go:285-301 | gathering the survivors and filtering the rows gives, in order, the rows that are neither imported nor reviewed nor survivors |
| TwinAliases.GoneIsExact | cmd/legal-catalog-import/main.go:281-301 | a stored row is pruned if and only if it is neither imported nor reviewed nor passed within four steps from an imported twin |
| TwinAliases.SurvivorIsNeverPruned | cmd/legal-catalog-import/main.go:281-301 | the row that took over an imported twin is never pruned |
| TwinResolution.ResolveTwins | internal/legalcatalog/twins.go:80-190 | the loops over catalogue, import and rows left unreachable compute the specified aliases, rows kept and rows renumbered; catalogued rows are weighed first; every chain of twins that comes out is short |
| TwinResolution.SameDocumentIn | internal/legalcatalog/twins.go:222-236 | the loop finds the first full copy, else the first row that waits for its text |
| TwinResolution.WeighKeeps | internal/legalcatalog/twins.go:105-182 | weighing one document keeps: a twin that holds a key waits for its text and survives as a full copy, every survivor holds a key, every other twin was weighed before |
| TwinResolution.ChainsAreShort | internal/legalcatalog/twins.go:80-190 | whatever the texts, the catalogue, the import and the order it is weighed in, no twin is its own survivor and no chain has more than two steps |
| TwinResolution.SurvivorIsThere | internal/legalcatalog/twins.go:80-190 | the survivor of a twin is no twin, is in the catalogue or the import, and is not dropped |
| TwinResolution.DroppedAreNewTwins | internal/legalcatalog/twins.go:131-137 | only new ids are dropped from the import, and each is a twin |
| TwinCompleteness.DroppedIffCopyIsHeld | internal/legalcatalog/twins.go:129-150 | a new document is dropped if and only if a row that holds its key before it is weighed is the same document under another id and is a full copy, or waits as it does; then it is a twin of such a row |
| TwinCompleteness.HeldWhenWeighed | internal/legalcatalog/twins.go:85-110 | a row holds a key when a document is weighed if and only if the catalogue gives it, or it came to hold it as one weighed before |
| TwinCompleteness.NewReplacesWaiting | internal/legalcatalog/twins.go:113-150 | a new document that is kept takes over every copy that waits under its key and every unreachable row that is it |
| TwinSurvivors.WaitingRowsAreTaken | internal/legalcatalog/twins.go:113-150 | so in the end every row that waits and is the same document as a new one that is kept is a twin |
| TwinSurvivors.LookalikeIsWeighed | internal/legalcatalog/twins.go:151-181 | what becomes of a catalogued row whose look-alike key folds to one others hold, by the copies among them |
| TwinSurvivors.DroppedIsReported | internal/legalcatalog/twins.go:112-117 | a dropped document is reported if and only if its status is not its survivor's |
| TwinSurvivors.CopiesMeet | internal/legalcatalog/twins.go:80-190 | two new documents of one key that are the same document have one survivor |
| TwinSurvivors.FullHoldersStay | internal/legalcatalog/twins.go:85-110 | a full row of the catalogue that holds its key is never a twin |
| TwinResolution.KeptIsExact | internal/legalcatalog/twins.go:184-188 | what is kept of the import are, in order, the documents not dropped |
| TwinResolution.ResolveOrder | internal/legalcatalog/twins.go:196-206 | the import is weighed in an arrangement of itself, catalogued rows first, and where all ids are numbers by rising numbers |
| Relations.EdgeBuilder.Add | cmd/legal-catalog-import/main.go:365-388 | one row extends the edges and the skip counts of all rows so far, under one reason or none |
| Relations.BuiltIsExact | cmd/legal-catalog-import/main.go:365-388 | the edges built are exactly those some row stands for, each once, between two different known documents, and with short chains none ends at a twin |
| Relations.BuiltFromRows | cmd/legal-catalog-import/main.go:365-388 | an edge is built if and only if some row stands for it: its wording has a direction, it touches the import, and its ends survive as two different known documents |
| Relations.SkipIsExact | cmd/legal-catalog-import/main.go:365-388 | a row that stands for no edge is skipped for its wording, or else for the documents it joins |
| Relations.FirstsKeepSources | cmd/legal-catalog-import/main.go:380-384 | of rows with one edge the first one's wording is kept |
| RelationMerge.Find | cmd/legal-catalog-import/main.go:433-436 | the stored edges that touch a batch are listed once each, in any order |
| RelationMerge.RepointEdges | cmd/legal-catalog-import/main.go:453-466 | moving the ends to their survivors, without self edges and repeats |
| RelationMerge.ListsConcat | cmd/legal-catalog-import/main.go:430-442 | an edge that touches two batches is moved with the first of them only |
| RelationMerge.RelationStore.DeleteImported | cmd/legal-catalog-import/main.go:423-429 | deleting batch by batch removes exactly the edges that touch an imported document |
| RelationMerge.RelationStore.TakeTwins | cmd/legal-catalog-import/main.go:430-442 | the batches of twins take each of their edges out of the table exactly once |
| RelationMerge.RelationStore.CreateInBatches | cmd/legal-catalog-import/main.go:443-447 | inserting in batches gives the same as inserting one by one, rows whose key is taken being passed over |
| RelationMerge.RelationStore.MergeRelations | cmd/legal-catalog-import/main.go:410-449 | a merge leaves exactly the untouched old edges, the new ones and the moved ones, with old wordings before new and new before moved; a failed one leaves the table as it was |
| RelationMerge.EveryEdgeIsAccountedFor | cmd/legal-catalog-import/main.go:404-449 | each stored edge is left alone, dropped because it touches an imported document, or found at its survivors unless those are one row; nothing else appears but the new edges |
| RelationMerge.NoSelfEdges | cmd/legal-catalog-import/main.go:451-462 | no edge joins a document to itself if none did before |
| RelationMerge.TwinsLoseTheirEdgesIffChainsAreShort | cmd/legal-catalog-import/main.go:404-466 | a merge is sure to leave no edge at a twin if and only if the chain of every twin outside the import ends within four steps |
| RelationMerge.MergeLeavesNoTwinIffMovedEndInTime | cmd/legal-catalog-import/main.go:404-466 | for each stored table: a merge leaves no edge at a twin if and only if the chains at both ends of every edge it moves end within four steps |
| RelationMerge.SecondMergeIsExact | cmd/legal-catalog-import/main.go:410-449 | the same import again keeps exactly the edges that touch no imported document and those it lists; it changes nothing if and only if every edge at an imported document is listed |
| RelationMerge.MovedEdgeIsGoneNextTime | cmd/legal-catalog-import/main.go:410-449 | an edge of a twin of an imported document is at the survivor after one run and gone after the second |
| RelationMerge.ImportLeavesNothingAtTwins | cmd/legal-catalog-import/main.go:339-466 | from the portal's rows to the stored table: with short chains no edge is left at a twin |
| CatalogImport.NothingIsLeftAtTwins | cmd/legal-catalog-import/main.go:152-466 | with the twins resolved against any catalogue no edge is left at a twin, and none joins a document to itself if none did before |
| CatalogImport.SecondImportIsExact | cmd/legal-catalog-import/main.go:404-466 | with the same twins, the same import again keeps exactly the edges at no imported document and those it lists |
| CatalogImport.SurvivorStays | cmd/legal-catalog-import/main.go:281-301 | with resolved twins the row that took over an imported one is not pruned |
| ProvisionRows.TextIsInjective | cmd/legal-provision-links/main.go:360 | the text of provision, code and source tells links apart whatever the provision ids hold, since a source never holds a bar |
| ProvisionRows.PagesNameSources | internal/vbpl/editor_links.go:83 | every link found on the pages has a source in the alphabet of the tag reader |
| ProvisionRows.AllKeysAreKeptIffToldApart | cmd/legal-provision-links/main.go:360-364 | every key met is kept if and only if the text compared by tells all of them apart |
| ProvisionRows.EveryTagIsCounted | cmd/legal-provision-links/main.go:326-358 | every tag of the pages read becomes a row or is counted once as naming an appendix or as standing on another level |
| ProvisionRows.BuildRows | cmd/legal-provision-links/main.go:310-421 | the loops over pages, provisions and tags keep the first link with each text, with the acting document, the paths and the dates looked up for it; repeats, appendix tags and tags on other levels are counted, and with the rows they add up to the tags read |
| ProvisionRows.KeptKeysAreDistinct | cmd/legal-provision-links/main.go:360-364 | no key is kept twice, whatever characters the ids hold, so no statement names a key twice |
| ProvisionRows.EveryLinkIsKeptOnce | cmd/legal-provision-links/main.go:326-418 | every link on a page is kept under its own key, once, and nothing else is, whatever characters the provision ids hold |
| ProvisionImport.FoundIsExact | cmd/legal-provision-links/main.go:326-345 | the links found are those of the tags on articles, clauses and items of the pages read that name no appendix, all of them and no other |
| ProvisionImport.PagesGrow | cmd/legal-provision-links/main.go:326-345 | they are found page by page, provision by provision and tag by tag |
| ProvisionRows.PrunableDocsAreExact | cmd/legal-provision-links/main.go:599-607 | the prunable documents are those of the pages that were read and hold provisions |
| ActingDocuments.ChosenIsBest | cmd/legal-provision-links/main.go:366-393 | a page is chosen if and only if another document's page holds the provision; it is one named by the other source, else in the catalogue, else any, and of those the least id |
| ActingDocuments.OrderMakesNoDifference | cmd/legal-provision-links/main.go:366-443 | the acting document does not depend on the order of the pages |
| ActingDocuments.ActingIsAnother | cmd/legal-provision-links/main.go:366-403 | no document acts on itself, and none is missing where a page holds the provision |
| ActingDocuments.DetailsAreExact | cmd/legal-provision-links/main.go:350-417 | which document acts, with which path, from when and until when, by the page chosen, the other source and the catalogue |
| ActingDocuments.IndexPages | cmd/legal-provision-links/main.go:313-325 | the index lists for every provision id the pages that hold it, in order |
| ActingDocuments.Pick | cmd/legal-provision-links/main.go:425-443 | the loops narrow several candidates as specified |
| ActingDocuments.Resolve | cmd/legal-provision-links/main.go:364-417 | the acting document, its path and the dates of one link are as specified |
| ProvisionUpsert.AppliedAt | cmd/legal-provision-links/main.go:632-649 | after a run each key holds the imported link, or nothing if it was a stale editors' link of a pruned document, or what it held |
| ProvisionUpsert.SuccessIsExact | cmd/legal-provision-links/main.go:609-660 | with older stored stamps, the editors' links left at the pruned documents are exactly the imported ones, other links are untouched unless imported, and what goes is the old ones not imported again |
| ProvisionUpsert.RemovedAtMostHad | cmd/legal-provision-links/main.go:621-653 | no more links are removed than the pruned documents had |
| ProvisionUpsert.SecondRunRemovesNothing | cmd/legal-provision-links/main.go:615-660 | the same import again removes nothing and changes only the stamps of its own links |
| ProvisionUpsert.ProvisionStore.CountEditorRows | cmd/legal-provision-links/main.go:624-631 | the batches together count each editors' link of the documents once |
| ProvisionUpsert.ProvisionStore.CreateInBatches | cmd/legal-provision-links/main.go:632-640 | writing in batches gives what writing row by row gives, and cannot fail on keys that are distinct |
| ProvisionUpsert.ProvisionStore.DeleteStale | cmd/legal-provision-links/main.go:641-649 | the batches delete exactly the stale editors' links and count them |
| ProvisionUpsert.ProvisionStore.Upsert | cmd/legal-provision-links/main.go:615-660 | a run writes and prunes as specified or leaves the table as it was; with no failing statement it goes through if and only if the removals are within the floor or the allowed share |
| ProvisionImport.Import | cmd/legal-provision-links/main.go:86-104 | building the rows, listing the documents to prune and writing go together as specified, or the table stays as it was |
| ProvisionImport.LinksAreOf | cmd/legal-provision-links/main.go:326-345 | every link is at a document that is pruned |
| ProvisionImport.KeptIsFirst | cmd/legal-provision-links/main.go:360-364 | the row kept for a key is the first one found with it |
| ProvisionImport.ImportIsExact | cmd/legal-provision-links/main.go:86-104 | with older stored stamps the editors' links at the documents read are afterwards exactly the links found on the pages, each as first found; other editors' links there are gone, and all else is as it was |
| Segments.ExtendedReflects | docformat/docformat/segment.py:219-240 | recording a unit keeps a component exact: its paragraphs distinct and aligned with their first zones, its lines, its texts joined, its position the least |
| Segments.RunIsExact | docformat/docformat/segment.py:219-240 | after any records every component is exactly what was recorded under it, and a paragraph keeps its first label |
| Segments.Segmented.Add | docformat/docformat/segment.py:219-240 | recording updates the component, the order of components and the paragraph labels in place as specified |
| Units.IdsAreDistinct | docformat/docformat/labeling.py:74-83 | no two units of a document have the same id |
| Units.LineIsReadFromId | docformat/docformat/labeling.py:313-320 | the line read from a unit's id is the line it is, and none for other units |
| Units.ElementsAreCoherent | docformat/docformat/segment.py:163-216 | units share a paragraph only as its different lines or as its two columns |
| UnitRules.ElementsAreExact | docformat/docformat/segment.py:163-216 | a document has a unit for every line with content of a paragraph read line by line, for each column with content, and for every other paragraph with content, and no other |
| UnitRules.ElementsAreOrdered | docformat/docformat/segment.py:196-216 | the units come in document order |
| Units.BuildElements | docformat/docformat/segment.py:196-216 | the loop over the paragraphs builds the specified units |
| Labeling.ApplyLabels | docformat/docformat/labeling.py:234-295 | every unit is recorded under the label the reply, the elision or the hint gives it, "khac" under none; the missing ids, the invalid ids and the disagreements with the hints are listed in order, the ids of no unit sorted and once each; the type of the document is read off the texts recorded, else taken from the reply |
| Labeling.HeuristicLabel | docformat/docformat/labeling.py:116-136 | the scan over components and paragraphs, returning a full answer at once and else the first partial one, computes the specified label |
| Labeling.SignatureIsSkipped | docformat/docformat/segment.py:698-722 | whatever is put in the signature block, reading a label does not see it |
| Labeling.EveryLabelComesBack | docformat/docformat/labeling.py:234-276 | every unit not labelled "khac" is read back under the label it was given, whole paragraphs, columns and lines alike |
| Labeling.GivenComesBack | docformat/docformat/labeling.py:255-276 | a unit is read back under the label the reply names for it; left out of question and reply, as body text; else under its hint, or as body text |
| Labeling.RecordsAreExact | docformat/docformat/labeling.py:255-276 | every unit that is not set aside is recorded with its label, text, position, line and side of the page, and nothing else is |
| Labeling.ReportedIdsAreExact | docformat/docformat/labeling.py:260-270 | an id is reported missing or invalid if and only if it is |
| Labeling.BodyIsExact | docformat/docformat/labeling.py:274-276 | the body paragraphs are those of the units labelled as body text |
| Labeling.HintComesBackUnlessReported | docformat/docformat/labeling.py:255-276 | a hinted unit that was asked about is read back under its hint if and only if it is not among the reported disagreements, and a reported one under the label reported |
| DegenerateTail.CutIsExact | docreader/parser/vietnamese_legal_parser.py:170-188 | the items are cut at c if and only if a run of at least five equal items of at least ten characters, the last possibly broken off, begins at c and goes on to the end |
| DegenerateTail.NothingToCut | docreader/parser/vietnamese_legal_parser.py:163-191 | where no such run ends the items the text is returned as it is |
| DegenerateTail.PassChangesIffRun | docreader/parser/vietnamese_legal_parser.py:153-191 | a pass leaves a text as it is if and only if no run ends its items |
| DegenerateTail.CutBeforeRun | docreader/parser/vietnamese_legal_parser.py:163-191 | where one does, what is left is the text before the run's first item without blanks at its end |
| DegenerateTail.SecondPassIffEarlierRun | docreader/parser/vietnamese_legal_parser.py:153-191 | a second pass over what is left, with the boundaries that are left, changes nothing if and only if no run ends the items in front of the first cut, stubs and blank items aside |
| DegenerateTail.ItemsAscend | docreader/parser/vietnamese_legal_parser.py:154-161 | an item before the cut ends no later than the cut, so no item before the run is lost |
| DegenerateTail.TwoRunsTakeTwoPasses | docreader/parser/vietnamese_legal_parser.py:153-191 | a text of ten lines, five of one kind and then five of another, loses the second five in the first pass and the rest in a second |
| DegenerateTail.CollapseDegenerateTail | docreader/parser/vietnamese_legal_parser.py:153-191 | the loops over boundaries, stubs and items walked backwards compute the specified text |

## Left out

- Lengths: `len_function` is the length of the text; other length functions are not modelled.
- TextSplitting.TextSplitter.SplitText: the chunk size is at least 1 and no separator is empty; with an empty separator `str.split` raises, and with a chunk size of 0 the recursion has no end.
- TextSplitting.TextSplitter.Create: the configuration is the default one, whose header pattern does not match an empty text; what it extracts, and the spans the protected patterns find, are arbitrary inputs.
- TextSplitting.RoundTrip: for hooks other than the default ones that may report a header on an empty unit it is stated where no protected match is empty.
- TextSplitting.ChunkShape: the starts strictly increase where no protected match is empty; the exact condition for one chunk and the next (`Merging.StartStaysIff`) is in terms of the pieces.
- TwinSurvivors.CopiesMeet: being the same document is taken to be an equivalence, which a test on texts need not be; two full rows that hold one key in the catalogue are not brought together (`TwinSurvivors.FullHoldersStay`).
- HeaderSteps.StepIsExact: the hooks have different priorities, as headers are kept by priority.
- HeaderTracking.HeaderTracker.Update: the start and end patterns are arbitrary functions of the unit.
- `_validate_chunks` of the splitter and its log output: a debugging aid that is switched off.
- Columns.FindSplit: coordinates are real numbers, so rounding of floating-point gaps is not modelled, and only the horizontal axis is.
- Casing.RecaseKeepsWord: case mapping is any mapping of characters to texts whose folding is kept and that makes no mark; mappings that depend on the neighbouring characters, such as the final sigma, are not covered.
- Capu.LabelTokens: the tagger is any function that answers one label per token; tokenisation and the neural network are not modelled, nor is `restore`.
- Transcripts.Transcript.AddUtterance: an utterance is its list of words, none of which is itself a mark; how the text is split into words and normalised is not modelled.
- Dictation.EveryRunIsSafe: authentication, the text of messages and the clock are not modelled (whether a partial is due is an input), and after the session is closed no further decode is followed. The session limit is that of the default configuration.
- MarkdownNormalizer.NormalizeMarkdown: the conversion from HTML and the rest of the MHTML reader.
- VerticalMerge.WordTable.FillVerticalMerges: cells are their span, mark and children other than the properties; archives, XML syntax and rows or cells wrapped in other elements are not modelled. Aliasing of copied nodes does not arise, as copies are values here.
- RelationMerge.RelationStore.MergeRelations: a transaction is a run of statements, any of which may fail, with the table restored on failure; concurrent writers and creation times are not modelled.
- Relations.EdgeBuilder.Add: the table of portal wordings is an arbitrary function.
- TwinAliases.SurvivorIsNeverPruned: no document has the empty id.
- TwinResolution.ResolveTwins: whether two rows are one document, whether a title waits for its text, the folding of keys and the trimming of a status are arbitrary tests; rows are values, so that a renumbered row is a new one.
- TwinResolution.ResolveOrder: the order of ids is no order where numbers and other ids are mixed; then only that catalogued rows come first is stated.
- ProvisionRows.BuildRows: the paths of provisions and the operation of a code are arbitrary functions; the counts of pages, of malformed tags and of ambiguous sources, and the tallies of the stored rows, are left out.
- ProvisionUpsert.ProvisionStore.Upsert: the share of removals is compared in real arithmetic; the documents are distinct, as they are the names of different files.
- Units.BuildElements: which paragraphs are read line by line, and which texts are more than blanks and ruled lines, are arbitrary inputs.
- Labeling.ApplyLabels: parsing the reply, the excerpts in its report and the test that reads the type off two texts (`detect_type`); the content of the signature block is an arbitrary component.
- DegenerateTail.CollapseDegenerateTail: the boundaries found and the normal form of an item are arbitrary inputs.
- DegenerateTail.SecondPassIffEarlierRun: what the two patterns guarantee is required: no boundary is empty, a numbered boundary takes every blank behind its number, and the normal form does not see blanks at the end of an item and is empty for an empty one.
- `segment()` and its layout rules, `format_table`, the table header labels of the spreadsheet reader and the small readers of numbers and dates: either plainly false as laws or easy.
- Network services, web applications, storage, configuration and command lines: input and output only.

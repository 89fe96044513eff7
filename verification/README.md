# Verified models of the algorithmic core

A Dafny model of the algorithms and state machines of this repository that hold its hard invariants, with proofs. One
module follows one source file or one component of it: objects whose methods update fields are classes, loops that move
indexes or fill arrays are methods with invariants, and each method is proved against a specification whose own
properties are proved as lemmas.

Check everything with `dafny verify dfyconfig.toml` (Dafny 4.11).

| modules | what they model |
|---|---|
| PrefixCache, Speculative, EmbedPacker | the KV memory of a llama context as a map from position to token: prefix caching across calls, rollback of unaccepted draft tokens, the text a call returns, packing of texts into embedding batches |
| Levenshtein | the one-row edit-distance table, against edit scripts |
| TripleQuoted, Modelfile, ModelfileLines, ModelfileEncode, ModelfileItems, ModelfileShape, ModelfileRefused, ModelfileRoundTrip | the Modelfile parser, what each line does, the encoder, and exactly which manifests survive the round trip |
| ToolLoop, ToolChain | the tool loop with arbitrary model, tools and storage, and the partition of messages the chat view makes of what it stores |
| RagSplitter, RagOversized, RagParagraphs, RagChunks, RagOverlap, RagSplit | splitting text into chunks: sentences, hard cuts, merging, overlap |
| Lines, NormalizedText, PdfPages | text normalisation, page bounds of PDF text, the pages chunks are attributed to |
| JsonScanner | the bracket scanners, against a printer for the grammar of RFC 8259, sections 2 to 7 |
| HistoryTokens | trimming and shrinking a chat history to a token estimate |
| StopStream | the hold-back filter for stop sequences |
| ListCache, ListInvalidation, ListLaterCalls | the tool-list cache with coalesced fetches, in every interleaving of its critical sections; when an invalidation can be undone, and by which calls |
| EmbedBatches | divide-and-conquer embedding |
| UploadRate, UploadLag | the upload rate limiter, with clock readings that may come to its lock out of order |
| Strings, Decimal, Domain, PlainStrconv | shared vocabulary: runes, trimming, decimal numbers, chat messages; an instance of the string quoting the codec assumes |

Results that a reader of the code may not expect:

- A call rejected for lack of room leaves its prompt in `cached_tokens` without having decoded it. Later prompts are
  served right exactly when the memory already held that prompt (`RejectedServesAll`); `RejectionCanCorrupt` shows three
  calls after which a call samples from a prompt nobody sent. The same holds of calls that fail later: after a negative
  `max_tokens`, a failing sampler or a failing decode later prompts are served right exactly when as much of the prompt
  is in memory as a prompt that fits can use (`NegativeServesAll`, `CutShortServesAll`).
- If the first token of a speculative call ends generation or is refused by the callback, the rollback removes the last
  prompt position, which `cached_tokens` still lists. After a call with no failed decode the cached tokens are backed by
  memory exactly when this does not happen, or no prompt that fits can reach that position (`GenerateDraft`); an unbacked
  position misleads a later call (`PrefixCache.IncoherentMisleads`).
- The shrinking loop does not always end. It ends exactly for the histories that satisfy `CanShrink`
  (`EndsExactlyWhen`): no content above 96 runes before the tail, or the budget is met once everything behind the last
  such content is emptied and that one is cut to 216 runes. `EndlessShrink` is a history on which it runs for ever.
- PDF chunks carry the right pages exactly when the first page has text (`AttributionIff`): the splitter trims the text
  without moving the page bounds.
- Overlap is lost exactly when the chunk's own text leaves at most two runes of room for it (`OverlapKeepsText`).
- Of all manifests the encoder writes, the parser gives back exactly those of `IsNormal` (`RoundTripIff`). Among those
  lost are stop tokens that are themselves Go literals, untrimmed one-line messages, blocks that begin or end with a line
  break, hold a carriage return at a line end or a line that ends in three quotes, unknown roles and a FROM value of
  several lines; `mmproj` is never written. A block with such a line inside cannot come back whatever is read instead,
  because no text the parser returns has one before its last line (`ParsedIsShaped`); one whose last line ends in three
  quotes leaves a line of quotes behind that is refused (`ItemPassed`).
- Invalidating a server's tool list does not stop a list asked for before from being stored afterwards. That can happen
  exactly when a call for the server waits for a fetch that has not been refused (`InvalidationExact`); it can then be
  served as a hit exactly when the entry would not have run out for the caller: its time has not come yet, a call that
  has still to look began before it, or a later call can still join the fetch (`InvalidationServesExact`). A call that
  begins after the invalidation can return such a list, as a hit or by joining the fetch, exactly when the entry has not
  run out yet or the fetch can still be joined (`LaterCallsExact`).
- The upload that opens a window is never measured against the byte limit. As long as clock readings reach the limiter in
  order, 96 MiB a minute holds exactly if single uploads are capped at the window's 48 MiB or less (`MinuteBytesExact`).
- The limiter reads the clock before it takes its lock, so readings can reach it out of order even under a clock that
  never goes back. If a reading may lag by d behind the largest so far, 96 MiB (with uploads capped at 48 MiB) and 160
  uploads (of any size) hold in every span of a length if and only if that length is at most a minute less 2d
  (`SpanBytesExact`, `SpanUploadsExact`): in every minute only if nothing lags. In longer spans a user can meet three
  windows (`ThreeWindows`). With any lag, pruning changes decisions too (`PruningIsInvisibleIff`).
- A stream that ends in noise with a line break behind it, as in `hi<|im_end|>` and a newline, loses both exactly when
  the longest stop has at least as many runes as both together (`NoiseIsRemovedIff`). With the default stops it does not:
  the noise goes out and only the line break is lost (`BrokenNoiseStays`, `DefaultStopsKeepNoise`).

## Model

| member | source | states |
|---|---|---|
| PrefixCache.LcpIsLongest | llm-runner/llama/wrapper.cpp:338-350 | two token lists agree for exactly n tokens only when n is their common prefix length |
| PrefixCache.Context.FindCommonPrefix | llm-runner/llama/wrapper.cpp:338-350 | the counting loop returns that length |
| PrefixCache.BatchWritesRun | llm-runner/llama/wrapper.cpp:483-496 | a batch of consecutive tokens at explicit positions writes exactly that stretch of the prompt |
| PrefixCache.Context.DecodeChunks | llm-runner/llama/wrapper.cpp:474-511 | decoding n_batch tokens at a time, for any n_batch, leaves what decoding the whole stretch at once would leave |
| PrefixCache.AtSampleIsExact | llm-runner/llama/wrapper.cpp:395-538 | when the first token is sampled the memory is the prompt and nothing else if and only if the positions kept from before held the prompt; covers the full hit, where the last token is decoded again |
| PrefixCache.Context.GenerationLoop | llm-runner/llama/wrapper.cpp:556-642 | generating never touches a position below the prompt's end; the text is the pieces of the tokens in order, up to the first that ends it: end of generation, a refusing callback, a stop word, the budget, or a failed decode |
| PrefixCache.GeneratedUnique | llm-runner/llama/wrapper.cpp:556-642 | the sampled tokens and the callback's answers determine how many tokens such a loop takes and what it returns |
| PrefixCache.Context.GenerateWithTokens | llm-runner/llama/wrapper.cpp:352-676 | a prompt without room is rejected before the memory changes; a call that gets to sampling does so from the state above and returns the text of its tokens; one that fails in between has written the prompt up to some index behind what it kept |
| PrefixCache.Context.Generate | llm-runner/llama/wrapper.cpp:678-722 | what one call may do to memory and cached tokens: the cached tokens are replaced even when the call is then rejected, and a call with room that fails leaves the kept positions and some further part of the prompt, none of it for a negative number of tokens |
| PrefixCache.CoherentServesAll | llm-runner/llama/wrapper.cpp:698-716 | cached tokens are backed by memory, as far as a prompt that fits can reach, if and only if every prompt that fits is served as without caching |
| PrefixCache.IncoherentMisleads | llm-runner/llama/wrapper.cpp:698-716 | a missing or stale position is reached by some prompt that then samples from wrong memory |
| PrefixCache.SuccessStaysCoherent | llm-runner/llama/wrapper.cpp:352-722 | a successful call samples from exactly its prompt and leaves the cached tokens backed |
| PrefixCache.EveryCallIsExact | llm-runner/llama/wrapper.cpp:678-722 | in every run of successful calls, with caching on or off call by call, every call samples from exactly its prompt at positions 0 to n-1 |
| PrefixCache.RejectedServesAll | llm-runner/llama/wrapper.cpp:376-393 | after a call rejected for lack of room every prompt that fits is served as without caching if and only if the memory already held the rejected prompt, as far as it can be used |
| PrefixCache.CutShortServesAll | llm-runner/llama/wrapper.cpp:395-538 | after a call that failed with the prompt in memory up to some index, every prompt that fits is served as without caching if and only if that is as much of it as can be used |
| PrefixCache.NegativeServesAll | llm-runner/llama/wrapper.cpp:395-463 | a negative number of tokens is refused after the memory was cut: every prompt that fits is then served right if and only if what was kept is as much of the prompt as can be used |
| PrefixCache.RejectionCanCorrupt | llm-runner/llama/wrapper.cpp:706-716 | a rejected call between two successful ones makes the second sample from a prompt nobody sent |
| Speculative.PreparePrompt | llm-runner/llama/wrapper.cpp:743-879 | before the first iteration the memory holds the prompt without its last token, for partial and full hits |
| Speculative.RollbackIsExact | llm-runner/llama/wrapper.cpp:909-983 | decoding the last token with the draft and cutting at the new position leaves exactly prompt and accepted tokens without the last one |
| Speculative.Emit | llm-runner/llama/wrapper.cpp:934-967 | tokens go out up to the first that ends generation, is refused, or completes a stop word; an early end is reported exactly then; the text grows by exactly the pieces of those that went out; none goes out if and only if the first ends generation or is refused |
| Speculative.Iterate | llm-runner/llama/wrapper.cpp:906-995 | every iteration, also one that ends early, keeps n_past = prompt - 1 + accepted and the memory below it, and the text the pieces of the accepted tokens |
| Speculative.DraftLoop | llm-runner/llama/wrapper.cpp:886-1010 | the loop goes on until an iteration ends early, the text reaches the budget, or a decode fails, and for no other reason; it returns the pieces of the accepted tokens |
| Speculative.CallUnique | llm-runner/llama/wrapper.cpp:886-1010 | with no failed decode the drafts and samples of the iterations determine how many there are, why the call ends and which tokens it accepts |
| Speculative.GenerateDraftWithTokens | llm-runner/llama/wrapper.cpp:724-1010 | over the whole call the target memory is prompt and accepted tokens without the last one; the returned text is the pieces of the accepted tokens, and the call ends early, at its budget or at a failed decode; nothing is accepted if and only if the first sampled token ends generation or is refused, or the first decode fails |
| Speculative.PromptCachedAfterwards | llm-runner/llama/wrapper.cpp:972-983 | with the prompt listed as cached and no decode failed, the memory backs it if and only if some token was accepted, or no prompt that fits is longer |
| Speculative.GenerateDraft | llm-runner/llama/wrapper.cpp:1019-1075 | a call returns the pieces of the tokens it accepts and ends as its loop does; on a context whose cached tokens are backed it leaves them backed if and only if its first sampled token neither ends generation nor is refused, or no prompt that fits is longer |
| EmbedPacker.PackDecodes | llm-runner/llama/wrapper.cpp:1318-1326 | a packed batch decodes from an empty memory into one sequence per text, holding that text |
| EmbedPacker.Context.Flush | llm-runner/llama/wrapper.cpp:1286-1306 | the vectors of the batch go to the next slots, in text order; all other slots stay |
| EmbedPacker.Context.ClearSequences | llm-runner/llama/wrapper.cpp:1308-1310 | clearing the used sequences empties the memory |
| EmbedPacker.Context.EmbeddingsBatch | llm-runner/llama/wrapper.cpp:1225-1365 | on success slot k holds the embedding of text k, for every batch size and sequence limit, and every text fitted a batch |
| Levenshtein.ScriptsAreLong | llm-runner/template/levenshtein.go:3-34 | no edit script turning a into b is shorter than the distance of the recurrence |
| Levenshtein.ShortestScript | llm-runner/template/levenshtein.go:3-34 | some edit script has exactly that length |
| Levenshtein.DistIsLeast | llm-runner/template/levenshtein.go:3-34 | the recurrence gives the least number of edits over all scripts, and only that number does |
| Levenshtein.DistTriangle | llm-runner/template/levenshtein.go:3-34 | the triangle inequality |
| Levenshtein.LeastEditsMetric | llm-runner/template/levenshtein.go:3-34 | least edit counts are a metric: zero only for equal strings, symmetric, triangle inequality |
| Levenshtein.StringEditDistance | llm-runner/template/levenshtein.go:3-34 | the one-row loop with a saved diagonal returns the least number of edits over all scripts |
| TripleQuoted.ConsumeTripleQuoted | llm-runner/service/modelfile.go:139-173 | the line loop finds the body and the closing line of the specification, or reports an unclosed block |
| TripleQuoted.ClosedByQuotes | llm-runner/service/modelfile.go:149-173 | lines without a closing one among them are read to the quotes behind them |
| TripleQuoted.ClosedEarly | llm-runner/service/modelfile.go:149-163 | a line that ends in three quotes ends the block before it has been read |
| TripleQuoted.GatherLength | llm-runner/service/modelfile.go:149-170 | gathering lines adds nothing, and loses runes at a carriage return or an empty first line |
| TripleQuoted.BlockRoundTrips | llm-runner/service/modelfile.go:139-173 | a body written as a block is read back if and only if no line closes it or ends in a carriage return and no line break begins or ends it |
| Modelfile.ParseModelfile | llm-runner/service/modelfile.go:14-124 | the directive loop computes the specification on every input, errors included |
| Modelfile.Builder.Run | llm-runner/service/modelfile.go:38-111 | one directive, with its repeated, missing and unsupported cases |
| Modelfile.Builder.ApplyParameter | llm-runner/service/modelfile.go:197-285 | one parameter: its field, or its error |
| Modelfile.ParseMessageDirective | llm-runner/service/modelfile.go:287-312 | role and content of a message, on the line or in a block |
| ModelfileLines.PassedOver | llm-runner/service/modelfile.go:24-53 | blank lines, comments and REQUIRES change nothing |
| ModelfileLines.NamesInAnyCase | llm-runner/service/modelfile.go:314-321 | the case of a directive's name does not matter |
| ModelfileLines.KeysInAnyCase | llm-runner/service/modelfile.go:175-230 | nor does the case of a parameter's key, and max_tokens does what num_predict does |
| ModelfileLines.FloatKeysSet | llm-runner/service/modelfile.go:197-279 | each key of a float sets the field of its name and no other, or the value is no number |
| ModelfileLines.IntKeysSet | llm-runner/service/modelfile.go:215-271 | each key of an integer likewise; max_tokens and num_predict set the same field |
| ModelfileLines.OtherKeysDo | llm-runner/service/modelfile.go:231-282 | a context size is positive, a stop token is not blank and comes last, and every other key is refused |
| ModelfileLines.FromDoes | llm-runner/service/modelfile.go:63-72 | FROM takes a path once, without the quotes around it |
| ModelfileLines.TextsDo | llm-runner/service/modelfile.go:38-98 | SYSTEM and TEMPLATE take a text once, each into its field; LICENSE reads one as they do and drops it |
| ModelfileLines.MessageDoes | llm-runner/service/modelfile.go:287-312 | MESSAGE takes a known role in any case and reads the text behind it as SYSTEM reads one; an unknown role is refused |
| ModelfileLines.Refused | llm-runner/service/modelfile.go:30-112 | ADAPTER is refused, and so is every name that is none of the eight |
| ModelfileEncode.EncodeModelfile | llm-runner/service/modelfile_encode.go:13-93 | the writer produces the directives of the manifest in order, or nothing without a FROM value |
| ModelfileItems.DirectiveOf | llm-runner/service/modelfile.go:28-38 | a written directive line is read as that directive with its argument |
| ModelfileItems.FieldsOf | llm-runner/service/modelfile.go:175-186 | a written name and value are split again |
| ModelfileItems.BodyExact | llm-runner/service/modelfile_encode.go:112-128 | a body is read back if and only if it is safe in the form it is written in, and never grows |
| ModelfileRoundTrip.StopExact | llm-runner/service/modelfile_encode.go:99-110 | a stop token is read back if and only if it is trimmed and either gets quoted or is no Go literal itself |
| ModelfileRoundTrip.FromExact | llm-runner/service/modelfile.go:327-334 | the FROM value is read back if and only if it is trimmed and not in quotes |
| ModelfileItems.ItemParses | llm-runner/service/modelfile.go:24-112 | each written directive leads the parser to the state it means, whatever follows |
| ModelfileRoundTrip.EncodedIsRead | llm-runner/service/modelfile_encode.go:13-93 | what the parser makes of any encoded manifest whose directives it accepts, a FROM that is empty within its quotes included |
| ModelfileShape.ClosedIsOpen | llm-runner/service/modelfile.go:149-170 | no line but the last of a text read from a block ends in three quotes |
| ModelfileShape.ParsedIsShaped | llm-runner/service/modelfile.go:14-124 | whatever the file, a parsed manifest has a FROM of one line, known roles, and no text with a line before its last that ends in three quotes |
| ModelfileRefused.ItemPassed | llm-runner/service/modelfile.go:24-112 | the parser gets past a written directive only if it can read it to its end and has no value for it yet |
| ModelfileRoundTrip.GivenBackIsReadable | llm-runner/service/modelfile.go:14-124 | a manifest that is given back has only directives the parser can read to their end |
| ModelfileRoundTrip.RoundTripIff | llm-runner/service/modelfile_encode.go:13-128 | of all manifests the encoder writes the parser gives back exactly the normal ones |
| ModelfileRoundTrip.RoundTrip | llm-runner/service/modelfile_encode.go:13-128 | every normal manifest is given back |
| ToolChain.ConsumeToolChain | internal/chatui/tool_chain_partition.go:67-127 | a chain is found exactly at a tool-calling assistant followed by a tool message; it is as long as it can be |
| ToolChain.PartitionMessagesForToolChainUI | internal/chatui/tool_chain_partition.go:30-61 | the elements cover the whole message list; every segment is a tool-calling assistant with the maximal run of tool messages after it |
| ToolChain.PartitionFlattens | internal/chatui/tool_chain_partition.go:30-127 | the elements flattened in order are exactly 0 to n-1 |
| ToolChain.PartitionUnique | internal/chatui/tool_chain_partition.go:30-127 | the messages determine their partition |
| ToolChain.PartitionAfter | internal/chatui/tool_chain_partition.go:30-127 | what becomes of the messages after a user message does not depend on those before |
| ToolLoop.CallIdsDiffer | internal/usecase/chat_tool_loop.go:729-730 | within a round the call ids tell the calls apart |
| ToolLoop.FilterExecutableToolRows | internal/usecase/chat_tool_loop.go:1460-1469 | exactly the rows that call a real tool, in order |
| ToolLoop.PlacesUnique | internal/usecase/chat_tool_loop.go:1460-1469 | the rows determine their places |
| ToolLoop.ResolveExecutableToolCalls | internal/usecase/chat_tool_loop.go:770-785 | fails if and only if some row names no declared tool; otherwise resolves row by row |
| ToolLoop.ToolCallItems | internal/usecase/chat_tool_loop.go:716-752 | item i carries the i-th id, the resolved name and the parameters of call i without the white space around them, an empty object only for blank ones |
| ToolLoop.Repo.CreateRound | internal/usecase/chat_tool_loop.go:1124-1142 | a round is stored whole or not at all |
| ToolLoop.RunTools | internal/usecase/chat_tool_loop.go:1049-1109 | in whatever order the tools end, slot i gets the result of call i |
| ToolLoop.RunChatToolLoop | internal/usecase/chat_tool_loop.go:900-1156 | round r stores the trimmed reply r with one item for each of its rows of a real tool, by resolved name and trimmed parameters, then the result of each call under its id; the run ends only at the cap, on a reply without such rows, whose direct answer or trimmed text is stored last, on an undeclared tool, a silent or missing reply, or a storage failure |
| ToolLoop.RunUnique | internal/usecase/chat_tool_loop.go:900-1156 | without a storage failure the replies and results determine what a run stores and why it ends |
| ToolLoop.RunRound | internal/usecase/chat_tool_loop.go:1016-1145 | the second half of a round: it stores the round, or names an undeclared tool, or storing fails |
| ToolLoop.RoundsAreSegments | internal/chatui/tool_chain_partition.go:67-127 | stored rounds are back-to-back segments |
| ToolLoop.RunIsOneChain | internal/chatui/tool_chain_partition.go:30-127 | in any session, what a run stored after the user's message is one chain, closed by the plain answer if there is one |
| RagSplitter.NormalizedOptions | pkg/rag/splitter.go:19-33 | for every option value the size is positive and the overlap smaller than it; sensible options stay |
| RagSplitter.ChunkRunes | pkg/rag/splitter.go:537-562 | the loop makes the specified hard cuts |
| RagSplitter.ChunksAreCuts | pkg/rag/splitter.go:537-562 | every piece has max runes, but for the last; only the blank runes behind a piece are left out, and all of them |
| RagSplitter.CutsAreChunks | pkg/rag/splitter.go:537-562 | and they are the only such cuts |
| RagSplitter.ChunksShow | pkg/rag/splitter.go:537-562 | they show every visible rune in order, in pieces of 1 to max runes |
| RagSplitter.SplitSentences | pkg/rag/splitter.go:487-520 | the scanning loop computes the specified sentences |
| RagSplitter.SentencesConserve | pkg/rag/splitter.go:487-520 | splitting into sentences loses nothing but white space |
| RagSplitter.SentencesAreBetween | pkg/rag/splitter.go:487-520 | the sentences are the trimmed stretches between consecutive borders; the borders are the ends of the text and every place behind a sentence end, and no other |
| RagOversized.SplitOversizedParagraph | pkg/rag/splitter.go:435-485 | the builder loop makes the specified parts: they fit, are not blank, and show exactly what the paragraph shows |
| RagOversized.OversizedAreGroups | pkg/rag/splitter.go:435-485 | a long paragraph of several sentences becomes groups of consecutive sentences joined by one space; only a single sentence longer than max is cut |
| RagOversized.GroupsAre | pkg/rag/splitter.go:453-480 | the groups hold all sentences in order, fit, and none could take the sentence that begins the next |
| RagOversized.GroupingUnique | pkg/rag/splitter.go:453-480 | every such grouping is the one computed |
| RagParagraphs.SplitParagraphs | pkg/rag/splitter.go:418-433 | the loop computes the specified paragraphs |
| RagParagraphs.StretchesUnique | pkg/rag/splitter.go:418-433 | the stretches paragraphs are taken from are those between empty lines, and are determined by that: none holds an empty line, and one separates neighbours |
| RagParagraphs.ParagraphsShow | pkg/rag/splitter.go:418-433 | paragraphs show what the text shows, none blank |
| RagParagraphs.AppendParaSpan | pkg/rag/splitter.go:207-227 | the span appended for a stretch of the text, or nothing for a blank one |
| RagParagraphs.ParagraphRuneSpans | pkg/rag/splitter.go:229-247 | the loop computes the specified spans |
| RagParagraphs.ParagraphSpansShow | pkg/rag/splitter.go:207-247 | the spans lie where they say in the trimmed text, hold no empty line, and show all of it |
| RagParagraphs.PageIndex1Based | pkg/rag/splitter.go:249-265 | the binary search finds the page whose bounds enclose the rune, 1 before and the last after all pages |
| RagChunks.MergePieces | pkg/rag/splitter.go:329-383 | the merge loop, with its builder, heading path and page range, makes one chunk of every group |
| RagChunks.GroupsAre | pkg/rag/splitter.go:352-381 | the groups are consecutive pieces under one heading whose joined text fits, and none could take the piece that begins the next |
| RagChunks.GroupingUnique | pkg/rag/splitter.go:352-381 | every such grouping is the one the loop makes |
| RagChunks.MergeConserves | pkg/rag/splitter.go:329-383 | merged chunks show exactly what the pieces show, fit the size and are trimmed |
| RagChunks.PagesAreRange | pkg/rag/splitter.go:172-186 | a chunk's page range is the least first and the greatest last page of its pieces |
| RagChunks.TextsAreLines | pkg/rag/splitter.go:352-366 | the text of a chunk before trimming is its pieces' texts as lines |
| RagOverlap.ApplyOverlap | pkg/rag/splitter.go:568-592 | every chunk but the first gets the end of its predecessor in front |
| RagOverlap.OverlapKeepsText | pkg/rag/splitter.go:568-613 | with overlap a chunk has at most size + overlap runes, ends with its whole own text, and has in front of it the last runes of its predecessor that there is room for, less leading white space; the overlap is lost if and only if at most two runes are left for it |
| RagOverlap.OverlappedUnique | pkg/rag/splitter.go:568-613 | only one text is that |
| RagSplit.SplitText | pkg/rag/splitter.go:310-405 | the chunks before overlap are the grouping of the parts of the paragraphs of the text, or of its spans with their pages for PDF; they hold exactly its visible runes in order and fit the size; overlap is put in front |
| NormalizedText.NormalizeExtractedText | pkg/document/normalize.go:5-53 | the paragraph loop computes the specified text |
| NormalizedText.LineEnds | pkg/document/normalize.go:6-7 | either line end of other systems becomes one newline |
| NormalizedText.NormalizedBreaks | pkg/document/normalize.go:13-52 | what stands on both sides of a blank line is normalised apart, with one empty line between what is left of each |
| NormalizedText.NormalizedLines | pkg/document/normalize.go:13-52 | a text without blank lines comes out as one paragraph, its lines trimmed |
| NormalizedText.NormalizedConserves | pkg/document/normalize.go:5-53 | normalising keeps every visible rune in order |
| NormalizedText.NormalizedShape | pkg/document/normalize.go:5-53 | normalised text is trimmed visible lines in paragraphs with one empty line between |
| NormalizedText.NormalizedTwice | pkg/document/normalize.go:5-53 | normalising again changes nothing |
| PdfPages.PageBounds | pkg/document/extract.go:300-314 | the prefix-sum loop gives the rune at which every page begins, and the end of the text |
| PdfPages.ExtractPages | pkg/document/extract.go:264-316 | every page stands in the joined text between its bounds, empty inner and trailing pages included |
| PdfPages.SpanLiesIn | pkg/rag/splitter.go:249-276 | a paragraph span lies within the page found for its first rune |
| PdfPages.AttributionIff | pkg/rag/splitter.go:267-289 | every span gets the page it lies in, twice, if and only if the first page is not empty |
| PdfPages.ChunkPdf | pkg/rag/splitter.go:278-289 | from raw pages to chunks nothing visible is lost, and with text on page one every piece shows a part of the one page it carries |
| JsonScanner.ExtractLeading | llm-runner/tool_action_extract.go:152-234 | the loop returns the bracketed text at the front, or nothing if there is none |
| JsonScanner.LeadingUnique | llm-runner/tool_action_extract.go:152-234 | the text determines what is returned |
| JsonScanner.ScannerFindsPrintedValue | llm-runner/tool_action_extract.go:152-234 | for every valid array or object, whatever its strings contain, and any text after it, exactly the printed value is returned |
| JsonScanner.ExtractEmbedded | llm-runner/tool_action_extract.go:236-275 | the search ends and returns the accepted candidate that starts first, or nothing if none is accepted |
| JsonScanner.CandidateIsSubstring | llm-runner/tool_action_extract.go:236-275 | what is returned is a stretch of the text |
| JsonScanner.SearchFindsPrintedValue | llm-runner/tool_action_extract.go:236-275 | an accepted printed value is found in any text where no accepted candidate starts earlier |
| HistoryTokens.DropMiddle | internal/usecase/llm_history_tokens.go:127-148 | the oldest messages are dropped, in whole pairs for images, no more than needed, until the rest fits or nothing is left |
| HistoryTokens.DropsTell | internal/usecase/llm_history_tokens.go:127-148 | the last drop was needed, took one message or an image with the plain reply to it, and no such reply is kept without its image |
| HistoryTokens.TrimLLMMessagesByApproxTokensWithDropped | internal/usecase/llm_history_tokens.go:97-160 | system message and tail stay, the middle is split into dropped and kept, and if system and tail fit the result fits |
| HistoryTokens.ShrunkLengthBounds | internal/usecase/llm_history_tokens.go:207-215 | the length step decreases strictly above 216 runes, is fixed at 213 to 216 and does not decrease at 97 to 216 |
| HistoryTokens.ShrunkAgain | internal/usecase/llm_history_tokens.go:207-216 | after any number of rounds a content is what it was, or empty if it had at most 96 runes, or begins with the first three quarters of the original, at most 162 runes of it, and ends in the notice |
| HistoryTokens.EndsExactlyWhen | internal/usecase/llm_history_tokens.go:192-216 | the shrinking loop ends if and only if the budget can be met before a content of 97 to 216 runes is being shrunk |
| HistoryTokens.StuckForever | internal/usecase/llm_history_tokens.go:192-216 | from a stuck state no number of rounds reaches the exit |
| HistoryTokens.EndlessShrink | internal/usecase/llm_history_tokens.go:192-216 | a history on which the loop never ends |
| HistoryTokens.ShrinkMessagesToApproxTokenBudget | internal/usecase/llm_history_tokens.go:178-218 | when it ends, the budget is met or nothing is left to shrink; only contents change and only as above, the tail not at all; contents above 96 runes are never emptied, and one is touched only when all between it and the tail are blank |
| StopStream.TrimTrailingStops | llm-runner/service/stop_stream.go:9-31 | the loop computes the specified passes |
| StopStream.StopStreamFilter.Push | llm-runner/service/stop_stream.go:83-101 | emitted text and buffer together are the text so far; the buffer holds its last maxRunes runes |
| StopStream.StopStreamFilter.Flush | llm-runner/service/stop_stream.go:103-110 | all that came out is the text with only its held-back end trimmed |
| StopStream.Stream | llm-runner/service/stop_stream.go:83-110 | the output does not depend on how the text was cut into pieces |
| StopStream.OutputIsPrefix | llm-runner/service/stop_stream.go:83-110 | the output is a prefix of the text |
| StopStream.OutputCuts | llm-runner/service/stop_stream.go:9-110 | the text is the output followed by blank runes, noise strings, blank runes and stops, and nothing else |
| StopStream.AllStopsGo | llm-runner/service/stop_stream.go:9-31 | what trimming leaves ends in no stop, but for blank runes that were behind it |
| StopStream.WholeText | llm-runner/service/stop_stream.go:33-110 | a text that ends in no stop, no noise and no blank rune comes out whole |
| StopStream.StopIsRemoved | llm-runner/service/stop_stream.go:9-31 | a text that ends in a stop comes out shorter by at least that stop |
| StopStream.NoiseIsRemovedIff | llm-runner/service/stop_stream.go:33-110 | a text that ends in noise, with or without a line break, comes out shorter by at least that noise if and only if the filter holds back as many runes |
| StopStream.BrokenNoiseStays | llm-runner/service/stop_stream.go:56-110 | where the longest stop has the ten runes of a noise word, noise before a line break stays and only the line break is lost |
| StopStream.DefaultStopsKeepNoise | llm-runner/service/stop_stream.go:33-110 | the filter of the noise alone holds back ten runes, and keeps the noise of a text that ends in the ChatML end mark and a newline |
| ListCache.ToolsListCache.Store | internal/mcpclient/tools_list_cache.go:199-220 | storing drops what has expired and the other fingerprints of the server, and nothing else |
| ListCache.EntryStays | internal/mcpclient/tools_list_cache.go:132-432 | an entry stays as it is over every step except an invalidation of its server, or the end of a call for its server or of one that began when the entry had run out |
| ListCache.StoredExactly | internal/mcpclient/tools_list_cache.go:199-220 | after a call ends with a list the cache holds exactly that list and the entries of other servers that had not run out when the call began |
| ListCache.LaterLookupHits | internal/mcpclient/tools_list_cache.go:132-150 | over every run without such steps a later call of the same key that looks before the entry runs out hits, with this list |
| ListCache.LookupMisses | internal/mcpclient/tools_list_cache.go:132-150 | in every reachable state a call misses if and only if there is no entry of its key or it has run out |
| ListCache.OneFetchAtATime | internal/mcpclient/tools_list_cache.go:152-190 | in every run whose calls do not bypass joining, no two unanswered fetches are for the same key |
| ListCache.RequestJoins | internal/mcpclient/tools_list_cache.go:152-190 | a missed call joins the fetch of its key that is under way, and starts one exactly when there is none |
| ListCache.ToolsListCache.InvalidateServerTools | internal/mcpclient/tools_list_cache.go:413-432 | all entries of the server go, and nothing else |
| ListCache.EveryStateIsSafe | internal/mcpclient/tools_list_cache.go:132-224 | in every interleaving each server has one fingerprint at most, and a hit returns a list fetched for the same server and fingerprint, stored by a call that began less than its ttl before |
| ListInvalidation.InvalidationHolds | internal/mcpclient/tools_list_cache.go:413-432 | if no call for the server waits for a fetch that was not refused, no run stores a list asked for before the invalidation |
| ListInvalidation.InvalidationCanBeUndone | internal/mcpclient/tools_list_cache.go:171-223 | from any state with such a call some run stores one |
| ListInvalidation.InvalidationExact | internal/mcpclient/tools_list_cache.go:132-432 | in every reachable state some run behind the invalidation stores an old list of the server if and only if such a call waits |
| ListInvalidation.InvalidationServesExact | internal/mcpclient/tools_list_cache.go:132-432 | in every reachable state some run behind the invalidation serves an old list as a hit if and only if a waiting call can still store it in time |
| ListInvalidation.WaitingIsReachable | internal/mcpclient/tools_list_cache.go:132-196 | from the empty cache a call can come to wait for a list in time, so both conditions can be met |
| ListLaterCalls.LaterCallReturnsNew | internal/mcpclient/tools_list_cache.go:132-224 | if no waited-for list would outlast the invalidation and none can be joined, every call that begins after it returns a list asked for after it |
| ListLaterCalls.LaterCallsExact | internal/mcpclient/tools_list_cache.go:132-432 | in every reachable state some call that begins after the invalidation can return an old list, as a hit or by joining its fetch, if and only if one would outlast it or can be joined |
| EmbedBatches.EmbedTextsRecursive | internal/usecase/document_ingest_embed.go:42-81 | one right non-empty vector per text, in order; at most 2n-1 backend calls, and exactly that many when every batch is refused |
| EmbedBatches.SplitAndEmbed | internal/usecase/document_ingest_embed.go:83-104 | the same for both halves, in at most 2n-2 calls |
| EmbedBatches.EmbedTextsBatches | internal/usecase/document_ingest_embed.go:14-40 | the same for any batch size |
| UploadRate.SessionPutRateLimiter.CheckPutSessionFileRate | internal/usecase/put_session_file_rate_limit.go:36-78 | one decision and its effect on the windows |
| UploadRate.SessionPutRateLimiter.MaybePruneLocked | internal/usecase/put_session_file_rate_limit.go:80-90 | from 4096 users on, exactly the expired windows go |
| UploadRate.UsersApart | internal/usecase/put_session_file_rate_limit.go:36-90 | a request is decided by its user's own window and leaves every other user's as it is |
| UploadRate.PruningIsInvisible | internal/usecase/put_session_file_rate_limit.go:80-90 | on every run whose readings do not go back, pruning changes no decision, from any two limiters no request can tell apart |
| UploadLag.PruningIsInvisibleIff | internal/usecase/put_session_file_rate_limit.go:36-90 | with readings at most d behind the largest so far, pruning changes no decision on any run if and only if d is zero |
| UploadRate.AcceptedIsWellCharged | internal/usecase/put_session_file_rate_limit.go:36-90 | with readings at most d behind, d below a minute, a window starts and is used at least a minute less d after the start of any before it, and none is overdrawn |
| UploadRate.SpanBound | internal/usecase/put_session_file_rate_limit.go:36-90 | in any span of a minute less 2d of any run with uploads of at most cap bytes a user gets at most 160 uploads, and twice the larger of cap and 48 MiB |
| UploadRate.SpanUploads | internal/usecase/put_session_file_rate_limit.go:36-90 | in any such span a user gets at most 160 uploads, of any size |
| UploadRate.OpeningUploadsAreUnmeasured | internal/usecase/put_session_file_rate_limit.go:50-60 | two uploads a minute apart are both accepted, whatever their size |
| UploadRate.MinuteBytesExact | internal/usecase/put_session_file_rate_limit.go:36-90 | with readings in order, every run with uploads of at most cap bytes keeps 96 MiB in every minute if and only if cap is at most 48 MiB |
| UploadLag.ThreeWindows | internal/usecase/put_session_file_rate_limit.go:36-90 | for every d up to half a minute some run fills three windows of one user within the shortest span longer than a minute less 2d, the first of them pruned before it is opened again |
| UploadLag.SpanBytesExact | internal/usecase/put_session_file_rate_limit.go:36-90 | with uploads of at most 48 MiB and readings at most d behind, every span of a length keeps 96 MiB if and only if the length is at most a minute less 2d; so every minute does if and only if d is zero |
| UploadLag.SpanUploadsExact | internal/usecase/put_session_file_rate_limit.go:36-90 | and keeps 160 uploads of any size in exactly the same spans |

## Left out

- gRPC, HTTP, SQL, the Hugging Face client, file access, logging, the command line and the Flutter client: plumbing around the modelled parts.
- llama.cpp itself: decoding, sampling, tokenization and draft generation are arbitrary within the contracts stated by `Decode` and `IsTurn`; a failed decode may leave any part of its batch behind.
- The memory of the draft context, float sampling parameters, and embeddings computed on a context that also serves chat.
- The cached tokens of the draft context; those of the target context across speculative calls are no invariant, and `GenerateDraft` says after which calls they hold.
- An iteration for which the sampler returns no token at all, which ends the speculative loop without a rollback.
- `EmbeddingsBatch` without pooling, where the texts are embedded one by one; its output buffer is an array of vectors, not of floats.
- Texts are sequences of runes. The bracket scanners work on bytes in Go; their special characters are ASCII. Invalid UTF-8 is not modelled.
- Case mapping covers the runes that have an ASCII letter as their other case (U+0130, U+0131, U+017F and U+212A besides ASCII letters), which is all that decides whether a directive name, parameter name, role or MIME prefix is recognised; other letters stay as they are in an unknown role.
- `strconv`'s float formatting and string quoting: functions for which `Lawful` states what is needed: a formatted float is a plain word that can be read, and quoting has its inverse. That a float comes back the same is a condition of `IsNormal`, which a NaN may fail. `PlainStrconv.PlainIsLawful` gives an instance.
- Texts and line numbers of Modelfile errors: errors are an enumeration. The nil manifest and `PrepareModelYAMLForDisk`.
- Regex extraction of fenced blocks and the decoding of JSON rows: `accepts` stands for "parses as a list of calls one of which has a name".
- The history sent to the model within the tool loop, and the stream chunks sent to the client: the model's replies are given round by round, each with the rows of its tool blob, and what a run makes of them and stores is modelled.
- Markdown and reStructuredText splitting, which drop or repeat heading lines by design; heading paths are kept in the merge.
- Metadata of chunks other than heading path and pages; a chunk's index is its position.
- PDF text extraction: pages are given as raw text. Other formats carry no bounds.
- The wiki indexer, which normalises joined PDF text once more while keeping the bounds of the text before.
- nil entries of a chat history in the trimmer, and the summary injected for dropped messages.
- HistoryTokens.ShrinkMessagesToApproxTokenBudget: requires `CanShrink`, because the loop runs for ever on every other history.
- The order `sort.Slice` leaves among stops of equal byte length: any sorting function is allowed, and `StopStream.SortsExists` gives one.
- The resource and prompt caches of the same file, which are copies of the tool cache, and cloning of cached lists.
- Liveness of goroutines, channels and locks: only safety over atomic steps.
- Config clamps, settings normalisers, message mappers and URL de-duplication, which would only add easy members.

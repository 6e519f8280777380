# Proofs about llama.cpp's chat pipeline and conversion helpers

This project models, in Dafny, the parts of llama.cpp that turn a stream of model output into
chat messages, and a few of the algorithms around them, and proves what they promise.

**The streaming tool-call pipeline.** A parser reports tagged events; the mapper turns them,
one by one, into a message whose tool-call arguments are JSON text built piece by piece; after
every chunk of model output the whole input is parsed again, ids are assigned from a shared
cache and the difference to the previous message is sent as deltas. All of this works only if
every partial result extends the one before.
`JsonText` (escaping and the brace scanner), `QuoteNormalizer` (Python quoting to JSON
quoting), `ToolCallMapper` (the mapper as a class, proved against a step function),
`ToolCallStreaming` (safety of every cut of every run, and exactly which cuts are harmful), `ToolCallRendering`,
`ToolCallClosing` and `ToolNamePlace` (what the arguments amount to, how they are closed, and
where the tool name may fall), `MessageContents` (the message that a list of texts and calls
makes), `QuoteTokens` (what the normaliser writes for every text, and what that stands for),
`JsonMeaning` (reading JSON strings back),
`ChatMessage` (deltas), `DeltaEffects` (what a client holds after them) and `MessageStream` (whole streams and ids) build up to
`StreamedRuns.StreamIsComputedIff`: for every sequence of cuts, the deltas can be computed if and
only if no cut is harmful to the next, and then they fold to the final message with stable ids.

**Companions of the mapper.** `Gemma4Json`, `Gemma4Partial`, `Gemma4Value` and `Gemma4Brackets` treat
the renderer of Gemma4 argument trees: truncated trees render to prefixes that lack exactly the
closing characters, complete trees render to
the JSON text of their value, and that text determines the value. `GrammarPermute` treats the
memoised grammar for "these parsers in any order", both as a grammar and as a parser with
ordered choice; `BitMasks` holds the masks of its subsets.

**Factored LoRA tensors.** `Tensors` defines dense tensors and the operations on them;
`LoraTensor`, `LoraEllipsis`, `LoraOps`, `LoraAxes` and `LoraJoin` define the operations on pairs (A, B) and
prove that each commutes with materialising B @ A; `LoraPipeline` extends this to arbitrary
expressions over those operations. `TensorElements` and `TensorPicks` say where every element of
a result comes from, and `LoraAccepts` which operations raise.

**Marker-aware differences.** `MarkerSegments`, `MarkerDiff`, `MarkerCollision` and
`MarkerTight`: segments are lossless and canonical, the difference of two texts rebuilds both
texts exactly when the two ends of the matching do not collide, and it leaves to each text no
more than whole segments and common text at their ends allow.

**Other algorithms.** `Base64` and `Base64Meaning` (both alphabets, detection, decoding in
place), `ToolResultOrder` and `AnswerOrder` (stable sorting of tool results, in place), `MessageSpans` (splitting tokens at delimiters around
skipped regions), `CsvRow` (quoted rows) and `RpcPrefetch` (workers that claim servers from an
atomic counter, under every interleaving).

The code that works by changing things is modelled by methods and classes, and every such method
is proved equal to a function of its inputs or of the old state; the properties are then proved
of that function. `dafny verify dfyconfig.toml` checks the whole project.

Places where the code does not do what its comments or callers suggest, each with a lemma at a
failing input and a theorem that says exactly when:

- A continuation of an open string value that is cut to nothing is written as a second quote,
  and the deltas to the full message cannot be computed
  (`ToolCallStreaming.OpenStringCutFails`; `ToolCallStreaming.CutIsSafeIff`, and for whole streams
  `StreamedRuns.StreamIsComputedIff`).
- The normaliser's output for a cut input is not always a prefix of its output for the whole
  (`QuoteNormalizer.BadCutsExist`; `QuoteNormalizer.NormalizePrefix`).
- A Python string in double quotes that escapes a single quote is copied as it is, which is no
  JSON (`QuoteTokens.EscapedQuoteIsNoJson`; `QuoteTokens.StringStandsForIff`).
- A raw argument value with an unmatched quote hides braces from the scanner that closes the
  arguments (`ToolCallClosing.OpenQuoteHidesBrace`; `ToolCallClosing.ArgumentsRenderIff`).
- A bare value that precedes the tool name is not wrapped in an object, unlike one that follows
  it (`ToolCallRendering.ValueBeforeNamesDependsOnPlace`;
  `ToolNamePlace.NamePlaceIsIrrelevantIff`).
- `calculate_diff_split` can match a segment twice and then report no difference between
  different texts (`MarkerDiff.CollisionExists`; `MarkerCollision.RebuildsIff`).
- Overlapping skip regions are not all skipped (`MessageSpans.OverlapIsNotSkipped`;
  `MessageSpans.LooksRightIff`).
- Subscripting, slicing or concatenating batched pairs can give factors that no longer multiply
  (`LoraTensor.TupleLosesBatch`, `LoraOps.SliceLosesBatch`, `LoraJoin.CatLosesBatch`;
  `LoraTensor.TupleIsValidIff`, `LoraOps.SliceIsValidIff`, `LoraJoin.CatIsValidIff`), integers on
  the last two axes can be accepted (`LoraTensor.VectorIsTaken`), and an inner ellipsis stands
  for as many axes as there are other subscripts (`LoraEllipsis.DotsTooShort`;
  `LoraEllipsis.DotsPickRightIff`). With rank zero a reshape can lose rows
  (`LoraOps.RankZeroLosesRows`; `LoraOps.ReshapeCountsIff`).

The flush of a named pending call at the end of `from_ast` cannot happen, because a call leaves
the pending slot as soon as it is named (`ToolCallMapper.Mapper.FromAst`).

## Model

| member | source | states |
|---|---|---|
| `ToolCallStreaming.StreamingSafety` | common/chat-peg-parser.cpp:286-458 | for every well-formed event run and every cut of it that is not harmful (later events missing, last text truncated), content, reasoning and the last call's arguments of the cut are prefixes of those of the full run, and earlier calls are the same |
| `ToolCallStreaming.CutIsSafeIff` | common/chat-peg-parser.cpp:286-458 | for every well-formed run and every truncation of any of its events: the message of the cut grows into that of the run, and the deltas between the two can be computed, if and only if the cut is not harmful, that is, neither a bad cut of an unquoted value nor an open string's continuation cut to nothing, in a call that is already in the message |
| `ToolCallStreaming.CutRunGrows` | common/chat-peg-parser.cpp:317-458 | the same from any state in the middle of a run; the cut is itself a well-formed run |
| `ToolCallStreaming.StreamedDeltasRebuildMessage` | tools/server/server-task.cpp:162-177 | for every sequence of cuts of a well-formed run, none harmful to the next: parsing them, assigning ids from one cache and sending differences never fails, and the deltas fold from the empty message to the final message with its ids |
| `StreamedRuns.StreamIsComputedIff` | tools/server/server-task.cpp:162-177 | for every sequence of cuts of a well-formed run, harmful or not: all deltas can be computed if and only if no cut is harmful to the next, and then they fold to the final message with its ids |
| `StreamedRuns.StepIsComputedIff` | common/chat.cpp:266-332 | for one step of such a stream: the deltas can be computed if and only if the cut is not harmful to the next run |
| `ToolCallStreaming.ValueCutIsSafeIffNotBad` | common/chat-peg-parser.cpp:405-426 | cutting an unquoted argument value keeps the arguments growing if and only if the cut is not one of the normaliser's bad cuts |
| `ToolCallStreaming.StringCutIsSafeIff` | common/chat-peg-parser.cpp:405-426 | cutting a string value keeps the arguments growing if and only if it does not leave nothing of the continuation of an open string |
| `ToolCallStreaming.OpenStringCutFails` | common/chat-peg-parser.cpp:409-412 | a run and a cut of it between which no deltas can be computed, because the emptied continuation is written as a second quote |
| `ToolCallMapper.Mapper.Map` | common/chat-peg-parser.cpp:317-458 | one event changes the mapper's fields exactly as the step function says; what that is worth is said by `MessageContents.RunTexts` for text and `MessageContents.ItemsMakeMessage` for whole messages |
| `ToolCallMapper.Mapper.MapToolEvent` | common/chat-peg-parser.cpp:352-457 | the same for the events that concern the current tool |
| `ToolCallMapper.Mapper.MapToolName` | common/chat-peg-parser.cpp:360-375 | naming a tool moves it out of the pending slot together with the buffered arguments |
| `ToolCallMapper.Mapper.MapValue` | common/chat-peg-parser.cpp:405-426 | a value is appended to the current target, normalised or escaped, and a string is left open |
| `ToolCallMapper.Mapper.MapToolClose` | common/chat-peg-parser.cpp:435-457 | closing a tool closes an open string and all open braces, or discards an unnamed call |
| `ToolCallMapper.Mapper.FromAst` | common/chat-peg-parser.cpp:286-315 | the message is that of the whole event run, without whitespace-only reasoning (`MessageContents.MessageTexts`) |
| `ToolCallMapper.TrimTrailingMonotone` | common/chat-peg-parser.cpp:14-40 | trimming a prefix gives a prefix of the trimmed whole |
| `MessageContents.RunTexts` | common/chat-peg-parser.cpp:317-331 | from any state and for every legal run, content grows by the texts of the content events in order, and reasoning by those of the reasoning events |
| `MessageContents.MessageTexts` | common/chat-peg-parser.cpp:286-315 | the message of a run has the texts of its content events as content and those of its reasoning events as reasoning, unless these are nothing but spaces, newlines, carriage returns and tabs |
| `MessageContents.ItemsMakeMessage` | common/chat-peg-parser.cpp:286-458 | for every list of texts, thoughts, tagged calls, calls with an object and calls without a name: the run of their events gives the message they spell out, text in its field and one call for each named tool, in order |
| `MessageContents.ObjectToolAdds` | common/chat-peg-parser.cpp:352-384 | an id event and an object event, wherever the name falls, add one call with that id and that object, less trailing white space, as its arguments |
| `MessageContents.IdIs` | common/chat-peg-parser.cpp:352-358 | an id event gives the text between its quotes, or its text without trailing white space |
| `MessageContents.TrimmedIs` | common/chat-peg-parser.cpp:14-24 | trimming takes off exactly the trailing characters of the six white-space characters |
| `MessageContents.TrimOne` | common/chat-peg-parser.cpp:26-40 | trimming takes off at most one character at the front |
| `MessageContents.PiecesMakeOneString` | common/chat-peg-parser.cpp:405-433 | a string value that arrives in non-empty pieces becomes one JSON string of their concatenation |
| `MessageContents.ArgOpenStartsString` | common/chat-peg-parser.cpp:386-419 | a new argument starts a new string even after one that was never closed |
| `MessageContents.ToolCloseEndsString` | common/chat-peg-parser.cpp:435-449 | closing a tool closes its open string first and then the braces |
| `MessageContents.UnnamedToolIsDropped` | common/chat-peg-parser.cpp:435-457 | a tool that is never named adds no call, whatever its other events |
| `MessageContents.NameAgain` | common/chat-peg-parser.cpp:360-375 | a second name replaces the first one and nothing else |
| `MessageContents.BlankNameFlushes` | common/chat-peg-parser.cpp:435-449 | the arguments of a call with a blank name come out of the buffer when it closes |
| `MessageContents.EarlierCallsStay` | common/chat-peg-parser.cpp:317-458 | no event touches a call before the last one or takes a call away, and only a name adds one |
| `ToolCallRendering.TaggedArgumentsRender` | common/chat-peg-parser.cpp:344-457 | for every (name, value) list and wherever the tool name falls among the tagged arguments, the run adds exactly one call, whose arguments are one brace, the JSON members of the list, and as many closing braces as the scanner finds open |
| `ToolCallClosing.ClosedArgumentsRender` | common/chat-peg-parser.cpp:435-457 | when every raw value but the last closes its quotes, these arguments are the JSON object of the list, with the braces that raw values leave open closed too |
| `ToolCallClosing.ArgumentsRenderIff` | common/chat-peg-parser.cpp:435-457 | for every list: they are that object if and only if every raw value closes its quotes, or the members after the first one that does not, read on from inside its string, leave as many braces open as their raw values do by themselves |
| `ToolCallClosing.DepthOfOpenObject` | common/chat-peg-parser.cpp:44-70 | for every list: the open braces that the scanner finds are the first one, those that the raw values up to the first unclosed one leave open, and what the later members add when read from inside its string |
| `ToolCallClosing.ArgumentsCloseIff` | common/chat-peg-parser.cpp:435-457 | for every list: the arguments end with no string and no brace open if and only if no more braces are closed than opened and, after a raw value with an unmatched quote, the later members end its string |
| `ToolCallClosing.OpenQuoteHidesBrace` | common/chat-peg-parser.cpp:435-457 | two raw values, an unmatched quote and a brace, after which one closing brace is written where two are open |
| `ToolCallRendering.BalancedArgumentsRender` | common/chat-peg-parser.cpp:435-457 | when raw values balance their braces the arguments are one object, and scanning it leaves no brace and no string open |
| `ToolCallRendering.ArgAppendsMember` | common/chat-peg-parser.cpp:386-433 | the four events of one argument append one JSON member, with a comma except before the first |
| `ToolCallRendering.NamePlaceIsIrrelevant` | common/chat-peg-parser.cpp:278-280 | naming the tool before or after part of its events leads to the same state, if that part does not begin with a bare value |
| `ToolCallRendering.ValueBeforeNamesDependsOnPlace` | common/chat-peg-parser.cpp:360-375 | a bare value is behind a brace when the tool is named first, and not when it is named afterwards |
| `ToolNamePlace.NamePlaceIsIrrelevantIff` | common/chat-peg-parser.cpp:344-457 | for every event list and every place of the name: the final state is that of naming first if and only if the part before the name does not begin with a bare value or some event replaces the arguments by a whole object |
| `ToolNamePlace.LateNameLacksBrace` | common/chat-peg-parser.cpp:360-384 | otherwise the two results differ by exactly one leading brace |
| `QuoteNormalizer.NormalizeQuotesToJson` | common/chat-peg-parser.cpp:86-188 | the index loop over two flags computes the normalising function, whose value on every text `QuoteTokens.EveryTextNormalizes` spells out |
| `QuoteNormalizer.LoopBody` | common/chat-peg-parser.cpp:95-185 | one turn of the loop uses, emits and leaves what the step function says, and never leaves both quote flags set (`QuoteTokens.TokensNormalize` says what the steps add up to) |
| `QuoteTokens.TokensNormalize` | common/chat-peg-parser.cpp:81-188 | for every list of words, other characters and strings: their Python spelling is normalised to their JSON spelling, True, False, None and their beginnings to those of true, false and null, single quotes to double ones, quotes inside strings escaped as JSON needs them, everything else copied |
| `QuoteTokens.EveryTextNormalizes` | common/chat-peg-parser.cpp:81-188 | every text is the Python spelling of such a list, so this says what is written for every input |
| `QuoteTokens.WordInPlace` | common/chat-peg-parser.cpp:157-186 | an unquoted word anywhere in a text is replaced as its literal, or kept, and the texts before and after it are normalised on their own |
| `QuoteTokens.MarkInPlace` | common/chat-peg-parser.cpp:184-186 | any other unquoted character that is not a quote is copied |
| `QuoteTokens.StringStandsForIff` | common/chat-peg-parser.cpp:97-156 | the JSON string read back by RFC 8259 gives the characters of the Python string if and only if that has no bare control character and, inside double quotes, no backslash before a single quote; otherwise it is no JSON string |
| `QuoteTokens.EscapedQuoteIsNoJson` | common/chat-peg-parser.cpp:123-129 | a double-quoted string with such a backslash is copied and is no JSON string |
| `QuoteNormalizer.NormalizeSimulatesFrom` | common/chat-peg-parser.cpp:86-188 | from any quote state, the JSON scanner over the output is where the Python-quoting automaton over the input is |
| `QuoteNormalizer.NormalizeSimulatesPythonQuoting` | common/chat-peg-parser.cpp:44-70 | for every input, the output ends inside a JSON string exactly when the input ends inside a Python string, and its brace depth is that of the input outside Python strings |
| `QuoteNormalizer.NormalizeIdempotent` | common/chat-peg-parser.cpp:86-188 | normalising twice is normalising once |
| `QuoteNormalizer.NormalizePrefix` | common/chat-peg-parser.cpp:86-188 | the output for a prefix of the input is a prefix of the output if and only if the cut does not separate a backslash from a quote in a single-quoted string and does not split a word that looks like a literal and is none |
| `QuoteNormalizer.NormalizeNeverShrinks` | common/chat-peg-parser.cpp:86-188 | the output for a prefix of the input is never longer than the output |
| `QuoteNormalizer.BadCutsExist` | common/chat-peg-parser.cpp:95-187 | both kinds of cut do break the prefix property |
| `JsonText.JsonBraceDepth` | common/chat-peg-parser.cpp:44-70 | the loop computes the depth of the scanning automaton |
| `JsonText.EscapedTextStaysInString` | common/chat-peg-parser.cpp:72-79 | escaped text never closes the string it is in and leaves no dangling backslash |
| `JsonText.EscapeAppend` | common/chat-peg-parser.cpp:72-79 | escaping distributes over concatenation, so text can be escaped as it arrives |
| `JsonMeaning.UnescapeEscape` | common/chat-peg-parser.cpp:72-79 | escaped text read back by section 7 of RFC 8259 is the text |
| `JsonMeaning.DepthCountsBareBraces` | common/chat-peg-parser.cpp:44-70 | in a text made of JSON strings and quote-free pieces the scanner counts exactly the braces of the latter |
| `ChatMessage.ComputeDiffs` | common/chat.cpp:266-332 | the method computes the list of deltas, or the error, that the specification gives; when there is an error, and which, say `DeltaEffects.DiffsOkIff` and `DeltaEffects.DiffsErrorIs`, and what the deltas do `DeltaEffects.DeltasLeaveTexts` and `DeltaEffects.DeltasLeaveCalls` |
| `ChatMessage.StringDiffAppends` | common/chat.cpp:56-69 | string differences fail exactly for texts of which neither starts the other, and rebuild the new text exactly when it extends the old one (`DeltaEffects.DeltasLeaveTexts` for a text that shrank) |
| `ChatMessage.DiffsRebuildExactly` | common/chat.cpp:266-332 | computing deltas succeeds and applying them yields the new message if and only if the new message extends the old one |
| `DeltaEffects.DiffsOkIff` | common/chat.cpp:266-332 | deltas can be computed if and only if of the two contents, reasonings and last arguments one starts the other, no call is gone, and the name of the last call went on |
| `DeltaEffects.DiffsErrorIs` | common/chat.cpp:266-332 | which of the three errors is reported |
| `DeltaEffects.DeltasLeaveTexts` | common/chat.cpp:56-69 | whenever there are deltas, the client then holds the new content and reasoning where they went on, and its own where they shrank |
| `DeltaEffects.DeltasLeaveCalls` | common/chat.cpp:292-331 | and its own earlier calls, the last one brought forward in the same way with its new name and id, and every new call |
| `DeltaEffects.NothingToSendIff` | common/chat.cpp:266-332 | no delta is sent if and only if the texts are the same, no call is new and the last one has at most lost arguments |
| `DeltaEffects.CallDeltaIs` | common/chat.cpp:310-320 | name and id of the last call are sent again exactly when one of them changed, its arguments never twice |
| `DeltaEffects.DeltasInOrder` | common/chat.cpp:266-332 | reasoning is sent before content, content before calls, and calls by their index |
| `ChatMessage.ApplyNewCalls` | tests/test-chat.cpp:1155-1180 | the deltas of new calls make an accumulating client append exactly those calls |
| `MessageStream.StreamRebuilds` | common/chat.cpp:266-332 | along any chain of messages, each extending the last, all deltas are computed without error and fold to the last message |
| `MessageStream.ChunkingIsIrrelevant` | common/chat.cpp:266-332 | the folded result is the same however the stream is chunked |
| `MessageStream.ChatMsg.SetToolCallIds` | common/chat.h:108-120 | the cache grows by ids for the new slots, and every call receives the id of its slot |
| `MessageStream.GrownIdIs` | common/chat.h:108-120 | an id is the cached one, or that of the call when it is first seen, or a generated one when it then has none |
| `MessageStream.IdsNeverChange` | common/chat.h:108-120 | over a whole stream every call keeps the id it first received |
| `MessageStream.StreamWithIds` | common/chat.h:108-120 | a stream whose texts only grow remains a chain once ids are assigned from one cache, and its deltas rebuild its last message |
| `GrammarPermute.GrammarBuilder.RemainingOf` | common/chat-peg-parser.cpp:255-273 | the memoised recursion returns a reference to the rule of the mask, and memoises and defines exactly the rules of its non-empty sub-masks that were missing, each once |
| `GrammarPermute.GrammarBuilder.Permute` | common/chat-peg-parser.cpp:241-276 | over 2 to 6 parsers exactly 2^n - 1 rules are defined, one for each non-empty subset, other rules stay, and following the references gives the grammar of the unmemoised recursion; other counts give the plain sequence |
| `BitMasks.ClearedBits` | common/chat-peg-parser.cpp:265-270 | clearing a bit that is set removes exactly that member from the subset, so the recursion works on ever smaller subsets |
| `GrammarPermute.RuleNamesDistinct` | common/chat-peg-parser.cpp:272-272 | different masks have different rule names |
| `GrammarPermute.DigitsRead` | common/chat-peg-parser.cpp:272 | the mask in a rule name is its decimal numeral |
| `GrammarPermute.InlineReference` | common/chat-peg-parser.cpp:255-273 | the memoised grammar and the plain recursion are the same grammar for every mask |
| `GrammarPermute.PermuteLanguage` | common/chat-peg-parser.cpp:241-276 | the language over 2 to 6 parsers is exactly the union, over all permutations, of the concatenated languages; over other counts it is the concatenation in the given order |
| `GrammarPermute.PermuteParses` | common/peg-parser.cpp:277-354 | with ordered choice, a parse ends as the lexicographically first order of the parsers that does not fail, and fails only if every order fails |
| `GrammarPermute.PermuteFailsIff` | common/peg-parser.cpp:329-354 | the whole grammar fails if and only if every permutation fails |
| `Gemma4Json.TruncationIsPrefix` | common/chat-peg-parser.cpp:966-1059 | for every tree and every truncation along its right spine, partial flags set, the rendered text is a prefix of that of the tree |
| `Gemma4Partial.OpenNodeLacksEnding` | common/chat-peg-parser.cpp:966-1059 | a truncated string, array, dict or key renders to what its children give, less exactly its closing characters, except a string without content, which is an opening quote in either case |
| `Gemma4Partial.OpenStringReads` | common/chat-peg-parser.cpp:977-990 | a truncated string is an opening quote and JSON text that stands for the characters read |
| `Gemma4Partial.OpenListGoesOn` | common/chat-peg-parser.cpp:992-1049 | a truncated array or dict goes on after its finished members with what the last one renders to, behind a comma unless it is the first |
| `Gemma4Value.RendersMeaning` | common/chat.cpp:1516-1560 | a complete tree, whether a value node or the dict of a call's arguments, renders to the JSON text of the value that the grammar rules give it |
| `Gemma4Value.ValueEnds` | common/chat-peg-parser.cpp:966-1059 | the rendered text of a value, up to the delimiter after it, determines the value |
| `Gemma4Value.SameTextSameValue` | common/chat-peg-parser.cpp:966-1059 | complete trees, value nodes or not, with the same text have the same value |
| `Gemma4Brackets.CompleteIsClosed` | common/chat-peg-parser.cpp:966-1059 | on a complete tree, a value node or the dict of a call's arguments, every quote, bracket and brace is closed in the right order, and no truncation closes what it has not opened |
| `LoraPipeline.PipelineCommutes` | convert_lora_to_gguf.py:39-266 | for every expression of supported operations, the dense tensor of the resulting pair is the result of the same operations on the dense tensors (what each operation does to the dense tensor, element by element: `TensorElements` and `TensorPicks`) |
| `LoraPipeline.OpCommutes` | convert_lora_to_gguf.py:58-219 | each single operation commutes with materialising the pair (for transposing, `TensorElements.TransposedPair` says it in full) |
| `TensorElements.TransposedPair` | convert_lora_to_gguf.py:181-188 | transposing a pair exchanges two axes of the tensor it stands for: its shape and, for every element, its coordinates; negative axes count from the end |
| `TensorElements.TransposeIsTakenIff` | convert_lora_to_gguf.py:168-188 | a transposition is accepted if and only if both axes exist and the columns stay in place, with A a single matrix, or there are only rows and columns |
| `TensorElements.PermuteElements` | convert_lora_to_gguf.py:168-180 | permuting: axis k of the result is the axis named k-th, in shape and coordinates |
| `TensorElements.PermuteIsTakenIff` | convert_lora_to_gguf.py:168-180 | a permutation names each axis exactly once, from either end |
| `TensorElements.DenseIsProduct` | convert_lora_to_gguf.py:39-60 | the tensor of a pair is the matrix product at each batch position, with A taken from position zero along axes of length one |
| `TensorPicks.SubscriptElements` | convert_lora_to_gguf.py:98-112 | every element of a subscripted tensor by Python's rules: an integer from either end, a slice start + step * k with clamped bounds |
| `TensorPicks.SlicePicks` | convert_lora_to_gguf.py:98-112 | a slice selects its k-th position if and only if start + step * k is before stop |
| `TensorPicks.FirstSliceElements` | convert_lora_to_gguf.py:72-76 | the elements of a slice of the first axis |
| `TensorPicks.ItemElements` | convert_lora_to_gguf.py:67-71 | one position of the first axis, from either end |
| `TensorPicks.ChunkElements` | convert_lora_to_gguf.py:190-206 | a chunk starts where the chunks before it end, and the other axes stay |
| `TensorPicks.EvenChunkElements` | convert_lora_to_gguf.py:190-206 | chunks of one size follow each other at that distance, and only the last one is shorter |
| `TensorPicks.ReshapeElements` | convert_lora_to_gguf.py:136-160 | a reshape keeps every element at its row-major position and takes the dimensions given |
| `TensorPicks.JoinedElements` | convert_lora_to_gguf.py:243-259 | parts joined on the first axis follow each other |
| `TensorPicks.StackedElements` | convert_lora_to_gguf.py:234-242 | stacked parts lie one after the other on a new first axis |
| `TensorPicks.ScaledElements` | convert_lora_to_gguf.py:211-219 | scaling multiplies elements in the same place, aligned at the last axis and with axes of length one stretched |
| `TensorPicks.ScaledByNumber` | convert_lora_to_gguf.py:211-219 | a number multiplies every element |
| `TensorPicks.EllipsisMeans` | convert_lora_to_gguf.py:79-93 | a single ellipsis means as many whole axes as the other items leave |
| `LoraAccepts.ItemIsTakenIff` | convert_lora_to_gguf.py:67-71 | an integer index is accepted if and only if there is a batch axis and both factors have the position |
| `LoraAccepts.FirstSliceIsTakenIff` | convert_lora_to_gguf.py:72-76 | a slice is accepted if and only if its step is positive |
| `LoraAccepts.ChunkIsTakenIff` | convert_lora_to_gguf.py:190-206 | a split is accepted if and only if the axis exists and the sizes make it up |
| `LoraAccepts.EvenChunkIsTakenIff` | convert_lora_to_gguf.py:190-206 | a split by one size has as many chunks as are needed, and one at least |
| `LoraAccepts.ReshapeIsTakenIff` | convert_lora_to_gguf.py:136-160 | for pairs with elements, a reshape is accepted if and only if there are two axes at least, columns and number of elements stay, and A is a single matrix |
| `LoraAccepts.ShapeIsTakenIff` | convert_lora_to_gguf.py:147-152 | the dimensions of a reshape are those given, and for -1 what the others leave of the elements, which they must divide |
| `LoraAccepts.NegativeIsRefused` | convert_lora_to_gguf.py:147-152 | a negative dimension other than -1 is refused |
| `LoraAccepts.ScaleIsTakenIff` | convert_lora_to_gguf.py:211-219 | a factor is accepted if and only if it has no more axes, does not vary along the columns and broadcasts to the rest |
| `LoraAccepts.CatIsTakenIff` | convert_lora_to_gguf.py:243-259 | pairs are joined if and only if both factors agree beyond the first axis, or the pairs are matrices with one A |
| `LoraAccepts.StackIsTakenIff` | convert_lora_to_gguf.py:234-242 | pairs are stacked if and only if their factors have the same shapes |
| `LoraTensor.TupleCommutes` | convert_lora_to_gguf.py:77-112 | subscripting by integers and slices commutes with materialising the pair, if the last two axes are sliced and the batch slices keep the leads |
| `LoraTensor.TupleIsValidIff` | convert_lora_to_gguf.py:98-112 | the result stands for the subscripted tensor if and only if the last two axes are sliced and every slice of a batch axis keeps it whole or meets an axis that A is broadcast over; with the last two axes sliced, the factors multiply under the same condition only |
| `LoraTensor.TupleLosesBatch` | convert_lora_to_gguf.py:98-112 | a pair and a tuple for which the factors no longer multiply |
| `LoraTensor.IntegersLoseAxes` | convert_lora_to_gguf.py:98-112 | with integers on the last two axes, a result that the constructor accepts always has one axis too many |
| `LoraTensor.VectorIsTaken` | convert_lora_to_gguf.py:98-112 | such a result is accepted for a pair with one batch position and rank one |
| `LoraEllipsis.PlainIsRightIff` | convert_lora_to_gguf.py:95-96 | a tuple without ellipsis is padded to what it means if and only if it is not empty and not too long |
| `LoraEllipsis.DotsAreRightIff` | convert_lora_to_gguf.py:81-93 | an inner ellipsis among n other items is spelled out as it is meant if and only if the tensor has 2n axes, or more and all items after it are the full slice |
| `LoraEllipsis.DotsPickRightIff` | convert_lora_to_gguf.py:81-93 | whatever the spelling, it selects what is meant if and only if the tensor has 2n axes, or e more and the items after it select the same before e whole axes as after them |
| `LoraEllipsis.SeveralDots` | convert_lora_to_gguf.py:79-93 | a tuple with several ellipses means nothing, and the code accepts it unless it consists of ellipses alone |
| `LoraEllipsis.FinalDotsAreRightIff` | convert_lora_to_gguf.py:79-80 | a final ellipsis is right if and only if something precedes it and fits |
| `LoraEllipsis.DotsTooShort` | convert_lora_to_gguf.py:81-93 | on five axes the item after an ellipsis subscripts the fourth axis instead of the last |
| `LoraOps.ItemCommutes` | convert_lora_to_gguf.py:67-71 | indexing by one integer commutes with materialising the pair |
| `LoraOps.SliceCommutes` | convert_lora_to_gguf.py:72-76 | slicing the first axis commutes with materialising the pair |
| `LoraOps.SliceIsValidIff` | convert_lora_to_gguf.py:72-76 | the factors still multiply, and the result stands for the sliced tensor, if and only if the slice keeps A's single batch position, selects nothing, or A is not broadcast |
| `LoraOps.SliceLosesBatch` | convert_lora_to_gguf.py:72-76 | a pair and a slice for which the factors no longer multiply |
| `LoraOps.SplitCommutes` | convert_lora_to_gguf.py:190-206 | each chunk of a split on any axis, by a list of sizes, is the chunk of the dense tensor |
| `LoraOps.EvenSizes` | convert_lora_to_gguf.py:190-206 | a single split size stands for chunks of that size and a last one with what is left, which together make up the axis |
| `LoraOps.ReshapeCommutes` | convert_lora_to_gguf.py:136-160 | reshaping, with at most one inferred dimension, commutes with materialising the pair; the shape has as many elements as the dense tensor unless the rank is zero and there are columns |
| `LoraOps.ReshapeCountsIff` | convert_lora_to_gguf.py:136-160 | every reshape that is accepted keeps the number of elements if and only if the pair has a positive rank or no columns |
| `LoraOps.RankZeroLosesRows` | convert_lora_to_gguf.py:155-160 | with rank zero, four rows can be reshaped to two |
| `LoraAxes.PermuteCommutes` | convert_lora_to_gguf.py:168-185 | permuting axes, with the last fixed or as a matrix transpose, commutes with materialising the pair |
| `LoraAxes.MulCommutes` | convert_lora_to_gguf.py:211-219 | scaling rows commutes with materialising the pair, also where broadcasting lengthens axes of length one |
| `LoraJoin.CatCommutes` | convert_lora_to_gguf.py:243-259 | concatenating pairs commutes with materialising them |
| `LoraJoin.CatIsValidIff` | convert_lora_to_gguf.py:243-259 | the joined factors multiply if and only if they are matrices or the batch lengths of A together are one or those of B |
| `LoraJoin.CatStandsIff` | convert_lora_to_gguf.py:243-259 | for non-empty parts the joined pair stands for the joined tensors if and only if, with several batched parts, no A is broadcast over the joined axis |
| `LoraJoin.CatLosesBatch` | convert_lora_to_gguf.py:243-259 | two parts whose joined factors do not multiply |
| `LoraJoin.EmptyPartsMayBroadcast` | convert_lora_to_gguf.py:243-259 | with empty parts the joined pair can be right although an A is broadcast |
| `LoraJoin.StackCommutes` | convert_lora_to_gguf.py:234-242 | stacking pairs commutes with materialising them |
| `MarkerSegments.SegmentizeMarkers` | common/chat-auto-parser-helpers.cpp:269-299 | the scanning loop computes the segmentation |
| `MarkerSegments.SegmentsAreLossless` | common/chat-auto-parser-helpers.cpp:269-299 | the segments concatenate to the text, none is empty, markers open with an opener and hold their closer only at the end, and texts have no opener except one final unterminated marker |
| `MarkerSegments.CanonicalIsUnique` | common/chat-auto-parser-helpers.cpp:269-299 | it is the only list of segments with these properties |
| `MarkerTight.MarkerIs` | common/chat-auto-parser-helpers.cpp:269-299 | from < to the first >, or from [ to the first ], is a marker; the text before it is one segment |
| `MarkerTight.UnclosedIs` | common/chat-auto-parser-helpers.cpp:269-299 | an opening character without its closing one makes the rest text |
| `MarkerDiff.CommonPrefixLen` | common/chat-auto-parser-helpers.cpp:69-76 | the number of leading characters two texts share, no more and no less |
| `MarkerDiff.CommonSuffixLen` | common/chat-auto-parser-helpers.cpp:78-85 | the number of trailing characters two texts share, no more and no less |
| `MarkerDiff.PeelSegments` | common/chat-auto-parser-helpers.cpp:102-139 | the two-ended loop ends, each start never passing its end, in the state that the specification gives |
| `MarkerDiff.PeelKeeps` | common/chat-auto-parser-helpers.cpp:114-139 | prefix and suffix account for exactly the segments matched on both sides |
| `MarkerDiff.CalculateDiffSplit` | common/chat-auto-parser-helpers.cpp:87-207 | the whole method computes the specified split (`MarkerTight.BareDiff` and `MarkerTight.OwnPartsAreTight` say how tight it is) |
| `MarkerTight.BareDiff` | common/chat-auto-parser-helpers.cpp:87-207 | for texts without opening characters: a left text that starts the right one is all prefix; otherwise the suffix is the longest common one and the prefix the longest common one of what the suffix leaves |
| `MarkerTight.OwnPartsAreTight` | common/chat-auto-parser-helpers.cpp:87-207 | for all texts, whenever both keep a part of their own: prefix, part and suffix make up each text, the segments before the parts are the same and so are those after them, the first and the last segments of the parts differ, and where these are text so do the first and the last characters |
| `MarkerTight.LoneRight` | common/chat-auto-parser-helpers.cpp:151-159 | a right text that is a single segment is matched at the end of the left one, and at its start only when it does not end it |
| `MarkerTight.LoneLeft` | common/chat-auto-parser-helpers.cpp:141-149 | likewise for the left text, unless it starts the right one |
| `MarkerDiff.DiffRebuildsIff` | common/chat-auto-parser-helpers.cpp:87-207 | prefix, own part and suffix rebuild both inputs if and only if no side used up by the loop is matched once more (and the later correction does not apply) |
| `MarkerCollision.RebuildsIff` | common/chat-auto-parser-helpers.cpp:87-207 | the same said of the two segment lists alone: both inputs are rebuilt unless one list, of even length, is the other with a part taken out at its middle, and the segment after that gap occurs again at an end of the part (and the later correction does not apply) |
| `MarkerCollision.PeelEndsAt` | common/chat-auto-parser-helpers.cpp:114-139 | where the two-ended loop ends: it uses up one side alone exactly when that side is the other with a middle part taken out |
| `MarkerDiff.NoRepeatRebuilds` | common/chat-auto-parser-helpers.cpp:87-207 | inputs in which no segment occurs twice are always rebuilt |
| `MarkerDiff.CollisionExists` | common/chat-auto-parser-helpers.cpp:141-190 | two different texts for which no difference is reported |
| `MarkerDiff.RefineIsTight` | common/chat-auto-parser-helpers.cpp:169-183 | after refinement the two parts share no character at an end where both were text; for the whole difference see `MarkerTight.OwnPartsAreTight` |
| `Base64.Encode` | common/base64.hpp:79-144 | the loop computes the encoding |
| `Base64.Decode` | common/base64.hpp:199-244 | the loop computes the decoding or the error |
| `Base64.RoundTrip` | common/base64.hpp:79-244 | for every byte sequence, what either alphabet encodes is decoded to it by the same alphabet and by detection, strictly or loosely |
| `Base64.EncodedLength` | common/base64.hpp:330-341 | the encoding has exactly the announced length |
| `Base64.DecodedFits` | common/base64.hpp:324-329 | a decoding is never longer than the announced maximum |
| `Base64.AutoDetection` | common/base64.hpp:344-389 | detection yields some bytes if and only if the standard or the URL-safe decoder yields the same bytes |
| `Base64Meaning.SymbolIs` | common/base64.hpp:82-86 | the 64 characters of both alphabets in their order, as in sections 4 and 5 of RFC 4648 |
| `Base64Meaning.ValueIs` | common/base64.hpp:344-389 | a decoder for one alphabet gives each of its characters its own place and no other character any |
| `Base64Meaning.QuadIs` | common/base64.hpp:88-141 | a group of up to three bytes is spelt by its 24 bits in order, six for each character, with = for characters that no bit of the input reaches |
| `Base64Meaning.EncodedGroup` | common/base64.hpp:88-141 | each group of three bytes becomes the four characters at its place |
| `Base64Meaning.DecodesIff` | common/base64.hpp:199-244 | an input is decoded if and only if the characters before the first = are in the alphabet, or when it is detected all in one of the two, and nothing but = follows, unless the decoder is loose |
| `Base64.DecodeInPlace` | common/base64.hpp:294-313 | decoding into the buffer being read accepts the same inputs and gives the same bytes as decoding elsewhere; accepted or not, the bytes completed so far are at the front and the rest of the buffer is as it was |
| `ToolResultOrder.SortInPlace` | common/chat.cpp:2034-2095 | rewriting the array in place computes the specified conversation |
| `ToolResultOrder.SortRunInPlace` | common/chat.cpp:2061-2089 | one run is sorted in place and nothing outside it changes |
| `ToolResultOrder.SortRunCorrect` | common/chat.cpp:2072-2089 | sorting a run permutes it, moves tool results only, orders them by the call they answer and keeps the order of equal keys |
| `ToolResultOrder.EachRunSorted` | common/chat.cpp:2034-2095 | every maximal run of user and tool messages is sorted on its own, by the latest calls before it |
| `AnswerOrder.AnswersFollowCalls` | common/chat.cpp:2034-2095 | between two other messages, a tool result that answers an earlier call of the latest assistant message with calls stands before one that answers a later call; results that answer none count as answering the first |
| `AnswerOrder.NoCallsNoChange` | common/chat.cpp:2073 | results that no calls precede stay as they are |
| `ToolResultOrder.OnlyToolsMove` | common/chat.cpp:2034-2095 | every message that is not a tool result stays where it is |
| `ToolResultOrder.SortPermutes` | common/chat.cpp:2034-2095 | no message is lost, added or duplicated |
| `ToolResultOrder.SortIdempotent` | common/chat.cpp:2034-2095 | sorting a sorted conversation changes nothing |
| `MessageSpans.SplitTokens` | common/chat.cpp:152-184 | the loop with its skip iterator computes the spans |
| `MessageSpans.ScanIsReference` | common/chat.cpp:152-184 | if the regions can be tracked, moving one skip iterator along finds exactly the matches at unskipped positions |
| `MessageSpans.SplitCorrect` | common/chat.cpp:152-184 | if the regions can be tracked, a span with a role starts at a position if and only if the position is not skipped and the first delimiter matching there has that role |
| `MessageSpans.SplitShape` | common/chat.cpp:152-184 | for any regions, spans are non-empty and contiguous, the last ends at the token count, and they start exactly where the loop looks and a delimiter matches |
| `MessageSpans.LooksRightIff` | common/chat.cpp:155-173 | for any regions with increasing starts, the loop looks exactly at the positions that are not skipped if and only if the regions can be tracked: each starts at or after the end of the one before, and from the first that does not, none holds a position still ahead |
| `MessageSpans.SkipsRespectedIff` | common/chat.cpp:152-184 | regions are respected for all delimiters and all tokens of a given number if and only if they can be tracked |
| `MessageSpans.FoundIsFirst` | common/chat.cpp:162-173 | of several delimiters that match at a position the first one counts |
| `MessageSpans.NoneFoundIff` | common/chat.cpp:162-173 | none counts exactly when none matches |
| `MessageSpans.MatchesIff` | common/chat.cpp:162-173 | a delimiter matches where its tokens are the next ones |
| `MessageSpans.OverlapIsNotSkipped` | common/chat.cpp:152-184 | with overlapping regions that cannot be tracked, a position inside the second one starts a span |
| `MessageSpans.InnerRegionIsHarmless` | common/chat.cpp:152-184 | overlap alone does no harm: a region inside another is always tracked |
| `CsvRow.ParseCsvRow` | common/arg.cpp:1324-1366 | the loop computes the fields |
| `CsvRow.RowRoundTrip` | common/arg.cpp:1324-1366 | parsing inverts printing in the format of section 2 of RFC 4180 for every non-empty row, any field quoted and plain ones with or without quotes |
| `CsvRow.StreamAgrees` | common/arg.cpp:1324-1366 | the parser with one character of look-ahead agrees with an automaton without |
| `CsvRow.FieldCount` | common/arg.cpp:1324-1366 | for every row there is one field more than there are commas outside quotes |
| `RpcPrefetch.StepInv` | common/arg.cpp:1131-1146 | every step of every worker keeps the invariant: each server is untaken, held by its one taker, or written once by it |
| `RpcPrefetch.AlwaysSafe` | common/arg.cpp:1131-1146 | at every moment of every interleaving the counter overshoots by at most the number of workers and every slot has at most one writer |
| `RpcPrefetch.JoinedIsComplete` | common/arg.cpp:1131-1158 | after the joins every slot has been written exactly once, by the worker that claimed it, and holds its result |
| `RpcPrefetch.StepProgresses` | common/arg.cpp:1136-1149 | a worker that is not finished can always move, and every move brings the end one step nearer |
| `RpcPrefetch.EveryInterleavingEnds` | common/arg.cpp:1136-1149 | with n servers no interleaving makes more than 2n + threads moves, and all workers have finished exactly when it has made that many |
| `RpcPrefetch.RegisterServers` | common/arg.cpp:1150-1158 | the loop registers the servers whose slot is set, in list order |
| `RpcPrefetch.RegistrationIsDeterministic` | common/arg.cpp:1131-1158 | the registered servers are the reachable ones in list order, whatever the interleaving and the number of workers |
| `RpcPrefetch.RegisteredIffConnected` | common/arg.cpp:1131-1158 | whatever the interleaving, the registered servers are those at the positions whose connection succeeded, each of these and in that order |

## Left out

- The parsing engine and its tree arena: events and trees are inputs. What a truncated input makes the engine report is described by the cut and truncation predicates. The third outcome of a parser, "need more input", carries no position.
- The JSON library, the template engine and grammar conversion; only string escaping is modelled, for characters rather than UTF-8 bytes.
- The MiniMax renderers, the per-model initialisers, the Gemma4 folding of turns, `until_common_prefix` and `after_common_suffix`, and the span queries.
- Reasoning and content fields of deltas beyond text, and the server's extra filtering of tool-call deltas.
- ToolCallStreaming.CutIsSafeIff: runs in which a tool is named twice or by a blank name, an object event replaces arguments already in the message, or an event touches a discarded call are not well formed; names and ids are cut as a whole.
- QuoteTokens.StringStandsForIff: strings with other escapes than those for quotes, the backslash, \b, \f, \n, \r and \t are left out; the normaliser copies the others, and Python and JSON read them differently.
- JsonMeaning.UnescapeEscape: the reader does not combine surrogate pairs, which the escaper never writes.
- LoraAccepts.ReshapeIsTakenIff: pairs with rank zero or without columns, which accept more (LoraOps.RankZeroLosesRows).
- ToolCallMapper.Mapper.Map: an event that uses the pointer to a call that has been discarded is excluded, because the original then reads a released object.
- MessageStream.ChatMsg.SetToolCallIds: the id generator is a function of the slot, since it is asked once for each slot.
- GrammarPermute.GrammarBuilder.Permute: the cleaning of characters in the rule prefix is left out; it does not touch the mask at the end of the name.
- Tensor subscripts in a tuple, which the original passes on to the tensor library.
- Floating-point rounding and data types in the LoRA operations: elements are real numbers.
- LoraJoin.CatStandsIff: parts without batch positions, for which the condition is not exact (LoraJoin.EmptyPartsMayBroadcast), are left out.
- LoraJoin.CatCommutes: concatenation along the first axis only, the one the original supports.
- ToolResultOrder.SortInPlace: a message is its role, its ids and an opaque rest.
- RpcPrefetch.StepInv: a connection attempt has a fixed result for each server; thread creation and the registration calls themselves are left out.
- Command-line handling, downloads, device listing and file conversion.

# A verified model of the chat output pipeline and the model converters

The project models the parts of the engine that turn model output into messages, and model files
into GGUF tensors, and proves what they keep:

- **Streaming tool calls.** The mapper that assembles reasoning, content and tool calls from the
  tagged nodes of a partial parse (`Mapper`), the JSON text it writes (`Json`, `Text`), the quote
  normaliser and the brace counter (`Quotes`), the Gemma 4 argument printer (`Gemma4`).
- **Deltas.** `compute_diffs`, the server slot that keeps ids stable, and the client that folds the
  deltas (`MessageDiff`, `Chat`); then the end-to-end theorem over all stages of a growing parse:
  when the server throws, and when folding the deltas gives the last message, both as equivalences
  (`Streaming`), with runs on which each goes wrong (`StreamFailures`); what a call's arguments read
  back as (`ToolArguments`), also when a value is not JSON (`RawValues`); how many calls there are
  (`NamedCalls`).
- **Template analysis.** Cutting a text into markers and plain text (`Segments`) and the two-ended
  walk that splits two texts into common prefix, differing middles and common suffix (`DiffSplit`).
- **Tool results.** The run-wise stable sort of tool messages (`ToolResults`).
- **Converters.** The export of DeepSeek-V4 MTP tensors and exactly when the order of their arrival
  does not matter (`MtpExport`, `MtpOrder`, `MtpConverter`), names that come more than once
  (`MtpRepeats`, `MtpHalves`) and how they come about (`MtpNames`), the byte-pair merge loop and the
  merge list (`Bpe`), factored LoRA tensors whose operations must commute with the product
  (`Tensors`, `Rows`, `Lora`, `LoraMeaning`, `LoraChains`, `LoraPipelines`, `LoraCat`), and two
  layout rewrites (`Layout`).
- **base64.** Encoder, decoder, in-place decoding, alphabet detection, and both round trips
  (`Base64`).

`Wrappers` holds the option and result types that these share.

Code that changes things step by step is written as methods and classes with loops; each is tied by
its postcondition to a function on values, and the theorems are about those functions. `dafny verify
dfyconfig.toml` checks everything.

## How the model stands to the code

- Strings are sequences of Unicode characters. The JSON writer of the original throws on byte
  sequences that are not UTF-8; the model has no such strings.
- `current_tool` is a pointer. When a call is closed before it was named, the optional it points
  into is reset and the pointer is not. The model has a cursor value `Dead` for this and a flag
  `dangling` that is set when the dead pointer is followed, since the program then has no meaning.
  `Mapper.DanglesExactly` says on which runs of events that happens, and
  `Mapper.NameAfterCloseDangles` gives some. Well-formed runs never do it
  (`Streaming.RunConsistent`).
- Visited nodes arrive as a sequence of tagged events, in the order of the AST visit. Random tool
  call ids are a function of the call's index.
- Where the code and its comments disagree, the model follows the code. The header comment of
  `calculate_diff_split` promises that the parts rebuild both inputs; with a repeated marker they do
  not, and `DiffSplit.DiffRebuildsExactly` says exactly when. The converter accepts a `head.scale`
  tensor in its list and then can never finish (`MtpOrder.HeadScaleRefused`). Whether a full expert
  set stays packed depends on the order of arrival exactly when only some of its experts have scales
  (`MtpRepeats.OrderDecidesExactly`). That failing side is about sets whose tensors have one shape:
  stacking packed and unpacked tensors of different shapes raises in every order. A scale without
  its weight is not reported at the end of an export. A projection listed both joined and in halves
  gets one output name twice and is refused (`MtpOrder.JoinedTwiceRefused`). Slicing factors with
  more than two dimensions also slices A's dimension of size 1, which is wrong exactly when
  something of B but nothing of A is left (`LoraChains.StepExact`). A value or key that a later
  parse reads differently makes the server throw (`Streaming.ThrowsOnRewrite`).
- Tensors of the MTP export are terms over the source tensors, so conversion to float,
  dequantisation, packing, concatenation and stacking are symbols; equal exports did the same things
  with the same inputs. Tensor elements elsewhere are integers.
- The names of the MTP export are those after `_map_mtp_source_name`, with numbers as numbers, plus
  the set of names the tensor map knows. That mapping is not one to one: `MtpNames.ClashExact` says
  which source names fall together, so a name can come twice, as it also can from two shards. For a
  list that some order exports, every order exports the same tensors exactly when no tensor but a
  scale comes twice and no weight comes with two different scales
  (`MtpRepeats.OrderIrrelevantExactly`). Tensors that go straight to the writer are refused when
  they come twice, in every order (`MtpNames.DuplicateRefused`). A doubled projection half
  without scales goes through, where the rest does, exactly when the other half comes once and after
  every copy, and then the last copy is used (`MtpHalves.HalfTwiceExact`, `MtpHalves.LastCopyUsed`);
  the same tensors in another order give another export or fail (`MtpHalves.HalfTwiceOrders`).
- Shifts and masks on bytes are written as division and remainder.

## Model

| member | source | states |
|---|---|---|
| `Text.TrimTrailingSpace` | common/chat-peg-parser.cpp:11-21 | the loop drops whitespace from the end, at most `max` of it |
| `Text.TrimLeadingSpace` | common/chat-peg-parser.cpp:23-33 | the loop drops whitespace from the front, at most `max` of it |
| `Text.TrimTrailingExact` | common/chat-peg-parser.cpp:11-21 | what is dropped is exactly a run of whitespace, and the trim stops only at other text or at its limit |
| `Text.TrimLeadingExact` | common/chat-peg-parser.cpp:23-33 | what is dropped is exactly a run of whitespace, and the trim stops only at other text or at its limit |
| `Text.TrimTrailingMonotone` | common/chat-peg-parser.cpp:11-21 | trimming the end of a longer text keeps at least as much; serves `Streaming.MapperMonotone` |
| `Text.TrimLeadingMonotone` | common/chat-peg-parser.cpp:23-33 | trimming the front is monotone for prefixes; serves `Streaming.RawPieceExact` |
| `Json.EscapeMonotone` | common/chat-peg-parser.cpp:70-76 | the escaped form of a prefix is a prefix of the escaped form |
| `Json.CharsOfEscape` | common/chat-peg-parser.cpp:70-76 | escaped text between quotes reads back as the original characters, whatever follows (section 7 of RFC 8259) |
| `Json.ObjectOfParts` | common/chat-peg-parser.cpp:1007-1023 | an object joined from members that read well reads as the object of those members, in order |
| `Json.ArrayOfParts` | common/chat-peg-parser.cpp:966-982 | the same for arrays |
| `Json.ValueExtend` | common/chat-peg-parser.cpp:70-76 | a JSON value is read the same whatever text follows, unless that text would prolong a number |
| `Json.ValueShrink` | common/chat-peg-parser.cpp:70-76 | a JSON value that ends before some text is read the same without that text; serves `RawValues.RawCallExact` |
| `Quotes.JsonBraceDepth` | common/chat-peg-parser.cpp:41-67 | the loop returns the depth of the scanner automaton |
| `Quotes.ScanValue` | common/chat-peg-parser.cpp:41-67 | over any complete JSON value the brace counter comes back to where it was, outside strings |
| `Quotes.OneBraceMissing` | common/chat-peg-parser.cpp:41-67 | if one more brace completes a JSON value, the counter finds exactly that one missing |
| `Quotes.NeverEscapedOutside` | common/chat-peg-parser.cpp:41-67 | the escape flag is only ever set inside a string |
| `Quotes.NormalizeQuotesToJson` | common/chat-peg-parser.cpp:106-183 | the loop computes the transducer `Normalize` on the whole input |
| `Quotes.NormalizeIdempotent` | common/chat-peg-parser.cpp:106-183 | normalising twice is normalising once, for every string |
| `Quotes.NormalizeIdentity` | common/chat-peg-parser.cpp:106-183 | a text is left alone exactly when all its single quotes stand inside double-quoted strings |
| `Quotes.NormalizeKeepsBraces` | common/chat-peg-parser.cpp:41-183 | the brace counter on the normalised text gives the braces open outside either quote kind in the original |
| `Quotes.NormalizeMonotone` | common/chat-peg-parser.cpp:106-183 | normalising a cut text gives a prefix of the whole result exactly when the cut is not between a backslash and the single quote it escapes inside a single-quoted string |
| `Quotes.NormalizeLonger` | common/chat-peg-parser.cpp:106-183 | more text never normalises to less |
| `Mapper.CloseOpenBraces` | common/chat-peg-parser.cpp:437-440 | one closing brace is appended for each the counter finds open |
| `Mapper.PegMapper.constructor` | common/chat-peg-parser.h:10-33 | a fresh mapper is in the initial state |
| `Mapper.PegMapper.SetTarget` | common/chat-peg-parser.cpp:236-238 | argument text goes into the call once it is named and into the buffer before |
| `Mapper.PegMapper.OnOpen` | common/chat-peg-parser.cpp:331-337 | an open event starts a pending call and clears buffer, counter and quote flag |
| `Mapper.PegMapper.OnId` | common/chat-peg-parser.cpp:339-345 | an id is trimmed and stripped of one pair of quotes |
| `Mapper.PegMapper.OnName` | common/chat-peg-parser.cpp:347-362 | a name moves the pending call into the results, with the buffered arguments |
| `Mapper.PegMapper.OnArgs` | common/chat-peg-parser.cpp:364-371 | a JSON object replaces the arguments, other text is ignored |
| `Mapper.PegMapper.OnArgName` | common/chat-peg-parser.cpp:377-390 | a key is written with a comma before all but the first |
| `Mapper.PegMapper.OnValue` | common/chat-peg-parser.cpp:392-417 | a value is written as the state machine says, strings with an open quote |
| `Mapper.PegMapper.OnArgClose` | common/chat-peg-parser.cpp:419-424 | the end of an argument ends an open string |
| `Mapper.PegMapper.OnClose` | common/chat-peg-parser.cpp:426-448 | closing ends an open string and closes open braces |
| `Mapper.PegMapper.Map` | common/chat-peg-parser.cpp:304-449 | every visited node takes the fields from one abstract state to the next and keeps the invariant: a pending call has no name and is the current call |
| `Mapper.PegMapper.FromAst` | common/chat-peg-parser.cpp:244-273 | visiting all nodes, flushing and dropping blank reasoning gives `Parse`, for every run of events that does not follow the dead pointer |
| `Mapper.RunConcat` | common/chat-peg-parser.cpp:304-449 | running two parts one after the other is running the whole |
| `Mapper.DanglesExactly` | common/chat-peg-parser.cpp:304-449 | the dead pointer is followed if and only if some event uses the current call after a call was closed without a name and before the next is opened |
| `Mapper.NameAfterCloseDangles` | common/chat-peg-parser.cpp:347-448 | open, close, name: runs that follow it |
| `Mapper.DanglingStays` | common/chat-peg-parser.cpp:304-449 | once it has been followed nothing mends that, whatever comes; used for the loop of `FromAst` |
| `MessageDiff.ComputeDiffs` | common/chat.cpp:156-241 | the method returns the specified diffs or throws |
| `MessageDiff.ThrowsExactly` | common/chat.cpp:156-241 | diffing throws exactly when a text was rewritten, a call disappeared, or the last call's name or arguments do not continue; unfolds the definition for `Streaming.ThrowsOnRewrite` |
| `MessageDiff.ExtendsTransitive` | common/chat.cpp:156-241 | growth of messages is transitive |
| `MessageDiff.DiffsOfGrowth` | common/chat.cpp:57-241 | for a grown message nothing throws and the client gets the new content and calls, and the reasoning text that was sent |
| `MessageDiff.DiffStepExact` | common/chat.cpp:57-241 | applying the deltas to the old message gives the new one exactly when content did not stand still while reasoning grew by text starting with it |
| `MessageDiff.SetToolCallIds` | common/chat.h:106-118 | the loop grows the id cache only at its end and gives call i the i-th id |
| `MessageDiff.ServerSlot.UpdateChatMsg` | examples/server/server-context.cpp:1336-1347 | one server update: ids fixed, message stored, deltas against the previous message |
| `MessageDiff.StageExact` | examples/server/server-context.cpp:1336-1347 | one stage of the stream keeps server and client in step, exactly unless it overlaps |
| `MessageDiff.StreamExact` | common/chat.cpp:156-241 | along every growing run nothing throws, ids never change, and the client ends with the server's message if and only if no step overlapped |
| `MessageDiff.StreamTorn` | common/chat.cpp:156-241 | messages that grow up to one that tears the last call make the server throw |
| `MessageDiff.ReasonsFirstNeverOverlaps` | common/chat.cpp:156-241 | if reasoning stops changing once there is content, no step overlaps |
| `Streaming.AppendExtends` | common/chat-peg-parser.cpp:304-449 | one more event of a well-formed run only extends the message and keeps the run consistent |
| `Streaming.LengthenExtends` | common/chat-peg-parser.cpp:304-449 | a longer text in the last event only extends the message, unless it rewrites a value or key of a named call |
| `Streaming.RawPieceExact` | common/chat-peg-parser.cpp:407-416 | what is written for a value and for a lengthening of it are prefixes of one another exactly when the value was not cut between a backslash and the single quote it escapes |
| `Streaming.KeyEntryExact` | common/chat-peg-parser.cpp:377-390 | what is written for two keys is never one the beginning of the other, unless the keys are the same |
| `Streaming.RunConsistent` | common/chat-peg-parser.cpp:304-449 | every well-formed run ends in a state that matches its grammar position; the dead pointer is never followed |
| `Streaming.MapperMonotone` | common/chat-peg-parser.cpp:244-449 | a later parse of the same answer gives a message that extends the earlier one if and only if it does not rewrite the last node within a named call, the blank-reasoning rule included |
| `Streaming.ThrowsOnRewrite` | common/chat.cpp:57-241 | diffing the two parses throws in that case and in no other |
| `Streaming.StreamRebuilds` | common/chat-peg-parser.cpp:244-449 | end to end: mapping every stage of a growing well-formed run and folding all deltas throws if and only if some stage rewrites; otherwise it gives the last content and calls, and the whole last message if and only if no step overlaps |
| `Streaming.StreamLossless` | common/chat.cpp:57-241 | answers whose reasoning precedes their content and that are not rewritten are rebuilt exactly |
| `StreamFailures.BadCutThrows` | common/chat-peg-parser.cpp:392-417 | a run cut inside an escaped quote, and its lengthening, on which the server throws |
| `StreamFailures.OverlapLoses` | common/chat.cpp:156-241 | content followed by reasoning that begins with it: the client ends without that beginning |
| `ToolArguments.CallAssembled` | common/chat-peg-parser.cpp:331-448 | a finished call depends on its body and its name, not on where among the body the name came |
| `ToolArguments.ReadObjectText` | common/chat-peg-parser.cpp:377-440 | the assembled text reads back as the JSON object of the keys and values, in order (sections 4 and 7 of RFC 8259) |
| `ToolArguments.TaggedCallRoundTrip` | common/chat-peg-parser.cpp:331-448 | a tagged call, whatever came before and wherever its name falls, adds exactly one call whose arguments read back as what went in |
| `ToolArguments.QuoteFlagExact` | common/chat-peg-parser.cpp:41-448 | at every point of a tagged call of the mapper, its name anywhere or still to come, the mapper's quote flag is set exactly when the scanner over the text under assembly ends inside a string, which is so exactly after a string value and before its close |
| `RawValues.RawCallExact` | common/chat-peg-parser.cpp:377-440 | a tagged call whose last value is any raw text adds one call, its braces closed; its arguments are the earlier ones and a value for the last key if and only if the raw text with its braces closed is JSON up to the last brace, and then that is the value |
| `RawValues.RawReads` | common/chat-peg-parser.cpp:377-440 | whatever the raw text is, the earlier arguments read as they went in, followed by the members the text spells; else nothing can be read |
| `RawValues.RawTruncated` | common/chat-peg-parser.cpp:433-436 | a raw value that lacks only closing braces is completed by the closing of the call |
| `RawValues.RawSpellsMember` | common/chat-peg-parser.cpp:403-413 | a raw value of two JSON texts with a comma and a key between them reads as two arguments |
| `RawValues.RawUnreadable` | common/chat-peg-parser.cpp:403-413 | raw text that cannot be read as a value leaves arguments that cannot be read |
| `Gemma4.CutIsPrefix` | common/chat-peg-parser.cpp:940-1033 | the text printed for a cut tree is a prefix of the text for the whole tree |
| `Gemma4.CutArgumentsDiff` | common/chat.cpp:57-70 | so the string diff of the two never throws and completes the text |
| `Gemma4.TreeReads` | common/chat-peg-parser.cpp:940-1033 | a complete tree's text reads as the value it denotes |
| `Gemma4.ArgumentsReadBack` | common/chat-peg-parser.cpp:940-1033 | complete arguments read back as their JSON object |
| `NamedCalls.CallsAreNamedOpens` | common/chat-peg-parser.cpp:331-448 | after any run that does not follow the dead pointer the number of calls is the number of opens with a name before the next open or close, and a call is pending exactly when the last open still waits for one |
| `NamedCalls.FlushAddsNothing` | common/chat-peg-parser.cpp:244-258 | the flush at the end of a parse never adds a call; carries `CallsAreNamedOpens` over to `ParseCounts` |
| `NamedCalls.ParseCounts` | common/chat-peg-parser.cpp:244-258 | the count of calls of a whole parse |
| `Segments.SegmentizeMarkers` | common/chat-auto-parser-helpers.cpp:269-299 | the loop over borders computes `Segmentize` |
| `Segments.SegmentationExact` | common/chat-auto-parser-helpers.cpp:269-299 | a list of segments is the result exactly when it concatenates to the text and has the shape: markers from opener to first matching closer, no opener in non-final text |
| `Segments.SegmentizeAppend` | common/chat-auto-parser-helpers.cpp:269-299 | segmentation distributes over concatenation when the first part ends in a closed marker |
| `DiffSplit.CommonPrefixLen` | common/chat-auto-parser-helpers.cpp:69-76 | the loop finds the length of the common prefix |
| `DiffSplit.CommonSuffixLen` | common/chat-auto-parser-helpers.cpp:78-85 | the loop finds the length of the common suffix |
| `DiffSplit.CommonEndsExact` | common/chat-auto-parser-helpers.cpp:69-85 | both are common, and one character more is not |
| `DiffSplit.WalkMarkers` | common/chat-auto-parser-helpers.cpp:102-139 | the walk with four cursors and two flags, prefix and suffix growing with it |
| `DiffSplit.CalculateDiffSplit` | common/chat-auto-parser-helpers.cpp:87-207 | the whole split, through fix-ups, degenerate cases and the last rule |
| `DiffSplit.DiffRebuildsExactly` | common/chat-auto-parser-helpers.cpp:87-207 | the parts rebuild both inputs if and only if no segment is taken twice by walk and fix-up without the last rule mending it |
| `DiffSplit.DistinctRebuilds` | common/chat-auto-parser-helpers.cpp:87-207 | they do whenever no segment occurs twice within either input |
| `DiffSplit.RepeatedMarkerLost` | common/chat-auto-parser-helpers.cpp:87-207 | a pair of inputs whose difference is lost |
| `ToolResults.CallOrder` | common/chat.cpp:1812-1821 | the loop gives each non-empty id its last place among the calls |
| `ToolResults.ScanRun` | common/chat.cpp:1829-1838 | the run from a user or tool message to its end, and the positions of its tool messages |
| `ToolResults.WriteBack` | common/chat.cpp:1853-1855 | sorted results are written to the positions they came from |
| `ToolResults.SortToolResults` | common/chat.cpp:1802-1862 | the loop computes `Arrange` |
| `ToolResults.SkippedRun` | common/chat.cpp:1840 | runs with at most one tool message, or without a call order, are left alone because sorting would not change them |
| `ToolResults.SortedIsStable` | common/chat.cpp:1846-1852 | sorting gives an ascending permutation with messages of one rank in their old order |
| `ToolResults.StableUnique` | common/chat.cpp:1846-1852 | there is only one such arrangement |
| `ToolResults.ArrangeKeepsPromise` | common/chat.cpp:1799-1862 | for every conversation: same role at every index, other messages fixed, the tool messages of each maximal run stably sorted by the latest call order, unknown ids ranking 0 |
| `ToolResults.PromiseDecides` | common/chat.cpp:1799-1862 | that promise leaves only one result |
| `ToolResults.ArrangeMultiset` | common/chat.cpp:1802-1862 | no message is lost, invented or repeated |
| `ToolResults.ArrangeIdempotent` | common/chat.cpp:1802-1862 | sorting twice is sorting once |
| `MtpExport.StepKeeps` | convert_hf_to_gguf.py:4944-5041 | after every arrival all buffers and outputs are determined by which tensors have arrived |
| `MtpExport.RunKeeps` | convert_hf_to_gguf.py:4944-5041 | the same for every run in which no tensor but a scale comes twice and no weight comes with two different scales |
| `MtpExport.RunAccepted` | convert_hf_to_gguf.py:4944-5041 | if all names are known, expert ids are in range and no projection comes both joined and in halves, no arrival fails |
| `MtpOrder.ExportExact` | convert_hf_to_gguf.py:4855-5094 | an export succeeds exactly when every listed tensor arrived, the head has no scale, all names are known, projection halves come in pairs and not beside the joined projection, and expert sets are complete; so any missing expert, half or scale ends in an error |
| `MtpOrder.ExportHolds` | convert_hf_to_gguf.py:4944-5094 | a successful export holds one tensor per mapped name, per projection (from its halves or as it came) and per expert set, each the intended term, experts stacked by id |
| `MtpOrder.OrderIrrelevant` | convert_hf_to_gguf.py:4944-5094 | where no tensor but a scale comes twice and no weight comes with two different scales, two orders of the same tensors both fail or both give the same name-to-tensor map |
| `MtpOrder.RawExactly` | convert_hf_to_gguf.py:5017-5041 | with all or none of a set's experts scaled, a tensor is written packed exactly when it is a scaled expert set |
| `MtpOrder.UniformExactly` | convert_hf_to_gguf.py:4944-5094 | for an exported list without such repeats the whole output, packed or converted, is the same for every order if and only if every expert set is uniformly scaled or unscaled |
| `MtpOrder.HeadScaleRefused` | convert_hf_to_gguf.py:4948-4949 | a list with the head and a scale for it fails in every order |
| `MtpOrder.JoinedTwiceRefused` | gguf-py/gguf/gguf_writer.py:333-334 | a list with a projection both joined and in halves fails in every order |
| `MtpNames.ClashExact` | convert_hf_to_gguf.py:4832-4853 | two source names are mapped to one name exactly when one of them spells out what the other is renamed to |
| `MtpNames.NormClashes` | convert_hf_to_gguf.py:4851-4853 | the predictor's norm and `nextn.shared_head_norm` are such a pair |
| `MtpNames.DuplicateRefused` | gguf-py/gguf/gguf_writer.py:333-334 | two tensors that go straight to the writer under one output name make every run fail, wherever they come |
| `MtpRepeats.TwiceFails` | convert_hf_to_gguf.py:4952-5015 | two tensors of one name, other than scales, one after the other: the second fails or leaves something unpaired |
| `MtpRepeats.ClashMatters` | convert_hf_to_gguf.py:4944-5094 | for every exported list with a tensor twice that is not a scale, or with two different scales for a weight, some order of the same arrivals fails or gives another tensor |
| `MtpRepeats.OrderIrrelevantExactly` | convert_hf_to_gguf.py:4944-5094 | for every exported list, repeats included: all orders give the same tensors if and only if no tensor but a scale comes twice and no weight comes with two different scales |
| `MtpRepeats.OrderDecidesExactly` | convert_hf_to_gguf.py:4944-5094 | for every exported list: all orders give the same output, packed or converted, if and only if moreover every expert set is scaled throughout or not at all |
| `MtpHalves.HalvesExact` | convert_hf_to_gguf.py:4980-4991 | after every run, scales and repeats included, no projection half of a layer is left if and only if none became ready, or copies of one and then the other once; then the last copy is the one joined |
| `MtpHalves.ExportedHalves` | convert_hf_to_gguf.py:4980-5090 | in every export the halves of each layer became ready in that way, and the output holds the last copy joined to the other half |
| `MtpHalves.LastCopyUsed` | convert_hf_to_gguf.py:4980-5090 | an export with an unscaled half twice has the other half once and after every copy, and joins it to the last copy |
| `MtpHalves.DropCopy` | convert_hf_to_gguf.py:4980-5090 | a copy that another follows before the other half comes changes nothing of the outcome, errors included |
| `MtpHalves.HalfTwiceExact` | convert_hf_to_gguf.py:4980-5090 | with an unscaled half twice the export succeeds if and only if the other half comes once, after every copy, and the export without the first copy succeeds; the two are equal |
| `MtpHalves.HalfTwiceOrders` | convert_hf_to_gguf.py:4980-5090 | three orders of the same three tensors: one export has the second copy, one the first, one fails |
| `MtpConverter.Converter.constructor` | convert_hf_to_gguf.py:4764-4769 | a fresh converter has empty buffers |
| `MtpConverter.Converter.CollectExpert` | convert_hf_to_gguf.py:4993-5041 | one expert buffered; a full set checked, stacked by id and returned or kept aside |
| `MtpConverter.Converter.PairHalf` | convert_hf_to_gguf.py:4980-4991 | the two projection halves are joined, e before h, when both are there |
| `MtpConverter.Converter.ModifyTensors` | convert_hf_to_gguf.py:4944-5015 | one source tensor: the fields change as `Step` says, or the same error comes back |
| `MtpConverter.Converter.Finish` | convert_hf_to_gguf.py:5080-5094 | the checks at the end |
| `MtpConverter.Converter.PrepareTensors` | convert_hf_to_gguf.py:4855-5094 | the whole loop over arrivals returns `Export` |
| `Bpe.FindBest` | convert_hf_to_gguf.py:2221-2227 | the inner loop finds the leftmost pair of lowest rank |
| `Bpe.Split` | convert_hf_to_gguf.py:2218-2232 | the merge loop ends and computes `Merged` |
| `Bpe.MergedKeeps` | convert_hf_to_gguf.py:2218-2232 | the parts always concatenate to the token and none is empty |
| `Bpe.MergedIsStuck` | convert_hf_to_gguf.py:2218-2232 | at the end no pair below the bound is left |
| `Bpe.Restart` | convert_hf_to_gguf.py:2218-2232 | merging to one bound and then to another is merging to the weaker bound, for every table, start and pair of bounds; in particular restarting without a bound changes nothing |
| `Bpe.NeverWhole` | convert_hf_to_gguf.py:2218-2232 | bounded by the token's own rank, two or more parts never become one |
| `Bpe.TwoPartsExact` | convert_hf_to_gguf.py:778-785 | a split in two means unrestricted merging reaches the token; for a token ranking above the entries inside it the two are equivalent |
| `Bpe.TwoPartsOnRun` | convert_hf_to_gguf.py:778-785 | the converter's assertion holds exactly when unrestricted merging reaches the token and every merge on the way but the last ranks below it |
| `Bpe.LowTokenSplitsInThree` | convert_hf_to_gguf.py:778-785 | a reachable token for which the assertion fails |
| `Bpe.BuildMerges` | convert_hf_to_gguf.py:776-785 | joining the merges gives the multi-byte tokens back in table order; the list exists exactly when each of them splits in two |
| `Tensors.UnflattenFlatten` | convert_lora_to_gguf.py:128-152 | row-major positions and coordinates are inverse |
| `Tensors.PickAt` | convert_lora_to_gguf.py:56-112 | what an indexed tensor holds, by coordinates |
| `Tensors.PermAt` | convert_lora_to_gguf.py:160-171 | what a permuted tensor holds, by coordinates |
| `Lora.TupleKept` | convert_lora_to_gguf.py:75-110 | indexing the factors with a tuple indexes the product in the same way exactly when the last index is a slice |
| `Lora.BareIndexKept` | convert_lora_to_gguf.py:64-74 | one index for both factors indexes the product when it keeps A's dimension of size 1 |
| `Lora.SliceShape` | convert_lora_to_gguf.py:70-74 | a bare slice changes the first dimension and no other; serves `LoraChains.StepExact` |
| `Lora.ReshapeKept` | convert_lora_to_gguf.py:128-152 | reshaping the factors reshapes the product |
| `Lora.RowPermKept` | convert_lora_to_gguf.py:160-166 | permuting B's leading axes permutes the product's |
| `Lora.FlipKept` | convert_lora_to_gguf.py:167-168 | the transposed product is the product of the transposed factors in the other order |
| `LoraChains.MatricesShared` | convert_lora_to_gguf.py:43-52 | a loaded pair of matrices of positive rank is a pair of shared factors, so `ChainKept` and `StepExact` apply to it |
| `LoraMeaning.ProductAt` | convert_lora_to_gguf.py:38-54 | the product of shared factors is the matrix product over the last two axes |
| `LoraMeaning.SharedMeaning` | convert_lora_to_gguf.py:38-54 | it is what the factors stand for when their leading dimensions are broadcast against each other |
| `LoraChains.CutExact` | convert_lora_to_gguf.py:70-72 | a slice that cuts A's dimension of size 1 away leaves factors that stand for the sliced product exactly when it leaves nothing of B either; otherwise they stand for a tensor of another shape, or for none |
| `LoraChains.StepExact` | convert_lora_to_gguf.py:56-180 | an operation that goes through on factors gives factors that stand for what the operation makes of the product if and only if it is safe, a condition on the operation and the shapes |
| `LoraChains.ChainKept` | convert_lora_to_gguf.py:56-180 | any chain of safe operations on factors, slices that leave nothing aside, stands for the same chain on the product |
| `LoraCat.CatExact` | convert_lora_to_gguf.py:204-219 | factored matrices can be joined exactly when they have one A, and then stand for the joined products |
| `LoraPipelines.PermuteOfFactors` | convert_hf_to_gguf.py:1658-1663 | the head permutation of factors is that of their product, and goes through exactly when the rows divide into two halves per head |
| `LoraPipelines.PermuteLosesNothing` | convert_hf_to_gguf.py:1658-1663 | the inverse steps restore every tensor, for all head counts and sizes |
| `LoraPipelines.InterleavedRow` | convert_hf_to_gguf.py:1658-1663 | position k of half j of a head becomes element j of pair k |
| `LoraPipelines.SplitOfFactors` | convert_hf_to_gguf.py:3477-3493 | for any head counts, splitting and permuting the factors of a fused query/key/value matrix gives factors of the split and permuted matrices exactly when the rows are those of the groups and, for query and key, their rows divide into two halves per head |
| `LoraPipelines.SplitEven` | convert_hf_to_gguf.py:3477-3493 | with as many heads as the groups hold, that is when the head size is even |
| `Layout.PackRowKeeps` | convert_hf_to_gguf.py:5044-5065 | packing is refused exactly for rows of the wrong shape; every block, at a stride of 17 bytes, gives back its scale and all 32 values |
| `Layout.PackRowInjective` | convert_hf_to_gguf.py:5044-5065 | no two sources pack to the same row |
| `Layout.PartRow` | convert_hf_to_gguf.py:1409-1412 | which row of the fused tensor each row of the query, key and value parts is |
| `Layout.Regroup` | convert_hf_to_gguf.py:1409-1413 | regrouping Falcon's fused rows keeps the number of elements, as the final reshape needs |
| `Layout.QueryTarget` | convert_hf_to_gguf.py:1409-1413 | where each query row of the fused tensor is in the whole result |
| `Layout.KeyTarget` | convert_hf_to_gguf.py:1409-1413 | where each key row is |
| `Layout.ValueTarget` | convert_hf_to_gguf.py:1409-1413 | where each value row is |
| `Layout.UngroupRegroup` | convert_hf_to_gguf.py:1409-1413 | `Ungroup` undoes it, for all head counts and sizes |
| `Layout.RegroupUngroup` | convert_hf_to_gguf.py:1409-1413 | and it undoes `Ungroup`, so it is a bijection on rows |
| `Base64.SymbolValue` | common/base64.hpp:344-389 | each value's character reads back as the value, by its alphabet and by detection |
| `Base64.EncodeText` | common/base64.hpp:80-144 | the loop computes `Encode`, padding included |
| `Base64.DecodeText` | common/base64.hpp:200-244 | the loop computes `Decode`, with its errors |
| `Base64.DecodeInPlace` | common/base64.hpp:294-313 | decoding over its own input gives what decoding into a separate buffer gives, and leaves the rest of the buffer alone |
| `Base64.DecodedBits` | common/base64.hpp:209-232 | the bytes are the bits of the values in order, the registers holding what is left |
| `Base64.EncodeBits` | common/base64.hpp:89-141 | the values are the bits of the data filled up with fewer than six zeros (section 4 of RFC 4648) |
| `Base64.RoundTrip` | common/base64.hpp:80-244 | decoding what was encoded gives it back, by the same alphabet and by detection, strictly or loosely |
| `Base64.EncodeBackExact` | common/base64.hpp:80-244 | encoding the decoded bytes gives the text back if and only if it holds a multiple of four characters, the padding its length calls for, and zeros in the unused bits of its last value; the decoder takes other texts too |
| `Base64.AutoExact` | common/base64.hpp:344-389 | detection accepts a text exactly when one of the two alphabets does, with the same result |
| `Base64.EncodeSize` | common/base64.hpp:338-341 | the encoded length is the required size |
| `Base64.DecodeSize` | common/base64.hpp:324-327 | the decoded length is at most the maximal size |

## Left out

- The PEG engine, grammar generation, the Jinja runtime and JSON parsing of requests: the model takes events, trees and messages as input.
- The visit that finds tool calls in a Gemma 4 AST, the MiniMax mapper and the `filter_tool_calls` branch of the server update: they would only add easy members.
- Message roles, content parts and tool names beside reasoning, content and calls: the diffs do not touch them.
- Mapper.PegMapper.FromAst: excludes runs that follow the dangling pointer, because the program has no meaning there; `Mapper.DanglesExactly` gives the condition on the events.
- ToolArguments.TaggedCallRoundTrip: a value that is not tagged as a string must be JSON text after quote normalisation, as other text is copied into the object unchanged; `RawValues.RawCallExact` says what happens otherwise when it is the last value, and raw text before other arguments is not covered.
- `_mtp_source_selection`: file access; the model starts from the selected names. Numbers in names are written without leading zeros.
- MtpOrder.OrderIrrelevant: for lists in which no tensor but a scale comes twice and no weight comes with two different scales; `MtpRepeats.OrderIrrelevantExactly` shows that this is needed.
- MtpHalves.HalfTwiceExact: for halves without scales; `MtpHalves.HalvesExact` covers halves with scales, in the order in which they become ready.
- The check for missing tensors compares source names; the model compares mapped names, so of two source names that fall together one is enough.
- Shape errors raised inside an export, while packing, joining halves or stacking experts (among them most sets of packed and unpacked experts): the tensors are terms without shapes.
- Floating point: dequantisation, rope factors and conversion between float types are symbols or absent.
- `torch.stack` and `torch.cat` of factors with more than two dimensions, which make an A with leading dimensions above 1, and slice steps, ellipses and index lists: not part of this model.
- LoraChains.ChainKept: covers factors of positive rank, because with rank 0 the reshape of an empty B is not checked by the original, and chains without a slice that leaves nothing of either factor, because one A does not serve all rows after it; `LoraChains.StepExact` covers such a slice as a single step.
- Vocabulary loading, GGUF writing beyond the duplicate-name check, and the other model classes of the converter.
- The expert-streaming runtime, kernels, server routing and user interface.

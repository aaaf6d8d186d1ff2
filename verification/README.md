# Verified models

Dafny models of the parts of this inference server where bytes, ids and streams
must agree with each other, with proofs that they do. `dafny verify dfyconfig.toml`
checks everything.

**Retention sidecar** (`Layout`, `Records`, `SnapshotCheck`, `Codec`,
`CodecTheorems`, `Sidecar`, `WireFormat`, `Allocator`, `Frequency`, `Shadow`,
`Admission`, `Turns`, `Score`).
A checksummed little-endian snapshot codec, the id allocator that imports such a
snapshot after a restart, the lazily decayed frequency and promotion of a lineage,
the 128-bit comparison of eviction candidates, the turn table of a conversation and
the log-sparse anchors on it. The codec exists twice: as functions on byte strings,
about which the theorems are, and as the buffer and cursor code of the original,
proved equal to them. The hash is a parameter of every theorem.

**Streaming chat** (`Spans`, `Streaming`, `Json`, `PyJson`, `PyJsonMeaning`,
`PyJsonStream`, `Mapper`, `MapperRuns`, `ChatStream`). Tokens cut into message spans,
which feed the turn table; the tool-call mapper as a state machine over parser events;
the translation of Python literals to JSON, judged by an independent reader of RFC 8259
texts; and the deltas between successive messages, judged by a client that folds them.
The last module joins them: a message that is parsed anew as often as one likes while it
arrives reaches the client whole (`ChatStream.WholeMessageReachesClient`).

**LoRA tensors** (`Lora`). Operations on a pair of factors against the same
operations on their dense product, for whole expressions.

**Small machinery** (`Base64`, `Packing`, `DiffSplit`, `Words`). Base64 with
alphabet detection and decoding in place, three-bit index packing, and the split of
two templates' outputs into common and differing parts.

Where the code does not keep a property on all inputs, the exact condition is
proved, both ways:

- a valid snapshot survives encode and decode exactly when its turn tables keep the
  boundary cap, which `valid()` does not check (`CodecTheorems.DecodeEncode`, with
  `CodecTheorems.LongTableRefused` a snapshot that does not);
- two differing quotes can compare as zero, against the comment at
  common/common-retention-sidecar.h:149-150 (`Shadow.ZeroIsNotIdentity`,
  `Shadow.ZeroMeansEqualRank`);
- a Python value keeps its meaning exactly when its escapes mean the same in JSON, its
  numbers are written as JSON writes them, and no control character or trailing comma
  stands in it (`PyJsonMeaning.TranslationPreservesValue`; `ApostropheSpoilt`,
  `BellSpoilt`, `SlashChanged` and `NumbersSpoilt` show what happens otherwise);
- the arguments of a tool call are JSON for what was passed exactly when, beyond that,
  no argument lacks its value (`MapperRuns.ArgumentsParse`);
- the translation of a Python value that is still arriving only grows exactly when no
  single-quoted string in it has an escaped quote (`PyJsonStream.StreamedValue`, and
  `PyJsonStream.NeverShrinksExactly` for any input); otherwise the deltas can throw
  (`ChatStream.EscapedQuoteThrows`);
- a string argument that arrives in chunks is spelled as JSON exactly when no chunk
  after the first is empty (`MapperRuns.StringTextExact`, `MapperRuns.EmptyChunkSpoils`);
- the four parts of a diff split make up its inputs exactly when one side is not
  used up alone and then matched again, with one rescue when the left text starts the
  right one (`DiffSplit.SplitReconstructs`, `DiffSplit.SmallestMisaligned`);
- the skips of a token scan take effect exactly up to the first one that begins inside
  the one before it (`Spans.SpanStartsExactly`, `Spans.ScanInEffect`);
- the factored form of a tensor program refuses, of what the dense form accepts,
  exactly wide multipliers and concatenation without a common A
  (`Lora.FactoredAcceptsExactly`);
- permute accepts 2 as another name of axis 0 (`Lora.AxisTwoAccepted`);
- deltas rebuild a message exactly when it grew (`Streaming.RebuildsIffGrows`).

Integers of fixed width are subset types of `int`, and each wrap-around, shift
guard and truncating cast of the code is written out. Where a `uint8_t` bit pattern
is the subject (`Packing`), bytes are bit-vectors.

## Model

| member | source | states |
|---|---|---|
| `Layout.PutInt` | common/common-retention-sidecar.cpp:30-40 | appends the low bytes of an integer, least significant first, and nothing else |
| `Layout.ValueOfLittleEndian` | common/common-retention-sidecar.cpp:30-78 | reading the bytes of an integer gives the integer, when it fits the field |
| `Layout.LittleEndianOfValue` | common/common-retention-sidecar.cpp:30-78 | any field of bytes is the spelling of the integer it is read as |
| `Layout.Reader.Bytes` | common/common-retention-sidecar.cpp:42-54 | succeeds exactly when enough bytes are left; otherwise the cursor does not move |
| `Layout.Reader.Int` | common/common-retention-sidecar.cpp:56-78 | OR-ing each byte in at its own place reads the little-endian value of the field; a field that does not fit leaves the cursor |
| `Layout.TakePut` | common/common-retention-sidecar.cpp:26-78 | a record written field by field is read back, whatever follows it |
| `Layout.PutTake` | common/common-retention-sidecar.cpp:26-78 | fields read from bytes fit their widths and are written as those bytes |
| `SnapshotCheck.AllDistinct` | common/common-retention-sidecar.cpp:487-493 | sort and adjacent_find decide whether all ids differ |
| `SnapshotCheck.BinarySearch` | common/common-retention-sidecar.cpp:501-503 | finds an id in a sorted list exactly when it is there |
| `SnapshotCheck.Check` | common/common-retention-sidecar.cpp:470-526 | the three passes over lineages, artifacts and pools decide the declarative validity of a snapshot (unique ids, high-water marks that cover every id, anchored artifacts), both ways |
| `Sidecar.EncodePayload` | common/common-retention-sidecar.cpp:132-183 | writes the payload of the snapshot, or nothing when a turn table is missing or the size cap would be passed |
| `Sidecar.EncodeSnapshot` | common/common-retention-sidecar.cpp:646-673 | writes the envelope and payload of exactly the encodable snapshots |
| `Sidecar.DecodeLineage` | common/common-retention-sidecar.cpp:185-207 | reads one lineage off the cursor, refusing an invalid one |
| `Sidecar.DecodeArtifact` | common/common-retention-sidecar.cpp:209-259 | reads one artifact with its boundaries off the cursor, refusing bytes out of range, too many boundaries and invalid records |
| `Sidecar.DecodeSnapshot` | common/common-retention-sidecar.cpp:697-779 | reads exactly the accepted byte strings; on failure the snapshot is left cleared |
| `CodecTheorems.DecodeEncode` | common/common-retention-sidecar.cpp:646-673 | for every snapshot that encodes, decoding returns it exactly when its turn tables keep the per-artifact boundary cap, and is refused otherwise: valid() does not check that cap, decode does |
| `CodecTheorems.EncodeDecode` | common/common-retention-sidecar.cpp:697-779 | every accepted byte string is the encoding of what it decodes to |
| `CodecTheorems.AcceptedExactly` | common/common-retention-sidecar.cpp:697-779 | the accepted byte strings are the encodings of the capped snapshots and no others |
| `CodecTheorems.LongTableRefused` | common/common-retention-sidecar.cpp:414-439 | a concrete valid snapshot whose one turn table is a boundary over the cap: it encodes, and decode refuses the encoding |
| `CodecTheorems.TamperedPayloadCollides` | common/common-retention-sidecar.cpp:712-733 | a text that differs from an accepted one only after the envelope is accepted exactly when its payload has the same length, hashes to the same digest and can be read by itself |
| `CodecTheorems.EncodedLength` | common/common-retention-sidecar.cpp:14-24 | one length formula over all lineages and boundaries, and encoding fails exactly when it passes the cap |
| `CodecTheorems.SizePredictionExact` | common/common-retention-sidecar.cpp:675-695 | the predicted size of an artifact is the length encode produces for it beside one lineage |
| `WireFormat.EncodedLaidOut` | common/common-retention-sidecar.cpp:132-183 | every field of an encoded snapshot by its offset: magic, version, length, digest, marks, epoch, each lineage, each artifact and each boundary |
| `WireFormat.LittleEndianByte` | common/common-retention-sidecar.cpp:30-40 | byte i of an integer is the integer shifted down by 8i, its low eight bits |
| `Allocator.RunGrows` | common/common-retention-sidecar.cpp:781-840 | over any run counters never fall, and what is granted lies between the counters before and after |
| `Allocator.IdsStrictlyIncrease` | common/common-retention-sidecar.cpp:781-840 | over any interleaving of issuing and importing, ids of one pool and kind strictly increase in the order they are granted |
| `Allocator.FreshAfterImport` | common/common-retention-sidecar.cpp:816-840 | after a successful import no id of the snapshot is ever issued again |
| `Allocator.FreshAfterRestore` | common/common-retention-sidecar.cpp:816-840 | the same when the snapshot went through encode and decode in between |
| `Allocator.IdAllocator.RecencyHighWater` | common/common-retention-sidecar.cpp:842-846 | one below the next recency ordinal of a pool, 0 for no pool |
| `Allocator.IdAllocator.StableHighWater` | common/common-retention-sidecar.cpp:848-852 | one below the next stable id of a pool, 0 for no pool |
| `Allocator.IdAllocator.LineageHighWater` | common/common-retention-sidecar.cpp:854-858 | one below the next lineage id of a pool, 0 for no pool |
| `Allocator.HighWaterCovers` | common/common-retention-sidecar.cpp:842-858 | the high-water marks are at least every id granted so far |
| `Allocator.RestartIssuesLarger` | common/common-retention-sidecar.cpp:816-840 | a fresh process that imports a snapshot of its predecessor's high-water marks issues only larger ids than the predecessor did |
| `Allocator.FailedImportChangesNothing` | common/common-retention-sidecar.cpp:816-840 | an import leaves the counters alone exactly when it is refused or brings nothing new |
| `Allocator.ImportsCommute` | common/common-retention-sidecar.cpp:816-840 | two imports give the same counters in either order |
| `Allocator.ImportIsIdempotent` | common/common-retention-sidecar.cpp:816-840 | importing a snapshot twice is importing it once |
| `Allocator.StepKeepsCountersValid` | common/common-retention-sidecar.cpp:781-840 | no counter reaches zero or wraps around |
| `Allocator.AdmittedLineageValid` | common/common-retention-sidecar.cpp:798-814 | the validity check that ends issue_lineage never refuses a record whose id was already taken |
| `Allocator.IdAllocator.IssueStamp` | common/common-retention-sidecar.cpp:781-796 | takes one step of the id state machine, stamps the granted ids, and on refusal changes neither counters nor stamp |
| `Allocator.IdAllocator.IssueLineageRecord` | common/common-retention-sidecar.cpp:798-814 | takes one step of the id state machine and returns the valid record of the admitted lineage |
| `Allocator.IdAllocator.ImportSnapshot` | common/common-retention-sidecar.cpp:816-840 | succeeds exactly for importable snapshots and then takes the import step |
| `Admission.AdmittedIs` | common/common-retention-sidecar.cpp:798-814 | an admitted lineage carries the granted id, is on probation with a prior of 1000 thousandths and was never credited |
| `Admission.AdmissionQuote` | common/common-retention-sidecar.cpp:344-382 | at admission a lineage is quoted at one unit of frequency times the work, exactly when that fits the word |
| `Admission.AdmittedEarns` | common/common-retention-sidecar.cpp:318-342 | from admission, while no decay interval has passed, the frequency after any run is credit_q for each distinct credited epoch, up to the maximum |
| `Admission.IssuedIffValid` | common/common-retention-sidecar.cpp:781-796 | ids are issued exactly when the stamp that carries them is valid |
| `Admission.AdmittedIffValid` | common/common-retention-sidecar.cpp:798-814 | a lineage is issued exactly when the admitted record is valid |
| `Admission.ImportedIffIdsLeft` | common/common-retention-sidecar.cpp:816-831 | a valid snapshot is refused exactly when some id after one of its marks would be past the last |
| `Admission.ImportLeavesIds` | common/common-retention-sidecar.cpp:816-840 | after a first import every pool can issue, starting one above each mark |
| `Admission.MarkIsReached` | common/common-retention-sidecar.cpp:842-858 | over any run a high-water mark is the one before the run, or an id granted, or a mark imported, on the way |
| `Frequency.LineageCell.Normalize` | common/common-retention-sidecar.cpp:296-316 | updates the record to its decayed form and reports whether it was valid and available |
| `Frequency.LineageCell.Credit` | common/common-retention-sidecar.cpp:318-342 | updates the record and result together to one credit of the epoch |
| `Frequency.NormalizeTwice` | common/common-retention-sidecar.cpp:296-316 | normalizing early and then later is normalizing once, later |
| `Frequency.DecayIsPathIndependent` | common/common-retention-sidecar.cpp:296-316 | any chain of non-decreasing epochs gives the same record as its last epoch alone |
| `Frequency.ObservationsAreInert` | common/common-retention-sidecar.cpp:296-342 | removing every observation from a run changes no credit's result and no later query |
| `Frequency.RunTracks` | common/common-retention-sidecar.cpp:270-342 | invariant of every run: the record stays valid, hits count the distinct credited epochs, and the state says whether there are enough of them |
| `Frequency.RunOutcome` | common/common-retention-sidecar.cpp:270-342 | from a fresh record, after any run: valid, frequency within the maximum, hits equal to the number of distinct credited epochs, promoted exactly from promotion_hits on |
| `Frequency.RepeatCreditChangesNothing` | common/common-retention-sidecar.cpp:318-342 | a second credit in one epoch is coalesced and leaves the record as it is |
| `Frequency.NormalizedValid` | common/common-retention-sidecar.cpp:270-316 | a record is valid after normalizing exactly when it was before |
| `Frequency.NormalizedIs` | common/common-retention-sidecar.cpp:296-316 | in plain arithmetic: the frequency is halved once per whole interval, the cursor stays on the last boundary, nothing else changes |
| `Frequency.NotNormalized` | common/common-retention-sidecar.cpp:296-307 | an unavailable record only has its cursor moved to the epoch, and an invalid one is left alone |
| `Frequency.CreditAdds` | common/common-retention-sidecar.cpp:330-341 | the first credit of an epoch makes the frequency the smaller of the maximum and the decayed frequency plus credit_q, adds one hit and promotes from promotion_hits on |
| `Frequency.RunAdds` | common/common-retention-sidecar.cpp:318-342 | within one decay interval each newly credited epoch adds credit_q to the frequency, up to the maximum, over any run in epoch order |
| `Shadow.ProductExact` | common/common-retention-sidecar.cpp:98-118 | the two words of the hand-written product are exactly a times b, with no carry lost |
| `Shadow.CompareProductExact` | common/common-retention-sidecar.cpp:120-130 | comparing the two-word products compares the exact products |
| `Shadow.QuoteExact` | common/common-retention-sidecar.cpp:344-382 | a quote succeeds exactly when its inputs are usable and neither sum nor product overflows, and its value is then the exact (frequency + prior) times work |
| `Shadow.QuoteFields` | common/common-retention-sidecar.cpp:374-381 | every field of a quote as a function of its inputs: frequency, value, marginal resource, recency, lineage and state |
| `Shadow.CandidatesOrdered` | common/common-retention-sidecar.cpp:344-412 | two quotes compare as smaller exactly when, in the inputs, value per resource is smaller as a rational, or equal and recency smaller, or both equal and the lineage id smaller |
| `Shadow.QuoteAfterNormalize` | common/common-retention-sidecar.cpp:344-382 | normalizing first, at no later an epoch, does not change the quote |
| `Shadow.QuoteNeverRises` | common/common-retention-sidecar.cpp:344-382 | for a fixed record a quote keeps succeeding as the epoch grows and its value never rises |
| `Shadow.CompareAgreesWithDensity` | common/common-retention-sidecar.cpp:384-412 | the comparator is the order known before unknown, then exact rational value per resource, then recency, then lineage |
| `Shadow.StrictWeakOrder` | common/common-retention-sidecar.cpp:384-412 | irreflexive, antisymmetric and transitive, and incomparability is transitive |
| `Shadow.ZeroMeansEqualRank` | common/common-retention-sidecar.cpp:384-412 | zero exactly for two unknown quotes or for equal density, recency and lineage |
| `Shadow.ZeroIsNotIdentity` | common/common-retention-sidecar.h:149-153 | against the comment that zero means the quotes are identical: different quotes can compare as zero |
| `Spans.FindMatches` | common/chat.cpp:137-160 | collects the matches of a scan that jumps over the skipped stretches |
| `Spans.Split` | common/chat.cpp:137-169 | one span per match, each reaching to the next match or the end |
| `Spans.SplitTiles` | common/chat.cpp:137-169 | spans abut, none is empty, and the last one ends with the tokens |
| `Spans.ScanFindsExactly` | common/chat.cpp:137-160 | with skips that do not overlap, from any point on, exactly the positions outside them where a delimiter matches are found, with the role of the first one that does |
| `Spans.ScanInEffect` | common/chat.cpp:140-157 | a skip that begins inside the one before it is jumped over, and then neither it nor any later one takes effect |
| `Spans.SpanStartsExactly` | common/chat.cpp:137-169 | for every skip map, a span of a role starts at a position exactly when no skip in effect covers it and the first delimiter in list order whose tokens stand there is one of that role |
| `Spans.RoleAtExactly` | common/chat.cpp:148-155 | the role at a position is that of the first delimiter in the list whose tokens stand there, token by token |
| `Spans.IsUserStart` | common/chat.h:175-182 | decides whether some user span starts there, after the 32-bit cast |
| `Spans.LastUserMessagePos` | common/chat.h:184-191 | the cast position of the last user span, -1 when there is none |
| `Turns.CheckSpans` | common/common-retention-sidecar.cpp:542-569 | decides known roles, order, bounds and the boundary cap, and counts the boundaries |
| `Turns.CollectBoundaries` | common/common-retention-sidecar.cpp:571-591 | boundary 0, moved by user spans at the front, and one boundary per later user start; refuses exactly starts that do not ascend |
| `Turns.Build` | common/common-retention-sidecar.cpp:528-600 | accepts exactly the acceptable spans, returns a valid table whose boundaries are those of the user spans, and the empty table on refusal |
| `Turns.FrontEndIs` | common/common-retention-sidecar.cpp:571-591 | boundary 0 ends where the last user span at position 0 ends, at 0 if there is none |
| `Turns.SplitIsAccepted` | common/chat.cpp:137-169 | whatever split produces is accepted, unless a role is unknown or there are too many turns |
| `Turns.MapsToUnique` | common/common-retention-sidecar.cpp:616-622 | a frontier maps to at most one turn of a valid table |
| `Turns.BoundaryMapsToItself` | common/common-retention-sidecar.cpp:616-622 | each boundary's position maps to that boundary |
| `Turns.UserStartsAreTurns` | common/common-retention-sidecar.cpp:528-600 | every user start of a split text begins a turn of the table built from it, and the last user start is the last boundary |
| `Score.ComputeCeilLog2` | common/common-retention-sidecar.cpp:85-96 | the least k with 2^k at least the value, which is 64 where doubling would pass the word |
| `Score.RankedIffPowerOfTwo` | common/common-retention-sidecar.cpp:631-642 | an interior turn is ranked exactly when it is a power of two before the newest |
| `Score.RankFallsWithDistance` | common/common-retention-sidecar.cpp:631-642 | among ranked turns the farther one has the lower rank |
| `Score.RankedTurnCount` | common/common-retention-sidecar.cpp:631-642 | of n turns before the newest exactly ceil(log2 n) interior ones are ranked |
| `Score.UpperBound` | common/common-retention-sidecar.cpp:616-622 | the number of boundaries at or before the frontier, by bisection |
| `Score.AnchorRank` | common/common-retention-sidecar.cpp:631-642 | ceil_log2(n) + 1 - k at distance 2^k, 0 where no such k is |
| `Score.ScoreStamp` | common/common-retention-sidecar.cpp:602-644 | scores exactly the scorable frontiers: the last boundary at or before it, mandatory at both ends, ranked inside; resets the scored fields otherwise and touches no other field |
| `Score.ScoredArtifactValid` | common/common-retention-sidecar.cpp:441-468 | a scored stamp leaves an artifact that passes the record's own validity check |
| `Score.BoundaryScoresToItself` | common/common-retention-sidecar.cpp:616-625 | a frontier on a boundary scores to that boundary |
| `Score.UserStartScores` | common/common-retention-sidecar.cpp:602-644 | end to end: each user start that split finds scores to a turn that begins just there, the last one to the newest turn |
| `Streaming.ComputeDiffs` | common/chat.cpp:251-317 | the growing list of deltas, or the throw, of the specified function |
| `Streaming.RebuildsIffGrows` | common/chat.cpp:251-317 | the deltas are produced and rebuild the new message exactly when texts grew by prefix, earlier calls are frozen and the last one grew |
| `Streaming.StreamReconstruction` | common/chat.cpp:251-317 | over every growing run nothing is thrown and folding all deltas ends with the last message |
| `Streaming.DeltasReach` | tests/test-chat.cpp:1197-1222 | what a client that folds the deltas holds, for any two messages, growing or not |
| `Streaming.ThrowsExactly` | common/chat.cpp:220-317 | nothing is sent exactly when reasoning, content or the last call's arguments neither continue nor precede the old ones, calls are missing, or the name of the last call is not continued |
| `Streaming.DeltasSay` | common/chat.cpp:251-317 | each delta says one thing; there is one for each text that changed, one for the last call if it did and one for each new call; name and id are sent again only together and only when one changed |
| `Streaming.NothingToSend` | common/chat.cpp:251-317 | a message that did not change sends nothing |
| `Streaming.CallIds.SetToolCallIds` | common/chat.h:109-121 | extends the cache by the call's own or a generated id for each new index and writes the cached id into every call |
| `Streaming.CacheExtended` | common/chat.h:109-121 | an index in the cache keeps its id; a new one takes the id its call came with, or else the next generated id, of which exactly the missing ones are used |
| `Streaming.StampedIds` | common/chat.h:109-121 | the calls of a message are sent with the cached, own or generated id of their index |
| `Streaming.IdsStayFixed` | common/chat.h:109-121 | once an index has an id, every later message of the stream has it there |
| `Streaming.StampedStreamReconstruction` | tools/server/server-task.cpp:222-226 | with ids given out before diffing, a stream that grows in everything but ids is rebuilt, ids included |
| `Json.BraceDepth` | common/chat-peg-parser.cpp:42-68 | the number of open braces that are not inside strings |
| `Json.ShortestSpelling` | common/chat-peg-parser.cpp:71-77 | the escaped form of a character is the shortest that reads back as it, and the only one so short without capital digits |
| `Json.ReadEscaped` | common/chat-peg-parser.cpp:71-77 | reading an escaped string back gives the string, whatever follows it |
| `Json.ScanEscaped` | common/chat-peg-parser.cpp:42-68 | escaped text neither ends its string nor counts as braces |
| `PyJson.Turn` | common/chat-peg-parser.cpp:93-183 | one turn of the character loop consumes input and writes its part of the translation |
| `PyJson.NormalizeQuotes` | common/chat-peg-parser.cpp:84-186 | the loop over flags computes the recursive translation of the whole input |
| `PyJson.TranslateValue` | common/chat-peg-parser.cpp:84-186 | in any context the Python spelling of a nested value, with any escapes and spacing, is translated into its JSON-like spelling |
| `PyJsonMeaning.TranslationReads` | common/chat-peg-parser.cpp:84-186 | what a JSON reader makes of the translation of any nested value: each escape as JSON has it, surrogates only in pairs, numbers only in JSON form, nothing after a trailing comma |
| `PyJsonMeaning.TranslationPreservesValue` | common/chat-peg-parser.cpp:84-186 | for every nested value, however quoted, escaped and spaced, the translation parses to that value exactly when every escape means the same in both languages, no character below a space stands bare, every number is in JSON form and no comma trails |
| `PyJsonMeaning.SingleQuotedPreserved` | common/chat-peg-parser.cpp:84-186 | values of single-quoted strings with the shared escapes, JSON numbers, True, False and None are always preserved |
| `PyJsonMeaning.ApostropheSpoilt` | common/chat-peg-parser.cpp:121-127 | an escaped apostrophe between double quotes is not JSON afterwards |
| `PyJsonMeaning.BellSpoilt` | common/chat-peg-parser.cpp:114-118 | an escape that JSON lacks is passed through and is not JSON |
| `PyJsonMeaning.SlashChanged` | common/chat-peg-parser.cpp:114-118 | an escaped slash, two characters in Python, silently becomes one |
| `PyJsonMeaning.NumbersSpoilt` | common/chat-peg-parser.cpp:181-183 | a number without digits before the point, and a trailing comma, pass through and are not JSON |
| `PyJsonMeaning.ValueBalanced` | common/chat-peg-parser.cpp:42-68 | a translated value opens no brace that it does not close |
| `PyJsonStream.GrowsExactly` | common/chat-peg-parser.cpp:157-179 | for any input, what has been translated so far is a prefix of the translation of it all exactly when the input does not stop in an escaped quote or in a word that becomes another one |
| `PyJsonStream.NeverShrinksExactly` | common/chat-peg-parser.cpp:157-179 | the translation of every beginning of an input is a prefix of the translation of the input exactly when no single-quoted string has an escaped quote and every word that begins like a literal is the beginning of one |
| `PyJsonStream.StreamedValue` | common/chat-peg-parser.cpp:157-179 | for every nested value, the translation of each partial spelling is a prefix of the whole one exactly when no single-quoted string in it has an escaped quote |
| `Mapper.PegMapper.Map` | common/chat-peg-parser.cpp:315-457 | one event takes the whole mapper state to the state of the event machine |
| `Mapper.PegMapper.FromAst` | common/chat-peg-parser.cpp:284-313 | all events in turn, then the flush and the removal of blank reasoning |
| `Mapper.StepKeepsUnnamed` | common/chat-peg-parser.cpp:315-457 | every event keeps the tool pointer from dangling and a pending call unnamed |
| `Mapper.FlushNeverFires` | common/chat-peg-parser.cpp:284-300 | over every run the final flush finds nothing to move: a call leaves the pending slot as soon as it is named |
| `MapperRuns.StepInside` | common/chat-peg-parser.cpp:315-457 | each event writes the same argument text whether it goes to the buffer or to a named call |
| `MapperRuns.StringTextExact` | common/chat-peg-parser.cpp:403-430 | the chunks of a string value add up to its JSON text exactly when no chunk after the first is empty |
| `MapperRuns.EmptyChunkSpoils` | common/chat-peg-parser.cpp:407-410 | a concrete run with an empty second chunk whose finished arguments are not the JSON text of the call and not JSON at all |
| `MapperRuns.WriteArgs` | common/chat-peg-parser.cpp:315-457 | the events of any arguments write an opening brace and the comma-joined name and value pairs |
| `MapperRuns.OneBraceOpen` | common/chat-peg-parser.cpp:42-68 | after any arguments the brace scanner counts exactly the one opening brace |
| `MapperRuns.CallRun` | common/chat-peg-parser.cpp:315-457 | from open to close, with the name and the id anywhere between, a run adds exactly one call: the trimmed name, the unquoted id, and the arguments one by one with their braces, separators and escapes, or as one text without trailing space plus a brace for each left open |
| `MapperRuns.EnclosedRun` | common/chat-peg-parser.cpp:315-457 | whatever arguments, texts, ids and other events come between open and close, finished or not: one call with what was written, an owed quote and a brace for each left open |
| `MapperRuns.WholeTextReplaces` | common/chat-peg-parser.cpp:375-382 | arguments that come as one text replace what was collected; a text that does not begin with a brace changes nothing |
| `MapperRuns.WholeKept` | common/chat-peg-parser.cpp:433-457 | the text of formed arguments, whole or without its last brace, finishes as it is |
| `MapperRuns.BracesAre` | common/chat-peg-parser.cpp:444-447 | what is added for n open braces is n closing ones |
| `MapperRuns.LateId` | common/chat-peg-parser.cpp:351-357 | an id that comes after the close still goes to the call just closed, and changes nothing else |
| `MapperRuns.TextsRun` | common/chat-peg-parser.cpp:315-328 | over any run reasoning and content are each the texts of their own events, in order |
| `MapperRuns.TrimTrailingIs` | common/chat-peg-parser.cpp:12-22 | trimming ends at the last character that is none of the six space characters |
| `MapperRuns.TrimNameIs` | common/chat-peg-parser.cpp:24-38 | of the space characters in front of an argument name only one goes |
| `MapperRuns.UnquotedIs` | common/chat-peg-parser.cpp:351-357 | one pair of enclosing quotes goes, and nothing else |
| `MapperRuns.PartialCallIsPrefix` | common/chat-peg-parser.cpp:315-457 | at every event after the name the arguments shown are a prefix of the final ones |
| `MapperRuns.MessageRun` | common/chat-peg-parser.cpp:315-457 | a message of reasoning, content and calls in any order: every call in order and nothing else, the reasoning and the content each joined |
| `MapperRuns.MessageResult` | common/chat-peg-parser.cpp:284-313 | what from_ast makes of such a message; reasoning that is only white space is dropped |
| `MapperRuns.UnnamedCallDiscarded` | common/chat-peg-parser.cpp:433-457 | a call that never gets a name leaves no trace, whatever events arrive between its open and its close |
| `MapperRuns.ArgumentsRead` | common/chat-peg-parser.cpp:315-457 | what a JSON reader makes of the finished arguments of any call |
| `MapperRuns.ArgumentsParse` | common/chat-peg-parser.cpp:315-457 | the finished arguments parse to the object of the names and values passed exactly when no value is missing and every value survives translation |
| `ChatStream.SnapshotsGrow` | common/chat-peg-parser.cpp:315-457 | of a message of any parts, parsed anew at two moments, in the middle of a text, a string or an argument or not: the later result has grown from the earlier one as the deltas require |
| `ChatStream.MessageReachesClient` | tools/server/server-task.cpp:222-226 | over any such moments, with ids given out and deltas computed in between, nothing is thrown and a client that starts with nothing holds what was parsed last |
| `ChatStream.EmptyIsPassedOver` | tools/server/server-task.cpp:223 | skipping a message that is still empty skips no delta: what grew into it was empty |
| `ChatStream.WholeMessageReachesClient` | tools/server/server-task.cpp:222-226 | if the last moment is the end, the client holds the message: its reasoning, its content, its calls with names and arguments |
| `ChatStream.EscapedQuoteThrows` | common/chat-peg-parser.cpp:109-119 | a concrete value, a single-quoted string with an escaped quote, cut after the backslash: what was sent is taken back and computing the deltas throws |
| `Lora.ProductOfPicks` | convert_lora_to_gguf.py:98-112 | selecting rows of B and columns of A selects rows and columns of the product |
| `Lora.ProductTransposed` | convert_lora_to_gguf.py:168-180 | swapping and transposing the factors transposes the product |
| `Lora.ProductScaled` | convert_lora_to_gguf.py:211-216 | scaling the rows of B scales the rows of the product, broadcasting included |
| `Lora.ProductStacked` | convert_lora_to_gguf.py:248-257 | stacking B over a common A stacks the product |
| `Lora.SwapEntries` | convert_lora_to_gguf.py:181-185 | for axes from -2 to 1, the dense product of swapped factors is that of the given ones when the axes are the same dimension, and otherwise its entries exchanged |
| `Lora.PermuteEntries` | convert_lora_to_gguf.py:168-180 | the same for permute: the identity leaves the dense product, the exchange transposes it entry by entry |
| `Lora.AxisTwoAccepted` | convert_lora_to_gguf.py:168-180 | permute takes 2 for axis 0, against the two dimensions it checks for |
| `Lora.IndicesAre` | convert_lora_to_gguf.py:114-160 | a slice selects, within the bounds as Python clips them, every step-th index in order and no other |
| `Lora.BlockEntries` | convert_lora_to_gguf.py:98-160 | each entry of a sliced product is the entry at the selected indices |
| `Lora.PieceSizesAre` | convert_lora_to_gguf.py:190-206 | a split by size has pieces of that size and a last one that makes up the dimension, by list just those |
| `Lora.PieceEntries` | convert_lora_to_gguf.py:190-206 | the entries of a piece are those of the product, counted from where the piece starts |
| `Lora.ScaleEntries` | convert_lora_to_gguf.py:211-216 | each entry is multiplied by the multiplier's entry of its row |
| `Lora.JoinEntries` | convert_lora_to_gguf.py:248-257 | the entries of a concatenation are those of its parts one below another |
| `Lora.SplitCoversDimension` | convert_lora_to_gguf.py:190-206 | the pieces of a split, in order, are exactly the indices of the dimension |
| `Lora.FactoredRefinesDense` | convert_lora_to_gguf.py:58-259 | any expression of slices, permutations, axis swaps, splits, multiplications and concatenations that succeeds on the factors succeeds on the dense matrices, with the product of the resulting factors as its value; on the dense side an axis swap is told as the same axis or the transpose |
| `Lora.FactoredAcceptsExactly` | convert_lora_to_gguf.py:58-259 | the factored form accepts a program exactly when the dense form does, no multiplier is wider than a column, and joined tensors share one A |
| `DiffSplit.Segmentize` | common/chat-auto-parser-helpers.cpp:266-296 | the loop over borders cuts the text into the segments of the recursive scan |
| `DiffSplit.SegmentationLossless` | common/chat-auto-parser-helpers.cpp:266-296 | joined again the segments are the text, none is empty, and only the empty text has none |
| `DiffSplit.SegmentsWellCut` | common/chat-auto-parser-helpers.cpp:266-296 | every marker runs from '<' or '[' to the first matching closer, other segments hold no opener and do not adjoin, except for a last one whose marker never closes |
| `DiffSplit.SegmentsUnique` | common/chat-auto-parser-helpers.cpp:266-296 | so the segments are the only list with these properties that joins to the text |
| `DiffSplit.MatchEnds` | common/chat-auto-parser-helpers.cpp:106-135 | the loop over both ends, segment by segment, as the specified function |
| `DiffSplit.FirstPhaseHolds` | common/chat-auto-parser-helpers.cpp:106-135 | what the loop leaves: what is matched and what remains make up both texts, and a side is used up alone exactly when it is the other's first and last halves |
| `DiffSplit.RemainingAccounted` | common/chat-auto-parser-helpers.cpp:137-162 | after the second phase prefix, rest and suffix still make up both texts, unless a side already used up was matched again; then the texts taken are too long for it |
| `DiffSplit.SharedPrefixLongest` | common/chat-auto-parser-helpers.cpp:66-73 | the shared prefix agrees and cannot be extended |
| `DiffSplit.SharedSuffixLongest` | common/chat-auto-parser-helpers.cpp:75-82 | the shared suffix agrees and cannot be extended |
| `DiffSplit.RestsDiffer` | common/chat-auto-parser-helpers.cpp:166-180 | where text meets text, left and right differ in their first and in their last character |
| `DiffSplit.NothingMoreToTake` | common/chat-auto-parser-helpers.cpp:106-162 | while neither side is used up, no equal segments are left at either end, unless the last texts of both |
| `DiffSplit.MarkersStayWhole` | common/chat-auto-parser-helpers.cpp:84-204 | while neither side is used up, prefix and suffix are the shared whole segments and no more, except for characters shared where text meets text; what is left differs there at once |
| `DiffSplit.PlainTextsDiffer` | common/chat-auto-parser-helpers.cpp:164-180 | of two texts without markers, what is left differs in its first and in its last character |
| `DiffSplit.SplitReconstructs` | common/chat-auto-parser-helpers.cpp:84-204 | prefix + left + suffix and prefix + right + suffix are the two texts exactly when the loop does not use up one side alone and then match its middle segment again (with the one rescue of a left text that starts the right one) |
| `DiffSplit.CalculateDiffSplit` | common/chat-auto-parser-helpers.cpp:84-204 | the loops and lambdas compute the specified parts |
| `DiffSplit.SmallestMisaligned` | common/chat-auto-parser-helpers.cpp:121-130 | a concrete pair, "<a><b>" and "<a><b><b>", of which the parts do not make up the texts |
| `DiffSplit.EqualTexts` | common/chat-auto-parser-helpers.cpp:182-187 | a text has no difference from itself: it is all prefix |
| `Base64.Encode` | common/base64.hpp:80-144 | shifting, masking and OR-ing writes the digits of each 24-bit group and the padding |
| `Base64.EncodedSize` | common/base64.hpp:338-341 | encoded text has the length required_encode_size gives |
| `Base64.OctetsOfSextets` | common/base64.hpp:80-144 | regrouping octets into six-bit digits and back loses nothing |
| `Base64.OctetsSnoc` | common/base64.hpp:211-226 | one more digit completes an octet unless it starts a group of four |
| `Base64.Decode` | common/base64.hpp:200-244 | the streaming loop with its two registers decodes as the grouped definition does, errors included |
| `Base64.RoundTrip` | common/base64.hpp:80-244 | decoding what was encoded returns it, in either alphabet and under detection, whatever the behaviour |
| `Base64.DecodeEncoded` | common/base64.hpp:344-389 | decoding in the other alphabet succeeds exactly when no digit is particular to one, and is refused otherwise |
| `Base64.EncodeDecoded` | common/base64.hpp:200-244 | a decodable text is what encoding its octets writes exactly when it is fully padded and its unused bits are zero |
| `Base64.DetectionTriesBoth` | common/base64.hpp:344-389 | detecting the alphabet is decoding with one and, if refused, with the other |
| `Base64.DecodedSize` | common/base64.hpp:324-327 | what is decoded never exceeds max_decode_size |
| `Base64.DecodeInPlace` | common/base64.hpp:294-313 | decoding onto the text itself gives what decoding elsewhere gives, and everything past what is written is as it was |
| `Base64.SameBits` | common/base64.hpp:80-144 | the six-bit digits are the bits of the octets in order, as one number, with zero bits behind |
| `Base64.TestVectors` | common/base64.hpp:80-144 | two test vectors of section 10 of RFC 4648 and one text the two alphabets spell differently |
| `Base64.BehindThePad` | common/base64.hpp:200-244 | from the first pad on loose decoding takes anything and moderate decoding only pads; neither changes the octets |
| `Packing.QuantizeTurbo4` | apply_turbo_cuda_v2.py:166-181 | OR-ing each index in, over two bytes where it straddles, leaves exactly the bit string of all indices, and the flags hold the residual signs |
| `Packing.QuantizeTurbo3` | apply_turbo_cuda_v2.py:118-128 | the two planes hold the low bits and the high bits of every index |
| `Packing.Turbo4RoundTrip` | apply_turbo_cuda_v2.py:149-154 | the unpacker returns every index that was packed |
| `Packing.UnpackedBit` | apply_turbo_cuda_v2.py:335-340 | the 16-bit window over one byte or two, the attention kernel's too, shows just the three bits asked for |
| `Packing.Turbo3RoundTrip` | apply_turbo_cuda_v2.py:136-144 | low and high bits put together again are the index |
| `Packing.SignRoundTrip` | apply_turbo_cuda_v2.py:189-200 | the sign of every residual is read back |
| `Packing.BytesDetermined` | apply_turbo_cuda_v2.py:166-176 | the packed bytes are the only ones that hold the indices |

## Left out

- SHA-256: any function from byte strings to 32 bytes; nothing depends on which one.
- Null data pointers, allocation failure and the exception handlers of the sidecar.
- Turn tables are values inside an artifact; that the original shares them by pointer is not modelled.
- Chat spans: the sum of a skip's position and length, and of a match's position and a delimiter's length, is not wrapped at the width of `size_t`.
- Text is a sequence of characters, not of UTF-8 bytes; that `dump()` throws on invalid UTF-8 is not modelled.
- Python values are numbers, True, False, None, plain string literals, lists and dicts. String prefixes, triple quotes, adjacent literals, tuples, sets, comments and white space other than space, tab and line ends are not spelled by the model. Escapes longer than two characters other than `\u` need no meaning of their own: JSON has none of them, so none survives.
- JSON numbers are compared as written, not by value.
- The mapper sees the visit of the syntax tree as its sequence of tag and text events; the parser engine that produces them, its builder functions and the gemma4 and minimax mappers are not part of this model.
- Mapper.PegMapper.Map: reasoning and content events carry the text already sanitized; that the original replaces invalid UTF-8 in it by U+FFFD (common/peg-parser.cpp:169-186) is not modelled.
- MapperRuns.CallRun: at most one id event and one enclosing or whole-text event; `MapperRuns.EnclosedRun` takes any events between open and close.
- ChatStream.SnapshotsGrow: names and closing events arrive whole, as their literals do in the parsers; so does a Python value whose partial translation would shrink.
- The server around the deltas: falling back to raw content when a final parse fails, and the filter that holds back the names of tool calls (tools/server/server-task.cpp:207-221, 228-281).
- Message fields that are not streamed (role, content parts, tool name) do not take part in the deltas.
- Lora.SplitPiece: dimensions below -2, to which the original adds 2 once before torch refuses or wraps them.
- LoRA tensors of more than two dimensions, reshape and stack, integer and tensor indices, ellipsis and data types; entries are real numbers, so rounding is not modelled.
- Base64 on general iterators: input is a string or an array, output a sequence or the same array.
- Turbo kernels: centroid search, norms and residuals are floating point and enter as the index and sign of each element; thread layout and dispatch are left out.
- Template diffing beyond the split itself (`common/chat-diff-analyzer.cpp`), command-line options (`common/arg.cpp`), the app, the Hugging Face conversion scripts and `common/common-cache-family.h`.

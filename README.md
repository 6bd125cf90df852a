# Markov text chain — a Dafny model

This project models the text-processing core of a Markov-chain text generator
written in C++. Four components are covered:

- **`MarkovTextChain`** (`source/markov_text_chain.cpp`) learns a chain of
  order *n* from a stream of words:
  - a sliding window of the last *n* words;
  - a hash table from each *n*-word state to a `WordsKeeper`, the list of
    words observed after that state;
  - generation of a word for a state from a random number;
  - saving the chain as text, and loading it back with `load` and
    `parseChainStates`.
- **`TextAdjuster::adjust`** (`source/text_adjuster.cpp`) normalises one word
  given as UTF-8 bytes:
  - it keeps lower-cased ASCII letters, digits and at most one inner hyphen;
  - it lowers Cyrillic letters through a table, drops every other symbol, and
    rejects a word whose last symbol is cut off.
- **`WordSplitter`** (`source/word_splitter.cpp`) buffers chunks of text in a
  `stringstream` and extracts words with `>>`.
- **`MemoryManager::getMemory`** (`source/memory_manager.cpp`) is the bump
  allocator behind the global `operator new`.

The C++ input stream is modelled at character level (`Text.InputStream`). It
holds the unread text and the `eof` and `fail` flags. `>>` into a string,
`>>` into a number and `std::getline` are modelled as they behave in
libstdc++:
- a failed `>>` leaves the target string as it was;
- a number that is not there sets `fail` without `eof`.

Each component has two layers:
- Value-level functions say what each operation does: `Step`, `Generate`,
  `LoadText`, `AdjustOutcome`, `AddTextStep`, `FlushStep` and `Get`.
- Classes with the source's fields (`MarkovTextChain`, `TextAdjuster`,
  `WordSplitter`, `MemoryManager`) run the source's loops. Each method is
  proved to compute exactly its function.

The classes follow the code as written. Where the source's `load` would loop
for ever, `MarkovTextChain.Load` stops and returns the error `LoadHangs`. A pass
of `parseChainStates` that leaves the stream as it was can only happen on a
failed stream. From there every further pass either spins in the key loop or
repeats the same pass with a smaller count (`ChainRoundTrip.StalledPassRepeats`),
so the source never returns; the method returns at that point instead.
The reader with its two defects repaired exists as the `Corrected` revision
of the specification functions (`ChainFormat.Revision`), and the corrections
are proved about it.

Files:
- `text.dfy`: characters, tokens and the input stream.
- `words_keeper.dfy`: `WordsKeeper`.
- `chain_format.dfy`: the saved text form and the reader, in both revisions.
- `markov_text_chain.dfy`: the chain, its class, and the loops of `save` and
  `load`.
- `chain_properties.dfy`: learning, `flush` and generation.
- `chain_roundtrip.dfy`: save/load round trip, `load` errors, reader defects.
- `text_adjuster.dfy`, `word_splitter.dfy`, `memory_manager.dfy`.

## Model

| member | source | states |
|---|---|---|
| Text.ReadWord | source/markov_text_chain.cpp:275 | `>>` into a string extracts a non-empty whitespace-free token only from a good stream; with nothing extracted it sets fail (and eof when only whitespace was left) and the target keeps its contents; a read from a good stream always makes progress |
| Text.ReadNumber | source/markov_text_chain.cpp:297 | `>>` into a number: a number only from a good stream; no digit sets fail without eof; a stream with only whitespace left gets eof and fail and the variable is untouched |
| Text.Getline | source/markov_text_chain.cpp:189 | `getline` on a stream that is not good only sets fail; otherwise it consumes input |
| Text.NatToStringValue | source/markov_text_chain.cpp:69 | the decimal text of a count reads back as that count |
| Text.ReadWordAt | source/markov_text_chain.cpp:275 | a token written after whitespace and followed by whitespace or the end is read back exactly, leaving the rest of the text |
| Text.ReadNumberAt | source/markov_text_chain.cpp:177 | a number written after whitespace is read back exactly, leaving the rest of the text |
| Keeper.WordsKeeper.AddWord | source/markov_text_chain.cpp:39-51 | the word is appended at the back, the keeper is no longer empty, and the counter stays equal to the list length |
| Keeper.PickFrequency | source/markov_text_chain.cpp:55-63 | over one period of `rand()` values, each stored word is picked exactly as many times as it occurs in the keeper |
| Keeper.ToStringTokens | source/markov_text_chain.cpp:67-76 | `toString` reads back as the counter followed by every stored word in insertion order |
| ChainFormat.ScanKey | source/markov_text_chain.cpp:273-288 | the key loop ends on the delimiter with `tmp` holding it, on eof, or stuck on a failed stream without eof; it consumes input whenever the stream is good |
| ChainFormat.ReadValues | source/markov_text_chain.cpp:297-306 | the value loop keeps a valid keeper valid and a non-empty keeper non-empty |
| MarkovChain.Step | source/markov_text_chain.cpp:224-240 | a short window only grows by the word and the table is unchanged; a full window gets the word appended to its keeper (created if absent), every other key unchanged, and the window slides by one |
| MarkovChain.Flushed | source/markov_text_chain.cpp:259-262 | `flush` empties the window and keeps order and table |
| MarkovChain.Generate | source/markov_text_chain.cpp:242-257 | fails with "inadmissible chain order" exactly when the order is 0, with "cannot generate word" exactly when the key is absent, and otherwise returns a stored successor of the key |
| MarkovChain.MarkovTextChain.constructor | source/markov_text_chain.cpp:140-146 | a chain of the given order with an empty window and table |
| MarkovChain.MarkovTextChain.SetOrder | source/markov_text_chain.cpp:150-158 | only the order changes, and `order()` returns it |
| MarkovChain.MarkovTextChain.AddWord | source/markov_text_chain.cpp:224-240 | throws on order 0 with the chain unchanged, otherwise performs `Step` |
| MarkovChain.MarkovTextChain.GenerateWord | source/markov_text_chain.cpp:242-257 | returns `Generate` of the chain |
| MarkovChain.MarkovTextChain.Flush | source/markov_text_chain.cpp:259-262 | the new chain is `Flushed` of the old one |
| MarkovChain.MarkovTextChain.Reset | source/markov_text_chain.cpp:317-322 | order 0, empty window, empty table |
| MarkovChain.MarkovTextChain.Save | source/markov_text_chain.cpp:200-222 | throws on order 0; otherwise writes the header, order and bucket count lines, one line per state in an order that lists every key exactly once, and the trailer |
| MarkovChain.MarkovTextChain.Load | source/markov_text_chain.cpp:160-198 | the new chain and result are `LoadSpec` of the reader as written, given whether `reserve` got its buckets: on success the order read and the states added to the table, on any error (a failed `reserve` included) the reset chain, and `LoadHangs` where the source never returns; the table stays well stored |
| MarkovChain.ReadChain | source/markov_text_chain.cpp:160-191 | the header search, order, bucket count, `reserve` and `getline` compute `LoadText` as written |
| MarkovChain.ParseChainStates | source/markov_text_chain.cpp:264-315 | the outer loop computes `ParseStates` as written: "stream not good" at eof, the trailer's table, an error, or `Diverges` where the loop would never end |
| MarkovChain.ReadState | source/markov_text_chain.cpp:273-311 | one pass on a stream not at eof: the trailer ends the parse with the table, a key scan stuck on a failed stream never ends, a key of the wrong length fails with "wrong order", otherwise the values are read (`Pass` as written) |
| MarkovChain.ReadValue | source/markov_text_chain.cpp:290-311 | after a key of the right length, the count and value reads and the table update compute one `Pass` as written; the key stays in `key` when it was already in the table |
| MarkovChain.ScanKeyLoop | source/markov_text_chain.cpp:273-288 | the key loop computes `ScanKey` |
| MarkovChain.ReadValuesLoop | source/markov_text_chain.cpp:297-306 | the value loop computes `ReadValues` |
| MarkovChain.GetWord | source/markov_text_chain.cpp:55-63 | stepping the list iterator `rand % count` times returns `Pick` |
| MarkovChain.WriteWords | source/markov_text_chain.cpp:213-216 | each word followed by one space |
| MarkovChain.KeeperToString | source/markov_text_chain.cpp:67-76 | the counter, a space, then every word followed by a space |
| MarkovChain.ParseStatesWellStored | source/markov_text_chain.cpp:308-311 | every state the reader stores, also before an endless loop, has a non-empty, valid keeper |
| MarkovChain.LoadTextWellStored | source/markov_text_chain.cpp:160-198 | a `load` into a well-stored table that does not fail leaves it well stored, in either revision |
| MarkovChain.CorrectedNeverHangs | source/markov_text_chain.cpp:160-198 | the corrected `load` always returns |
| MarkovChain.CorrectedNeverDiverges | source/markov_text_chain.cpp:270-315 | the corrected parse loop ends on every input |
| ChainProperties.StepWellFormed | source/markov_text_chain.cpp:231-239 | `addWord` keeps the window at most `order` long, keeps it full once full, and stores only keys of length `order` |
| ChainProperties.IngestWellFormed | source/markov_text_chain.cpp:224-240 | any run of `addWord` keeps those bounds |
| ChainProperties.StepCount | source/markov_text_chain.cpp:231-239 | one `addWord` stores one successor exactly when the window is full |
| ChainProperties.IngestCount | source/markov_text_chain.cpp:231-239 | ingesting L words into a window of m words stores max(0, m + L − order) new successors, added to what the table held |
| ChainProperties.IngestFromEmptyCount | source/markov_text_chain.cpp:231-239 | from an empty window, L ≥ order words store exactly L − order successors |
| ChainProperties.IngestSuccessors | source/markov_text_chain.cpp:237-239 | after ingesting, every key holds its old words followed by exactly its successors in the word stream: words accumulate, nothing is overwritten |
| ChainProperties.StepStores | source/markov_text_chain.cpp:237 | a full-window step appends the word under the window's key and nowhere else |
| ChainProperties.FlushSeparatesTexts | source/markov_text_chain.cpp:259-262 | two texts learnt with a `flush` between them store each text's successors and none across the boundary |
| ChainProperties.FlushIdempotent | source/markov_text_chain.cpp:259-262 | `flush` twice equals `flush` once |
| ChainProperties.GenerateFrequency | source/markov_text_chain.cpp:242-257 | over one period of `rand()` values, each successor of a key is generated as often as it was stored |
| ChainRoundTrip.RoundTrip | source/markov_text_chain.cpp:160-222 | when `reserve` succeeds, `load` of what `save` wrote restores the order and adds the saved states into the loading chain's table (as written: when the two tables share no key) |
| ChainRoundTrip.SaveLoadRestores | source/markov_text_chain.cpp:160-222 | into a chain with an empty table, and when `reserve` succeeds, `load` after `save` restores order and table exactly, and keeps the window |
| ChainRoundTrip.FailedReserveResets | source/markov_text_chain.cpp:184-198 | when `reserve` cannot get its buckets, `load` of a saved chain resets the chain and rethrows `bad_alloc`, whatever the chain held |
| ChainRoundTrip.FoldIsMerged | source/markov_text_chain.cpp:295-306 | reading the state lines in any listing order gives the same merged table |
| ChainRoundTrip.MergedIntoEmpty | source/markov_text_chain.cpp:295-306 | merging the saved states into an empty table gives exactly the saved table |
| ChainRoundTrip.SkipsWordsBeforeHeader | source/markov_text_chain.cpp:164-169 | words before the header are skipped |
| ChainRoundTrip.RejectsOrderZero | source/markov_text_chain.cpp:177-181 | an order of 0 in the text fails with "inadmissible chain order" |
| ChainRoundTrip.RejectsWrongKeyLength | source/markov_text_chain.cpp:290-293 | a key whose word count differs from the order fails with "wrong order" |
| ChainRoundTrip.RejectsEmptyValue | source/markov_text_chain.cpp:308-311 | a new key whose line has no value words fails with "no value" |
| ChainRoundTrip.RejectsMissingTrailer | source/markov_text_chain.cpp:270-293 | a saved text cut off before the trailer fails: the key loop meets eof with no key words |
| ChainRoundTrip.TrailerInsideKey | source/markov_text_chain.cpp:280-283 | the trailer ends the parse even inside a key, keeping the table |
| ChainRoundTrip.KeyReuseAsWritten | source/markov_text_chain.cpp:295 | as written, loading a saved chain whose first state is already in the table fails with "wrong order" |
| ChainRoundTrip.BadBucketCountHangsAsWritten | source/markov_text_chain.cpp:184-191 | as written, a bucket count that is not a number makes `load` loop forever; the corrected reader fails with "stream not good" |
| ChainRoundTrip.StalledPassRepeats | source/markov_text_chain.cpp:270-306 | on a stream that failed without eof, a pass reads nothing and the next pass repeats it, so the loop never ends |
| ChainRoundTrip.StalledParse | source/markov_text_chain.cpp:270-288 | from such a stream the as-written reader diverges and the corrected one stops with "stream not good" |
| Adjuster.SymbolSize | source/text_adjuster.cpp:157-167 | symbol length from the lead byte: 1 below 0xC0, 2 for 0xC0–0xDF, and 3 to 8 above, as in the table |
| Adjuster.CyrillicTableLowers | source/text_adjuster.cpp:17-154 | the table holds exactly the upper- and lower-case Cyrillic letters (Ё and ё included) and maps each to its lower-case form |
| Adjuster.AdjustOneByteSymbol | source/text_adjuster.cpp:229-251 | upper-case ASCII is lowered; letters and digits are copied; a hyphen is kept only if it is the first hyphen and neither the first nor the last byte, and this sets the flag; everything else is dropped |
| Adjuster.AdjustTwoByteSymbol | source/text_adjuster.cpp:253-267 | appends the table's replacement pair, or nothing when the symbol is not in the table |
| Adjuster.AdjustOutcomes | source/text_adjuster.cpp:182-227 | without a handler `adjust` throws; with one it throws "not UTF-8" exactly when a symbol runs past the end, and passes a word exactly when the result is neither empty nor a lone hyphen |
| Adjuster.NotUtf8Exactly | source/text_adjuster.cpp:197-203 | the byte loop fails exactly when some symbol's length exceeds the bytes left |
| Adjuster.PassedWordShape | source/text_adjuster.cpp:182-227 | a word passed to the handler is non-empty, not a lone hyphen, no longer than the input, has at most one hyphen, and holds only lower-case letters, digits, the hyphen and lower-case Cyrillic letters |
| Adjuster.AlphanumericLowered | source/text_adjuster.cpp:236-244 | an ASCII alphanumeric word comes out lower-cased byte for byte |
| Adjuster.EmptyWordDropped | source/text_adjuster.cpp:189-226 | an empty word reaches no handler and raises no error |
| Adjuster.HyphenJudgedOnInput | source/text_adjuster.cpp:246 | the hyphen test looks at the input position, so "a-!" is passed on as "a-" |
| Adjuster.HyphenPlacement | source/text_adjuster.cpp:245-250 | on examples: "-ab-" gives "ab", "a-b-c" gives "a-bc", and "!-!" leaves a lone hyphen that is not passed on |
| Adjuster.CyrillicWordLowered | source/text_adjuster.cpp:253-267 | "Ёж" becomes "ёж" |
| Adjuster.LongSymbolSkipped | source/text_adjuster.cpp:217-218 | a three-byte symbol is skipped whole |
| Adjuster.TruncatedSymbolRejected | source/text_adjuster.cpp:199-203 | a lead byte of a two-byte symbol at the end of the word is "not UTF-8" |
| Adjuster.TextAdjuster.constructor | source/text_adjuster.cpp:170-173 | no handler is set |
| Adjuster.TextAdjuster.SetHandler | source/text_adjuster.cpp:177-180 | sets whether a handler is present |
| Adjuster.TextAdjuster.Adjust | source/text_adjuster.cpp:182-227 | the pointer loop computes `AdjustOutcome` |
| Splitter.WordSplitter.constructor | source/word_splitter.cpp:7-11 | no handler and an empty, good buffer |
| Splitter.WordSplitter.SetHandler | source/word_splitter.cpp:15-18 | sets whether a handler is present; the buffer is untouched |
| Splitter.WordSplitter.AddText | source/word_splitter.cpp:20-44 | without a handler throws and leaves the buffer alone; otherwise writes the chunk, makes one extraction per space of the chunk, hands on the non-empty words, and clears the flags (`AddTextStep`) |
| Splitter.WordSplitter.Flush | source/word_splitter.cpp:46-61 | extracts until an extraction yields nothing, handing on each word; an empty handler throws on the first word (`FlushStep`) |
| Splitter.ExtractBound | source/word_splitter.cpp:32-40 | n extractions hand on at most n words |
| Splitter.ExtractTokens | source/word_splitter.cpp:32-40 | extraction from a good buffer hands on its tokens in order, each once: the words handed on plus the tokens still unread are the buffer's tokens |
| Splitter.AddTextTokens | source/word_splitter.cpp:20-44 | from a good buffer: at most one word per space of the chunk, only tokens, in order; handed-on words plus unread tokens are the tokens of old unread text plus chunk; the buffer is good afterwards |
| Splitter.DrainTokens | source/word_splitter.cpp:46-61 | draining a good buffer hands on all its tokens and leaves it empty with eof and fail set |
| Splitter.FlushEmitsRest | source/word_splitter.cpp:46-61 | `flush` emits every remaining token in order and leaves the stream failed |
| Splitter.FlushLosesNextChunk | source/word_splitter.cpp:29 | as written, the chunk added right after a `flush` is discarded whole and nothing is handed on |
| Splitter.CorrectedFlushKeepsNextChunk | source/word_splitter.cpp:46-61 | with the flags cleared after `flush`, the next chunk is split like a first one |
| Splitter.WordSplitAtChunkEnd | source/word_splitter.cpp:28-40 | as written, the chunk "a  b" hands on "a" and the unfinished "b" |
| Splitter.WordTailChunk | source/word_splitter.cpp:28-40 | the following chunk "c " hands on "c" |
| Splitter.ChunkedTextTokens | source/word_splitter.cpp:28-40 | the text "a  bc " holds the words "a" and "bc" |
| Splitter.TokenizeSplit | source/word_splitter.cpp:28-40 | a text cut right after whitespace tokenizes piece by piece |
| Splitter.CorrectedChunkingInvariant | source/word_splitter.cpp:20-61 | with only whitespace-terminated words extracted, all chunks followed by `flush` hand on exactly the tokens of the whole text, however it was cut into chunks |
| Memory.FirstRequestOpensChunk | source/memory_manager.cpp:20-26 | from the constructor's state, a first request of at least one byte opens chunk 0 of size max(20 MiB, size) and is served at offset 0 |
| Memory.NewChunkExactlyWhenFull | source/memory_manager.cpp:48-50 | the chunk index moves (modulo 2^64) exactly when position + size exceeds the chunk size |
| Memory.NewChunkServes | source/memory_manager.cpp:55-67 | a successfully opened chunk has size max(20 MiB, size), holds the block at offset 0, and the position becomes the size |
| Memory.ServedInPlace | source/memory_manager.cpp:65-67 | a request that fits is served at the current position, the position advances by size (modulo 2^64), nothing else changes |
| Memory.BadAllocExactly | source/memory_manager.cpp:50-60 | `bad_alloc` exactly when a chunk must be opened and the incremented index reaches 1024 or `malloc` fails; the index stays incremented and the position is kept |
| Memory.PositionWithinChunk | source/memory_manager.cpp:48-67 | on success the position stays within the chunk, and without overflow the block ends at the new position |
| Memory.SuccessiveBlocksContiguous | source/memory_manager.cpp:65-67 | without overflow, two successive blocks in one chunk are contiguous: the second starts where the first ends |
| Memory.FailedMallocServesNull | source/memory_manager.cpp:55-65 | as written, after a failed `malloc` a small request is served from the null pointer of the new slot |
| Memory.ExhaustedPoolServesPastEnd | source/memory_manager.cpp:50-65 | as written, after the pool is used up a request is served from slot 1024, past the pool's end |
| Memory.ZeroFirstRequestServesPastEnd | source/memory_manager.cpp:20-26 | as written, a first request of 0 bytes is served from slot `size_t(-1)` |
| Memory.HugeRequestWrapsAround | source/memory_manager.cpp:48 | as written, `position + size` wraps around and a request of 2^64 − 1 bytes is served inside a 20 MiB chunk |
| Memory.GetCorrected | source/memory_manager.cpp:46-68 | the repaired `getMemory` keeps a sound state, changes nothing on `bad_alloc`, and serves blocks from pool slots below 1024 ending at the new position |
| Memory.CorrectedBlocksDisjoint | source/memory_manager.cpp:46-68 | over any run of requests, every block the repaired allocator hands out lies inside memory `malloc` returned, and no two blocks overlap |
| Memory.MemoryManager.constructor | source/memory_manager.cpp:20-26 | null pool, chunk index `size_t(-1)`, chunk size and position 20 MiB |
| Memory.MemoryManager.GetMemory | source/memory_manager.cpp:46-68 | the bookkeeping as written computes `Get` |

## Left out

- I/O is not modelled. Streams are in-memory text. File streams, the download of texts with `curl`, the command-line front ends and the golden-file tests are not part of this model.
- `rand()`, `srand(time)` and the clock are not modelled. The random value is a parameter of `generateWord` and `getWord`.
- `WordsHash`, the iteration order of `unordered_map` and `bucket_count()` are not modelled. `save` is proved for every listing order of the keys, and the bucket count is an arbitrary natural number.
- `reserve` allocates the bucket array through the global `operator new`, which is `MemoryManager::getMemory`. The model gives `load` a flag saying whether that allocation succeeds, as `getMemory` takes one for `malloc`. The flag is free: the model does not compute it from the count read. That count may be huge, or, when the read found nothing, it is the uninitialised `buckets` variable.
- Every other allocation of `load` (map nodes, strings, list nodes) is assumed to succeed.
- Number reads (`Text.ReadNumber`) take decimal digits only. They do not model a sign, overflow of `unsigned`/`int`, or a `-` read into `size_t`.
- Text.SkipSpaces: its contract does not say that the result is a suffix of the input. It is a helper; lemmas about it state that fact where it is needed.
- MarkovChain.MarkovTextChain.Load: where the source loops for ever, the method returns `LoadHangs` instead, because a method that never returns cannot be given a contract here. Otherwise it returns exactly what the source does.
- `WordsKeeper`'s move assignment and the two `addWord` overloads (copy and move) are not modelled separately. Moves only transfer values.
- Handlers (`std::function`) are outside code. The model returns the words a handler would receive and records only whether one is set. A handler that throws is not modelled.
- `adjust` is modelled on byte strings. The little-endian `uint16_t` trick of the Cyrillic table becomes a table on byte pairs in stream order.
- The global `operator new` and `operator delete` and the real `malloc` are not modelled. `malloc`'s success is a parameter, and a block is a chunk index and an offset.
- `operator delete` does nothing and the destructor frees every chunk at exit. Neither has bookkeeping to model.
- Memory.MemoryManager.GetMemory: the read of `m_Pool[m_Chunk]` at an index past the pool (the defects below) is not performed. The block is returned as its chunk index and offset.

## Findings

| source | as written | input that shows it | evidently intended | confidence | as-written member | corrected member |
|---|---|---|---|---|---|---|
| source/markov_text_chain.cpp:295 | `m_Map[std::move(key)]` does not move from `key` when the key is already in the table, so the next line's key words are appended to the old ones | load a saved chain into a chain that already holds the first saved state | `key` is empty at the start of every line | high, not executed | ChainRoundTrip.KeyReuseAsWritten | ChainRoundTrip.RoundTrip |
| source/markov_text_chain.cpp:270-288 | the loops test only `eof()`; a failed read without eof repeats for ever | a bucket count line holding a word, e.g. "x" | stop with "input stream is not good" once the stream fails | high, not executed | ChainRoundTrip.BadBucketCountHangsAsWritten | MarkovChain.CorrectedNeverHangs |
| source/word_splitter.cpp:29 | `flush` leaves the stream failed, so the next `write` is discarded before `clear()` runs | the chain builder's next source after `flush`: its first chunk is lost | clear the flags after `flush` | high, not executed | Splitter.FlushLosesNextChunk | Splitter.CorrectedFlushKeepsNextChunk |
| source/word_splitter.cpp:28-40 | one extraction per space may take the unfinished word at the end of the buffer | chunks "a  b" then "c " hand on "a", "b", "c" instead of "a", "bc" | extract only words followed by whitespace | medium, not executed | Splitter.WordSplitAtChunkEnd | Splitter.CorrectedChunkingInvariant |
| source/memory_manager.cpp:50-62 | chunk index and chunk size are updated before `malloc` is checked, and the position is not reset | a request that fails in `malloc`, then a 5-byte request | a failing call leaves the state unchanged | high, not executed | Memory.FailedMallocServesNull | Memory.CorrectedBlocksDisjoint |
| source/memory_manager.cpp:50-53 | the index stays at 1024 after `bad_alloc` | the pool used up, then a request that fits the last chunk's leftover | no block is served from outside the pool | high, not executed | Memory.ExhaustedPoolServesPastEnd | Memory.CorrectedBlocksDisjoint |
| source/memory_manager.cpp:20-26 | the initial position makes only requests of at least one byte open a chunk | `operator new(0)` as the first allocation | the first request always opens a chunk | high, not executed | Memory.ZeroFirstRequestServesPastEnd | Memory.CorrectedBlocksDisjoint |
| source/memory_manager.cpp:48 | `m_Position + size` can wrap around in `size_t` | position 1 and a request of 2^64 − 1 bytes | compare `size` with the room left in the chunk | medium, not executed | Memory.HugeRequestWrapsAround | Memory.CorrectedBlocksDisjoint |

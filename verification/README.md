# Archive Agent, modelled in Dafny

Archive Agent ingests documents into a vector database and answers questions about them with an AI provider. This project models the core of that pipeline in Dafny and proves properties of the model:

- the carry-over chunker and the sentence splitter that feed it;
- the text and PDF loaders with their line and page tags;
- the vision formatters and their relation registry;
- the AI manager's validation and retry loops, the retry manager and the result cache;
- the query answer's reference resolution;
- the payload schema of a stored point;
- the progress trackers;
- the watchlist;
- the configuration upgrade;
- the answer file name;
- two maintenance scripts, one that strips old context headers from stored chunks and one that renames a path prefix.

Each module follows one component of the program. Python's string and list semantics that the code relies on are in `PyStr`; `Option` and the raise-or-return `Result` are in `Wrappers`.

Every AI provider call, sentencizer, hash function, clock, file system access and prompt is a parameter of the functions that use it. A call is given as a sequence of outcomes indexed by call number, so the model can state what a retry loop does for every possible sequence of answers.

## Model

| member | source | states |
|---|---|---|
| AiManager.NewAiManager | archive_agent/ai/AiManager.py:55-73 | A new manager has all five token counters at zero, no pending vision request and no cache pops. Its retry manager has a budget of 10 and a start delay of one second. |
| AiManager.AddUsage | archive_agent/ai/AiManager.py:110 | Adding tokens to one category raises that counter by exactly that amount and leaves the other four unchanged. |
| AiManager.RetryTokens | archive_agent/ai/AiManager.py:109-110 | A retried call counts exactly the tokens of the one call that returned, or none when every call raised. |
| AiManager.LoopEnds | archive_agent/ai/AiManager.py:107-146 | The semantic retry loop makes at most `retries` attempts and logs one exception per failed attempt. It ends in one of three ways: the last call's answer passed validation; an exception that is not an `Exception` escaped; or every attempt failed and the loop raised `RuntimeError`. |
| AiManager.LoopPops | archive_agent/ai/AiManager.py:112-146 | Every answer that is turned down pops the cache once. A returned rejection pops it once. Running out of attempts pops it once more. An escaping non-`Exception` pops nothing more. |
| AiManager.LoopUsage | archive_agent/ai/AiManager.py:109-110 | Over the whole loop, the category's counter grows by exactly the tokens of the provider calls that returned, and no other counter moves. |
| AiManager.SpentBudgetMakesNoCalls | archive_agent/util/RetryManager.py:165-183 | Once the retry budget is spent, every attempt aborts with `Exit(1)` without calling the provider. The loop then ends in its `RuntimeError` with no call made, one pop, and unchanged counters. |
| AiManager.ChunkVerdict | archive_agent/ai/AiManager.py:112-137 | The corrected chunk checks accept an answer exactly when it parsed, has as many headers as start lines, has at least one start line, starts at line 1, and keeps every start line within `1..n`. An accepted answer is returned unchanged. |
| AiManager.AnyAsInt | archive_agent/ai/AiManager.py:135 | `any(starts)`, compared with integers, is 1 exactly when some start line is non-zero, and 0 otherwise. |
| AiManager.ChunkVerdictAsWritten | archive_agent/ai/AiManager.py:112-137 | The chunk checks as written accept an answer exactly when it parsed, has as many headers as start lines, has at least one start line, starts at line 1, and there is at least one sentence. The other start lines are not checked. |
| AiManager.AsWrittenGuardOnlyNeedsOneSentence | archive_agent/ai/AiManager.py:131-137 | Once the first start line is 1, the guard as written passes exactly when `n >= 1`, whatever the other start lines are. |
| AiManager.AsWrittenGuardAcceptsOutOfRange | archive_agent/ai/AiManager.py:135 | With one sentence, the start lines `[1, 5]` pass the guard as written and fail the corrected one. |
| AiManager.AcceptedStartsAreValid | archive_agent/ai/AiManager.py:131-137 | A corrected-accepted answer whose start lines increase is exactly what the chunker needs: first line 1, increasing, within the block. |
| AiManager.ChunkReturnsSchema | archive_agent/ai/AiManager.py:96-146 | A schema that `chunk` returns was parsed from the last call and passed every check as written, after fewer than `retries` failed attempts, with one cache pop per turned-down answer. An attempt whose provider call raised, the max-tokens error included, pops nothing. A failure is either `RuntimeError` after exactly `retries` failed attempts, with one pop per turned-down answer plus one final pop, or an interrupt passed through. |
| AiManager.ChunkReturnsValidSchema | archive_agent/ai/AiManager.py:96-146 | With the corrected check, a returned schema also has every start line within `1..n`. |
| AiManager.ChunkRequestAcceptsOutOfRange | archive_agent/ai/AiManager.py:135-139 | For three sentences, the answer `[1, 99]` is returned by the source's loop on the first attempt. The corrected loop rejects it, and with one attempt allowed it gives up with `RuntimeError`. |
| AiManager.RerankVerdict | archive_agent/ai/AiManager.py:178-201 | A parsed answer that is flagged rejected, or is the bare `[0]`, is returned after a pop. Any other answer is accepted exactly when its indices equal the chunk keys as multisets, which is what `sorted(a) == sorted(b)` tests. |
| AiManager.AcceptedRerankIsPermutation | archive_agent/ai/AiManager.py:190-201 | With distinct chunk keys, an accepted order lists every key exactly once: it is a permutation of the keys. |
| AiManager.RerankReturns | archive_agent/ai/AiManager.py:161-208 | `rerank` returns the last call's parsed answer. That answer is either a rejection, which popped the cache once more, or an order of the chunk keys. |
| AiManager.SingleCall | archive_agent/ai/AiManager.py:154-159 | A single retried call, as used by `embed`, `query` and `vision`, never pops the cache, never changes the vision request, and never lowers a counter. |
| AiManager.SingleCallUsage | archive_agent/ai/AiManager.py:221-222 | The single call's counter grows by exactly the tokens of the call that returned. |
| AiManager.SingleCallResult | archive_agent/ai/AiManager.py:221-224 | A returned answer is the parsed answer of the last call. A call that returned with no parsed answer fails the `assert` with `AssertionError`. Any other failure is the retry manager's exception. |
| AiManager.Query | archive_agent/ai/AiManager.py:210-230 | `query` returns the single call's answer with its references resolved, or that call's failure. It pops the cache exactly when the answer is rejected. |
| AiManager.RequestEntity | archive_agent/ai/AiManager.py:260-261 | Requesting entity vision sets only the pending request. |
| AiManager.RequestOcr | archive_agent/ai/AiManager.py:263-264 | Requesting OCR vision sets only the pending request. |
| AiManager.VisionPrompt | archive_agent/ai/AiManager.py:238-244 | The prompt kind is the pending request, or OCR when nothing was requested. |
| AiManager.Vision | archive_agent/ai/AiManager.py:232-258 | `vision` uses the prompt of the pending request and clears the request before the call, whatever happens next. It returns the single call's outcome and pops the cache exactly when the answer is rejected. |
| AiManager.VisionConsumesRequest | archive_agent/ai/AiManager.py:238-246 | A request serves exactly one `vision` call: the next call, with nothing requested, falls back to OCR. |
| Retry.StartDelay | archive_agent/util/RetryManager.py:80 | `delay_min or 1.0`: the start delay is never zero, and it is `delay_min` whenever that is non-zero. |
| Retry.NewRetryManager | archive_agent/util/RetryManager.py:74-81 | A new manager's failure budget is `retries` and its delay is the start delay. |
| Retry.ResetIsFresh | archive_agent/util/RetryManager.py:83-90 | Resetting gives back exactly a freshly built manager, so resetting twice is resetting once. |
| Retry.ApplyDelay | archive_agent/util/RetryManager.py:100-107 | One backoff step spends one unit of budget. The new delay is the old one times the exponent, or the cap, and never exceeds the cap. |
| Retry.AttemptInRange | archive_agent/util/RetryManager.py:126-137 | While the budget is positive and at most `retries`, the logged attempt number lies in `1..retries`. |
| Retry.BackoffIsCappedExponential | archive_agent/util/RetryManager.py:100-107 | After `n >= 1` failures from a fresh manager, the delay is `min(start * exponent^n, delay_max)` and the budget is `retries - n`. This holds for an exponent of at least one and a non-negative cap. |
| Retry.RetryCallsBounded | archive_agent/util/RetryManager.py:150-183 | `retry` calls the function at most `budget` times. Each call but the last raised an allow-listed exception and cost one unit. An empty budget aborts without a call. A success resets the manager. |
| Retry.RetrySuccessValue | archive_agent/util/RetryManager.py:165-169 | A success returns the value of the last call made. |
| Retry.RetryFailure | archive_agent/util/RetryManager.py:172-183 | A failed `retry` passes the max-tokens error or a non-`Exception` through unchanged. It turns any other `Exception` into `Exit(1)`. An exhausted budget also ends in `Exit(1)`. |
| Retry.RetryExhausts | archive_agent/util/RetryManager.py:165-183 | When every call raises an allow-listed exception, exactly `budget` calls are made, then `Exit(1)`. |
| Retry.RetryKeepsBound | archive_agent/util/RetryManager.py:165-183 | No run of the loop pushes the budget above `retries` or changes the configuration. |
| Retry.RetryCallShape | archive_agent/util/RetryManager.py:165-183 | On success, every call raised except the last, which returned the value. On failure, every call raised. |
| Cache.Get | archive_agent/core/CacheManager.py:38-57 | `get` gives nothing while reads are bypassed. Otherwise it gives the stored value when there is one, and nothing when there is not. |
| Cache.GetItem | archive_agent/core/CacheManager.py:62-63 | `cache[key]` succeeds exactly when the key is stored, with the stored value, and raises `KeyError` otherwise, whatever the bypass flag. |
| Cache.SetItem | archive_agent/core/CacheManager.py:65-66 | A write stores the value under the key, even while reads are bypassed, and leaves every other key as it was. |
| Cache.DelItem | archive_agent/core/CacheManager.py:68-69 | A delete succeeds exactly when the key is stored. It removes only that key and otherwise raises `KeyError`. |
| Cache.GetAfterSet | archive_agent/core/CacheManager.py:38-66 | A write is read back by `[]`, and by `get` unless reads are bypassed. |
| Cache.GetAfterSetOther | archive_agent/core/CacheManager.py:38-66 | A write does not change what `get` returns for any other key. |
| Cache.GetAfterDel | archive_agent/core/CacheManager.py:38-69 | After a delete the key is gone for `in`, `[]` and `get`. |
| Cache.DelUndoesSet | archive_agent/core/CacheManager.py:59-69 | Writing a new key and deleting it again gives back the original cache. |
| AiQuery.PointHash | archive_agent/ai/query/AiQuery.py:110-138 | A point has a hash exactly when its payload has the four mandatory hashed fields. The hash is at most 16 characters long. |
| AiQuery.SameFieldsSameHash | archive_agent/ai/query/AiQuery.py:118-138 | Two payloads that agree on the six hashed fields, with the two ranges counted as `""` when absent, have the same hash. |
| AiQuery.OtherFieldIgnored | archive_agent/ai/query/AiQuery.py:118-138 | Setting any payload field other than the six hashed ones leaves the hash as it was. |
| AiQuery.MissingRangeIsEmpty | archive_agent/ai/query/AiQuery.py:125-126 | A missing line range hashes like an empty one. |
| AiQuery.Designator | archive_agent/ai/query/AiQuery.py:149 | The context names a chunk as `<<< hash >>>`, eight characters longer than the hash. |
| AiQuery.ExtractHash | archive_agent/ai/query/AiQuery.py:172-180 | `extract_hash` returns either the stripped reference, or a 16-hex-digit core found inside a stripped `<<< … >>>`. |
| AiQuery.ExtractDesignator | archive_agent/ai/query/AiQuery.py:149-178 | Extracting from the designator of a 16-hex-digit hash gives the hash back. |
| AiQuery.ExtractPlain | archive_agent/ai/query/AiQuery.py:172-180 | A reference that does not open with `<<< ` after stripping comes back stripped. |
| AiQuery.PointsByHashFails | archive_agent/ai/query/AiQuery.py:165-169 | Building the hash map fails, as the source's `KeyError`, exactly when some point with a payload lacks a mandatory field. |
| AiQuery.PointsByHashKeys | archive_agent/ai/query/AiQuery.py:165-169 | The map's keys are exactly the hashes of the points that have payloads. |
| AiQuery.PointsByHashLastWins | archive_agent/ai/query/AiQuery.py:165-169 | Each hash maps to the payload of the last point that carries it, as a dict comprehension keeps the last value. |
| AiQuery.FormatQueryReferences | archive_agent/ai/query/AiQuery.py:157-191 | Reference formatting succeeds exactly when the hash map can be built. It changes nothing but the reference lists, keeps every answer text and keeps every list's length. |
| AiQuery.ResolvedRefs | archive_agent/ai/query/AiQuery.py:182-189 | A reference whose extracted hash names a point becomes that point's reference info, taken from the last point with that hash. A reference that names no point becomes `??? (hash)`. |
| AiQuery.UpperCaseNeverMatches | archive_agent/ai/query/AiQuery.py:138-177 | With a digest that gives lower-case hex, as `hexdigest` does, a designator with an upper-case hex digit never names a point, although `extract_hash` accepts it. |
| AiQuery.AllRefs | archive_agent/ai/query/AiQuery.py:206-207 | The cited references, answer by answer, contain exactly the references some answer cites. |
| AiQuery.RefNumber | archive_agent/ai/query/AiQuery.py:205-210 | A reference's number is its 1-based position in the citation order. |
| AiQuery.RefNumbersByFirstCitation | archive_agent/ai/query/AiQuery.py:204-210 | The distinct references are numbered 1 to k in citation order, and they are exactly the references some answer cites. |
| AiQuery.RefNumbersFollowFirstCitation | archive_agent/ai/query/AiQuery.py:204-210 | One reference gets a smaller number than another exactly when it is cited first. |
| AiQuery.Markers | archive_agent/ai/query/AiQuery.py:215-219 | An answer's markers are strictly ascending numbers. Each names a reference the answer cites, and every cited reference in the order has its number there. |
| AiQuery.MarkersOfAnswer | archive_agent/ai/query/AiQuery.py:213-220 | Every reference an answer cites is numbered among that answer's markers. |
| AiQuery.Bullets | archive_agent/ai/query/AiQuery.py:224-232 | There is one `- ` line per entry. |
| AiQuery.RejectedHasNoText | archive_agent/ai/query/AiQuery.py:200-201 | A rejected result has no answer text. |
| AiQuery.TextOpensWithQuestion | archive_agent/ai/query/AiQuery.py:234-236 | The answer text of a result that is not rejected opens with the `### Question` heading. |
| AiQuery.ReferencesIffCited | archive_agent/ai/query/AiQuery.py:224-245 | The References heading is present exactly when some answer cites a reference. |
| Blocks.GroupBlocks | archive_agent/data/chunk.py:373 | Every block has between 1 and `n` items, and every block but the last has exactly `n`. |
| Blocks.GroupBlocksFlatten | archive_agent/data/chunk.py:373 | The blocks, concatenated, are the input: nothing is lost, duplicated or reordered. |
| Blocks.GroupBlocksAreSlices | archive_agent/data/chunk.py:373 | Block `k` starts inside the list and is the Python slice `s[k*n : k*n + n]`. |
| Builders.PagePush | archive_agent/util/PageTextBuilder.py:26-39 | `push` appends the line. A given page number becomes the line's tag and the current page. Without one, the line is tagged with the current page, which stays. |
| Builders.PagePushAll | archive_agent/util/PageTextBuilder.py:22-24 | Pushing lines without page numbers appends them all and tags each with the current page, keeping the earlier tags. |
| Builders.NewPageBuilder | archive_agent/util/PageTextBuilder.py:12-24 | A builder made from text holds the text's `"\n"`-split lines, all on page 1. Without text it is empty. |
| Builders.PageContent | archive_agent/util/PageTextBuilder.py:41-49 | An empty builder gives no content. Otherwise the content is the lines with one page tag each. |
| Builders.PageBuilderFromTextHasContent | archive_agent/util/PageTextBuilder.py:22-49 | A builder made from any text, even `""`, has content, because the split of any text has a line. |
| Builders.PageNumberSticks | archive_agent/util/PageTextBuilder.py:33-36 | After a push with page `p`, the next push without a number also lands on `p`. |
| Builders.LinePush | archive_agent/util/LineTextBuilder.py:24-35 | `push` appends the line. It is tagged with the given number, or otherwise with the count of lines so far plus one. |
| Builders.LinePushAll | archive_agent/util/LineTextBuilder.py:20-22 | Lines pushed without numbers are numbered by their position, 1-based, and the earlier numbers are kept. |
| Builders.NewLineBuilder | archive_agent/util/LineTextBuilder.py:12-22 | A builder made from text holds the text's `"\n"`-split lines numbered `1..n`. |
| Builders.LineContent | archive_agent/util/LineTextBuilder.py:37-45 | An empty builder gives no content. Otherwise the content is the lines with one line number each. |
| Builders.ExplicitNumberKeepsCount | archive_agent/util/LineTextBuilder.py:31-35 | An explicit number is stored as given. The next default number still counts lines, so it does not continue from the explicit one. |
| Builders.MakeContent | archive_agent/data/DocumentContent.py:17-37 | Building a document content fails when both tag lists are given. A given tag list must have one entry per line of `text.splitlines()`. Content with neither list is accepted. |
| Builders.JoinedLinesAccepted | archive_agent/data/DocumentContent.py:36-37 | Lines without line breaks, joined with `"\n"` and given one page tag each, pass the check exactly when the last line is not empty, because `splitlines` does not count a final empty line. |
| Chunk.ExtractParagraphs | archive_agent/data/chunk.py:249-313 | Every paragraph is well formed: it has lines and none is empty, a list item or heading appears only as its first line, a heading stands alone, and there is one reference per line when references are given. The paragraphs hold exactly the non-empty lines, in order, with exactly those lines' references. |
| Chunk.ParagraphsFromLines | archive_agent/data/chunk.py:269-311 | From any point of the loop on, the paragraphs hold the lines gathered so far followed by the remaining non-empty lines, in order. |
| Chunk.ParagraphsFromRefs | archive_agent/data/chunk.py:298-301 | The paragraphs' references are those of the non-empty lines, in order. |
| Chunk.ParagraphsFromWellFormed | archive_agent/data/chunk.py:274-311 | Every paragraph the loop pushes is well formed. |
| Chunk.LineStarts | archive_agent/data/chunk.py:153-157 | There is one line offset per normalised line, and the first is 0. |
| Chunk.LineStartsStep | archive_agent/data/chunk.py:156-157 | Line `k + 1` starts one separator after the end of line `k` in the `" "`-join. |
| Chunk.BisectRight | archive_agent/data/chunk.py:170-173 | `bisect_right` on an ascending list gives the number of leading entries at most `x`. |
| Chunk.SliceRange | archive_agent/data/chunk.py:176-178 | A sentence's range is `(0, 0)`, or a min and max drawn from the paragraph's references with min at most max. |
| Chunk.ParagraphSentences | archive_agent/data/chunk.py:137-184 | There is one stripped sentence per segmenter span. Each range is `(0, 0)`, or a min and max of the references of the lines the sentence overlaps. Without references every range is `(0, 0)`. |
| Chunk.ExtractSentencesStart | archive_agent/data/chunk.py:322-335 | The first paragraph's sentences come first, with no delimiter in front. |
| Chunk.ExtractSentencesCount | archive_agent/data/chunk.py:322-335 | Exactly one empty delimiter sentence is added between consecutive paragraphs. |
| Chunk.ExtractSentencesRanges | archive_agent/data/chunk.py:316-337 | Every sentence range is `(0, 0)` or a min and max of the paragraphs' references. |
| Chunk.CleanLines | archive_agent/data/chunk.py:240-243 | Every line of `text_to_clean_lines` is stripped. |
| Chunk.GetSentences | archive_agent/data/chunk.py:341-359 | Every sentence range is `(0, 0)` or drawn from the given references. Without references every range is `(0, 0)`. |
| Chunk.BlankTextHasNoSentences | archive_agent/data/chunk.py:341-359 | Empty or blank text yields no sentences. |
| Chunk.ChunkStartToRanges | archive_agent/data/chunk.py:376-385 | There is one range per start line. Range `i` runs from start `i` to start `i + 1`, and the last range ends one past the block. |
| Chunk.ExtractChunksAndCarry | archive_agent/data/chunk.py:388-406 | Without ranges there are no chunks and no carry. Otherwise every range but the last becomes a chunk, its sentences joined by newlines, and the last range's joined sentences are the carry. |
| Chunk.AggregateRanges | archive_agent/data/chunk.py:409-420 | The aggregate's low end is the smallest positive low end, or 0 when there is none. Its high end is the largest positive high end, or 0 when there is none. |
| Chunk.FormatChunkLines | archive_agent/data/chunk.py:423-437 | A formatted chunk's lines are `# file`, `# header` and an empty line, followed by the body's lines. |
| Chunk.ProcessBlock | archive_agent/data/chunk.py:482-529 | One iteration of the block loop. A carry, when there is one, is never empty, because an empty carry string is falsy. |
| Chunk.CutBlock | archive_agent/data/chunk.py:505-529 | Cutting the block at the callback's start lines leaves a carry only with non-empty text. |
| Chunk.CarryText | archive_agent/data/chunk.py:509-527 | There is a carry exactly when there are ranges and the last range's joined text is not empty. The carry is that text. |
| Chunk.SlicesPartition | archive_agent/data/chunk.py:376-406 | Valid start lines (first 1, increasing, within the block) cut a block into non-empty consecutive slices that cover all of it. |
| Chunk.CutBlockCovers | archive_agent/data/chunk.py:505-529 | Cutting a block at valid start lines loses and duplicates nothing: the emitted pieces followed by the carry are the block's lines and references. |
| Chunk.CutBlockCarried | archive_agent/data/chunk.py:509-529 | With a non-empty last range, every other range is emitted, and the last one is carried with the last header. |
| Chunk.CutBlockFlushed | archive_agent/data/chunk.py:509-525 | When the last range's text is empty, every range is emitted and nothing is carried. |
| Chunk.ProcessBlockCovers | archive_agent/data/chunk.py:482-529 | For one block, the pieces it emits followed by the carry it leaves are exactly the carried lines followed by the block, for texts and ranges alike. |
| Chunk.ChunkLoopCovers | archive_agent/data/chunk.py:481-529 | Over the whole block loop, the emitted pieces and the final carry hold the first carry's lines followed by every block's lines and ranges. |
| Chunk.GroupedBlocksOk | archive_agent/data/chunk.py:474 | The blocks of the input are non-empty, newline-free when the input is, and together hold exactly the input. |
| Chunk.FlushedCovers | archive_agent/data/chunk.py:531-546 | Once the final carry is appended as a last chunk, the chunk bodies hold the sentences and their ranges exactly. |
| Chunk.GetChunks | archive_agent/data/chunk.py:443-548 | There is one formatted chunk per piece the loop emits or flushes. |
| Chunk.EmptyInputNoChunks | archive_agent/data/chunk.py:474-548 | Empty input gives no chunks and never calls the callback. |
| Chunk.ChunksCoverSentences | archive_agent/data/chunk.py:443-548 | Chunking neither loses nor duplicates a sentence: the chunk bodies, line by line, are the input sentences in order, and each chunk's ranges are those of exactly its own sentences. This holds for a callback that answers valid start lines with one header each. |
| Chunk.ChunksIffSentences | archive_agent/data/chunk.py:443-548 | With such a callback there are chunks exactly when there are sentences. |
| Config.DefaultConfig | archive_agent/config/ConfigManager.py:53-94 | A new profile has a default for exactly the current options, none for the legacy ones, and its version default is 12. |
| Config.SetVersion | archive_agent/config/ConfigManager.py:289-295 | Setting the version writes only the version option. |
| Config.AddOption | archive_agent/config/ConfigManager.py:297-306 | An option gets its explicit default when one is given, and otherwise the profile default. An option without a profile default is a `KeyError`. Nothing else changes. |
| Config.RenameOption | archive_agent/config/ConfigManager.py:308-319 | Renaming succeeds exactly when the old key exists and the translation, if given, has an entry for its value. The value, translated when asked, moves to the new key, the old key is deleted, and every other option stays. A missing old key is a `KeyError`. |
| Config.StartVersion | archive_agent/config/ConfigManager.py:166-170 | A file without a version is version 1. An integer version is itself, `true` acts as 1 and `false` as 0, and a float acts as its floor. A string or null version cannot be compared with an integer, a `TypeError`. |
| Config.RealVersionComparison | archive_agent/config/ConfigManager.py:170-282 | Each step's test `version < n` on a float agrees with the floor that `StartVersion` takes. |
| Config.RerankModel | archive_agent/config/ConfigManager.py:240 | The rerank default is found exactly when the configured provider is in the registry and lists a rerank model. |
| Config.Upgrade | archive_agent/config/ConfigManager.py:159-287 | An unreadable version is an error. A file at or beyond version 12 is returned as it is, with no upgrade reported. Otherwise an upgrade is reported exactly when the stored version is below 12. |
| Config.StepKeeps | archive_agent/config/ConfigManager.py:168-285 | A successful step leaves every option it does not touch as it was. |
| Config.StepVersion | archive_agent/config/ConfigManager.py:168-285 | A successful step `n` records version `n`. |
| Config.RunKeeps | archive_agent/config/ConfigManager.py:168-285 | A successful run of steps leaves every option that none of its steps touches as it was. |
| Config.RunVersion | archive_agent/config/ConfigManager.py:168-285 | A successful run ends at the version of its last step. |
| Config.RunSplit | archive_agent/config/ConfigManager.py:168-285 | Running steps `n..last` is running `n..m-1` and then `m..last`, and a failure in the first part is the failure of the whole. |
| Config.RenamesSucceed | archive_agent/config/ConfigManager.py:196-245 | Renames whose old keys are all present and pairwise distinct succeed. |
| Config.LateStepsSucceed | archive_agent/config/ConfigManager.py:250-285 | The steps from v8 on only add options, so they cannot fail. |
| Config.UpgradeReachesLatest | archive_agent/config/ConfigManager.py:159-287 | A successful upgrade of a file below version 12 writes version 12. A file at or above it is left as it is. Either way the result reads as at least version 12. |
| Config.UpgradeIdempotent | archive_agent/config/ConfigManager.py:159-287 | Upgrading an upgraded configuration changes nothing and reports no upgrade. |
| Config.MissingVersionIsOne | archive_agent/config/ConfigManager.py:166 | A file without a version upgrades exactly like one that says version 1. |
| Config.UpgradeKeepsOthers | archive_agent/config/ConfigManager.py:159-287 | The upgrade leaves options it does not know, and `chunk_lines_block`, `qdrant_server_url` and `qdrant_collection`, as they were. |
| Config.V4Succeeds | archive_agent/config/ConfigManager.py:193-203 | With its old keys present and a known OCR flag, v4 succeeds, removes `ocr_mode_strict`, and turns it into the strategy `relaxed` or `strict`. |
| Config.V4SetsProvider | archive_agent/config/ConfigManager.py:195 | v4 makes OpenAI the provider. |
| Config.ServerUrlByProvider | archive_agent/config/ConfigManager.py:207-214 | Step v5 succeeds exactly when the provider is OpenAI or Ollama, and it sets that provider's server URL. Any other provider is a `KeyError`. |
| Config.V6SetsAuto | archive_agent/config/ConfigManager.py:220-227 | A successful v6 step sets the OCR strategy to `auto`. |
| Config.UpgradeSetsAutoOcr | archive_agent/config/ConfigManager.py:220-287 | A successful upgrade from before v6 leaves the OCR strategy at `auto`. |
| Config.V7Succeeds | archive_agent/config/ConfigManager.py:236-246 | v7 succeeds when the provider has a rerank model in the registry and the old retrieval options exist. |
| Config.NoRerankV7Fails | archive_agent/config/ConfigManager.py:238-241 | Without a rerank model in the registry, the v7 step fails on every configuration. |
| Config.ShippedRegistryBreaksV7 | archive_agent/config/ConfigManager.py:236-241 | With the registry as shipped, which lists no rerank model, every upgrade from below v7 fails. |
| Config.UpgradeFromV1 | archive_agent/config/ConfigManager.py:159-287 | With a registry that has a rerank model for OpenAI, a version-1 file that has the options the renames read upgrades to version 12, reports the upgrade, and ends with OpenAI as provider and the `auto` OCR strategy. |
| Config.Validate | archive_agent/config/ConfigManager.py:321-326 | Validation accepts every configuration. |
| ContextHeaders.SemverTuple | tools/qdrant-remove-paths-from-context-headers.py:53-70 | An empty version string reads as 0.0.0. |
| ContextHeaders.SemverOfDotted | tools/qdrant-remove-paths-from-context-headers.py:53-70 | `x.y.z` made of numerals reads as their three values, with or without a leading `v` or `V`. A pre-release or build tail after a separator is ignored. |
| ContextHeaders.SemverRoundTrip | tools/qdrant-remove-paths-from-context-headers.py:53-70 | Rendering three numbers as `a.b.c`, with or without a leading `v`, and parsing them back gives the same numbers. |
| ContextHeaders.WordIsZero | tools/qdrant-remove-paths-from-context-headers.py:62-69 | A single word that is not a number, such as `latest`, reads as 0.0.0, because a failed `int()` gives 0 and missing parts are padded with 0. |
| ContextHeaders.SplitSepsAfter | tools/qdrant-remove-paths-from-context-headers.py:60 | `re.split(r"[.\-+]")` splits off a separator-free piece followed by a separator whole. |
| ContextHeaders.MissingVersionIsOlder | tools/qdrant-remove-paths-from-context-headers.py:73-75 | A missing version counts as 0.0.0, so it is older than the reference exactly when the reference does not read as 0.0.0. |
| ContextHeaders.ZeroIsLeast | tools/qdrant-remove-paths-from-context-headers.py:75 | In tuple order, 0.0.0 is below every other version. |
| ContextHeaders.OlderIsSelected | tools/qdrant-remove-paths-from-context-headers.py:73-75 | `v10.9.9` is older than `v11.0.0`. |
| ContextHeaders.CutoffNotSelected | tools/qdrant-remove-paths-from-context-headers.py:73-75 | `v11.0.0` is not older than itself. |
| ContextHeaders.PreReleaseNotSelected | tools/qdrant-remove-paths-from-context-headers.py:60-75 | The pre-release `11.0.0-rc1` reads as 11.0.0, so it is not older than `v11.0.0`. |
| ContextHeaders.FirstStrKey | tools/qdrant-remove-paths-from-context-headers.py:87-89 | No candidate name is found exactly when no candidate holds a string. |
| ContextHeaders.FirstStrKeyIsFirst | tools/qdrant-remove-paths-from-context-headers.py:87-89 | The name found is the first candidate, in list order, whose value is a string. |
| ContextHeaders.GuessTextKey | tools/qdrant-remove-paths-from-context-headers.py:91-93 | No key is guessed exactly when no item is a string that has a newline or starts with `# `. |
| ContextHeaders.GuessIsFirst | tools/qdrant-remove-paths-from-context-headers.py:91-93 | The key guessed is that of the first such item in iteration order. |
| ContextHeaders.ResolveTextFieldSpec | tools/qdrant-remove-paths-from-context-headers.py:78-94 | The text field is the first candidate name with a string value when there is one, and otherwise the guessed key. There is none exactly when neither search finds one. |
| ContextHeaders.ChunkTextFound | tools/qdrant-remove-paths-from-context-headers.py:80-89 | A dumped payload carries `chunk_text` as a string and has no `cpntext`, so `chunk_text` is the field found. |
| ContextHeaders.FieldHasString | tools/qdrant-remove-paths-from-context-headers.py:78-94 | A field that is found always holds a string, so reading it never fails. |
| ContextHeaders.HeaderOfPath | tools/qdrant-remove-paths-from-context-headers.py:97-99 | `# file://` followed by a path is a header in lower, upper or capitalised spelling and after leading whitespace. |
| ContextHeaders.HeadingIsNotHeader | tools/qdrant-remove-paths-from-context-headers.py:97-99 | A plain Markdown heading is not a file header. |
| ContextHeaders.RemoveHeaderKeepsRest | tools/qdrant-remove-paths-from-context-headers.py:146-222 | Removal applies exactly to text whose first `splitlines` line is a header. The new text's lines are the remaining lines, in order, apart from a final empty line that `splitlines` does not report. |
| ContextHeaders.Classify | tools/qdrant-remove-paths-from-context-headers.py:130-158 | A point is passed over exactly when its version is not older than 11.0.0. An older point is skipped for want of a text field exactly when no field, or only a field named `""`, is found. A candidate is older, is read from the field found, and has a header to remove. |
| ContextHeaders.SetText | tools/qdrant-remove-paths-from-context-headers.py:227 | Writing the new text changes only the items under that key, and keeps the order and every key. |
| ContextHeaders.Apply | tools/qdrant-remove-paths-from-context-headers.py:214-227 | Step 3 writes a candidate exactly when its header is still present. Only the text field changes, to the text without its first line, and every key and every other item stays. |
| ContextHeaders.CandidateIsApplied | tools/qdrant-remove-paths-from-context-headers.py:130-227 | Every candidate of step 1 is rewritten in step 3, because step 3 re-checks the text captured in step 1, so its "header no longer present" branch is never taken. |
| RenamePaths.ReadSourcePrefix | tools/qdrant-rename-paths.py:53-57 | The source prefix is accepted exactly when the stripped input is non-empty, and it is that stripped input. |
| RenamePaths.CheckTarget | tools/qdrant-rename-paths.py:143-154 | The target is refused as empty exactly when the stripped input is empty. It is refused as the same exactly when the stripped input equals the source. Otherwise it is accepted as the stripped input, non-empty and different from the source. |
| RenamePaths.Selected | tools/qdrant-rename-paths.py:71-77 | A point is selected exactly when its path starts with the source prefix. |
| RenamePaths.Insert | tools/qdrant-rename-paths.py:116 | Inserting into a strictly sorted list keeps it strictly sorted and adds exactly the new element. |
| RenamePaths.SortedSet | tools/qdrant-rename-paths.py:106-116 | `sorted(set(paths))` is strictly sorted and has exactly the elements of `paths`. |
| RenamePaths.SortedSetUnique | tools/qdrant-rename-paths.py:116 | Two strictly sorted lists with the same elements are the same list, so the listing is determined by the set of paths. |
| RenamePaths.SortedSetOrderFree | tools/qdrant-rename-paths.py:106-116 | The listed paths depend only on which paths occur, not on their order or repeats. |
| RenamePaths.SortedSetOfSorted | tools/qdrant-rename-paths.py:116 | A strictly sorted list is its own `sorted(set(...))`. |
| RenamePaths.UniquePaths | tools/qdrant-rename-paths.py:105-116 | The confirmation list is strictly sorted and holds one entry per distinct path of a selected point. |
| RenamePaths.NewPathShape | tools/qdrant-rename-paths.py:167-199 | A selected path keeps everything after the source prefix, and only the prefix is replaced by the target. |
| RenamePaths.RenameBack | tools/qdrant-rename-paths.py:167-199 | A renamed path starts with the target, and renaming it back with the prefixes swapped restores the original path. |
| RenamePaths.RenameInjective | tools/qdrant-rename-paths.py:199 | Distinct selected paths stay distinct, so no two files are merged. |
| RenamePaths.PathChanges | tools/qdrant-rename-paths.py:164-168 | The preview pairs each listed path, in order, with its new path. |
| RenamePaths.PathChangesDistinct | tools/qdrant-rename-paths.py:164-168 | The previewed new paths of distinct selected paths are distinct. |
| RenamePaths.Rename | tools/qdrant-rename-paths.py:196-203 | A point's rewritten payload differs from the original in `file_path` only, and a selected path moves under the target prefix. |
| RenamePaths.RenameDump | tools/qdrant-rename-paths.py:197-203 | The dump written back is the point's dump with `file_path` overwritten by the new path. |
| RenamePaths.RenameAll | tools/qdrant-rename-paths.py:196-211 | Step 4 rewrites every selected point, one payload per point, each under the target prefix. |
| RenamePaths.RenameAllBack | tools/qdrant-rename-paths.py:196-203 | Renaming the renamed points back, with the prefixes swapped, restores exactly the selected points. |
| RenamePaths.SelectedAll | tools/qdrant-rename-paths.py:73-77 | When every point matches, all are selected, in order. |
| Extensions.LowerIdempotent | archive_agent/data/loader/image.py:29 | Lower-casing a lower-cased path changes nothing, so lower-case extension lists match a lower-cased path as they match the original. |
| Extensions.SuffixMatchesUpToCase | archive_agent/data/loader/image.py:22-29 | A path whose last characters spell a listed extension in any mix of cases has that extension. |
| Extensions.ExtensionIgnoresCase | archive_agent/data/loader/text.py:26-33 | A path matches a list exactly when its lower-cased form does. |
| Extensions.CharFromEndRules | archive_agent/data/loader/image.py:29 | A path has none of the listed extensions when one of its characters, counted from the end, differs in lower case from the character at that position of every extension. |
| Extensions.ImageExamplesAccepted | archive_agent/util/image.py:16-23 | `image.PNG` and `icon.JPeG` are images. |
| Extensions.ImageExamplesRefused | archive_agent/util/image.py:16-23 | `document.pdf`, `script.py` and `archive.tar.gz` are not images: only the final suffix counts. |
| Extensions.TextIsUnion | archive_agent/util/text.py:17-43 | `is_text` accepts exactly the paths with a plaintext or a document extension. |
| Extensions.LastIndexOf | archive_agent/data/loader/text.py:82 | `rfind` returns -1 or an index holding the character, with no later occurrence. |
| Extensions.LastIndexOfUnique | archive_agent/data/loader/text.py:82 | The index `rfind` returns is the only one with that property. |
| Extensions.SplitExt | archive_agent/data/loader/text.py:82 | `splitext` splits the path into two parts that concatenate back to it. The extension is empty, or it is a dot followed by no dot and contains no slash. |
| Extensions.SplitExtOfName | archive_agent/data/loader/text.py:144 | A name made of a stem and a suffix with no dots or slashes splits at that suffix. |
| Extensions.HiddenNameHasNoExtension | archive_agent/data/loader/text.py:82 | A hidden file name such as `.htm` has no extension. |
| Fanout.InOrder | archive_agent/data/processor/VisionProcessor.py:118 | Finishing in submission order is a valid completion order. |
| Fanout.Reassemble | archive_agent/data/processor/VisionProcessor.py:116-130 | Whatever the completion order, entry `i` of the collected list is the result of request `i`. |
| Fanout.ReassembleIgnoresOrder | archive_agent/data/processor/VisionProcessor.py:116-130 | Any two completion orders give the same list. |
| Fanout.SingleLineIffNoNewline | archive_agent/data/processor/VisionProcessor.py:86 | `splitlines_exact` yields a single line exactly when the text holds no newline. |
| Fanout.ProcessVision | archive_agent/data/processor/VisionProcessor.py:68-106 | A callback that raises, or answers `None`, gets the formatter's text for `None`. A one-line answer is formatted as it is. A multi-line answer fails the assertion and is also formatted as `None`. |
| Fanout.ProcessVisionRequests | archive_agent/data/processor/VisionProcessor.py:52-130 | One formatted result per request, in request order. Progress advances once per request when a task is tracked, and not at all otherwise. An empty list returns at once. |
| Fanout.FailedVisionIsFormattedNone | archive_agent/data/processor/VisionProcessor.py:86-106 | A failed request still gets an answer: its formatter's text for `None`. |
| Fanout.OneLineVisionIsFormatted | archive_agent/data/processor/VisionProcessor.py:85-89 | A one-line answer reaches the formatter unchanged. |
| Fanout.EmbedOne | archive_agent/data/processor/EmbedProcessor.py:46-70 | The chunk is returned unchanged. A chunk whose range is `(0, 0)` gets no vector. Any other chunk gets the embedding call's outcome. |
| Fanout.WorkerCount | archive_agent/data/processor/EmbedProcessor.py:73 | The pool size is the smaller of the worker limit and the chunk count. |
| Fanout.ProcessChunks | archive_agent/data/processor/EmbedProcessor.py:31-94 | The pool refuses with `ValueError` exactly when there are no workers. Otherwise there is one `(chunk, vector)` pair per chunk, in input order, and progress advances once per chunk. |
| Fanout.NoWorkersOnlyWhenEmpty | archive_agent/data/processor/EmbedProcessor.py:73-75 | The pool has no workers exactly when the chunk list is empty. |
| FileProgress.NewManager | archive_agent/data/ProgressManager.py:33-49 | A new manager tracks no key and satisfies the bookkeeping invariant. |
| FileProgress.ValidateWeight | archive_agent/data/ProgressManager.py:234-244 | The weight is clamped into [0, 1]: negative gives 0, above 1 gives 1, anything in between is kept. |
| FileProgress.FindParentIsListHolder | archive_agent/data/ProgressManager.py:122-131 | The scan finds `p` exactly when `p`'s child list holds the key, and finds nothing exactly when no list holds it. |
| FileProgress.StartFile | archive_agent/data/ProgressManager.py:51-70 | The new key is `file_{n}` for the current counter and was not tracked before. It starts active, with total 100, nothing done and no phases. The counter moves on, the key is appended to the creation order, and the invariant is kept. |
| FileProgress.ClearEntry | archive_agent/data/ProgressManager.py:145-161 | The tail of the clean-up erases exactly the key's own tracking data. |
| FileProgress.RemoveIfPresent | archive_agent/data/ProgressManager.py:156-157 | On an order without repeats, `remove` of a present key filters that key out. |
| FileProgress.Cleanup | archive_agent/data/ProgressManager.py:133-161 | The recursive clean-up erases the key's data and that of every live descendant reached through the child lists. The reached descendants also leave `task_ids`. |
| FileProgress.CleanupList | archive_agent/data/ProgressManager.py:139-143 | The loop over a child list erases exactly what its live children reach. |
| FileProgress.ReachedUnder | archive_agent/data/ProgressManager.py:139-141 | The clean-up reaches only keys made under the key it starts from. |
| FileProgress.ReachedFrame | archive_agent/data/ProgressManager.py:139-141 | What the clean-up reaches depends only on the key's own list and on keys made under it. |
| FileProgress.CompleteFile | archive_agent/data/ProgressManager.py:163-197 | An untracked key changes nothing. A tracked file, together with everything it reaches, leaves `task_ids` and loses its data. Its phase counter goes too, and the invariant is kept. |
| FileProgress.CompleteFileErases | archive_agent/data/ProgressManager.py:171-197 | Marking the file done, cleaning up, and then deleting the file's own entries is a single erasure of the file and its reached subtree. |
| FileProgress.CompleteFileRemovesTree | archive_agent/data/ProgressManager.py:163-197 | The file, its live listed phases and their live listed sub-phases all disappear from every table. |
| FileProgress.CompleteFileKeepsOthers | archive_agent/data/ProgressManager.py:163-197 | A key not made under the completed file keeps everything recorded about it. |
| FileProgress.StartPhase | archive_agent/data/ProgressManager.py:199-231 | An untracked file key raises `ValueError` with the source's message. A tracked key without a phase counter raises `KeyError`. Otherwise the new `{file}_phase_{n}` key is fresh, is appended to the file's list with an empty list of its own, and the invariant is kept. |
| FileProgress.StartPhaseAdds | archive_agent/data/ProgressManager.py:211-226 | The updates `start_phase` makes add exactly one new key, of the right shape. |
| FileProgress.StartSubphase | archive_agent/data/ProgressManager.py:347-375 | An untracked phase key raises `ValueError`. A key without a sub-phase counter raises `KeyError`. Otherwise the new `{phase}_sub_{n}` key is fresh and is appended to the phase's list, and the invariant is kept. |
| FileProgress.StartSubphaseAdds | archive_agent/data/ProgressManager.py:358-370 | The updates `start_subphase` makes add exactly one new key. |
| FileProgress.ActivatePhase | archive_agent/data/ProgressManager.py:256-267 | A live key becomes active and nothing else changes. Any other key is ignored, and the invariant is kept. |
| FileProgress.UpdateSubphase | archive_agent/data/ProgressManager.py:377-387 | A live key's count moves by `advance`, without any bound check. Any other key is ignored, and the invariant is kept. |
| FileProgress.SetPhaseTotal | archive_agent/data/ProgressManager.py:427-437 | A live key's total is replaced. Any other key is ignored, and the invariant is kept. |
| FileProgress.SiblingProgress | archive_agent/data/ProgressManager.py:458-471 | A sibling's progress is at most 1. Within its total it is done over total. It is 1 once done reaches a positive total. A sibling without data counts as finished exactly when it has left `task_ids`. |
| FileProgress.Percent | archive_agent/data/ProgressManager.py:478-484 | The percentage lies between 0 and 100. For a fraction in [0, 1] it is the floor of that fraction times 100, and it saturates outside that range. |
| FileProgress.Rollup | archive_agent/data/ProgressManager.py:449-478 | A roll-up exists exactly when the listed children's weights add up to something positive, and it is a percentage. |
| FileProgress.UpdateParent | archive_agent/data/ProgressManager.py:439-484 | Only completed counts change, and only the live parent listing the child changes. That parent gets the roll-up of its list. The invariant is kept. |
| FileProgress.UpdateParentElsewhere | archive_agent/data/ProgressManager.py:439-484 | The count of any key other than the child's parent is left alone. |
| FileProgress.RollupAllDone | archive_agent/data/ProgressManager.py:473-478 | When every listed child is finished, the parent rolls up to 100. |
| FileProgress.RollupNoneDone | archive_agent/data/ProgressManager.py:473-478 | When no listed child has progress, the parent rolls up to 0. |
| FileProgress.RecordPhase | archive_agent/data/ProgressManager.py:279-284 | An absolute count wins over an advance. A positive advance adds to the count, and a non-positive one changes nothing. No other key's count moves. |
| FileProgress.UpdatePhase | archive_agent/data/ProgressManager.py:269-286 | A key that is not live is ignored. A live key records its count and then rolls up into its parent, and the invariant is kept. |
| FileProgress.Forget | archive_agent/data/ProgressManager.py:318-330 | The shared deletions remove the key from `task_ids`, from every table and from the creation order, and touch nothing else. |
| FileProgress.UnlistedEverywhere | archive_agent/data/ProgressManager.py:418-421 | After the key is taken out of its owner's list, no list holds it. |
| FileProgress.CompleteSubphase | archive_agent/data/ProgressManager.py:389-425 | A key that is not live is ignored. A live key is gone from every table and list, and every other key keeps its total, count, state and name. The invariant is kept. |
| FileProgress.CompletePhaseAsWritten | archive_agent/data/ProgressManager.py:288-345 | As written: a live phase is gone from every table, from its weights and from its parent's list. The invariant is kept. |
| FileProgress.MarkFull | archive_agent/data/ProgressManager.py:297-303 | The phase's count becomes its total, or 100 when the total is not positive. No other count changes. |
| FileProgress.FinishPhase | archive_agent/data/ProgressManager.py:296-309 | The count is made full, the parent is rolled up and the state becomes completed. Nothing structural changes. |
| FileProgress.CompletePhase | archive_agent/data/ProgressManager.py:288-345 | Corrected: a live phase leaves `task_ids` and its own tables, but it stays in its parent's list with its weight. |
| FileProgress.CompletedPhaseCountsFull | archive_agent/data/ProgressManager.py:461-471 | After the corrected completion, the phase keeps its parent and its weight and counts as finished in later roll-ups. |
| FileProgress.FinishFirstOfTwo | archive_agent/data/ProgressManager.py:305-306 | Finishing the first of two equal-weight phases rolls the file up to 50%. |
| FileProgress.AsWrittenDropsFirst | archive_agent/data/ProgressManager.py:332-335 | As written, finishing the first phase leaves only the second in the file's list. |
| FileProgress.ProgressFallsAsWritten | archive_agent/data/ProgressManager.py:453-484 | As written, the file goes from 50% back to 10% when the second phase reaches 10 of 100. |
| FileProgress.CorrectedKeepsFirst | archive_agent/data/ProgressManager.py:449-471 | With the correction, both phases stay listed, and the finished one has no data left. |
| FileProgress.ProgressGrowsCorrected | archive_agent/data/ProgressManager.py:449-471 | With the correction, the same update moves the file from 50% to 55%. |
| FileProgress.TwoPhasesReachable | archive_agent/data/ProgressManager.py:199-231 | The state is built by `start_file` and two `start_phase` calls. From it, the as-written run ends at 10% and the corrected run ends at 55%. |
| LegacyPdf.PageContentOf | archive_agent/loader/pdf.py:203-243 | Under the strict strategy a page becomes empty text plus one full-page image. Under the relaxed strategy it keeps its stripped text and its layout images. |
| LegacyPdf.ImageText | archive_agent/loader/pdf.py:167-196 | An image yields a text exactly when it is a picture, is not tiny, and the callback returns a non-empty answer. That text is `[Image] ` followed by the answer. |
| LegacyPdf.PageImageTexts | archive_agent/loader/pdf.py:164-198 | A page yields at most one text per image, each starting with `[Image] `. |
| LegacyPdf.ImageTextsPerPage | archive_agent/loader/pdf.py:149-200 | There is one list of image texts per page, in page order. |
| LegacyPdf.PageLines | archive_agent/loader/pdf.py:105-129 | A page's lines hold no line break. |
| LegacyPdf.TagsFrom | archive_agent/loader/pdf.py:102-129 | Every assembled line gets exactly one page tag. |
| LegacyPdf.TagsFromSorted | archive_agent/loader/pdf.py:106-129 | The page tags never decrease and are 1-based page numbers. |
| LegacyPdf.SeparatorBetweenPages | archive_agent/loader/pdf.py:126-129 | Every page except the last ends with a blank separator line. The last page is its image lines followed by its text lines. |
| LegacyPdf.PopBlank | archive_agent/loader/pdf.py:134-136 | One trailing blank line and its tag are popped, keeping lines and tags paired. |
| LegacyPdf.FinishAsWritten | archive_agent/loader/pdf.py:131-143 | As written: no lines give `None`. On success, the text has one `splitlines()` line per tag. |
| LegacyPdf.BuildAsWritten | archive_agent/loader/pdf.py:91-143 | As written: image texts for a different number of pages fail the length assertion. On success, the text has one line per tag. |
| LegacyPdf.FinishFailsOnDoubleBlank | archive_agent/loader/pdf.py:134-141 | The line-count assertion fails exactly when the assembled lines end in two blank lines. |
| LegacyPdf.AsWrittenFailsOnDoubleBlank | archive_agent/loader/pdf.py:91-141 | As written, a well-formed call fails exactly when the assembled lines end in two blank lines. |
| LegacyPdf.TrailingEmptyPagesFail | archive_agent/loader/pdf.py:121-141 | A page `a` followed by two empty pages fails the assertion. |
| LegacyPdf.PopBlanks | archive_agent/loader/pdf.py:134-136 | Corrected: every trailing blank line is popped. What remains is a prefix that does not end blank, and everything dropped was blank. |
| LegacyPdf.Finish | archive_agent/loader/pdf.py:131-143 | Corrected: finishing never fails. It gives `None` exactly for no lines. Otherwise the text is the retained prefix joined by newlines, with its tags and one line per tag. |
| LegacyPdf.Build | archive_agent/loader/pdf.py:91-143 | Corrected: the build fails exactly when the image texts are for a different number of pages. On success, the text has one line per tag. |
| LegacyPdf.BuildKeepsLines | archive_agent/loader/pdf.py:102-138 | The corrected document is a prefix of the assembled lines, with the matching page tags, and only blank lines are dropped. |
| LegacyPdf.BuildAgreesWhenAsWrittenSucceeds | archive_agent/loader/pdf.py:91-143 | Wherever the code as written succeeds, the corrected build gives the same document. |
| LegacyPdf.FinishAgrees | archive_agent/loader/pdf.py:131-143 | Wherever the as-written finish succeeds, the corrected finish agrees with it. |
| LegacyPdf.ExtractedTextsBuild | archive_agent/loader/pdf.py:77-88 | Image texts extracted from the same pages always pass the length assertion. |
| PdfLoader.LayoutImages | archive_agent/data/loader/pdf.py:228-236 | The layout images are exactly the payloads of the image blocks that carry one. |
| PdfLoader.ResolveStrategy | archive_agent/data/loader/pdf.py:272-310 | The resolved strategy is never `auto`. `auto` resolves to relaxed exactly when the stripped text reaches the threshold. Any other setting is kept. |
| PdfLoader.PageContentOf | archive_agent/data/loader/pdf.py:210-250 | A page carries its resolved strategy. A strict page is empty text plus the full-page image. A relaxed page keeps its stripped text and its layout images. |
| PdfLoader.PageContents | archive_agent/data/loader/pdf.py:253-314 | There is one content per page, in page order. |
| PdfLoader.NoPageStaysAuto | archive_agent/data/loader/pdf.py:272-310 | No page keeps the `auto` strategy, so the "BUG DETECTED" assertion never fires. |
| PdfLoader.Placeholder | archive_agent/data/loader/pdf.py:186-190 | The "unprocessable" placeholders are single lines. |
| PdfLoader.ImageText | archive_agent/data/loader/pdf.py:172-203 | An unreadable or tiny image yields nothing. A strict page asks the page callback and a relaxed page the image callback. A raise yields nothing, and `None` yields the strategy's placeholder. A multi-line answer fails the assertion and is skipped. Any text kept is a single line. |
| PdfLoader.PageImageTexts | archive_agent/data/loader/pdf.py:162-205 | A page yields at most one single-line text per image. |
| PdfLoader.ImageTextsPerPage | archive_agent/data/loader/pdf.py:144-207 | There is one list of image texts per page, in page order. |
| PdfLoader.ImageLinesAt | archive_agent/data/loader/pdf.py:122-128 | Each image text becomes a blank line, the text, and a blank line. |
| PdfLoader.TagsFromSorted | archive_agent/data/loader/pdf.py:116-136 | Every line gets one tag. The tags never decrease and are 1-based page numbers. |
| PdfLoader.PushImageTexts | archive_agent/data/loader/pdf.py:122-128 | Pushing the image texts appends their lines, all tagged with the page, and keeps the builder valid. |
| PdfLoader.PushLines | archive_agent/data/loader/pdf.py:131-133 | Pushing the page's lines appends them, all tagged with the page, and keeps the builder valid. |
| PdfLoader.PushPage | archive_agent/data/loader/pdf.py:119-136 | One page appends its image lines, its text lines and a closing blank line, all tagged with the page. |
| PdfLoader.PushPagesFrom | archive_agent/data/loader/pdf.py:116-136 | The loop appends exactly the assembled lines and their tags. |
| PdfLoader.BuildDocumentText | archive_agent/data/loader/pdf.py:100-138 | The build fails exactly when there are image texts of the wrong page count or that are not single lines. No pages give `None`. Otherwise the document is the assembled lines with their page tags. |
| PdfLoader.BuildTagsEveryLine | archive_agent/data/loader/pdf.py:104-106 | Every line has a matching page tag. The tags never decrease and are page numbers, and the document starts with page 1's block. |
| PdfLoader.ExtractedTextsBuild | archive_agent/data/loader/pdf.py:84-97 | Image texts extracted from the same pages always pass both assertions. |
| ProgressTree.NewTracker | archive_agent/core/ProgressManager.py:92-97 | A new tracker has no tasks and only the empty top-level list, and it satisfies the tree invariant. |
| ProgressTree.Ratio | archive_agent/core/ProgressManager.py:55-59 | The ratio lies in [0, 1] and is 0 while the total is unknown. Within a positive total it is completed over total. |
| ProgressTree.RoundHalfEven | archive_agent/core/ProgressManager.py:256 | `round` lands within one half of its argument and breaks ties towards the even integer. |
| ProgressTree.RoundOfInteger | archive_agent/core/ProgressManager.py:256 | `round` leaves a whole number unchanged. |
| ProgressTree.WorkOf | archive_agent/core/ProgressManager.py:234-242 | The children's weighted work lies between 0 and their total weight. |
| ProgressTree.Share | archive_agent/core/ProgressManager.py:188 | A task's share lies between 0 and its clamped weight. |
| ProgressTree.RollupRatio | archive_agent/core/ProgressManager.py:244-250 | The roll-up ratio is at most 1, is 0 without an expected weight, and is non-negative when the preserved work is. |
| ProgressTree.RecomputeOne | archive_agent/core/ProgressManager.py:229-258 | Only the ancestor itself changes. It gets the default total if it had none. Its completion never falls below its previous maximum and is either that maximum or the rounded roll-up. The maximum is updated to match. |
| ProgressTree.Recompute | archive_agent/core/ProgressManager.py:226-260 | The walk changes no links and keeps the invariant. No task's maximum falls. A changed task has completion equal to its maximum and at least its old maximum. Tasks younger than the start are untouched. |
| ProgressTree.Completed | archive_agent/core/ProgressManager.py:221-223 | A completed task has completion equal to its total. An unknown total becomes 1. No other field changes. |
| ProgressTree.MarkFrom | archive_agent/core/ProgressManager.py:214-224 | Marking changes no links. Every task is either unchanged or completed. |
| ProgressTree.MarkFromDone | archive_agent/core/ProgressManager.py:214-224 | After marking, the whole subtree is done. |
| ProgressTree.CompleteTask | archive_agent/core/ProgressManager.py:151-155 | An unknown key is ignored. The set of tasks is unchanged and the invariant is kept. |
| ProgressTree.CompleteTaskMarksSubtree | archive_agent/core/ProgressManager.py:151-224 | That task and every task below it are done, and the only other change is the ancestors' roll-up. A known total is kept, and an unknown one becomes 1. |
| ProgressTree.Updated | archive_agent/core/ProgressManager.py:142-148 | An unknown total takes the default when there is a change to record. The completion is set or advanced, then clamped into [0, total]. No other field changes. |
| ProgressTree.UpdateTask | archive_agent/core/ProgressManager.py:138-149 | Unknown or removed keys are ignored. Otherwise that task becomes its updated self and the ancestors are rolled up, keeping the invariant. |
| ProgressTree.SetTotal | archive_agent/core/ProgressManager.py:157-164 | The total becomes max(1, total) and the completion is capped at it. Unknown or removed keys are ignored. |
| ProgressTree.ActivateTask | archive_agent/core/ProgressManager.py:166-170 | A live task's flag is raised and nothing else changes. Unknown or removed keys are ignored. |
| ProgressTree.SetExpectedChildren | archive_agent/core/ProgressManager.py:172-177 | The expected weight becomes count times weight, clamped at 0. Nothing else about that task changes. |
| ProgressTree.GetTask | archive_agent/core/ProgressManager.py:211-212 | There is a task exactly for a known key, and it is that key's task. |
| ProgressTree.StartTask | archive_agent/core/ProgressManager.py:100-136 | The fresh task gets its clamped weight and the next sequence number. It is appended to its parent's list and gets an empty list of its own. Other tasks change at most in the parent's expected weight. |
| ProgressTree.AutoExpectedTracksChildren | archive_agent/core/ProgressManager.py:113-134 | While a parent's expected weight is the sum of its children's weights, adding a child keeps it that sum. |
| ProgressTree.PreserveShare | archive_agent/core/ProgressManager.py:186-190 | A removed task with a live parent adds its share to that parent's preserved work and to no other's. Otherwise nothing changes. |
| ProgressTree.RemoveSubtree | archive_agent/core/ProgressManager.py:179-204 | The root and every task below it are gone, and no task is orphaned. Older tasks are kept, and the parent gains the root's share. An unknown root is ignored. |
| ProgressTree.RemoveKids | archive_agent/core/ProgressManager.py:192-194 | The loop over the snapshot removes every listed child, keeps the older tasks and orphans none. |
| ProgressTree.Detach | archive_agent/core/ProgressManager.py:196-204 | The end of the removal takes out exactly the root, orphans none, and keeps the preserved work. |
| ProgressTree.DropKeepsListed | archive_agent/core/ProgressManager.py:198-199 | Taking the root out of its parent's list leaves every other task listed. |
| ProgressTree.WeightedRollupExample | archive_agent/core/ProgressManager.py:234-258 | A parent expects weight 3. Its children have weight 2 at 5 of 10 and weight 1 at 10 of 20. The parent rolls up to 50 of the default 100. |
| ProgressTree.InsertKey | archive_agent/core/ProgressManager.py:208 | Inserting a key into an ordered list keeps it ordered and adds exactly that key. |
| ProgressTree.IterChildren | archive_agent/core/ProgressManager.py:206-209 | The children are returned as a permutation of the list, ordered by creation and then by key. |
| QdrantSchema.FieldOfName | archive_agent/db/QdrantSchema.py:14-21 | Every field is recognised by its own name. |
| QdrantSchema.NamesDistinct | archive_agent/db/QdrantSchema.py:14-21 | Distinct fields have distinct names. |
| QdrantSchema.AsFloat | archive_agent/db/QdrantSchema.py:15 | A float field reads a float as itself, and also accepts an integer or a boolean. Nothing else is accepted. |
| QdrantSchema.AsInt | archive_agent/db/QdrantSchema.py:16-17 | An integer field accepts an integer, a boolean, or a float with no fractional part. It agrees with the float reading. |
| QdrantSchema.FieldProblemsEmpty | archive_agent/db/QdrantSchema.py:14-23 | Field validation reports nothing exactly when the raw payload is well formed. |
| QdrantSchema.FieldProblemsReported | archive_agent/db/QdrantSchema.py:14-23 | Each missing mandatory field, unknown key and ill-typed value is reported. |
| QdrantSchema.NormalizeRange | archive_agent/db/QdrantSchema.py:31-35 | An empty range becomes no range, and a non-empty range is kept. |
| QdrantSchema.ValidateRanges | archive_agent/db/QdrantSchema.py:25-40 | The validator fails exactly when both ranges are non-empty, and then for that reason alone. On success only the ranges change, and at most one is set. |
| QdrantSchema.ValidateRangesKeepsValid | archive_agent/db/QdrantSchema.py:25-40 | An already validated payload passes unchanged. |
| QdrantSchema.ParsePayload | archive_agent/db/QdrantSchema.py:43-59 | `None` is rejected with its own error, and a parsed payload has at most one non-empty range. |
| QdrantSchema.MissingMandatoryRejected | archive_agent/db/QdrantSchema.py:14-59 | A missing mandatory field is rejected and reported. |
| QdrantSchema.UnknownFieldRejected | archive_agent/db/QdrantSchema.py:23 | An unknown key is rejected and reported. |
| QdrantSchema.BothRangesRejected | archive_agent/db/QdrantSchema.py:37-39 | A well-formed payload with both ranges non-empty is rejected for that reason only. |
| QdrantSchema.OptionalFieldsDefault | archive_agent/db/QdrantSchema.py:19-21 | Absent optional fields read as `None`. |
| QdrantSchema.Dump | archive_agent/db/QdrantSchema.py:9-21 | The dump holds every field under its name and nothing else. |
| QdrantSchema.DumpParseRoundTrip | archive_agent/db/QdrantSchema.py:9-59 | Parsing the dump of a validated payload gives that payload back. |
| QdrantSchema.LaxNumbersAccepted | archive_agent/db/QdrantSchema.py:15-17 | An integer time, a whole float index and a boolean total are read as numbers. |
| QdrantSchema.FractionalIndexRejected | archive_agent/db/QdrantSchema.py:16 | A float index with a fractional part is an ill-typed field. |
| SentenceSplit.StrippedLines | archive_agent/util/text_split_sentences.py:51 | There is one stripped line per `splitlines()` line, and none holds a line break. |
| SentenceSplit.BlocksFrom | archive_agent/util/text_split_sentences.py:54-66 | Every block is non-empty and holds only non-empty lines. Together the blocks are the open block followed by the non-empty lines, in order. |
| SentenceSplit.ParagraphsAreLines | archive_agent/util/text_split_sentences.py:51-69 | Every normalised paragraph is one non-empty line that starts and ends with a non-space character. |
| SentenceSplit.ParagraphsKeepLines | archive_agent/util/text_split_sentences.py:51-69 | Together the paragraphs hold the text's non-blank lines, stripped and in order, with each block joined by spaces. |
| SentenceSplit.NormalizeBlank | archive_agent/util/text_split_sentences.py:41-70 | Normalisation gives `""` exactly when every line is blank. |
| SentenceSplit.SplitNormalized | archive_agent/util/text_split_sentences.py:23-70 | Splitting the normalised text at blank lines gives the paragraphs back. A blank text gives one empty piece. |
| SentenceSplit.ParagraphSentences | archive_agent/util/text_split_sentences.py:73-85 | A paragraph's sentences are all non-empty and stripped. |
| SentenceSplit.ParagraphHasSentence | archive_agent/util/text_split_sentences.py:82-85 | A paragraph that starts with a non-space character yields at least one sentence. |
| SentenceSplit.SentenceLists | archive_agent/util/text_split_sentences.py:28-33 | There is one sentence list per paragraph, in order. |
| SentenceSplit.CollectIsSeparated | archive_agent/util/text_split_sentences.py:26-33 | Over non-blank paragraphs, the loop gives the sentence lists separated by `""` and followed by one final `""`. |
| SentenceSplit.SplitSentencesAreSeparated | archive_agent/util/text_split_sentences.py:9-38 | `split_sentences` gives each paragraph's sentences in order, with one `""` between paragraphs and none at either end. |
| SentenceSplit.CleanedSentences | archive_agent/util/text_split_sentences.py:24-38 | For paragraphs joined by blank lines, the sentences are the separated sentence lists. |
| SentenceSplit.SeparatedBreaks | archive_agent/util/text_split_sentences.py:30-36 | Separated lists put `""` only between two lists, and they are empty only when there are no lists. |
| SentenceSplit.SeparatedKeeps | archive_agent/util/text_split_sentences.py:30-36 | Without the breaks, the separated lists are the lists' entries in order. |
| SentenceSplit.SplitSentencesShape | archive_agent/util/text_split_sentences.py:9-38 | The result has no `""` at either end and never two in a row. Its non-empty entries are the paragraphs' sentences. It is `[]` exactly when the text has no non-blank line. |
| SentenceSplit.NoParagraphsIffBlank | archive_agent/util/text_split_sentences.py:51-69 | There is no paragraph exactly when no line holds anything but whitespace. |
| TextLoader.PandocExtension | archive_agent/data/loader/text.py:82-92 | The extension is the lower-cased `splitext` suffix, with `.htm` replaced by `.html`. It is never `.htm`. |
| TextLoader.ListedExtensionOfName | archive_agent/data/loader/text.py:62-69 | A name `stem.x` has a listed extension exactly when `.x` is one, up to case. |
| TextLoader.AsciiDocumentIsHtml | archive_agent/data/loader/text.py:82-97 | An HTML document named `stem.htm` or `stem.html`, in any case, is converted with format `html`. |
| TextLoader.HiddenHtmHasNoFormat | archive_agent/data/loader/text.py:62-97 | A hidden `.htm` file passes the extension test but gives Pandoc an empty format. |
| TextLoader.BinaryImageFormatter | archive_agent/data/loader/text.py:219 | The formatted text is bracketed, and an answer appears between the brackets unchanged. |
| TextLoader.FormatterConflates | archive_agent/data/loader/text.py:219 | The answer `Unprocessable Image` cannot be told apart from no answer. |
| TextLoader.ExtractBinaryImageTexts | archive_agent/data/loader/text.py:175-242 | No images, or no callback, give `[]` without any vision request. Otherwise there is one request per image, and the results come back formatted, in image order. |
| TextLoader.BinaryImageTextShape | archive_agent/data/loader/text.py:219-240 | Every image text is bracketed. A raised or refused request becomes `[Unprocessable Image]`. |
| TextLoader.PushImageTexts | archive_agent/data/loader/text.py:256-259 | Each image text adds a blank line, the text and a blank line, each numbered by the running line count. Earlier numbers are kept. |
| TextLoader.BuildBinaryDocument | archive_agent/data/loader/text.py:245-261 | The document is the converted text's lines followed by the image blocks, numbered 1, 2, 3 and so on. |
| TextLoader.ThreeLinesPerImage | archive_agent/data/loader/text.py:256-259 | Each image text adds exactly three lines, with the text in the middle. |
| TextUtil.Sanitize | archive_agent/util/text.py:124-136 | Every sanitised entry is stripped and non-empty. |
| TextUtil.SanitizeClean | archive_agent/util/text.py:124-136 | Sanitising a list that is already clean changes nothing. |
| TextUtil.SanitizeIdempotent | archive_agent/util/text.py:124-136 | Sanitising twice is sanitising once. |
| TextUtil.SanitizeAppend | archive_agent/util/text.py:131-135 | Sanitising works sentence by sentence: it distributes over concatenation. |
| TextUtil.SanitizeIsFlatten | archive_agent/util/text.py:130-136 | The result is each sentence's stripped non-empty lines, in input order. |
| TextUtil.SanitizeJoinedLines | archive_agent/util/text.py:132-135 | A sentence of several lines gives their stripped non-empty forms. |
| TextUtil.LeftJustify | archive_agent/util/text_util.py:45 | The `:<4` format pads on the right with spaces up to the width and never truncates. |
| TextUtil.PrependLineNumbers | archive_agent/util/text_util.py:38-47 | Entry `i` is the decimal form of `i + 1`, padded with spaces to at least four characters, followed by sentence `i` unchanged. |
| TextUtil.DigitsValueOfNatToString | archive_agent/util/text_util.py:45 | Reading the decimal form back gives the number. |
| TextUtil.LineNumberReadsBack | archive_agent/util/text_util.py:38-47 | Below line 1000 the number column is exactly four wide. The entry's leading digits read back as its line number, whatever the sentence holds. |
| TextUtil.StripLineNumbers | archive_agent/util/text_util.py:38-47 | Dropping the four-character column from fewer than 1000 numbered lines gives the sentences back. |
| TextUtil.WideNumberTouchesSentence | archive_agent/util/text_util.py:45 | From line 1000 on, no space separates the number from the sentence. |
| TextUtil.UriRunLength | archive_agent/util/text_util.py:28 | The URI run stops exactly at the first whitespace, `]` or `)`. |
| TextUtil.Link | archive_agent/util/text_util.py:30-33 | The link is bracketed text followed by the URI in parentheses. |
| TextUtil.CopiesUpToMatch | archive_agent/util/text_util.py:28-35 | Text before the first match is copied unchanged. |
| TextUtil.NoUriUnchanged | archive_agent/util/text_util.py:22-35 | Text without a match is returned unchanged. |
| TextUtil.UriBecomesLink | archive_agent/util/text_util.py:28-35 | A maximal URI `file://x` becomes its link, and the text after it is processed in turn. |
| TextUtil.LinkShowsPath | archive_agent/util/text_util.py:30-33 | When `x` holds no `file://`, the link shows the decoded path of `x` and then the URI. |
| VisionFormat.UsedNames | archive_agent/ai/vision/AiVision.py:99-103 | A name is used exactly when some relation has it as subject or as object. |
| VisionFormat.Descriptions | archive_agent/ai/vision/AiVision.py:106-111 | There is at most one description statement per entity. |
| VisionFormat.DescriptionsAppend | archive_agent/ai/vision/AiVision.py:106-111 | Descriptions are made entity by entity, so they distribute over concatenation. |
| VisionFormat.DescriptionsFromDescribed | archive_agent/ai/vision/AiVision.py:106-111 | Every description statement is the statement of some entity that is unused and has a non-blank description. |
| VisionFormat.DescribedAppears | archive_agent/ai/vision/AiVision.py:106-111 | Every unused entity with a non-blank description gets its statement. |
| VisionFormat.NoDescriptions | archive_agent/ai/vision/AiVision.py:106-111 | When no entity is described, there is no description statement. |
| VisionFormat.RelationStatements | archive_agent/ai/vision/AiVision.py:99-101 | There is one statement per relation, in relation order. |
| VisionFormat.EndWithDot | archive_agent/ai/vision/AiVision.py:118 | `rstrip('.') + "."` leaves exactly one final dot. |
| VisionFormat.Finish | archive_agent/ai/vision/AiVision.py:118 | Blank statements are dropped. Every kept one ends in exactly one dot. |
| VisionFormat.FinishHead | archive_agent/ai/vision/AiVision.py:118 | Every finished statement ends in exactly one dot. |
| VisionFormat.FinishAppend | archive_agent/ai/vision/AiVision.py:118 | Finishing works statement by statement, so it distributes over concatenation. |
| VisionFormat.FallbackFinished | archive_agent/ai/vision/AiVision.py:113-118 | The fallback sentence passes through the final join unchanged. |
| VisionFormat.FinishOneDot | archive_agent/ai/vision/AiVision.py:118 | A statement that already ends in exactly one dot is kept as it is. |
| VisionFormat.VisionFallback | archive_agent/ai/vision/AiVision.py:86-118 | With no relation and no described entity, the answer is the fallback sentence. |
| VisionFormat.VisionRelationsFirst | archive_agent/ai/vision/AiVision.py:96-118 | Relations come first: the answer starts with the first relation's sentence. |
| VisionFormat.EndEach | archive_agent/ai/vision/AiVision.py:118 | Each statement ends in exactly one dot, with the text before the dots kept. |
| VisionFormat.VisionSentences | archive_agent/ai/vision/AiVision.py:86-118 | When no statement is blank, the answer is every statement in order, each with one final dot, joined by single spaces. |
| VisionFormat.FinishNonBlank | archive_agent/ai/vision/AiVision.py:118 | With no blank statement, finishing drops nothing. |
| VisionFormat.Capitalize | archive_agent/ai/vision/AiVisionEntity.py:267 | `str.capitalize()` gives the first character in upper case and the rest in lower case, at the same length. |
| VisionFormat.CompoundParts | archive_agent/ai/vision/AiVisionEntity.py:267-268 | There is one part per statement. |
| VisionFormat.LowerKeepsNoFinalDot | archive_agent/ai/vision/AiVisionEntity.py:267-268 | Changing case does not create a final dot. |
| VisionFormat.AllNoFinalDotAppend | archive_agent/ai/vision/AiVisionEntity.py:245-260 | Lists of statements without a final dot stay so when concatenated. |
| VisionFormat.NoFinalDotAppend | archive_agent/ai/vision/AiVisionEntity.py:260 | Appending text that does not end in a dot gives text that does not end in one. |
| VisionFormat.DescribeNoFinalDot | archive_agent/ai/vision/AiVisionEntity.py:258-260 | A description statement without the ending does not end in a dot, because of the `rstrip('.')`. |
| VisionFormat.DescriptionsNoFinalDot | archive_agent/ai/vision/AiVisionEntity.py:255-260 | No description statement ends in a dot. |
| VisionFormat.EntityStatementsNoFinalDot | archive_agent/ai/vision/AiVisionEntity.py:248-260 | No statement ends in a dot, relation sentences included (line 250). |
| VisionFormat.CompoundOneDot | archive_agent/ai/vision/AiVisionEntity.py:269 | Joining dot-free statements with `", and "` and adding `.` gives exactly one final dot. |
| VisionFormat.EntityAnswerOneDot | archive_agent/ai/vision/AiVisionEntity.py:232-270 | The answer, compound sentence or fallback, ends in exactly one dot. |
| VisionFormat.EntityAnswerCapitalised | archive_agent/ai/vision/AiVisionEntity.py:266-269 | The compound sentence starts with the first statement, capitalised. |
| VisionFormat.EntityFallback | archive_agent/ai/vision/AiVisionEntity.py:262-264 | With no relation and no described entity, the answer is the fallback sentence. |
| VisionFormat.FormatOcrAnswer | archive_agent/ai/vision/AiVisionOCR.py:83-87 | The answer contains no line break. |
| VisionFormat.OcrSingleLine | archive_agent/ai/vision/AiVisionOCR.py:83-87 | A single-line answer, the empty one included, is returned unchanged. |
| VisionFormat.OcrJoinsLines | archive_agent/ai/vision/AiVisionOCR.py:83-87 | Lines separated by line feeds come back separated by single spaces, with a final empty line dropped. |
| VisionRelation.AllPredicates | archive_agent/ai/vision/AiVisionRelation.py:24-28 | The keys are listed in first-registration order, one per entry. |
| VisionRelation.Find | archive_agent/ai/vision/AiVisionRelation.py:35 | A key is found exactly when it is registered, at its first position. |
| VisionRelation.FindFirst | archive_agent/ai/vision/AiVisionRelation.py:35 | The first position that holds a key is the one reported. |
| VisionRelation.FindDistinct | archive_agent/ai/vision/AiVisionRelation.py:35 | Without duplicates, a key's position is its only one. |
| VisionRelation.Register | archive_agent/ai/vision/AiVisionRelation.py:16-21 | A dict assignment: a known key keeps its place and gets the new entry; a new key is appended; other entries are unchanged. |
| VisionRelation.RegisterDistinct | archive_agent/ai/vision/AiVisionRelation.py:16-21 | Registering keeps the keys distinct. |
| VisionRelation.UnderscoresToSpaces | archive_agent/ai/vision/AiVisionRelation.py:39 | `replace('_', ' ')` changes underscores only, at the same length. |
| VisionRelation.Format | archive_agent/ai/vision/AiVisionRelation.py:30-39 | A registered predicate uses its formatter. Any other reads `The {subject} {predicate with spaces} the {object}.` |
| VisionRelation.RegisterThenFormat | archive_agent/ai/vision/AiVisionRelation.py:16-39 | A predicate just registered is formatted by the formatter just given. |
| VisionRelation.RegisterKeepsOthers | archive_agent/ai/vision/AiVisionRelation.py:16-39 | Registering one predicate leaves the formatting of every other predicate unchanged. |
| VisionRelation.ReregisterOverwrites | archive_agent/ai/vision/AiVisionRelation.py:16-21 | Registering a predicate again overwrites the earlier entry: the last registration wins. |
| VisionRelation.ReregisterKnown | archive_agent/ai/vision/AiVisionRelation.py:16-21 | Re-registering a known predicate replaces its entry in place. |
| VisionRelation.ReregisterNew | archive_agent/ai/vision/AiVisionRelation.py:16-21 | Registering a new predicate twice appends one entry holding the second registration. |
| VisionRelation.PromptLineSingle | archive_agent/ai/vision/AiVisionRelation.py:47-49 | A prompt line holds no line feed and starts with the quoted predicate. |
| VisionRelation.ForPromptLines | archive_agent/ai/vision/AiVisionRelation.py:41-50 | The prompt has exactly one line per predicate, in registry order, each naming its predicate. |
| VisionRelation.RegisterAllFresh | archive_agent/ai/vision/AiVisionRelation.py:16-21 | Registering new, distinct predicates appends them in order. |
| VisionRelation.RelationRegistryPredicates | archive_agent/ai/vision/AiVisionRelation.py:54-89 | The 12 canonical predicates are distinct and registered once each, in source order. |
| VisionRelation.EntityRegistryPredicates | archive_agent/ai/vision/AiVisionEntity.py:56-137 | The 26 predicates of the entity formatter's registry are distinct and registered in order. |
| VisionRelation.CanonicalRelationsDistinct | archive_agent/ai/vision/AiVisionRelation.py:54-89 | The canonical relation predicates are distinct. |
| VisionRelation.EntityRelationsDistinct | archive_agent/ai/vision/AiVisionEntity.py:56-137 | The entity formatter's predicates are distinct. |
| Watchlist.DefaultData | archive_agent/watchlist/WatchlistManager.py:29-34 | A fresh watchlist is at version 2, with no patterns and no tracked files. |
| Watchlist.Upgrade | archive_agent/watchlist/WatchlistManager.py:49-63 | A missing version counts as 1. The file is upgraded exactly when its version is below 2; then only the version changes, to 2. |
| Watchlist.UpgradeIdempotent | archive_agent/watchlist/WatchlistManager.py:49-63 | Upgrading an upgraded watchlist changes nothing and reports no upgrade. |
| Watchlist.Patterns | archive_agent/watchlist/WatchlistManager.py:70 | `set(...)` holds exactly the patterns that occur in the list. |
| Watchlist.Validate | archive_agent/watchlist/WatchlistManager.py:65-78 | Valid exactly when no pattern is both included and excluded and every diff is one of the four known ones. |
| Watchlist.DefaultValid | archive_agent/watchlist/WatchlistManager.py:29-78 | The fresh watchlist is valid and has no repeated pattern. |
| Watchlist.ValidatePattern | archive_agent/util/pattern.py:26-38 | A pattern is accepted, home directory expanded, exactly when the expansion is absolute. Otherwise the result is exit code 1. |
| Watchlist.Relist | archive_agent/watchlist/WatchlistManager.py:95 | The list rebuilt from the set of its patterns plus `p` holds every pattern of `m`, and `p`, exactly once. |
| Watchlist.Include | archive_agent/watchlist/WatchlistManager.py:80-102 | An already included pattern changes nothing. Otherwise the included list is rebuilt without repeats and with the pattern, and one excluded occurrence is removed. Version and tracked files are untouched. |
| Watchlist.Exclude | archive_agent/watchlist/WatchlistManager.py:104-126 | The mirror image of `include`, with one included occurrence removed. |
| Watchlist.Remove | archive_agent/watchlist/WatchlistManager.py:128-149 | One occurrence is removed from the included list if there is one, else from the excluded list. An unknown pattern changes nothing. |
| Watchlist.IncludePattern | archive_agent/watchlist/WatchlistManager.py:80-85 | Validation comes first. An invalid pattern exits with no change; a valid one is included after expansion. |
| Watchlist.ExcludePattern | archive_agent/watchlist/WatchlistManager.py:104-109 | The same as `IncludePattern`, for exclusion. |
| Watchlist.RemovePattern | archive_agent/watchlist/WatchlistManager.py:128-133 | The same as `IncludePattern`, for removal. |
| Watchlist.IncludeKeepsDisjoint | archive_agent/watchlist/WatchlistManager.py:80-102 | On disjoint rules without repeats, the rules stay disjoint without repeats, and the pattern is no longer excluded. |
| Watchlist.ExcludeKeepsDisjoint | archive_agent/watchlist/WatchlistManager.py:104-126 | On disjoint rules without repeats, the rules stay disjoint without repeats, and the pattern is no longer included. |
| Watchlist.RemoveKeepsDisjoint | archive_agent/watchlist/WatchlistManager.py:128-149 | On disjoint rules without repeats, the pattern ends up in neither list. |
| Watchlist.RuleChangesKeepValid | archive_agent/watchlist/WatchlistManager.py:65-149 | Every rule change keeps a valid watchlist without repeats valid and without repeats. |
| Watchlist.IncludeOverRepeatedExclusion | archive_agent/watchlist/WatchlistManager.py:91-95 | On a file that excludes a pattern twice, including it removes one occurrence. The pattern ends up both included and excluded, and validation fails. |
| Watchlist.RemoveRepeatedKeepsRule | archive_agent/watchlist/WatchlistManager.py:135-138 | Removing a pattern that is included twice leaves it included. |
| Watchlist.RelistThenRemove | archive_agent/watchlist/WatchlistManager.py:95-138 | Adding a new pattern to a list without repeats, then removing it, restores the list. |
| Watchlist.RemoveThenRelist | archive_agent/watchlist/WatchlistManager.py:95-138 | Removing a pattern from a list without repeats, then adding it back, restores the list. |
| Watchlist.IncludeThenRemove | archive_agent/watchlist/WatchlistManager.py:80-149 | Removing a freshly included or excluded pattern restores the rules. |
| Watchlist.LastRuleWins | archive_agent/watchlist/WatchlistManager.py:80-126 | On disjoint rules, the last of `include` and `exclude` decides. |
| Watchlist.Matched | archive_agent/watchlist/WatchlistManager.py:190-200 | A file is matched exactly when some pattern's glob yields it. |
| Watchlist.Fresh | archive_agent/watchlist/WatchlistManager.py:215-222 | A file seen now gets its current size and time, and no diff. |
| Watchlist.Track | archive_agent/watchlist/WatchlistManager.py:183-247 | The tracked files become the selected files plus the previously tracked ones. The rules and version are untouched. |
| Watchlist.TrackKeys | archive_agent/watchlist/WatchlistManager.py:190-234 | A file is tracked afterwards exactly when it was tracked before, or some included pattern matches it and no excluded pattern does. |
| Watchlist.TrackAdded | archive_agent/watchlist/WatchlistManager.py:209-227 | A file is marked added exactly when it is selected now and was not tracked before. |
| Watchlist.TrackRemoved | archive_agent/watchlist/WatchlistManager.py:210-234 | A file is marked removed exactly when it is no longer selected. It then has size and time zero. |
| Watchlist.TrackChanged | archive_agent/watchlist/WatchlistManager.py:212-237 | A file seen before and now is changed exactly when its fresh entry differs from the stored one, so any stored pending diff makes it changed. Otherwise it has no diff. |
| Watchlist.TrackStat | archive_agent/watchlist/WatchlistManager.py:215-222 | Files present now carry their current size and time. |
| Watchlist.TrackDiffsKnown | archive_agent/watchlist/WatchlistManager.py:183-247 | Tracking produces only diffs that validation accepts. |
| Watchlist.TrackStable | archive_agent/watchlist/WatchlistManager.py:183-247 | When everything is resolved and nothing on disk has changed, tracking again changes nothing. |
| Watchlist.DiffFiles | archive_agent/watchlist/WatchlistManager.py:267-277 | Exactly the tracked files with the given diff, with their entries. |
| Watchlist.DiffFilesPartition | archive_agent/watchlist/WatchlistManager.py:267-277 | On a valid watchlist, each tracked file is in exactly one of the four diff lists. |
| Watchlist.MarkResolved | archive_agent/watchlist/WatchlistManager.py:308-327 | An untracked or already resolved file exits with code 1. A removed file is untracked; any other file gets no diff. |
| Watchlist.MarkResolvedClears | archive_agent/watchlist/WatchlistManager.py:308-327 | After resolving, the file is in no pending diff list, and resolving it again fails. |
| Watchlist.MarkResolvedOthers | archive_agent/watchlist/WatchlistManager.py:322-325 | Resolving one file leaves every other entry as it was. |
| Whitespace.ReplaceTabsAndNbsp | archive_agent/util/text_split_sentences.py:97 | Tabs and no-break spaces become spaces. Every other character is kept, at the same length. |
| Whitespace.CollapseSpaces | archive_agent/util/text_split_sentences.py:98 | No two spaces remain adjacent. Nothing new is introduced, and the first character is kept. |
| Whitespace.NormalizeInline | archive_agent/util/text_split_sentences.py:88-99 | The result has no tab, no no-break space, no double space and no edge whitespace, and is never longer than the input. |
| Whitespace.CollapseKeepsNoTab | archive_agent/util/text_split_sentences.py:97-98 | Collapsing adds no tab or no-break space. |
| Whitespace.StripKeepsNormal | archive_agent/util/text_split_sentences.py:99 | Stripping text without tabs or double spaces gives normalised text. |
| Whitespace.ReplaceTabsAndNbspNoop | archive_agent/util/text_split_sentences.py:97 | Text without tabs or no-break spaces is unchanged. |
| Whitespace.CollapseSpacesNoop | archive_agent/util/text_split_sentences.py:98 | Text without double spaces is unchanged. |
| Whitespace.NormalizeInlineFixpoint | archive_agent/util/text_split_sentences.py:88-99 | Normalising leaves text unchanged exactly when the text is already normalised. |
| Whitespace.NormalizeInlineIdempotent | archive_agent/util/text_split_sentences.py:88-99 | Normalising twice is normalising once. |
| Whitespace.NormalizeInlineBlank | archive_agent/util/text_split_sentences.py:88-99 | Text made only of whitespace normalises to the empty string. |
| JsonUtil.ReplaceForbidden | archive_agent/util/json_util.py:23 | Each of `< > : " / \ ? *` and the bar becomes `_`. Every other character is kept, at the same length. |
| JsonUtil.CollapseWhitespace | archive_agent/util/json_util.py:26 | Whitespace is left only as single spaces, and the first character is kept or becomes a space. |
| JsonUtil.CollapseKeepsVisible | archive_agent/util/json_util.py:26 | Collapsing changes only whitespace: the other characters stay, in order. |
| JsonUtil.CollapseIdempotent | archive_agent/util/json_util.py:26 | Collapsing twice is collapsing once. |
| JsonUtil.CleanQuestionChars | archive_agent/util/json_util.py:22-29 | The cleaned question has no forbidden character and no whitespace. |
| JsonUtil.CleanIsFixed | archive_agent/util/json_util.py:22-29 | A name without forbidden characters or whitespace is its own cleaning. |
| JsonUtil.CleanQuestionIdempotent | archive_agent/util/json_util.py:22-29 | Cleaning twice is cleaning once. |
| JsonUtil.CutShape | archive_agent/util/json_util.py:31-37 | A cleaned text that fits `max_length - 5` is kept whole. A longer one becomes a prefix of itself followed by `[...]`. |
| JsonUtil.CutWithinLimit | archive_agent/util/json_util.py:31-37 | From a limit of 10 upwards, the base name leaves room for `.json`. |
| JsonUtil.GenerateJsonFilename | archive_agent/util/json_util.py:15-39 | The name ends in `.json`, the base before it has no forbidden character and no whitespace, and from a limit of 10 upwards the whole name fits the limit. |
| JsonUtil.FilenameWithinLimit | archive_agent/util/json_util.py:15-39 | From a limit of 10 upwards, the whole name fits the limit. |
| JsonUtil.FilenameBaseClean | archive_agent/util/json_util.py:15-39 | The name before `.json` has no forbidden character and no whitespace. |
| JsonUtil.ShortLimitOverflows | archive_agent/util/json_util.py:35-37 | With limit 7, a 12-character cleaned text keeps 9 characters, because the negative slice end counts from the end. |
| JsonUtil.ShortLimitQuestion | archive_agent/util/json_util.py:15-39 | With limit 7, the question `abcdefghijkl` gives a 19-character name. |
| JsonUtil.GenerateJsonFilenameClamped | archive_agent/util/json_util.py:15-39 | With the cut clamped at zero, the name ends in `.json` and never exceeds the larger of the limit and 10. |
| JsonUtil.ClampedAgreesFromTen | archive_agent/util/json_util.py:35-37 | From a limit of 10 upwards, the clamped cut is the source's cut. |
| PyStr.Strip | archive_agent/util/text_split_sentences.py:99 | `str.strip()` returns a stripped substring of the input, taken from the first non-space character. |
| PyStr.StripEmptyIffBlank | archive_agent/util/text.py:132-135 | A string strips to nothing exactly when it is all whitespace. |
| PyStr.Lower | archive_agent/ai/vision/AiVision.py:111 | `str.lower()` keeps the length and lowers each letter. |
| PyStr.SplitLines | archive_agent/ai/vision/AiVisionOCR.py:87 | No line returned by `str.splitlines()` contains a line break. |
| PyStr.SplitLinesOfJoin | archive_agent/ai/vision/AiVisionOCR.py:87 | Splitting lines joined by line feeds gives them back, except that a final empty line is lost. |
| PyStr.RemoveFirst | archive_agent/data/ProgressManager.py:330-335 | `list.remove(x)` drops exactly one occurrence of `x` and adds nothing. |
| PyStr.PySlice | archive_agent/util/json_util.py:37 | A Python slice is the Dafny slice for in-range bounds. It never grows the sequence and takes only its elements. |

## Left out

- Blocks.GroupBlocks: requires a block size above 0. For a size of 0 the source's `range(0, len(s), 0)` raises `ValueError`. A negative size, which gives no blocks in Python, cannot be written as a `nat`. The chunker's `chunk_lines_block` is taken to be positive for the same reason.
- PyStr.Lower: lowers only the ASCII letters. Python's `str.lower()` also folds other Unicode letters, some of them into several characters.
- VisionFormat.Capitalize: upper-cases and lower-cases only the ASCII letters, for the reason given for `PyStr.Lower`.
- ProgressTree.RoundHalfEven: Python floats are modelled as exact reals, in the progress tree and in the per-file progress display. Rounding is exact round-half-even on reals, not on binary floating point.
- FileProgress.KeyText: keys are structured values; that their spellings `file_n`, `{file}_phase_n` and `{phase}_sub_n` never collide is not proved.
- FileProgress: the Rich task ids, tree symbols, descriptions and rendering are left out. `task_ids` is modelled as the set of its keys.
- ProgressTree.RemoveSubtree: requires every task to be listed under its parent (`Listed`), which every operation of the tree keeps. A tree built by hand without that is not covered. Task keys are a fresh parameter instead of random hex strings, and the creation time is a counter.
- ProgressTree: locking, the refresh timer and the rendering of the display are left out.
- QdrantSchema.WellTyped: lax validation covers booleans and integral floats for integer fields, and integers and booleans for float fields. Numeric strings, which pydantic's lax mode also converts, are rejected by the model.
- Config.StartVersion: a version stored as a string or `null` is a failure, where Python raises `TypeError` at the first comparison. Floats and booleans are compared numerically, as in Python.
- Config.UpgradeReachesLatest: a file at or above version 12 is left as written, since no step runs; the model promises nothing more about such a file.
- Config: the prompts, the file I/O and the log lines of the configuration manager are left out.
- ContextHeaders.SemverTuple: `int()` is modelled for ASCII digits with surrounding whitespace. Parts with a sign, underscores or non-ASCII digits, which Python's `int()` also accepts, read as 0 in the model.
- ContextHeaders: points whose payload fails to parse are skipped with a warning in both maintenance scripts. The model takes the parsed payloads. The confirm loops, prompts, scrolling and database writes are left out.
- RenamePaths: the retry and abort answers of the confirmation prompts and the database writes are left out. The prompts are given as the text typed.
- Chunk.GetChunks: the contract states only one formatted chunk per piece. Coverage of the input sentences is stated by `Chunk.ChunksCoverSentences`.
- Builders: `DocumentContent.from_lines` is not part of this model. The builders return the lines and their tags.
- Builders, Chunk: `splitlines_exact` is not part of this model. It is taken to be `str.split("\n")`.
- VisionFormat.FormatOcrAnswer: the lemmas cover answers whose lines are separated by line feeds. `SplitLines` itself also breaks at the other Unicode line boundaries.
- Watchlist.Remove: removes one occurrence of a pattern, as `list.remove` does. A pattern listed twice in a hand-edited file stays listed (`RemoveRepeatedKeepsRule`). Globbing, `expanduser`, `getsize` and `getmtime` are parameters. Pattern lists are multisets, so their order, which matters only for printing, is not kept.
- AiManager: the `usage()` report, a log line of the five counters (AiManager.py:78-94), is left out; the counters themselves are modelled. The prompts, the provider's cache contents and the log lines are left out too. The cache is seen only through the number of entries popped from it.
- Retry: sleeping and logging are left out. The delay is kept as state.
- Fanout: the thread pool is modelled as running the workers one after another, in a completion order given as a parameter.
- TextLoader, PdfLoader: decoding, Pandoc, ZIP extraction, PDF reading, page rendering and image opening are left to the caller.
- The sentence segmenter, SHA-1, the clock and the file system are parameters wherever the source uses them.

## Findings

| source | as written | input that shows it | evidently intended | confidence | as-written member | corrected member |
|---|---|---|---|---|---|---|
| archive_agent/data/ProgressManager.py:332-335 | Completing a phase removes it from its file's list of phases, so the file's weighted mean forgets the finished phase. | A file with two phases of equal weight: finish the first (file at 50%), then report the second at 10 of 100. The file falls to 10%. | A finished phase keeps counting as complete, so the file's progress never falls. | not executed | FileProgress.CompletePhaseAsWritten, FileProgress.ProgressFallsAsWritten | FileProgress.CompletePhase, FileProgress.ProgressGrowsCorrected |
| archive_agent/loader/pdf.py:134-140 | Only one trailing blank line is popped before `"\n".join(...).splitlines()` is compared with the page tags. | Pages with the texts `a`, empty and empty (no images): the lines end in two blank lines, and the assertion fails. | Every trailing blank line is popped, so the count always agrees. | not executed | LegacyPdf.FinishAsWritten, LegacyPdf.TrailingEmptyPagesFail | LegacyPdf.Finish, LegacyPdf.Build |
| archive_agent/ai/AiManager.py:135 | `0 < any(chunk_start_lines) <= len(sentences)` compares the boolean `any(...)`, so it holds whenever there is at least one sentence. | Three sentences and the answer `[1, 99]`: the check passes and chunk start 99 is returned. | Every start line lies within `1..len(sentences)`. | not executed | AiManager.ChunkVerdictAsWritten, AiManager.ChunkRequestAcceptsOutOfRange | AiManager.ChunkVerdict, AiManager.ChunkReturnsValidSchema |
| archive_agent/config/ConfigManager.py:240 | The v7 step reads the provider's `ai_model_rerank` default from the provider registry, which defines no such key. | Any configuration stored below version 7, upgraded with the registry as shipped: the step raises `KeyError`. | The registry supplies a rerank default, and the upgrade from v1 succeeds. | not executed | Config.ShippedRegistryBreaksV7 | Config.UpgradeFromV1 |
| archive_agent/util/json_util.py:35-37 | The cut `max_base_length - 5` is negative below a limit of 10, and Python counts a negative slice end from the end of the text. | Limit 7 and the question `abcdefghijkl`: the name is `abcdefghi[...].json`, 19 characters. | The name never exceeds the limit, or a fixed minimum when the limit is too small for the marker. | not executed | JsonUtil.ShortLimitOverflows, JsonUtil.ShortLimitQuestion | JsonUtil.GenerateJsonFilenameClamped, JsonUtil.ClampedAgreesFromTen |

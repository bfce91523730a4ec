# Streaming decoder of the chat route

This project models the server side of the chat endpoint
(`app/api/chat/route.ts`). The endpoint forwards a conversation to an
OpenAI-compatible LM Studio server and turns its server-sent-event stream
into newline-delimited JSON records for the browser. Each record is
`{content, isThinking, stats, completed}`.

The model follows the decode loop of `POST`'s `start(controller)`:

- **Framing.** The pending text plus each decoded chunk is split on `'\n'`. Every piece but the last is a complete line. The last piece is kept as the new pending text.
- **Frame filter.** Only `data: ` lines are read. `[DONE]` and payloads that fail to parse are skipped.
- **Classification.** A delta is reasoning when the flag was already set before it or when its text holds `<think>`. A `</think>` anywhere in the delta clears the flag.
- **Statistics.** There are three counters and six timestamps, plus the stop reason.
- **Marker stripping.** `<think>` and `</think>` are removed from the text that is sent.
- **Emission.** A record is sent unless the reasoning preference is exactly `false` and the delta is reasoning, or the output has already been closed. An output that refuses a record is marked closed for good.
- **Completion.** When the body ends, `endTime` is stamped and one `completed` record is sent.

The request checks at the top of `POST` and the choice of sampling preset are modelled too.

Everything is a pure function over immutable data. The environment is explicit:

- `Env.now` is the clock reading used while one chunk is processed.
- `Env.accepts` says whether `controller.enqueue` would succeed.
- JSON decoding of one payload is the `parse` field of `Config`.

The modules are:

| file | module | contents |
|---|---|---|
| text.dfy | `Text` | `Option`, truthiness, `startsWith`, `includes`, string concatenation |
| framing.dfy | `Framing` | `split('\n')`, then `pop`, framing against the pending text |
| markers.dfy | `Markers` | the two markers and the global regex replace |
| classifier.dfy | `Classifier` | the reasoning flag and its transition |
| stats.dfy | `SessionStats` | the statistics record and its per-token update |
| decoder.dfy | `Decoder` | state, events, line/chunk/session processing |
| delta_properties.dfy | `DeltaProperties` | what one line and one delta do |
| session_properties.dfy | `SessionProperties` | properties of whole runs and sessions |
| delta_runs.dfy | `DeltaRuns` | the emitted text of a delta run, and worked scenarios |
| request.dfy | `Request` | body validation and the upstream request |

Behaviours of the code a reader may not expect; the model follows the code:

- **A marker in its own delta.** A delta that is exactly `<think>` or `</think>` is a token. `<think>`, and `</think>` inside a block, are counted as reasoning and sent as a reasoning record with empty content (`DeltaRuns.ScenarioMarkerDeltas`). A `</think>` outside a block is counted as an answer token, may stamp `firstResponseTokenTime`, and is sent as an empty answer record (`DeltaRuns.StrayClose`).
- **Hiding reasoning.** Reasoning is withheld only when `enableThinking` is exactly `false`. The thinking preset is chosen only when it is exactly `true`. Any other value asks for the standard preset and still shows reasoning (`Request.PreferenceReadings`).
- **The completion record.** It is not sent when the output was closed by an earlier failed send, or when the final send itself fails. It is also not sent when reading the body fails. So it is sent at most once, and possibly not at all.
- **An unclosed reasoning block.** A block that is still open at the end is not closed: `thinkingEndTime` stays as it was.
- **A truthy `finish_reason`.** It overwrites `stopReason` even on a frame without content. A frame with an empty `finish_reason` and no content has no effect.
- **Text after the last line break.** Text still pending when the body ends is dropped unprocessed.
- **A redundant check.** The second `selectedModel` check (lines 71-73) can never fail once the first one has passed.

## Model

| member | source | states |
|---|---|---|
| Framing.Split | app/api/chat/route.ts:185 | `split('\n')` gives at least one piece. No piece holds a line break. Joining the pieces with `'\n'` gives back the input. |
| Framing.Frame | app/api/chat/route.ts:181-186 | The pending text plus the chunk is exactly the complete lines, each followed by `'\n'`, then a new pending text without a line break. |
| Framing.SplitUnlines | app/api/chat/route.ts:185-186 | Splitting undoes line assembly: lines without breaks plus a break-free remainder split back into exactly those lines and that remainder. |
| Framing.DecompositionUnique | app/api/chat/route.ts:185-186 | A text has one decomposition into complete lines and a remainder, and framing finds it. |
| Framing.FrameIsWholeText | app/api/chat/route.ts:182-186 | Framing a chunk against the pending text gives the same lines and remainder as framing their concatenation. |
| Framing.CompleteLinesAfter | app/api/chat/route.ts:185-188 | Complete lines in front of a text come out first and unchanged. The remainder depends only on the text after them. |
| Framing.FramingChunkIndependent | app/api/chat/route.ts:180-188 | Chunk boundaries do not matter. Feeding chunks one at a time yields each `'\n'`-terminated line of the whole input once, in order, and leaves exactly the unterminated tail pending. |
| Markers.Strip | app/api/chat/route.ts:243 | The cleaned text is never longer than the raw text, and holds only characters of the raw text. |
| Markers.StripIdentity | app/api/chat/route.ts:243 | The replace leaves a text unchanged if and only if the text holds neither marker. |
| Markers.StripConcat | app/api/chat/route.ts:243 | When no marker straddles the boundary, cleaning two texts one after the other equals cleaning their concatenation. |
| Markers.NoRescan | app/api/chat/route.ts:243 | The replace is a single pass. `<th<think>ink>` becomes `<think>` and is not cleaned again. |
| Markers.SplitMarkerKept | app/api/chat/route.ts:243 | For either marker and every cut inside it, the two pieces survive per-delta cleaning and together give back the marker. Neither piece holds a marker, so neither opens or closes a block. The same text in one delta is removed. |
| Markers.Plain | app/api/chat/route.ts:216-243 | Text without `<` holds no marker and passes through cleaning unchanged. |
| Classifier.Classify | app/api/chat/route.ts:214-240 | A delta is reasoning iff the flag was set or it holds `<think>`. It starts a block iff it is reasoning and the flag was clear. It ends one iff it is reasoning and holds `</think>`. The flag afterwards is set iff it is reasoning and holds no `</think>`, so an ending delta always leaves the flag clear. See `DeltaProperties.DeltaClassification`. |
| Classifier.FlagAfterSnoc | app/api/chat/route.ts:214-240 | The flag after a run followed by one more delta is that delta's transition from the flag after the run. |
| Classifier.FlagTracksLastMarker | app/api/chat/route.ts:214-240 | After any run of deltas the fold of `Classify` agrees with a reference reading, and `DeltaRuns.DecoderFlagIsFlagAfter` shows that this fold is the decoder's flag. It is clear if the last delta holding a marker holds `</think>`, and set if that delta holds only `<think>`. Otherwise it is the initial flag. |
| SessionStats.NoteFinish | app/api/chat/route.ts:200-202 | Only `stopReason` can change. A truthy `finish_reason` becomes the stop reason, and any other leaves the record exactly as it was. |
| SessionStats.CountToken | app/api/chat/route.ts:204-236 | The total grows by one and conservation is kept. `startTime`, `endTime` and `stopReason` stay. Each timestamp changes only to the current reading and only under its condition: `firstTokenTime` when the total was 0, `firstResponseTokenTime` for an answer delta while it is unset, `thinkingStartTime` when a block starts, and `thinkingEndTime` when one ends. |
| SessionStats.CountTokenConserves | app/api/chat/route.ts:204-231 | Counting a delta keeps `totalTokens == thinkingTokens + responseTokens`. It adds one to the total and one to the counter of the delta's class. |
| SessionStats.CountTokenOrdered | app/api/chat/route.ts:205-236 | If the clock does not run backwards, counting a delta keeps start <= first token <= first answer token <= now, and keeps each set block timestamp between start and now. A set first-token time means a token was counted. |
| Decoder.ApplyDelta | app/api/chat/route.ts:197-262 | A delta sends at most one record. It never touches the pending text, `startTime` or `endTime`, and sends nothing to a closed output, which stays closed. Its full behaviour is in the `DeltaProperties` rows. |
| Decoder.Emit | app/api/chat/route.ts:245-261 | The state is unchanged or only marked closed. One record, the given text and classification with the current statistics, goes out iff the output is open, the delta is not suppressed, and the output takes it. The output ends closed iff it was closed or an attempted send was refused. See `DeltaProperties.DeltaEmission`. |
| Decoder.DataOf | app/api/chat/route.ts:189-193 | A line carries a payload iff it starts with `data: ` and the rest is not `[DONE]`. The payload is exactly the text after the prefix, which restores the line. |
| Decoder.ProcessLine | app/api/chat/route.ts:188-266 | One line sends at most one record. A line without a payload changes nothing. The pending text, `startTime` and `endTime` stay, and a closed output receives nothing. See `DeltaProperties.FrameFilter`. |
| Decoder.ProcessLines | app/api/chat/route.ts:188-267 | A run of lines sends at most one record per line. It keeps the pending text, `startTime` and `endTime`, and a closed output receives nothing. |
| Decoder.Step | app/api/chat/route.ts:180-267 | After one chunk, the complete lines framed from the pending text and the chunk, followed by the new pending text, are exactly the pending text plus the chunk. The new pending text has no line break, at most one record goes out per complete line, and a closed output receives nothing. See `Framing.FrameIsWholeText` and `SessionProperties.FeedIsLineFold`. |
| Decoder.Feed | app/api/chat/route.ts:156-268 | After at least one chunk the pending text has no line break. `startTime` and `endTime` are kept, and a closed output receives nothing from any chunk. |
| DeltaProperties.FrameFilter | app/api/chat/route.ts:189-197 | A line that does not start with `data: `, the `[DONE]` payload and an unparsable payload leave the state unchanged and send nothing. Any other payload is applied as one delta taken from the text after the six-character prefix. |
| DeltaProperties.KeepAlive | app/api/chat/route.ts:197-204 | A delta without content sends nothing and changes nothing except `stopReason`. `stopReason` takes a truthy `finish_reason` and otherwise stays. |
| DeltaProperties.DeltaCounts | app/api/chat/route.ts:204-231 | A non-empty delta, marker-only ones included, adds one to the total and one to exactly one class counter, so conservation is preserved. |
| DeltaProperties.DeltaClassification | app/api/chat/route.ts:214-253 | A delta is reasoning iff the flag was set or it holds `<think>`. Afterwards the flag is clear if the delta holds `</think>`, and otherwise equals the classification. The record carries the classification, the cleaned text and the updated statistics. |
| DeltaProperties.DeltaTimestamps | app/api/chat/route.ts:205-236 | `firstTokenTime` is stamped only when the total was 0. `firstResponseTokenTime` is stamped only by an answer delta while it is still unset. `thinkingStartTime` is stamped only when a block opens from outside. `thinkingEndTime` is stamped only when `</think>` arrives in a reasoning delta. The start and end times are untouched. A truthy `finish_reason` becomes the stop reason, with or without content, and any other keeps it. |
| DeltaProperties.DeltaEmission | app/api/chat/route.ts:245-261 | A record goes out iff the delta has content, the output is open, the preference does not suppress it, and the output takes it. The output becomes closed exactly when an attempted send is refused. |
| Decoder.Finish | app/api/chat/route.ts:158-177 | The end of the body writes only `endTime`, so an open block stays open and the pending text is not processed. One completion record, with empty content, not reasoning and the final statistics, goes out iff the output is open and takes it. Otherwise the output ends closed. Whole-response consequences are in `SessionProperties.SingleCompletion`. |
| SessionStats.Initial | app/api/chat/route.ts:142-153 | The statistics of a new response: `startTime` is the start reading, nothing is counted, every other timestamp is 0 (unset) and there is no stop reason. The record is balanced and in order. |
| Decoder.Init | app/api/chat/route.ts:136-153 | A response starts with no pending text, the reasoning flag clear, the output open and the statistics of `SessionStats.Initial`. |
| Decoder.Session | app/api/chat/route.ts:136-178 | A whole response starts from `Decoder.Init`, so its statistics start at the start reading, and it ends them at the end reading. Its other properties are in `SessionProperties.SessionConserves`, `SessionSuppresses`, `SingleCompletion` and `TimestampsOrdered`. |
| SessionProperties.LinesIgnoreBuffer | app/api/chat/route.ts:188-267 | Processing lines neither reads nor writes the pending text. |
| SessionProperties.LinesAppend | app/api/chat/route.ts:188-267 | Processing two runs of lines one after the other equals processing their concatenation. |
| SessionProperties.FeedIsLineFold | app/api/chat/route.ts:180-267 | Under one environment, feeding chunks equals processing the complete lines of the whole input in order, with the unterminated tail left pending. |
| SessionProperties.OnlyCompleteLinesMatter | app/api/chat/route.ts:180-267 | Under one environment, two chunkings whose complete lines agree send the same records, whatever their chunk boundaries and unterminated tails. |
| SessionProperties.LinesConserve | app/api/chat/route.ts:204-231 | Processing lines keeps the counts balanced, in the state and in every record sent. |
| SessionProperties.FeedConserves | app/api/chat/route.ts:180-231 | Feeding chunks keeps the counts balanced, in the state and in every record sent. |
| SessionProperties.SessionConserves | app/api/chat/route.ts:142-231 | In a whole response, `totalTokens == thinkingTokens + responseTokens` holds in the final statistics and in the statistics of every record, the completion record included. |
| SessionProperties.FeedWhenClosed | app/api/chat/route.ts:163-261 | Once an output is closed, no chunk and no completion sends anything, and it stays closed. It puts together the closure clauses of `Decoder.ProcessLines`, `Decoder.Feed` and `Decoder.Finish`. |
| SessionProperties.LinesSuppress | app/api/chat/route.ts:245-247 | With the preference exactly `false`, no record from a run of lines is marked reasoning. |
| SessionProperties.FeedSuppresses | app/api/chat/route.ts:245-247 | With the preference exactly `false`, no record from a run of chunks is marked reasoning. |
| SessionProperties.SessionSuppresses | app/api/chat/route.ts:245-247 | With the preference exactly `false`, no record of the whole response is marked reasoning. |
| SessionProperties.LinesNeverComplete | app/api/chat/route.ts:251-256 | Records from lines are never completion records. |
| SessionProperties.FeedNeverCompletes | app/api/chat/route.ts:251-256 | Records from chunks are never completion records. |
| SessionProperties.SingleCompletion | app/api/chat/route.ts:158-178 | Only the last record of a response can be a completion record. It is one iff the output is still open at the end and takes it. It has empty content, is not reasoning, and carries the final statistics. |
| SessionProperties.LinesOrdered | app/api/chat/route.ts:205-236 | Processing lines keeps the timestamps in order and leaves `startTime` unchanged. |
| SessionProperties.FeedOrdered | app/api/chat/route.ts:180-236 | With a non-decreasing clock, feeding chunks keeps the timestamps in order and leaves `startTime` unchanged. |
| SessionProperties.TimestampsOrdered | app/api/chat/route.ts:143-236 | With a non-decreasing clock, the final statistics satisfy start <= first token <= first answer token <= end, and the block start and end times lie between start and end. Each comparison is made only when its timestamps are set (0 means unset), a set first-token time implies a counted token, and `endTime` is the end reading. |
| DeltaRuns.StripPerDelta | app/api/chat/route.ts:243 | If no marker is cut by a delta boundary, cleaning delta by delta equals cleaning the whole output. |
| DeltaRuns.EmittedIsStripped | app/api/chat/route.ts:242-256 | With an open, accepting output and reasoning shown, the browser receives every delta's cleaned text in order, and the output stays open. |
| DeltaRuns.ConcatenationInvariant | app/api/chat/route.ts:242-256 | If no marker is cut by a delta boundary, the text the browser receives is the whole raw output with every marker removed. |
| DeltaRuns.OpeningDelta | app/api/chat/route.ts:216-243 | `<think>` followed by plain text opens a block, holds no `</think>`, and cleans to the plain text. |
| DeltaRuns.ClosingDelta | app/api/chat/route.ts:233-243 | Plain text, `</think>`, plain text holds `</think>` and cleans to the two plain texts. |
| DeltaRuns.WholeBlockDelta | app/api/chat/route.ts:216-243 | A whole block in one delta holds both markers and cleans to its inner text. |
| DeltaRuns.DecoderFlagIsFlagAfter | app/api/chat/route.ts:204-240 | The decoder's reasoning flag after any run of deltas is the fold of `Classify` over their contents, with empty deltas leaving it alone. It therefore equals the reference reading: the last delta holding a marker decides. |
| DeltaRuns.LinesAreDeltas | app/api/chat/route.ts:188-266 | Processing the `data: ` lines of a run of payloads, none of them `[DONE]`, each of which parses to a delta without `finish_reason`, is applying those deltas' contents in order. So the run-level results about deltas hold for the decoder's lines. |
| DeltaRuns.ReasonNotedFirst | app/api/chat/route.ts:195-261 | A delta that carries a `finish_reason` does exactly what the same delta without one does after the stop reason has been noted. |
| DeltaRuns.FinalFrame | app/api/chat/route.ts:188-266 | For reason-free frames followed by a last frame that carries `finish_reason`, the lines send the records of the run of deltas, then the records of the last content applied after the stop reason is noted. |
| DeltaRuns.StrayClose | app/api/chat/route.ts:214-240 | A `</think>` delta outside a block is an answer token. It adds one to `responseTokens`, stamps an unset `firstResponseTokenTime`, and goes out as an empty answer record. |
| DeltaRuns.ShownStep | app/api/chat/route.ts:204-256 | With reasoning shown and an accepting output, one non-empty delta sends exactly its cleaned text with its classification. The counters and flag move as classified. |
| DeltaRuns.HiddenStep | app/api/chat/route.ts:204-261 | With the preference exactly `false` and an accepting output, one non-empty delta sends its cleaned text iff it is an answer delta. It is counted either way, and the flag moves as classified. |
| DeltaRuns.ScenarioShown | app/api/chat/route.ts:204-256 | An answer delta, a whole block in one delta, then an answer delta send answer, reasoning (the inner text), answer. That is one reasoning token and two answer tokens. |
| DeltaRuns.ScenarioSuppressed | app/api/chat/route.ts:245-247 | With the preference exactly `false`, the same deltas send only the two answer records. The reasoning token is still counted. |
| DeltaRuns.ScenarioMarkerDeltas | app/api/chat/route.ts:216-256 | `<think>`, text, `</think>` as three deltas send three reasoning records, the first and last empty. That is three reasoning tokens, and the flag is clear afterwards. |
| DeltaRuns.ScenarioSplitBlock | app/api/chat/route.ts:214-243 | `<think>x` then `y</think>z`: both deltas are reasoning, with texts `x` and `yz`, and the flag is clear after the second. |
| Request.Validate | app/api/chat/route.ts:53-65 | The rejection is the first failing check, in source order. `messages` must be an array. Then `selectedModel` must be truthy. Then `serverUrl` must be truthy. A body passes iff all three hold, and an accepted body carries the fields unchanged. |
| Request.Endpoint | app/api/chat/route.ts:83 | The upstream URL is the server URL as given, followed by `/v1/chat/completions`. |
| Request.UpstreamBody | app/api/chat/route.ts:89-115 | The thinking preset and the `thinking` field are sent iff `enableThinking` is exactly `true`. Both presets stream with `top_k` 20 and `max_tokens` 2000, and forward the model and messages unchanged. |
| Request.EndpointInjective | app/api/chat/route.ts:83 | Different server URLs give different upstream URLs. |
| Request.Respond | app/api/chat/route.ts:47-115 | A body is answered with a failure iff it fails a check. The failure has status 500 and the fixed error text, and its `details` are the failed check's message. Any other body opens the stream to its server's endpoint, with its model, its messages and the `thinking` field iff the preference is exactly `true`. |
| Request.DetailsIdentify | app/api/chat/route.ts:53-65 | Each failed check has its own message, so the `details` tell which check failed. |
| Request.PreferenceReadings | app/api/chat/route.ts:89-115 | The preset choice and the suppression at line 246 never both act. A preference that is neither `true` nor `false` gets the standard preset and still sees reasoning. |

## Left out

- The HTTP exchange itself is not modelled. This covers `fetch`, the non-OK status path (`controller.error` with the status) and a missing reader.
- `TextDecoder`: chunks are modelled as already-decoded strings.
- `JSON.parse` and the `choices[0]?.delta?.content` extraction are the `parse` parameter. Content that is truthy but not a string, which would throw after counting, is not modelled.
- A `finish_reason`, `selectedModel` or `serverUrl` that is a truthy non-string is not modelled.
- `Date.now` is one clock reading per chunk (`Env.now`). The source may read the clock several times within one chunk.
- `Env.accepts` is one answer per chunk. An enqueue that fails partway through a chunk, after an earlier record of the same chunk was sent, is not modelled.
- The floating-point sampling values (temperature, top_p, min_p) are not modelled. Only which preset is chosen is modelled.
- `completeResponse` and all console output are left out, because nothing observable depends on them.
- Reader errors (lines 269-277) are not modelled.
- `controller.close`, `controller.error` and `releaseLock` are not modelled, because they end the stream without sending a record.
- The failure response (the `catch` block, lines 299-315, answering at 308-314) is modelled as its status, error text and details (`Request.Respond`). Its JSON encoding and console output are not modelled.
- A request body that `request.json()` cannot parse, or that parses to `null`, also gets the failure response, with the parser's or the destructuring's message as `details`. `Request.Respond` starts from an already-parsed body, so it does not express this case.
- `getAvailableModels` (lines 15-42) is never called. The model-list route and the page component are not part of this model.

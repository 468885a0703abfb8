# OpenAvatarChat conversation core, in Dafny

A model of the logic that turns a user's speech into a reply in the digital-avatar chat server:

- **Speech recognition** (`asr.dfy`). This is the recognition session of the Paraformer speech-recognition handler:
  - it starts a streaming recognizer on the first audio of a turn;
  - between ticks it drains the result queue into intermediate sentences;
  - at the end of speech it stops the recognizer, empties the session and emits the final text and an end-of-turn sentinel, or re-enables voice-activity detection.
- **LLM handler** (`llm_handler.dfy`, `prompt.dfy`, `survey.dfy`, `profile.dfy`). This is the turn logic of the OpenAI-compatible LLM handler:
  - it chooses the session's user id and builds the system prompt from a template, the user's profile and assessment report, and a closing instruction;
  - it switches the prompt when the first human text arrives;
  - it buffers human-text fragments until the end of a turn, strips `<|…|>` markup, and asks for a reply, which always ends with one empty end-of-turn sentinel.
- **Report formatters** (`survey.dfy`, `profile.dfy`). `parse_survey_data` files assessment items under three categories, found by the "处于…群体" patterns. `parse_user_info` renders six profile fields in a fixed order.
- **User-id store** (`user_id_storage.py` as `user_id_storage.dfy`). This is the session-to-user map.
- **Request extraction** (`user_data.dfy`). This extracts user data from requests: the precedence of query, header, body and path sources, and how the result is written to the session.

Supporting modules:

- `wrappers.dfy` has `Option`.
- `text.dfy` has Python's `str.strip()`, the `<\|.*?\|>` substitution as a recursive function, and `"sep".join`.
- `lex.dfy` has Python's code-point string order and a duplicate-free insertion sort.
- `chat.dfy` has the text bundles the handlers emit.

Everything is a pure function over immutable values. The state a handler keeps between calls is a context record, passed in and returned.

Collaborators the model cannot see become parameters:

- the profile and assessment services are functions from a user id to the already-decoded response, or `None` when the call failed;
- the streaming completion is a `Completion` value: the text deltas, or an API error before or during streaming;
- what the recognizer delivers while it is being stopped is a sequence of events;
- the clock of the user-id store is a `now` argument.

Where the code's behaviour differs from what its comments or documentation suggest, the model follows the code:

- the intermediate drain emits sentences without removing `<|…|>` markup;
- the final text also includes partial, not-yet-final sentences left in the queue;
- when a turn's stripped text is empty, the LLM handler returns before clearing its input buffer, so the text stays buffered into the next turn;
- `Asr.Handle` runs the end-of-speech drain as written, including the defect listed under "## Findings"; `Asr.HandleCorrected` is the same tick with the corrected drain.

The request extractors come in two versions, both described under "## Findings". `UserData.ExtractUserIdAsWritten` and `UserData.ExtractUserDataAsWritten` treat `request.json` as the framework's method, as the code does. `UserData.ExtractUserId` and `UserData.ExtractUserData` read it as the decoded JSON body.

Python's regular expressions are written as leftmost-search functions. `.` never crosses a line break there, as in Python's default mode.

## Model

| member | source | states |
|---|---|---|
| Text.Strip | src/handlers/asr/paraformer/asr_handler_paraformer.py:243 | `str.strip()`: the result is no longer than the input and neither starts nor ends with white space |
| Text.StripIsTrimmedPiece | src/handlers/asr/paraformer/asr_handler_paraformer.py:243 | the stripped text is a contiguous piece of the input, and everything cut away before and after it is white space |
| Text.StripEmptyIff | src/handlers/asr/paraformer/asr_handler_paraformer.py:243-244 | a stripped text is empty exactly when the text is all white space |
| Text.FindInLine | src/handlers/llm/openai_compatible/llm_handler_openai_compatible.py:481 | the lazy `.*?` before a literal finds its leftmost occurrence with no line break before it, and finds none exactly when every occurrence has a line break before it |
| Text.StripMarkupNoOpen | src/handlers/llm/openai_compatible/llm_handler_openai_compatible.py:481 | `re.sub(r"<\|.*?\|>", "", s)` leaves a text holding no `<|` unchanged |
| Text.JoinEmptyIff | src/handlers/llm/openai_compatible/llm_handler_openai_compatible.py:79 | a "\n"-join is empty exactly when there are no parts, or only one empty part |
| Text.JoinSnoc | src/handlers/llm/openai_compatible/llm_handler_openai_compatible.py:346 | joining one more part puts the separator before it |
| Lex.LessTransitive | src/handlers/llm/openai_compatible/llm_handler_openai_compatible.py:76 | Python's string order is transitive (with `LessIrreflexive` and `LessTotal`, a strict total order) |
| Lex.SortedSet | src/handlers/llm/openai_compatible/llm_handler_openai_compatible.py:73-77 | `sorted(set(names))` is strictly ascending and holds exactly the given names |
| Lex.SortedUnique | src/handlers/llm/openai_compatible/llm_handler_openai_compatible.py:76 | two strictly ascending lists with the same elements are equal, so the sorted list depends only on the set of names |
| Survey.Search | src/handlers/llm/openai_compatible/llm_handler_openai_compatible.py:51-61 | `re.search` returns the group of the leftmost match, with no match at any earlier position, and returns nothing only when no position matches |
| Survey.ExtractGroupIff | src/handlers/llm/openai_compatible/llm_handler_openai_compatible.py:46-61 | a report text yields a group exactly when some 处于 is followed by 群体 on the same line: the fallback pattern catches whatever the primary one misses |
| Survey.ExtractedGroupIsBetween | src/handlers/llm/openai_compatible/llm_handler_openai_compatible.py:46-66 | the extracted group, from either pattern, is the stripped text between a 处于 and the next 群体 on its line |
| Survey.FallbackLeftmost | src/handlers/llm/openai_compatible/llm_handler_openai_compatible.py:55-58 | the fallback search captures after the first 处于 that has a 群体 on its line, up to the nearest such 群体 |
| Survey.ExtractGroupLeftmost | src/handlers/llm/openai_compatible/llm_handler_openai_compatible.py:46-61 | a primary-pattern match wins even when the fallback pattern would match earlier; otherwise the group is taken after the first 处于 that has a 群体 on its line, and ends at the nearest such 群体 |
| Survey.Names | src/handlers/llm/openai_compatible/llm_handler_openai_compatible.py:39-69 | a name is gathered under a category exactly when some item with both fields has that name and names that group |
| Survey.CategoryNames | src/handlers/llm/openai_compatible/llm_handler_openai_compatible.py:33-37 | a category's names are strictly sorted (so duplicate-free), and are exactly the names filed under it |
| Survey.LineIfAny | src/handlers/llm/openai_compatible/llm_handler_openai_compatible.py:73-77 | a category contributes one non-empty line exactly when it has names, and none otherwise |
| Survey.SurveyLines | src/handlers/llm/openai_compatible/llm_handler_openai_compatible.py:71-79 | the report has at most one line per category, three in all, and no line is empty |
| Survey.SurveyLinesPerCategory | src/handlers/llm/openai_compatible/llm_handler_openai_compatible.py:71-79 | the report lines are exactly, in the fixed category order, one `category: a, b` line for each category that has names |
| Survey.SurveyEmptyIff | src/handlers/llm/openai_compatible/llm_handler_openai_compatible.py:26-79 | the report is empty exactly when no item is filed under one of the three categories |
| Survey.ItemWithoutCategoryIgnored | src/handlers/llm/openai_compatible/llm_handler_openai_compatible.py:39-69 | an item lacking "name" or "value", whose text names no group, or whose group is not a category, leaves the report unchanged |
| Survey.SameListingSameReport | src/handlers/llm/openai_compatible/llm_handler_openai_compatible.py:71-79 | the report depends only on which names are filed under which category: it does not see duplicates or item order |
| Survey.ReportIgnoresItemOrder | src/handlers/llm/openai_compatible/llm_handler_openai_compatible.py:26-79 | permuting the items leaves the report unchanged |
| Profile.DisplayValue | src/handlers/llm/openai_compatible/llm_handler_openai_compatible.py:91-109 | only a sex code '1', '2' or '0' is changed, and it becomes 男, 女 or 未知; every other value passes through |
| Profile.PresentFields | src/handlers/llm/openai_compatible/llm_handler_openai_compatible.py:103-106 | a field is rendered exactly when it is one of the six and the record holds it with a non-null value |
| Profile.ProfileLinesFollowFields | src/handlers/llm/openai_compatible/llm_handler_openai_compatible.py:103-111 | the k-th line is `label: value` of the k-th present field, in the fixed field order |
| Profile.ProfileEmptyIff | src/handlers/llm/openai_compatible/llm_handler_openai_compatible.py:82-111 | the profile text is empty exactly when none of the six fields is present and non-null |
| Profile.JoinedLinesEmptyIff | src/handlers/llm/openai_compatible/llm_handler_openai_compatible.py:103-111 | for any field list, the joined lines are empty exactly when none of its fields is present and non-null |
| Profile.ProfileDependsOnlyOnFields | src/handlers/llm/openai_compatible/llm_handler_openai_compatible.py:103-109 | keys other than the listed fields, and values of absent fields, do not affect the text |
| Profile.SexLineSpelledOut | src/handlers/llm/openai_compatible/llm_handler_openai_compatible.py:98-109 | a present sex code is shown as its spelled-out name on the 性别 line |
| Prompt.ConversationPromptLayout | src/handlers/llm/openai_compatible/llm_handler_openai_compatible.py:426-442 | the rebuilt prompt is the template, then the profile block only if non-empty, then the survey block only if non-empty, joined by blank lines |
| Prompt.InitialPromptLayout | src/handlers/llm/openai_compatible/llm_handler_openai_compatible.py:311-346 | the creation prompt is template "B" or the default, the non-empty blocks, then the closing instruction chosen by the phase flag, joined by blank lines |
| LlmHandler.CreateUserId | src/handlers/llm/openai_compatible/llm_handler_openai_compatible.py:277-305 | the session's user id wins when it is truthy and not the default; else a truthy stored id; else the default. An id is published back exactly when it is non-empty and not the default |
| LlmHandler.CreateContext | src/handlers/llm/openai_compatible/llm_handler_openai_compatible.py:258-358 | a new context keeps the session id and the configuration in force, and is in its opening phase with empty buffers and history; its user id and the id published to the session are those the creation precedence picks; its prompt is the base, then the profile and survey blocks of that user, then the opening instruction |
| LlmHandler.UpdateUserId | src/handlers/llm/openai_compatible/llm_handler_openai_compatible.py:391-416 | the rebuild uses the context's own id when it is not blank, else a truthy stored id, else the configured default |
| LlmHandler.RebuildKeepsCreationUser | src/handlers/llm/openai_compatible/llm_handler_openai_compatible.py:302-393 | in a created session, a rebuild uses the user chosen at creation, unless that id is blank, whatever the store holds by then |
| LlmHandler.UpdateSystemPrompt | src/handlers/llm/openai_compatible/llm_handler_openai_compatible.py:360-443 | without the named template nothing changes; with it only the prompt and the phase flag change, the flag becomes false and the prompt is the template followed by the profile and survey blocks of the user `UpdateUserId` picks |
| LlmHandler.SwitchPhase | src/handlers/llm/openai_compatible/llm_handler_openai_compatible.py:453-459 | the phase flag never goes from false to true; it goes to false exactly on human text while template "A" exists, and then the prompt becomes template "A" followed by the profile and survey blocks of the rebuild's user; on any other input nothing changes |
| LlmHandler.PromptSwitchesOnce | src/handlers/llm/openai_compatible/llm_handler_openai_compatible.py:453-459 | after the first human text has switched to template "A", the opening phase is over and later inputs leave the context as it is |
| LlmHandler.ChunkBundles | src/handlers/llm/openai_compatible/llm_handler_openai_compatible.py:505-514 | no bundle ends the turn or is empty, all carry the speech id, and together they spell out the whole reply |
| LlmHandler.ChunkBundlesPerDelta | src/handlers/llm/openai_compatible/llm_handler_openai_compatible.py:505-514 | exactly one bundle per delta with content, in arrival order: the k-th bundle carries the k-th non-empty delta |
| LlmHandler.ReplyBundles | src/handlers/llm/openai_compatible/llm_handler_openai_compatible.py:503-536 | the bundles of one reply: one per delta with content, in order; after an API error its message; then the sentinel, the only bundle that ends the turn |
| LlmHandler.Respond | src/handlers/llm/openai_compatible/llm_handler_openai_compatible.py:480-536 | the outputs are one bundle per delta with content, then the error message after an API error, then the sentinel; the reply request carries the turn text, the prompt, the history and the pending camera frame; the outputs end with exactly one empty sentinel, none before it ends the turn, all carry the speech id, and the buffers are cleared; the frame is consumed unless `create()` fails; only a completed stream adds the human and avatar messages to the history |
| LlmHandler.HandleText | src/handlers/llm/openai_compatible/llm_handler_openai_compatible.py:469-536 | a fragment that does not end the turn is only appended; at the end of the turn a request is made exactly when the stripped text is non-empty, and its outputs are those of `Respond` for the outcome; else the text stays buffered and nothing is emitted |
| LlmHandler.Handle | src/handlers/llm/openai_compatible/llm_handler_openai_compatible.py:448-536 | outputs appear exactly when a completion is requested, which needs human text that ends the turn; the phase flag only goes to false; the configuration never changes; a camera frame becomes the pending image when video input is enabled, and any other non-text input changes nothing |
| LlmHandler.FrameGoesWithNextTurn | src/handlers/llm/openai_compatible/llm_handler_openai_compatible.py:462-502 | a camera frame is sent with the next turn-ending text; after a failed `create()` it is still pending, otherwise it is consumed |
| LlmHandler.StreamedTurnHistory | src/handlers/llm/openai_compatible/llm_handler_openai_compatible.py:503-516 | a streamed reply adds the human text and the full reply to the history and spells the reply out in the outputs |
| LlmHandler.FailedTurnKeepsHistory | src/handlers/llm/openai_compatible/llm_handler_openai_compatible.py:517-536 | an API error leaves the history as it was and sends the error text just before the sentinel |
| LlmHandler.FragmentAccumulates | src/handlers/llm/openai_compatible/llm_handler_openai_compatible.py:473-478 | a human-text fragment that does not end the turn is appended to the turn buffer |
| LlmHandler.FeedAccumulates | src/handlers/llm/openai_compatible/llm_handler_openai_compatible.py:473-478 | fragments before the end of a turn are concatenated in arrival order |
| LlmHandler.TurnTextIsStrippedConcatenation | src/handlers/llm/openai_compatible/llm_handler_openai_compatible.py:473-493 | the turn's request text is the markup-stripped concatenation of all its fragments, and an empty one yields no output at all |
| LlmHandler.OpeningPhaseEndsOnFirstText | src/handlers/llm/openai_compatible/llm_handler_openai_compatible.py:453-459 | with template "A" configured, any human text ends the opening phase |
| LlmHandler.FeedKeepsPhaseOver | src/handlers/llm/openai_compatible/llm_handler_openai_compatible.py:442 | once over, the opening phase never returns, whatever is handled |
| UserIdStorage.SetUserId | src/utils/user_id_storage.py:21-25 | the session now maps to the new id and every other entry is unchanged |
| UserIdStorage.GetUserId | src/utils/user_id_storage.py:27-37 | the stored id, or `None` exactly when the session is unknown |
| UserIdStorage.RemoveUserId | src/utils/user_id_storage.py:39-44 | only the given session's entry disappears |
| UserIdStorage.CleanupExpired | src/utils/user_id_storage.py:46-53 | the entries never change; the clean-up time moves, to now, exactly when more than 300 seconds have passed |
| UserIdStorage.RemoveAfterSet | src/utils/user_id_storage.py:21-44 | removing after storing undoes the store |
| UserData.PathUserIdShape | src/utils/user_data_extractor.py:41-47 | the path id is the non-empty segment, up to the next "/", after the first "/user/" that has one; there is none exactly when every "/user/" is followed by "/" or the end |
| UserData.FirstTruthy | src/utils/user_data_extractor.py:22-50 | the result is a truthy candidate, and there is none exactly when no candidate is truthy |
| UserData.ExtractUserIdIsFirstTruthy | src/utils/user_data_extractor.py:11-50 | the id is the first truthy of query `user_id`, header `X-User-ID`, body `user_id` and the path segment, in that order, else `None` |
| UserData.ExtractUserData | src/utils/user_data_extractor.py:95-96 | the keys of the extracted data are among the six fixed keys |
| UserData.ExtractUserDataPrecedence | src/utils/user_data_extractor.py:72-96 | per key: a truthy query value wins, then (id and name only) a truthy header, then a truthy body value; a key with no truthy source survives only with an empty value |
| UserData.HeadersOnlyFillIdAndName | src/utils/user_data_extractor.py:81-86 | the headers never affect the four keys other than the id and the name |
| UserData.ExtractorsAgreeOnId | src/utils/user_data_extractor.py:11-107 | a non-empty extracted id is the one the single-id extractor finds |
| UserData.ExtractUserIdAsWritten | src/utils/user_data_extractor.py:21-54 | as written: an id is found exactly when the query or the header gives a truthy one; the body and path steps are never reached |
| UserData.ExtractUserIdAsWrittenAgrees | src/utils/user_data_extractor.py:21-54 | an id the code as written finds is the corrected extractor's; otherwise the corrected one goes on to the body, then the path |
| UserData.PathIdUnreachableAsWritten | src/utils/user_data_extractor.py:34-47 | for a request whose id is only in the path `/user/u1`, the code as written gives `None` and the corrected extractor gives `u1` |
| UserData.ExtractUserDataAsWritten | src/utils/user_data_extractor.py:67-107 | as written: the result is empty unless the query and headers fill all six keys, and then it holds all six, non-empty |
| UserData.ExtractUserDataAsWrittenAgrees | src/utils/user_data_extractor.py:88-103 | when the query and headers fill all six keys, the code as written and the corrected extractor agree |
| UserData.PartialDataLostAsWritten | src/utils/user_data_extractor.py:88-107 | a request with only a query `user_id` gives `{}` as written, while the corrected extractor keeps the id |
| UserData.SetUserDataToSession | src/utils/user_data_extractor.py:110-131 | every key with a truthy value (the id included) is set on the session; every other attribute is kept |
| Asr.CreateContext | src/handlers/asr/paraformer/asr_handler_paraformer.py:161-175 | a new session has no recognizer, nothing buffered and nothing queued |
| Asr.Deliver | src/handlers/asr/paraformer/asr_handler_paraformer.py:53-59 | a recognizer event or error joins the end of the queue and keeps the session invariant |
| Asr.StartIfIdle | src/handlers/asr/paraformer/asr_handler_paraformer.py:199-210 | a recognizer is started only when none is running, and then the session is processing |
| Asr.SendFrames | src/handlers/asr/paraformer/asr_handler_paraformer.py:212-219 | the non-empty frames, in order, are appended to the kept audio and sent to the running recognizer, which is not replaced |
| Asr.Forward | src/handlers/asr/paraformer/asr_handler_paraformer.py:199-219 | with audio, a recognizer is started only when none runs and the non-empty frames are kept and sent to it; without audio nothing changes; the queue and the sentence buffer are untouched |
| Asr.DrainIntermediate | src/handlers/asr/paraformer/asr_handler_paraformer.py:232-268 | the buffer grows by exactly the emitted texts, and each emitted text differs from everything buffered before it, so no text is emitted twice in a turn |
| Asr.DrainOne | src/handlers/asr/paraformer/asr_handler_paraformer.py:237-256 | one queued entry: a sentence-end text not yet buffered is emitted and buffered; anything else emits nothing and changes nothing |
| Asr.DrainAppend | src/handlers/asr/paraformer/asr_handler_paraformer.py:235-259 | draining a queue is draining its first part, then its second part against the grown buffer, so texts come out in queue order |
| Asr.DrainEmitsOnlyFinalSentences | src/handlers/asr/paraformer/asr_handler_paraformer.py:237-256 | only the stripped, non-empty texts of sentence-end results are emitted |
| Asr.DrainCoversFinalSentences | src/handlers/asr/paraformer/asr_handler_paraformer.py:246-248 | after a drain, every sentence-end text of the drained queue is in the buffer |
| Asr.RedeliveryEmitsNothing | src/handlers/asr/paraformer/asr_handler_paraformer.py:246-256 | sentences delivered again in the same turn produce no further output |
| Asr.DrainIgnoresNonFinal | src/handlers/asr/paraformer/asr_handler_paraformer.py:237-259 | an error, a partial sentence or a blank sentence anywhere in the queue changes nothing |
| Asr.FinalTextAppend | src/handlers/asr/paraformer/asr_handler_paraformer.py:284-296 | the final text of a queue is the in-order concatenation of the final texts of its parts |
| Asr.FinalTextEmptyIff | src/handlers/asr/paraformer/asr_handler_paraformer.py:286-296 | the final text is empty exactly when no queued result carries a non-blank sentence, whether sentence-end or not |
| Asr.Reset | src/handlers/asr/paraformer/asr_handler_paraformer.py:280-304 | after the end of speech no recognizer runs, and audio, sentences and queue are empty |
| Asr.FinalDrainAsWritten | src/handlers/asr/paraformer/asr_handler_paraformer.py:270-327 | as written: a non-empty unstripped text gives the stripped text and a sentinel; an empty one re-enables voice-activity detection and gives nothing; the session is reset either way |
| Asr.FinalDrain | src/handlers/asr/paraformer/asr_handler_paraformer.py:270-327 | the session is reset; either nothing is emitted and voice-activity detection is re-enabled, or exactly the non-empty stripped text then an empty end sentinel, both tagged with the speech id |
| Asr.MarkupOnlyResultAsWritten | src/handlers/asr/paraformer/asr_handler_paraformer.py:307-320 | a text that is non-empty but all markup makes the code as written send an empty text and a sentinel and leave voice-activity detection off |
| Asr.MarkupOnlyResultExists | src/handlers/asr/paraformer/asr_handler_paraformer.py:307-308 | a single sentence `<\|NOISE\|>` is such a text |
| Asr.NoiseTurnAsWritten | src/handlers/asr/paraformer/asr_handler_paraformer.py:307-327 | on a session whose queue holds only `<\|NOISE\|>` and whose voice-activity detection is off, the code as written sends an empty text and a sentinel and leaves detection off, while the corrected drain sends nothing and turns detection on |
| Asr.Handle | src/handlers/asr/paraformer/asr_handler_paraformer.py:177-230 | non-audio input changes nothing; at most one recognizer runs and a new one starts only when none did; between ticks the context is the forwarded session (recognizer running, non-empty frames kept and sent) with the drained queue and grown sentence buffer, and the outputs are the texts the intermediate drain emits, as intermediate bundles tagged with the turn's speech id (the session id by default); at the end of speech the result is the as-written final drain of the forwarded session, which is left idle |
| Asr.HandleCorrected | src/handlers/asr/paraformer/asr_handler_paraformer.py:221-230 | with the corrected drain: the end of speech never sends an empty human text, sends nothing exactly when the markup-free final text is empty, and otherwise sends that text and a sentinel; every other input is handled as `handle` does |
| Asr.NoiseTurnHandled | src/handlers/asr/paraformer/asr_handler_paraformer.py:221-327 | through `handle`, the `<\|NOISE\|>` session ends with an empty human text and a sentinel and leaves detection off; with the corrected drain it sends nothing and turns detection on |
| Asr.DestroyContext | src/handlers/asr/paraformer/asr_handler_paraformer.py:329-349 | the recognizer is stopped and dropped |

## Left out

- The HTTP lookups behind `get_user_info` and `get_user_survey_data` (lines 114-181 of the LLM handler): their request headers, JSON decoding, module-level caches and logging. The model takes their decoded result, or `None` on any failure, as a function parameter.
- The OpenAI client, the request history window (`ChatHistory`, `generate_next_messages`) and the video-frame encoding. These are foreign code. History is an append-only list of (role, text) messages, and the request records the current image instead of encoding it.
- LlmHandler.FailedTurnKeepsHistory: only `APIStatusError` is modelled as a failure. Any other exception raised while streaming reaches code that reads `response` when it was never bound, and that path is not modelled.
- The error body of an `APIStatusError`, or its `message` field when it has one, is the `message` string of a failed completion.
- Logging, `print`, the audio dump file, and `destroy_context`/`start_context` of the LLM handler. They have no effect on state.
- The speech-recognition engine, its thread delivery and `queue.Queue` concurrency. `recognition.start()` and `send_audio_frame` are called outside any `try` (src/handlers/asr/paraformer/asr_handler_paraformer.py:208, 219), so an engine error there leaves `handle` as an exception; the model has no engine errors and does not state that path. The result queue is a sequence filled by `Deliver`. What `Recognition.stop()` flushes synchronously is a parameter of the end-of-speech tick.
- The float-to-int16 conversion, `squeeze` and `slice_data`. These are numeric or not shown. An input carries the frames the slicer yields.
- Exceptions inside the drains: the code catches and logs them and does nothing else.
- `RecognitionResult.is_sentence_end` is a flag of the sentence.
- Starlette's header lookups are case-insensitive; the model's header map is exact.
- UserData.ExtractUserId and UserData.ExtractUserData read `request.json` as the decoded body and consult only a non-empty one. This is the corrected half of the finding below; the code as written is `ExtractUserIdAsWritten` and `ExtractUserDataAsWritten`. Body values are strings only: a JSON number such as a `user_id` of `7` is truthy in the code and kept as a number, which the model cannot express.
- Profile.DisplayValue: field values are strings only. A JSON number such as a `sex` of `1` is not a key of the string-keyed sex table, so the code renders it as `1`; the model has no numeric values, so this case is not stated.
- Survey.Search: a survey item's `"value"` is a string only. A non-string value makes `re.search` raise, and `get_user_survey_data` then returns an empty report; that path is not modelled.
- The catch-all `except` in the extractors is not modelled.
- `create_session_context_with_user_data` and the other helpers of `user_data_extractor.py` after line 131 are outside the modelled core.
- The user-id store's lock and clock. The lock only serialises operations. The clock is a `now` argument, so the model uses real seconds instead of `time.time()`.
- `tools.py`, `demo.py` and the logging configuration are server wiring with no logic to state.

## Findings

| source | as written | input that shows it | evidently intended | confidence | as-written member | corrected member |
|---|---|---|---|---|---|---|
| src/handlers/asr/paraformer/asr_handler_paraformer.py:307-320 | the emptiness test on the final text runs before `<\|…\|>` markup is removed | a turn whose only result is the sentence `<\|NOISE\|>`: it yields an empty human text and an end sentinel, and voice-activity detection stays off (`Asr.NoiseTurnAsWritten`, and through `handle`, `Asr.NoiseTurnHandled`) | test the text after markup removal, so a markup-only result counts as empty: nothing is yielded and voice-activity detection is re-enabled, as the comment on line 317 asks for an empty result | medium, not executed | Asr.FinalDrainAsWritten | Asr.FinalDrain |
| src/utils/user_data_extractor.py:35-39 | `request.json` is the framework request's `json` method, so it passes the truthiness test and `request.json.get` raises `AttributeError`, which the handler catches by returning `None` | a request whose id is only in the path `/user/u1`: the code returns `None` and never reaches the path step (`UserData.PathIdUnreachableAsWritten`) | read the decoded JSON body, so a missing body id falls through to the path step | medium, not executed | UserData.ExtractUserIdAsWritten | UserData.ExtractUserId |
| src/utils/user_data_extractor.py:89-93 | the same `request.json.get` call raises at the first key still falsy after the query and headers, and the handler returns `{}` | a request with only a query `user_id`: the code returns `{}` and loses the id (`UserData.PartialDataLostAsWritten`) | read the decoded JSON body and keep whatever the query and headers gave | medium, not executed | UserData.ExtractUserDataAsWritten | UserData.ExtractUserData |

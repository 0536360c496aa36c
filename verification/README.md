# Chat summary plugin — a Dafny model of its core

The plugin records group-chat messages and, on the command `$总结`, asks a
language model to summarise the recent ones. This project models the pure
logic of that command in `main.py`:

- `find_json`, which cuts the JSON object out of the model's answer to a
  free-text request (module `FindJson`);
- `_check_tokens`, which encodes records, oldest first, into the summary
  query and refuses a query over the token budget (module `Budget`);
- `_split_messages_to_summarys`, which carves the newest-first records into
  batches with its own binary search and collects one summary per batch
  (module `Splitter`);
- in `on_handle_context`:
  - the rate limit, the record limit and the time window (module `Command`);
  - the stripping of quoted-reply markers from record contents (module `Marker`);
  - the final reply: a single summary, or the merge request over several and
    its outcome (module `Reducer`, with the reply texts in `Replies`).

`Records` holds the database row and `Seqs` holds sequence helpers. The
language model, the tokenizer, `json.loads` and the clock are parameters:

- `tokens: string -> nat` counts the tokens of a summary query;
- `replies: seq<LmReply>` answers the model's requests in order;
- `translation: LmReply` is what the model returns for a free-text request;
- `parse` stands for `json.loads` plus the field reads, and is `None` when
  they raise;
- `now: real` is `time.time()`.

The IndexError that `_check_tokens` raises on an empty slice is modelled as
an outcome of each layer that can meet it: `EmptyIndexError` for a probe,
`SearchCrash` for the search, `StepCrash` for a batch step, `IndexError` for
a loop pass, `Crashed` for the splitter and `Raised` for the handler.

The splitter's binary search is modelled as written, with its edge cases:

- a batch sends `records[:left-1]` but advances by `left`, so one record per
  such batch is counted in the reply's total without ever being sent;
- when the search ends at `left` 0, the final probe is `records[:-1]`, all
  but the oldest record;
- a probe at `mid` 0 reads `records[0]` of an empty slice and raises. For
  example, four records where one fits but two do not probe 2, then 0.

Which of these a pass does is read off which prefixes fit: `Splitter.RouteOf`
follows the probes the search makes while `left` is still 0.

Batches are taken from the newest end of the list: the code tries
`records[:mid]` on a newest-first list, so when the cap of batches is
reached the records left unsummarised are the oldest ones.

A free-text request (line 279) hands `find_json` the reply dict that
`_translate_text_to_commands` returns (lines 360-362), so `re.search` raises
`TypeError`, the handler at lines 288-290 catches it and the command returns
without a reply. As written, no free-text request ever reaches the
summarising code; `Command.Plan` models this and `Command.PlanOnContent`
models the evidently intended reading of the reply's `content` (see
"## Findings").

## Model

| member | source | states |
|---|---|---|
| FindJson.Find | main.py:48-55 | The result is empty exactly when the text has no `{` with a `}` after it. Otherwise it is the slice from the first `{` to the last `}`: it starts with `{`, ends with `}`, no `{` lies before it and no `}` after it. |
| FindJson.FindIdempotent | main.py:48-55 | Applying the extraction to its own result changes nothing. |
| Budget.Shown | main.py:153-154 | An image or voice record is shown as its type tag in brackets. Any other record is shown as its content. |
| Budget.EncodeEnds | main.py:148-160 | The query text is empty only for no records. Otherwise it opens with the oldest record's piece and closes with the newest one's. |
| Budget.EncodeOldestFirst | main.py:148-160 | The encoding of a newest-first list equals the concatenation of each record's piece over the reversed list, i.e. oldest record first. |
| Budget.EncodeAppend | main.py:148-160 | Encoding newer records followed by older ones puts the older records' text first. |
| Budget.EncodePrefix | main.py:148-160 | The query of the newest `j` records is the query of records `i..j` followed by that of the newest `i`. |
| Budget.PieceShape | main.py:153-160 | Each record's piece starts with a blank line followed by the user name and the quoted content. A triggered record's piece then ends in ` <T>`; an untriggered record's piece ends at the closing quote. |
| Budget.CheckTokens | main.py:147-172 | An empty record list raises (the read of `records[0]`). A non-empty list gives a session exactly when its query is within the budget, and that session is the summary prompt with the list's query. |
| Splitter.SliceTo | main.py:186 | Python's `s[:k]` for every integer `k`, including a negative `k` counting from the end and `k` past either end. |
| Splitter.LargestFitUpTo | main.py:182-190 | The longest fitting prefix no longer than `k`: it fits, and no longer prefix up to `k` fits. This is the reference the search is compared with. |
| Splitter.ProbePrefix | main.py:186-187 | Probing `records[:k]` raises exactly when `k` is 0, and gives a session exactly when the newest `k` records fit. |
| Splitter.BinarySearch | main.py:182-190 | The search ends with `left` never 1. A `left` of 2 or more means `left-1` records fit, and `left` or `left+1` do not. `left` stays 0 exactly when every probe along the halving of `right` fails: the search then probes `records[:0]` and raises exactly when that halving reaches 1, and otherwise ends with `left` 0. |
| Splitter.ProbeBatch | main.py:179-196 | A remainder that fits whole is sent whole and consumed. Otherwise a probe that fitted gives a batch of `last-1` records advancing by `last`, where `last-1` fits and `last` or `last+1` does not. When every probe failed, it sends all but the oldest record and advances by nothing, stops when those do not fit, or raises when the search reached `mid` 0. Which of these happens is exactly what the remainder's route, read off which prefixes fit, says. |
| Splitter.SearchBracketsLargestFit | main.py:182-192 | When fitting is closed under shortening, the sent length is within one of the longest fitting prefix. |
| Splitter.MonotoneFitFromTokens | main.py:148-169 | If dropping older text never adds tokens, then every shorter prefix of a fitting prefix fits. |
| Splitter.NextBatch | main.py:179-196 | The batch probed at offset `count` is the matching slice of the whole input, fits, and is the one the remainder's route makes. The pass stops without a request, or raises, exactly when that route says so. At any offset, a remainder that fits whole is sent as one batch and consumed whole. |
| Splitter.TracedAt | main.py:179-201 | In a trace of requests, the request at any index is the summary session of its slice of the input, fits the budget and advanced as a batch step allows. |
| Splitter.TracedSent | main.py:179-201 | In a trace of requests, every request is the summary session of its slice of the input and fits the budget. |
| Splitter.TracedLinkAt | main.py:178-214 | In a trace of requests, the batch at any index starts at 0 if it is the first, and otherwise where the previous batch's advance ended. |
| Splitter.TracedContiguous | main.py:178-214 | In a trace of requests, the first batch starts at 0 and each later one starts where the previous advance ended. |
| Splitter.RoutedAt | main.py:179-196 | In a routed trace, the batch at any index is the one the route of the remainder it starts at makes. |
| Splitter.AccountedAppend | main.py:206-214 | A request answered with completion tokens keeps the loop invariant once its content is appended and `count` is advanced. |
| Splitter.SummariseNext | main.py:179-214 | One loop pass either appends the reply content and advances `count` with the invariant kept, or records a request whose reply had zero completion tokens. Otherwise it stops with nothing changed: without a session, or by raising, exactly when the remainder's route at `count` says so. |
| Splitter.SplitMessages | main.py:174-215 | The summaries are the replies' contents in order, all with completion tokens. `count` is how far the batches advanced, and at most the batch cap of requests is made. Every batch is the one its remainder's route makes. The unsummarised rest is the oldest part of the input. The first request fails exactly when its reply has zero completion tokens, and then its content is returned. The split raises only at a remainder whose search probes `records[:0]`, after every earlier batch was summarised. With input left and batches to spare, it stops only where no batch can be sent. A list that fits whole is one batch counting every record. |
| Marker.FindMatch | main.py:304 | Finds the leftmost quoted-reply marker from a position on: the header line followed by the rest of its line up to and including the newline. It is `None` exactly when no marker occurs there. |
| Marker.Strip | main.py:304-306 | The content is unchanged exactly when it holds no marker. Otherwise the kept piece is strictly shorter than the content. |
| Marker.StripSpec | main.py:304-307 | Content without a marker is unchanged, and only such content. The result never contains a marker. Otherwise the result is the text after the first marker, up to the next marker or the end, and no marker starts inside it. |
| Marker.StripIdempotent | main.py:301-307 | Stripping twice is stripping once. |
| Marker.StripRecord | main.py:302-307 | Only the content field of a record changes. |
| Marker.StripAll | main.py:301-307 | Every record is stripped in place: same length, same order, so the newest-first order is kept. |
| Replies.Decimal | main.py:327 | The count is written with decimal digits only, with no leading zero except for the count 0 itself. |
| Replies.CountLine | main.py:327 | The line in front of a single summary opens with "本次总结了" and closes with "条消息。" and a blank line. What lies between is decimal digits with no leading zero, except for the count 0 itself, that read back as the count. |
| Replies.DecimalRoundTrip | main.py:327 | The decimal rendering of the count in the reply reads back as the count. |
| Command.Trunc | main.py:294 | `int()` of a float truncates toward zero. |
| Command.TranslatedLimits | main.py:281-286 | A `summary` command takes `count`, defaulting to 99, with a negative count becoming 299. It takes `duration_in_seconds`, defaulting to -1. Any other name leaves 99 and -1. |
| Command.StartTime | main.py:294-298 | A positive duration ends the window at the current whole second. Otherwise the window starts at 0. |
| Command.FindJsonOn | main.py:279 | `find_json` raises exactly when it is handed the reply dict rather than text. |
| Command.Plan | main.py:259-298 | As written: refuses with the rate-limit text exactly when a summary was recorded less than the limit ago. Otherwise every free-text request returns silently, since `find_json` is handed the reply dict (lines 279, 360-362). A bare command fetches 99 records and a numeric argument fetches that many, both with no window. |
| Command.PlanOnContent | main.py:259-298 | With `find_json` applied to the reply's content: the rate limit as in `Plan`. A free-text request returns silently exactly when its translation cannot be read, and otherwise fetches with the limits the translation asks for. Only an explicit argument can ask for a negative limit, and a window ends before the current second. |
| Command.FreeTextNeverFetches | main.py:279 | For any free-text request whose translated content reads, the handler as written returns silently, while the evidently intended one fetches records. |
| Command.RateLimitWindow | main.py:259-261 | A request within the limit minus a second of the recorded summary is refused. One after the limit plus a second is accepted. |
| Reducer.MergeQuery | main.py:334-336 | No summaries give an empty query, and one summary gives that summary followed by the divider. With more, the query opens with the last summary produced and closes with the first, each followed by the divider. |
| Reducer.MergeQueryOrder | main.py:334-336 | In the merge query, summaries produced later (which cover older records) come before earlier ones. With the single-summary case of `Reducer.MergeQuery`, this fixes the whole query. |
| Reducer.Conclude | main.py:317-353 | An IndexError propagates. A failed first batch replies with its content as an error. A count of 0 replies with the generic failure. One summary is the answer, with the count line. Several make one merge request over all of them. A failed merge keeps the whole merge query at the end of the error text. The summary time is recorded exactly when something was counted. |
| Reducer.TracedCallsFit | main.py:179-201 | Every batch request is a summary request within the budget. |
| Reducer.ConcludedRequests | main.py:314-353 | For a command concluded on a split: at most nine requests are made. All but the last are batch requests, and every batch request fits 4800 tokens. A merge request covers exactly the summaries the batch requests returned. A failed first batch is replied with the model's text as an error. A text reply records the current second. |
| Reducer.PairSummarised | main.py:182-196 | Two records where the newer fits alone but not with the older: one request sends the newer, the split counts both, and the reply is the count line for 2 followed by the summary. |
| Reducer.SplitAndConclude | main.py:314-353 | The requests made are the split's batch requests, each the batch its remainder's route makes at 4800 tokens, within 8 batches, followed by the merge request if any. The split stops or raises only where the route says so. The reply and the recorded time are the conclusion drawn from the split's outcome and the next reply. At most nine requests are made, and a recorded time is the current second. |
| Reducer.Summarize | main.py:300-353 | Fewer than two records reply that there is nothing to summarise, before any request. Otherwise the command splits the stripped records and concludes on that split, as in `SplitAndConclude`. |

## Findings

| source | as written | input that shows it | evidently intended | confidence | as-written member | corrected member |
|---|---|---|---|---|---|---|
| main.py:279 | `find_json(self._translate_text_to_commands(text))` hands `find_json` the dict that `reply_text` returns (lines 360-362); `re.search` on a dict raises `TypeError`, which lines 288-290 catch, so the command returns without a reply | any free-text request such as `$总结最近一小时的消息`, whatever the model answers | `find_json` applied to the reply's `content`, so a translated `summary` command sets the limit and the window | high (read from the code, not executed) | Command.Plan, Command.FreeTextNeverFetches | Command.PlanOnContent |

## Left out

- The record store (`db.py`), record ingestion, the enable/disable commands, the group blacklist and the non-text-context early returns (lines 219-257) are not part of this model; they are I/O and dispatch around the core.
- The language model, its prompts and the tokenizer are parameters; the `max_tokens` setting on the bot (lines 177, 333) only affects the model's behaviour.
- `json.loads` and the reads of `name` and `args` are the `parse` parameter, and `int(clist[1])` is abstracted as the `Invocation` the command word produced.
- Command.TranslatedLimits: `name.lower()` is modelled on ASCII letters only, since Unicode case mapping is not modelled; the comparison target `summary` is ASCII.
- Splitter.NextBatch: a batch after a successful probe is pinned to the search's bracket (`left-1` fits, `left` or `left+1` does not), not to the exact `left` the search's path reaches; even with monotone fitting two values can meet the bracket (the longest fitting length and one more).
- Command.Plan, Command.PlanOnContent: a single clock reading is used for the rate-limit check and the window, where the code reads `time.time()` twice.
- Reducer.Summarize: the session id, the `Reply`/`EventContext` objects and the saved-time write are represented by the returned outcome and saved time.
- Splitter.SplitMessages: requires at least as many scripted replies as the batch cap, because the model stands for the language model by a finite list; `Reducer.SplitAndConclude` and `Reducer.Summarize` require one more, for the merge request.

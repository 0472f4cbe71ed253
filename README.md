# ksqlDB Java client: row-stream decoding, modelled in Dafny

This project models the core of the ksqlDB Java client: the code that turns a
streaming query response into a sequence of row events.

- **HTTP `/query` path** (`ReactorWebClient`). `readStreamValue` processes one
  HTTP chunk at a time:
  - it drops the keep-alive chunks `",\n"` and `"\n"`;
  - it removes the `[` that opens the response array;
  - it runs two "strip" adjustments, for a closing `]` and for a trailing `,`.
    Both take `substring(0, length())`, so they change nothing, and the model
    keeps it that way;
  - it parses what is left.

  `postForMany` filters out the empty results and unwraps the rest. `pullQuery`
  then flattens the parsed `QueryResponse[]` arrays in order and passes every
  envelope to the `QueryResponseMapper` it built when it was called.
- **`QueryResponseMapper`** is a small state machine:
  - an envelope with an error message ends the stream with that message;
  - while no header is stored, an envelope's `header` field is stored and
    nothing is emitted;
  - every later envelope emits one `QueryRow` wrapping its `row`.
- **WebSocket path** (`pushQuery`). The query request is serialised into the
  single `request` parameter. The `WebSocketQueryResponseMapper` built by the
  call drops the first frame, whatever it holds, and decodes every later frame into a
  `QueryRow`.
- **`readValue`** is the parse ladder used for one-shot responses: a typed
  parse, otherwise a `KsqlDBServerException` if the text parses as a server
  error, otherwise a runtime failure.
- **`AdminUtil`** builds the `CREATE STREAM` statement text.
  `createStreamIfMissing` sends that statement only when no listed stream has
  exactly the requested name.

## Structure

- `reactive.dfy` (module `Reactive`) models Reactor's `Flux`/`Mono` over
  finite sequences:
  - a `Trace` is the items a stream has delivered, in order, plus an optional
    terminal error;
  - `Run(step, state, input)` is `flux.flatMap(f)` for a stateful `f` that
    returns an empty, a one-value or an error `Mono`, with inputs processed in
    arrival order;
  - the module holds the general lemmas about `Run`: the first error is final,
    a run can be split where an input sequence is split, and each input yields
    at most one item.
- `framing.dfy` (module `StreamFraming`) models `readStreamValue`,
  `postForMany` and `readValue`. `readStreamValue` is a method that rewrites a
  mutable local text through the three conditional adjustments. It is proved
  equal to the function `StreamValue`.
- `decoder.dfy` (module `RowDecoder`) models the envelope records, both
  mapper classes, and the `pullQuery` and `pushQuery` loops:
  - each mapper holds the Java field (`header`, `headerSkipped`) and a ghost
    history of its inputs. `Valid()` ties the field to that history;
  - `PullQuery` and `PushQuery` are loops that call the mapper methods. They
    are proved equal to the functions `PullQueryTrace` and
    `WebSocketRows`;
  - `ReferenceRows` describes the decoder's output without any mapper state.
    `DecodeMatchesReference` proves the two agree on every input.
- `admin.dfy` (module `Admin`) models the statement builder and the
  exists-check rule.

JSON parsing and serialisation (Jackson) are parameters, not models of JSON.
- A parser is a function `string -> Parsed<T>`. It gives either the decoded
  value or the message of the exception the parser would throw.
- The server calls of `AdminUtil` are parameters too: the SHOW STREAMS listing
  is a value, and `execute` is a function from statement to command responses.

Four behaviours of the code are easy to misread, and the model keeps each as
written.
- An empty chunk, a whitespace-only chunk and a lone `]` are not skipped: they
  reach the parser (`ReactorWebClient.java:146-162`).
- The error check is `errorMessage != null`, so an empty error message also
  ends the stream (`DefaultKsqlDBClient.java:179`).
- The header mode ends only when a non-null header has been stored. If the
  first envelope has no `header` field, the next one is also suppressed
  (`DefaultKsqlDBClient.java:183-187`).
- In a pull query, an in-band error on an earlier envelope takes precedence
  over a parse failure of a later chunk: each chunk's envelopes pass through
  the mapper synchronously, and the mapper's `Mono.error` cancels the upstream
  before any later chunk is mapped (`PullQueryTrace`, `DecodeFramed`).

## Model

| member | source | states |
|---|---|---|
| `Reactive.Run` | client/src/main/java/dev/daniellavoie/ksqldb/client/DefaultKsqlDBClient.java:127-133 | the definition of a stateful `flatMap` into a `Mono`: inputs handed to the step one at a time in arrival order, the state threaded through, an empty result adding nothing, a value adding one item, and the first error ending the output; it has no contract of its own, and its properties are the three rows below |
| `Reactive.RunBound` | client/src/main/java/dev/daniellavoie/ksqldb/client/ReactorWebClient.java:109-113 | each input (chunk, envelope or frame) contributes at most one item to the output stream |
| `Reactive.RunHalts` | client/src/main/java/dev/daniellavoie/ksqldb/client/DefaultKsqlDBClient.java:132 | once an error has ended the stream, later inputs add neither items nor another error |
| `Reactive.RunAppend` | client/src/main/java/dev/daniellavoie/ksqldb/client/DefaultKsqlDBClient.java:132 | if a prefix of the input raised no error, the output on the whole input is the prefix's output followed by the output on the rest, started from the state the prefix left behind |
| `StreamFraming.Framed` | client/src/main/java/dev/daniellavoie/ksqldb/client/ReactorWebClient.java:150-160 | an opening chunk (starts with `[`, does not end with `]`) loses exactly its first character; a chunk that does not start with `[`, or that ends with `]`, is unchanged; a trailing `,` reaches the parser intact |
| `StreamFraming.StreamValue` | client/src/main/java/dev/daniellavoie/ksqldb/client/ReactorWebClient.java:142-166 | a chunk yields nothing exactly when it equals `",\n"` or `"\n"`; otherwise it yields the parse of its framed text, or a runtime failure with the parser's message, never a server exception |
| `StreamFraming.ReadStreamValue` | client/src/main/java/dev/daniellavoie/ksqldb/client/ReactorWebClient.java:142-166 | the step-by-step rewriting of the chunk text, including the two no-op substrings, gives exactly `StreamValue` |
| `StreamFraming.PostForMany` | client/src/main/java/dev/daniellavoie/ksqldb/client/ReactorWebClient.java:106-114 | the definition of `postForMany`: `Run` over the chunks with the stateless per-chunk step `StreamValue`; it has no contract of its own, and its properties are the four rows below |
| `StreamFraming.PostForManyAppend` | client/src/main/java/dev/daniellavoie/ksqldb/client/ReactorWebClient.java:109-113 | the chunk stream keeps no state: when the first chunks raise no failure, the values of all chunks are their values followed by those the remaining chunks yield on their own |
| `StreamFraming.PostForManyFailure` | client/src/main/java/dev/daniellavoie/ksqldb/client/ReactorWebClient.java:109-113 | at most one value per chunk that reaches the parser; a failure that ends the stream is always a runtime failure whose message is the parser's message for some non-keep-alive chunk, never a server exception |
| `StreamFraming.PostForManyValues` | client/src/main/java/dev/daniellavoie/ksqldb/client/ReactorWebClient.java:109-113 | when every non-keep-alive chunk parses, the output has one value per non-keep-alive chunk, in chunk order, each the parse of that chunk, and no failure |
| `StreamFraming.KeepAliveOnly` | client/src/main/java/dev/daniellavoie/ksqldb/client/ReactorWebClient.java:146-148 | a response made only of keep-alive chunks yields no value and no failure |
| `StreamFraming.PostForManyStopsAtMalformed` | client/src/main/java/dev/daniellavoie/ksqldb/client/ReactorWebClient.java:162-165 | the first chunk the parser rejects ends the stream with a runtime failure carrying the parser's message, after the values of the chunks before it |
| `StreamFraming.ReadValue` | client/src/main/java/dev/daniellavoie/ksqldb/client/ReactorWebClient.java:116-140 | the typed parse's value when it succeeds; otherwise a `KsqlDBServerException` with the parsed server error exactly when the server-error parse succeeds; otherwise a runtime failure wrapping the typed parse's own exception |
| `RowDecoder.QueryResponseMapper.constructor` | client/src/main/java/dev/daniellavoie/ksqldb/client/DefaultKsqlDBClient.java:132 | the mapper `pullQuery` builds starts with no stored header and an empty history |
| `RowDecoder.QueryResponseMapper.Apply` | client/src/main/java/dev/daniellavoie/ksqldb/client/DefaultKsqlDBClient.java:178-192 | an error message gives an error signal, checked before the header; with no stored header the envelope's `header` is stored and nothing is emitted; otherwise one row wrapping the envelope's `row`; a stored header is never reassigned; `Valid()` keeps the field equal to the state its history determines |
| `RowDecoder.DataPhase` | client/src/main/java/dev/daniellavoie/ksqldb/client/DefaultKsqlDBClient.java:183-191 | once a header is stored, every envelope up to the first error yields exactly its row, in order, and the stored header stays the same |
| `RowDecoder.DecodeMatchesReference` | client/src/main/java/dev/daniellavoie/ksqldb/client/DefaultKsqlDBClient.java:178-192 | for every envelope sequence, the mapper's rows are the rows of the envelopes after the first one carrying a header and before the first error, in order, and the first error's message ends the stream |
| `RowDecoder.ErrorEndsStream` | client/src/main/java/dev/daniellavoie/ksqldb/client/DefaultKsqlDBClient.java:179-181 | an error anywhere, even in the first envelope, ends the stream with the first error's message; the rows emitted are exactly those the envelopes before that first error decode to, without failure, and nothing after it is decoded |
| `RowDecoder.PullQueryRows` | client/src/main/java/dev/daniellavoie/ksqldb/client/DefaultKsqlDBClient.java:127-133 | when every chunk parses, the pull query's output is the reference rows of all envelopes, with the chunk arrays flattened in order |
| `RowDecoder.PullQueryDecodeError` | client/src/main/java/dev/daniellavoie/ksqldb/client/DefaultKsqlDBClient.java:128-132 | an error the mapper raises on a prefix of the flattened envelopes is the whole pull query's result, whatever later chunks hold |
| `RowDecoder.PullQueryFramingError` | client/src/main/java/dev/daniellavoie/ksqldb/client/DefaultKsqlDBClient.java:128-132 | a chunk the parser rejects ends the pull query with that failure, after the rows of the chunks before it |
| `RowDecoder.DecodeErrorFirst` | client/src/main/java/dev/daniellavoie/ksqldb/client/DefaultKsqlDBClient.java:128-132 | a decoding error within the first batches of a framed stream is the pull query's whole outcome, whatever the later batches hold and whether or not a later chunk failed to parse |
| `RowDecoder.FeedBatch` | client/src/main/java/dev/daniellavoie/ksqldb/client/DefaultKsqlDBClient.java:130-132 | the envelopes of one parsed array go to the mapper in order until the first failure; the mapper's history grows by exactly the envelopes it was applied to, all of them when nothing failed; on a failure the last envelope applied is the one that failed, every earlier one decoded without failure, and the rows so far are `DecodeRows` of that history |
| `RowDecoder.PullQuery` | client/src/main/java/dev/daniellavoie/ksqldb/client/DefaultKsqlDBClient.java:127-133 | the loop over chunks and envelopes, using one fresh mapper, yields exactly `PullQueryTrace`: frame, parse, flatten, then decode |
| `RowDecoder.WebSocketQueryResponseMapper.constructor` | client/src/main/java/dev/daniellavoie/ksqldb/client/DefaultKsqlDBClient.java:144 | the mapper `pushQuery` builds starts with `headerSkipped` false and an empty history |
| `RowDecoder.WebSocketQueryResponseMapper.Apply` | client/src/main/java/dev/daniellavoie/ksqldb/client/DefaultKsqlDBClient.java:199-208 | the first frame is dropped and sets `headerSkipped`; every later frame is decoded into one row, or a runtime failure; there is no error-message check; the flag stays set |
| `RowDecoder.HeaderSkippedAfter` | client/src/main/java/dev/daniellavoie/ksqldb/client/DefaultKsqlDBClient.java:202-204 | `headerSkipped` is true after a sequence of frames exactly when it started true or at least one frame was seen: it flips once and never goes back |
| `RowDecoder.DecodedFrames` | client/src/main/java/dev/daniellavoie/ksqldb/client/DefaultKsqlDBClient.java:205-207 | after the first frame, every frame that decodes yields exactly its decoded row, in order, with no failure |
| `RowDecoder.WebSocketRowsOfFrames` | client/src/main/java/dev/daniellavoie/ksqldb/client/DefaultKsqlDBClient.java:199-208 | the first frame is dropped whatever it holds; the n later frames, when they decode, yield exactly n rows in order |
| `RowDecoder.WebSocketStopsAtMalformed` | client/src/main/java/dev/daniellavoie/ksqldb/client/DefaultKsqlDBClient.java:205-207 | after the first frame, the first frame that does not decode ends the stream with a runtime failure carrying the parser's message, after exactly one row for each frame between the first frame and it |
| `RowDecoder.SharedMapperOnResubscription` | client/src/main/java/dev/daniellavoie/ksqldb/client/DefaultKsqlDBClient.java:132 | a mapper that already stores a header, as the one built per `pullQuery` call does on a second subscription, emits a row for every envelope of the new response, its header envelope included |
| `RowDecoder.FreshMapperPerSubscription` | client/src/main/java/dev/daniellavoie/ksqldb/client/DefaultKsqlDBClient.java:178-192 | a mapper built for the subscription consumes the response's header envelope and emits exactly the rows of the envelopes after it |
| `RowDecoder.SharedWebSocketMapperOnResubscription` | client/src/main/java/dev/daniellavoie/ksqldb/client/DefaultKsqlDBClient.java:144 | a WebSocket mapper whose `headerSkipped` is already set, as on a second subscription, turns a connection of frames `[first] + rest` that all decode into `|rest| + 1` rows, the first being `first` decoded, where a fresh mapper (`WebSocketRowsOfFrames`) gives `|rest|` |
| `RowDecoder.PushQuery` | client/src/main/java/dev/daniellavoie/ksqldb/client/DefaultKsqlDBClient.java:139-145 | the only parameter is `request`, holding the serialised query request; the loop over frames, using one fresh mapper, yields exactly `WebSocketRows` |
| `Admin.Fields` | client/src/main/java/dev/daniellavoie/ksqldb/client/AdminUtil.java:77-78 | no columns give empty fields, so the statement holds `()`; one column renders as `name type` |
| `Admin.FieldsAppend` | client/src/main/java/dev/daniellavoie/ksqldb/client/AdminUtil.java:77-78 | appending a column appends `", "` and its `name type` rendering, so the columns appear in list order |
| `Admin.CreateStreamStatement` | client/src/main/java/dev/daniellavoie/ksqldb/client/AdminUtil.java:80-81 | the statement is `CREATE STREAM `, the name, ` (`, the fields, `) WITH (kafka_topic='`, the topic, `', value_format='`, the format and `');`, each found unchanged at its offset, so nothing is quoted or escaped |
| `Admin.MatchCount` | client/src/main/java/dev/daniellavoie/ksqldb/client/AdminUtil.java:55 | some listed name matches exactly when the requested name, compared by exact case-sensitive equality, is among the listed names |
| `Admin.CreateStreamFromTopic` | client/src/main/java/dev/daniellavoie/ksqldb/client/AdminUtil.java:75-82 | yields the last command response of executing the statement; an empty response list is the `NoSuchElementException` of `last()`, and an execution failure is passed on unchanged |
| `Admin.CreateStreamIfMissing` | client/src/main/java/dev/daniellavoie/ksqldb/client/AdminUtil.java:51-63 | if a listed stream has exactly the name, the result is a single `false` and no CREATE is sent, however many streams match; otherwise exactly one CREATE statement is sent, a successful result is `true`, and a failure is exactly the failure of `createStreamFromTopic`; a listing failure sends nothing |

## Left out

- HTTP and WebSocket transport are not modelled. This covers `get`, `post`,
  `getWithWebSocket`, URL building and the Reactor Netty client setup. The
  chunks and frames the transport delivers are inputs.
- Jackson (`ObjectMapper`, `JsonUtil`) is not modelled: parsers are function
  parameters. The model does not say which texts parse: no JSON grammar, and
  no account of whether the parser tolerates a trailing `]` or `,`.
- `JsonUtil.writeValueAsString` failing is not modelled. `PushQuery` takes the
  serialiser as a total function.
- `null` results of the parser are not modelled; the model's parsers always
  return a value. There are three such paths in the code:
  - a chunk that parses to `null` fails with a `NullPointerException` from
    `Optional.of` (`ReactorWebClient.java:162`);
  - a `null` element inside a chunk's array fails in `Flux.fromArray`
    (`DefaultKsqlDBClient.java:130`);
  - a WebSocket frame that parses to `null` fails in `Mono.just`
    (`DefaultKsqlDBClient.java:206`).
- A `null` stream list in a SHOW STREAMS response is not modelled. A failing
  listing is a single `Err` value.
- Reactor scheduling, cancellation, disposal and retry with backoff are not
  modelled. Streams are finite sequences processed in order, and an unbounded
  push query is represented by the prefix delivered so far.
- Logging (`LOGGER.trace`, `LOGGER.error`) is not modelled; it has no
  observable effect on the results.
- The one-shot endpoints of `DefaultKsqlDBClient` (describe, execute, explain,
  properties, queries, streams, tables, health check, info) are not modelled.
  Each is one call; the `/ksql` ones then flatten an array, while the health
  check and info are single `get` calls returning a `Mono`. `ReadValue` models
  the parse ladder they share.
- `URLEncoderUtil`, the `KsqlDBClient`/`WebClient` interfaces and
  `ValueExtractor` are not modelled: they are encoding wrappers or
  declarations.
- `ValueFormat` is represented by its rendered name, a string.
- `ColumnDefinition` and `ValueFormat` are not modelled as classes; their
  shapes are taken from their uses in `AdminUtil`.
- Mapper state is per `pullQuery`/`pushQuery` call, not per subscription.
  `PullQuery` and `PushQuery` model one subscription with a fresh mapper. What
  a second subscription of the same Flux sees is stated under "## Findings".

## Findings

| source | as written | input that shows it | evidently intended | confidence | as-written member | corrected member |
|---|---|---|---|---|---|---|
| client/src/main/java/dev/daniellavoie/ksqldb/client/DefaultKsqlDBClient.java:132 | one `QueryResponseMapper` is built per `pullQuery` call and shared by every subscription of the returned Flux | a retry (`retryBackoff`) after a first attempt that stored a header: the second response `[header envelope, row envelope]` gives two rows, the first wrapping the header envelope's absent row | every subscription drops its own response's header envelope and yields one row | medium, not executed | `RowDecoder.SharedMapperOnResubscription` | `RowDecoder.FreshMapperPerSubscription` |
| client/src/main/java/dev/daniellavoie/ksqldb/client/DefaultKsqlDBClient.java:144 | one `WebSocketQueryResponseMapper` is built per `pushQuery` call, so `headerSkipped` stays set across subscriptions | a second subscription: the new connection's first frame is decoded as a row, or ends the stream if it does not decode as a `QueryRow` | every connection drops its own first frame | medium, not executed | `RowDecoder.SharedWebSocketMapperOnResubscription` | `RowDecoder.WebSocketRowsOfFrames` |

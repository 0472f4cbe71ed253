/**
 * The row decoders of DefaultKsqlDBClient. On the HTTP path every chunk is
 * parsed as an array of `QueryResponse` envelopes, the arrays are flattened
 * in order, and the `QueryResponseMapper` built by the call turns them into row
 * events: an in-band error ends the stream, the first envelope seen while no
 * header is stored supplies the header and yields nothing, and every later
 * envelope yields one row. On the WebSocket path the
 * `WebSocketQueryResponseMapper` drops the first frame and decodes every
 * later one into a row. `PullQuery` and `PushQuery` model one subscription,
 * which starts from a fresh mapper; the lemmas named `...OnResubscription`
 * state what a second subscription, which shares the mapper, sees.
 */
module RowDecoder {
  import opened Reactive
  import StreamFraming

  /** A JSON value as the parser binds it to a Java `Object`. */
  datatype JsonValue =
    | JNull
    | JBool(b: bool)
    | JNumber(n: real)
    | JText(s: string)
    | JArray(elements: seq<JsonValue>)
    | JObject(members: seq<(string, JsonValue)>)

  /** Column name to declared type, as sent in the header envelope. */
  type Header = map<string, string>

  /** `Row`: the column values of one result row; the list may be absent. */
  datatype Row = Row(columns: Option<seq<JsonValue>>)

  /** `QueryResponse`: one envelope of a `/query` response; every field may be absent. */
  datatype QueryResponse = QueryResponse(header: Option<Header>, row: Option<Row>, errorMessage: Option<string>)

  /** `QueryRow`: the row event handed to the caller. */
  datatype QueryRow = QueryRow(row: Option<Row>)

  /** `QueryRequest`: the statement and its optional streams properties. */
  datatype QueryRequest = QueryRequest(ksql: string, streamsProperties: Option<map<string, string>>)

  // ---------------------------------------------------------------------------
  // HTTP path

  /** One `apply` of QueryResponseMapper, from the stored header: the new stored header and the Mono returned. */
  function MapperStep(stored: Option<Header>, response: QueryResponse): (Option<Header>, Signal<QueryRow>)
  {
    if response.errorMessage.Some? then (stored, Error(QueryFailed(response.errorMessage.value)))
    else if stored.None? then (response.header, Empty)
    else (stored, Just(QueryRow(response.row)))
  }

  /** The row events one mapper produces from a sequence of envelopes. */
  function DecodeRows(envelopes: seq<QueryResponse>): Trace<QueryRow>
  {
    Run(MapperStep, None, envelopes)
  }

  class QueryResponseMapper {
    var header: Option<Header>
    /** The envelopes this mapper has been applied to, in order. */
    ghost var consumed: seq<QueryResponse>

    ghost predicate Valid()
      reads this
    {
      header == StateAfter(MapperStep, None, consumed)
    }

    constructor ()
      ensures Valid() && consumed == [] && header == None
    {
      header := None;
      consumed := [];
    }

    method Apply(response: QueryResponse) returns (out: Signal<QueryRow>)
      requires Valid()
      modifies this
      ensures Valid() && consumed == old(consumed) + [response]
      ensures (header, out) == MapperStep(old(header), response)
      ensures old(header).Some? ==> header == old(header)
      ensures response.errorMessage.Some? ==> out == Error(QueryFailed(response.errorMessage.value))
      ensures response.errorMessage.None? && old(header).None? ==> out == Empty && header == response.header
      ensures response.errorMessage.None? && old(header).Some? ==> out == Just(QueryRow(response.row))
    {
      StateAfterAppend(MapperStep, None, consumed, [response]);
      consumed := consumed + [response];
      if response.errorMessage.Some? {
        return Error(QueryFailed(response.errorMessage.value));
      }
      if header.None? {
        header := response.header;
        return Empty;
      }
      out := Just(QueryRow(response.row));
    }
  }

  /** The index of the first envelope carrying an error message, or the length if there is none. */
  function FirstError(envelopes: seq<QueryResponse>): (e: nat)
    ensures e <= |envelopes|
    ensures forall k :: 0 <= k < e ==> envelopes[k].errorMessage.None?
    ensures e < |envelopes| ==> envelopes[e].errorMessage.Some?
  {
    if envelopes == [] then 0
    else if envelopes[0].errorMessage.Some? then 0
    else 1 + FirstError(envelopes[1..])
  }

  /** The index of the first envelope whose header field is present, or the length if there is none. */
  function FirstHeader(envelopes: seq<QueryResponse>): (h: nat)
    ensures h <= |envelopes|
    ensures forall k :: 0 <= k < h ==> envelopes[k].header.None?
    ensures h < |envelopes| ==> envelopes[h].header.Some?
  {
    if envelopes == [] then 0
    else if envelopes[0].header.Some? then 0
    else 1 + FirstHeader(envelopes[1..])
  }

  /** One row event per envelope, wrapping its row unchanged. */
  function RowsOf(envelopes: seq<QueryResponse>): seq<QueryRow>
  {
    seq(|envelopes|, k requires 0 <= k < |envelopes| => QueryRow(envelopes[k].row))
  }

  /**
   * The row events stated without the mapper: up to the first error, every
   * envelope after the first one that carries a header yields its row; the
   * first error, if any, ends the stream with its message.
   */
  function ReferenceRows(envelopes: seq<QueryResponse>): Trace<QueryRow>
  {
    var e := FirstError(envelopes);
    var h := FirstHeader(envelopes[..e]);
    Trace(if h < e then RowsOf(envelopes[h + 1..e]) else [],
          if e < |envelopes| then Some(QueryFailed(envelopes[e].errorMessage.value)) else None)
  }

  /** Once a header is stored, every envelope up to the first error yields its row, and the header never changes. */
  lemma {:induction false} DataPhase(stored: Header, envelopes: seq<QueryResponse>)
    ensures var e := FirstError(envelopes);
            (Run(MapperStep, Some(stored), envelopes)
             == Trace(RowsOf(envelopes[..e]),
                      if e < |envelopes| then Some(QueryFailed(envelopes[e].errorMessage.value)) else None))
    ensures StateAfter(MapperStep, Some(stored), envelopes) == Some(stored)
    decreases |envelopes|
  {
    if envelopes != [] {
      DataPhase(stored, envelopes[1..]);
      if envelopes[0].errorMessage.None? {
        var e := FirstError(envelopes);
        assert envelopes[..e] == [envelopes[0]] + envelopes[1..][..e - 1];
        assert RowsOf(envelopes[..e]) == [QueryRow(envelopes[0].row)] + RowsOf(envelopes[1..][..e - 1]);
      }
    }
  }

  /** The mapper produces exactly the reference row events, for every envelope sequence. */
  lemma {:induction false} DecodeMatchesReference(envelopes: seq<QueryResponse>)
    ensures DecodeRows(envelopes) == ReferenceRows(envelopes)
    decreases |envelopes|
  {
    if envelopes != [] && envelopes[0].errorMessage.None? {
      var e := FirstError(envelopes);
      var rest := envelopes[1..];
      assert e == 1 + FirstError(rest);
      assert envelopes[..e][1..] == rest[..e - 1];
      if envelopes[0].header.None? {
        DecodeMatchesReference(rest);
        var h := FirstHeader(envelopes[..e]);
        assert h == 1 + FirstHeader(rest[..e - 1]);
        if h < e {
          assert envelopes[h + 1..e] == rest[h..e - 1];
        }
      } else {
        DataPhase(envelopes[0].header.value, rest);
        assert FirstHeader(envelopes[..e]) == 0;
        assert envelopes[1..e] == rest[..e - 1];
      }
    }
  }

  /**
   * An error in any envelope ends the stream with that first error's message,
   * and no row is emitted for it or for anything after it.
   */
  lemma ErrorEndsStream(envelopes: seq<QueryResponse>, k: nat)
    requires k < |envelopes| && envelopes[k].errorMessage.Some?
    ensures var e := FirstError(envelopes);
            var before := DecodeRows(envelopes[..e]);
            && e <= k
            && before.failure == None
            && DecodeRows(envelopes) == Trace(before.items, Some(QueryFailed(envelopes[e].errorMessage.value)))
  {
    var e := FirstError(envelopes);
    var prefix := envelopes[..e];
    DecodeMatchesReference(envelopes);
    DecodeMatchesReference(prefix);
    assert FirstError(prefix) == e by {
      assert forall j :: 0 <= j < e ==> prefix[j] == envelopes[j];
    }
    assert prefix[..e] == prefix;
    var h := FirstHeader(prefix);
    if h < e {
      assert prefix[h + 1..e] == envelopes[h + 1..e];
    }
  }

  /**
   * `pullQuery` builds its mapper once per call, so a second subscription to
   * the returned Flux (a retry) starts from the header the first one stored:
   * the new response's header envelope is then emitted as a row of its own.
   */
  lemma SharedMapperOnResubscription(stored: Header, envelopes: seq<QueryResponse>)
    requires envelopes != [] && envelopes[0].header.Some?
    requires forall k :: 0 <= k < |envelopes| ==> envelopes[k].errorMessage.None?
    ensures Run(MapperStep, Some(stored), envelopes) == Trace(RowsOf(envelopes), None)
  {
    var e := FirstError(envelopes);
    assert e == |envelopes|;
    assert envelopes[..e] == envelopes;
    DataPhase(stored, envelopes);
  }

  /**
   * With a fresh mapper for every subscription, each response's header
   * envelope is consumed as the header and only the envelopes after it are
   * emitted.
   */
  lemma FreshMapperPerSubscription(envelopes: seq<QueryResponse>)
    requires envelopes != [] && envelopes[0].header.Some?
    requires forall k :: 0 <= k < |envelopes| ==> envelopes[k].errorMessage.None?
    ensures DecodeRows(envelopes) == Trace(RowsOf(envelopes[1..]), None)
  {
    var e := FirstError(envelopes);
    assert e == |envelopes|;
    assert envelopes[..e] == envelopes;
    assert FirstHeader(envelopes[..e]) == 0;
    DecodeMatchesReference(envelopes);
  }

  /** `pullQuery` as a function of the chunks: frame and parse, flatten, then decode. */
  function PullQueryTrace(chunks: seq<string>, parse: string -> Parsed<seq<QueryResponse>>): Trace<QueryRow>
  {
    DecodeFramed(StreamFraming.PostForMany(chunks, parse))
  }

  /**
   * Decodes the flattened arrays of a framed stream; a decoding error comes
   * before any framing failure: each chunk's envelopes pass through the
   * mapper synchronously, and the mapper's `Mono.error` cancels the upstream
   * before any later chunk is mapped.
   */
  function DecodeFramed(framed: Trace<seq<QueryResponse>>): Trace<QueryRow>
  {
    var decoded := DecodeRows(Flatten(framed.items));
    if decoded.failure.Some? then decoded else Trace(decoded.items, framed.failure)
  }

  /**
   * When every chunk parses, the rows of a pull query are the reference rows
   * of all envelopes, flattened in chunk order.
   */
  lemma PullQueryRows(chunks: seq<string>, parse: string -> Parsed<seq<QueryResponse>>)
    requires StreamFraming.AllParse(chunks, parse)
    ensures PullQueryTrace(chunks, parse) == ReferenceRows(Flatten(StreamFraming.PostForMany(chunks, parse).items))
  {
    StreamFraming.PostForManyValues(chunks, parse);
    DecodeMatchesReference(Flatten(StreamFraming.PostForMany(chunks, parse).items));
  }

  /** The framed values of all chunks extend those of any unfailed prefix. */
  lemma FramedContinues(chunks: seq<string>, parse: string -> Parsed<seq<QueryResponse>>, i: nat,
                        batches: seq<seq<QueryResponse>>)
    requires i <= |chunks|
    requires StreamFraming.PostForMany(chunks[..i], parse) == Trace(batches, None)
    ensures var rest := StreamFraming.PostForMany(chunks[i..], parse);
            StreamFraming.PostForMany(chunks, parse) == Trace(batches + rest.items, rest.failure)
  {
    StreamFraming.PostForManyAppend(chunks[..i], chunks[i..], parse);
    assert chunks[..i] + chunks[i..] == chunks;
  }

  /** An error the mapper raises on a prefix of the flattened envelopes is the pull query's outcome. */
  lemma PullQueryDecodeError(chunks: seq<string>, parse: string -> Parsed<seq<QueryResponse>>, i: nat,
                             batches: seq<seq<QueryResponse>>, n: nat)
    requires i <= |chunks|
    requires StreamFraming.PostForMany(chunks[..i], parse) == Trace(batches, None)
    requires n <= |Flatten(batches)|
    requires DecodeRows(Flatten(batches)[..n]).failure.Some?
    ensures PullQueryTrace(chunks, parse) == DecodeRows(Flatten(batches)[..n])
  {
    FramedContinues(chunks, parse, i, batches);
    var rest := StreamFraming.PostForMany(chunks[i..], parse);
    DecodeErrorFirst(batches, rest, n);
  }

  /** A decoding error within the first batches of a framed stream decides its outcome, whatever follows. */
  lemma DecodeErrorFirst(batches: seq<seq<QueryResponse>>, rest: Trace<seq<QueryResponse>>, n: nat)
    requires n <= |Flatten(batches)|
    requires DecodeRows(Flatten(batches)[..n]).failure.Some?
    ensures DecodeFramed(Trace(batches + rest.items, rest.failure)) == DecodeRows(Flatten(batches)[..n])
  {
    FlattenAppend(batches, rest.items);
    var done := Flatten(batches);
    var prefix := done[..n];
    var suffix := done[n..] + Flatten(rest.items);
    assert Flatten(batches + rest.items) == prefix + suffix by {
      assert done == prefix + done[n..];
    }
    RunHalts(MapperStep, None, prefix, suffix);
  }

  /** One more chunk extends an unfailed prefix of the framed values by that chunk's signal. */
  lemma FramedStep(chunks: seq<string>, parse: string -> Parsed<seq<QueryResponse>>, i: nat,
                   batches: seq<seq<QueryResponse>>)
    requires i < |chunks|
    requires StreamFraming.PostForMany(chunks[..i], parse) == Trace(batches, None)
    ensures StreamFraming.PostForMany(chunks[..i + 1], parse)
         == Extend(Trace(batches, None), StreamFraming.StreamValue(chunks[i], parse))
  {
    RunSnoc(StreamFraming.FramingStep(parse), (), chunks[..i], chunks[i]);
    assert chunks[..i] + [chunks[i]] == chunks[..i + 1];
  }

  /** A chunk the parser rejects ends the pull query after the rows of the chunks before it. */
  lemma PullQueryFramingError(chunks: seq<string>, parse: string -> Parsed<seq<QueryResponse>>, i: nat,
                              batches: seq<seq<QueryResponse>>, rows: seq<QueryRow>, f: Failure)
    requires i < |chunks|
    requires StreamFraming.PostForMany(chunks[..i], parse) == Trace(batches, None)
    requires StreamFraming.StreamValue(chunks[i], parse) == Error(f)
    requires DecodeRows(Flatten(batches)) == Trace(rows, None)
    ensures PullQueryTrace(chunks, parse) == Trace(rows, Some(f))
  {
    FramedStep(chunks, parse, i, batches);
    RunHalts(StreamFraming.FramingStep(parse), (), chunks[..i + 1], chunks[i + 1..]);
    assert chunks[..i + 1] + chunks[i + 1..] == chunks;
  }

  lemma FlattenSnoc<T>(batches: seq<seq<T>>, batch: seq<T>)
    ensures Flatten(batches + [batch]) == Flatten(batches) + batch
  {
    FlattenAppend(batches, [batch]);
    assert Flatten([batch]) == batch + Flatten([batch][1..]);
    assert [batch][1..] == [];
  }

  /**
   * Hands the envelopes of one parsed chunk, in order, to the mapper and
   * collects the rows, stopping at the first failure; `used` is the number
   * of envelopes the mapper was applied to.
   */
  method FeedBatch(mapper: QueryResponseMapper, batch: seq<QueryResponse>, rows0: seq<QueryRow>)
    returns (rows: seq<QueryRow>, failure: Option<Failure>, ghost used: nat)
    requires mapper.Valid() && DecodeRows(mapper.consumed) == Trace(rows0, None)
    modifies mapper
    ensures mapper.Valid()
    ensures used <= |batch|
    ensures mapper.consumed == old(mapper.consumed) + batch[..used]
    ensures DecodeRows(mapper.consumed) == Trace(rows, failure)
    ensures failure.None? ==> used == |batch|
    ensures failure.Some? ==> 0 < used && DecodeRows(old(mapper.consumed) + batch[..used - 1]).failure.None?
  {
    rows, failure := rows0, None;
    ghost var done := mapper.consumed;
    var j := 0;
    while j < |batch| && failure.None?
      invariant 0 <= j <= |batch|
      invariant mapper.Valid()
      invariant mapper.consumed == done + batch[..j]
      invariant DecodeRows(mapper.consumed) == Trace(rows, failure)
      invariant failure.Some? ==> 0 < j && DecodeRows(done + batch[..j - 1]).failure.None?
    {
      RunSnoc(MapperStep, None, mapper.consumed, batch[j]);
      assert done + batch[..j] + [batch[j]] == done + batch[..j + 1];
      var out := mapper.Apply(batch[j]);
      match out {
        case Empty =>
        case Just(row) =>
          rows := rows + [row];
        case Error(f) =>
          failure := Some(f);
      }
      j := j + 1;
    }
    used := j;
  }

  /**
   * `pullQuery`: reads the chunks in order, hands every envelope of every
   * parsed chunk to one fresh QueryResponseMapper, collects the rows and
   * stops at the first failure.
   */
  method PullQuery(chunks: seq<string>, parse: string -> Parsed<seq<QueryResponse>>)
    returns (rows: seq<QueryRow>, failure: Option<Failure>)
    ensures Trace(rows, failure) == PullQueryTrace(chunks, parse)
  {
    var mapper := new QueryResponseMapper();
    rows, failure := [], None;
    ghost var batches: seq<seq<QueryResponse>> := [];
    var i := 0;
    while i < |chunks| && failure.None?
      invariant 0 <= i <= |chunks|
      invariant mapper.Valid()
      invariant failure.None? ==>
        && StreamFraming.PostForMany(chunks[..i], parse) == Trace(batches, None)
        && mapper.consumed == Flatten(batches)
        && DecodeRows(Flatten(batches)) == Trace(rows, None)
      invariant failure.Some? ==> Trace(rows, failure) == PullQueryTrace(chunks, parse)
    {
      var value := StreamFraming.ReadStreamValue(chunks[i], parse);
      FramedStep(chunks, parse, i, batches);
      match value {
        case Empty =>
        case Error(f) =>
          PullQueryFramingError(chunks, parse, i, batches, rows, f);
          failure := Some(f);
        case Just(batch) =>
          ghost var done := Flatten(batches);
          FlattenSnoc(batches, batch);
          ghost var used;
          rows, failure, used := FeedBatch(mapper, batch, rows);
          if failure.None? {
            assert batch[..|batch|] == batch;
            batches := batches + [batch];
          } else {
            assert Flatten(batches + [batch])[..|done| + used] == done + batch[..used];
            PullQueryDecodeError(chunks, parse, i + 1, batches + [batch], |done| + used);
          }
      }
      i := i + 1;
    }
    if failure.None? {
      assert chunks[..|chunks|] == chunks;
    }
  }

  // ---------------------------------------------------------------------------
  // WebSocket path

  /** One `apply` of WebSocketQueryResponseMapper: drop the first frame, decode every later one. */
  function WebSocketApply(decode: string -> Parsed<QueryRow>, headerSkipped: bool, frame: string)
    : (bool, Signal<QueryRow>)
  {
    if !headerSkipped then (true, Empty)
    else
      match decode(frame)
      case Parsed(row) => (true, Just(row))
      case Malformed(reason) => (true, Error(Runtime(reason)))
  }

  function WebSocketStep(decode: string -> Parsed<QueryRow>): (bool, string) -> (bool, Signal<QueryRow>)
  {
    (headerSkipped: bool, frame: string) => WebSocketApply(decode, headerSkipped, frame)
  }

  /** The row events one WebSocket mapper produces from a sequence of frames. */
  function WebSocketRows(frames: seq<string>, decode: string -> Parsed<QueryRow>): Trace<QueryRow>
  {
    Run(WebSocketStep(decode), false, frames)
  }

  class WebSocketQueryResponseMapper {
    var headerSkipped: bool
    /** The frames this mapper has been applied to, in order. */
    ghost var consumed: seq<string>

    ghost predicate Valid()
      reads this
    {
      headerSkipped == (consumed != [])
    }

    constructor ()
      ensures Valid() && consumed == [] && !headerSkipped
    {
      headerSkipped := false;
      consumed := [];
    }

    method Apply(frame: string, decode: string -> Parsed<QueryRow>) returns (out: Signal<QueryRow>)
      requires Valid()
      modifies this
      ensures Valid() && consumed == old(consumed) + [frame]
      ensures (headerSkipped, out) == WebSocketApply(decode, old(headerSkipped), frame)
      ensures headerSkipped
      ensures !old(headerSkipped) ==> out == Empty
    {
      consumed := consumed + [frame];
      if !headerSkipped {
        headerSkipped := true;
        return Empty;
      }
      var decoded := decode(frame);
      match decoded
      case Parsed(row) => out := Just(row);
      case Malformed(reason) => out := Error(Runtime(reason));
    }
  }

  /** The flag is set by the first frame and stays set: it is true exactly when some frame has been seen. */
  lemma {:induction false} HeaderSkippedAfter(decode: string -> Parsed<QueryRow>, skipped: bool, frames: seq<string>)
    ensures StateAfter(WebSocketStep(decode), skipped, frames) == (skipped || frames != [])
    decreases |frames|
  {
    if frames != [] {
      HeaderSkippedAfter(decode, true, frames[1..]);
    }
  }

  /** After the flag is set, every frame that decodes yields exactly its decoded row, in order. */
  lemma {:induction false} DecodedFrames(decode: string -> Parsed<QueryRow>, frames: seq<string>)
    requires forall k :: 0 <= k < |frames| ==> decode(frames[k]).Parsed?
    ensures var out := Run(WebSocketStep(decode), true, frames);
            && out.failure == None
            && |out.items| == |frames|
            && forall k :: 0 <= k < |frames| ==> decode(frames[k]) == Parsed(out.items[k])
    decreases |frames|
  {
    if frames != [] {
      DecodedFrames(decode, frames[1..]);
    }
  }

  /**
   * The first frame is dropped whatever it holds, even text that does not
   * decode; when the later frames decode, each yields exactly one row, in order.
   */
  lemma WebSocketRowsOfFrames(decode: string -> Parsed<QueryRow>, first: string, rest: seq<string>)
    requires forall k :: 0 <= k < |rest| ==> decode(rest[k]).Parsed?
    ensures var out := WebSocketRows([first] + rest, decode);
            && out.failure == None
            && |out.items| == |rest|
            && forall k :: 0 <= k < |rest| ==> decode(rest[k]) == Parsed(out.items[k])
  {
    assert ([first] + rest)[1..] == rest;
    DecodedFrames(decode, rest);
  }

  /**
   * After the first frame, the first frame that does not decode ends the
   * stream with a runtime failure carrying the parser's message, after the
   * rows of the frames before it.
   */
  lemma WebSocketStopsAtMalformed(decode: string -> Parsed<QueryRow>, frames: seq<string>, i: nat)
    requires 0 < i < |frames| && decode(frames[i]).Malformed?
    requires forall k :: 0 < k < i ==> decode(frames[k]).Parsed?
    ensures var before := WebSocketRows(frames[..i], decode);
            && |before.items| == i - 1
            && WebSocketRows(frames, decode) == Trace(before.items, Some(Runtime(decode(frames[i]).reason)))
  {
    var rest := frames[1..i];
    assert forall k :: 0 <= k < |rest| ==> decode(rest[k]).Parsed? by {
      forall k | 0 <= k < |rest| ensures decode(rest[k]).Parsed? {
        assert rest[k] == frames[k + 1];
      }
    }
    WebSocketRowsOfFrames(decode, frames[0], rest);
    assert [frames[0]] + rest == frames[..i];
    HeaderSkippedAfter(decode, false, frames[..i]);
    RunSnoc(WebSocketStep(decode), false, frames[..i], frames[i]);
    assert frames[..i] + [frames[i]] == frames[..i + 1];
    RunHalts(WebSocketStep(decode), false, frames[..i + 1], frames[i + 1..]);
    assert frames[..i + 1] + frames[i + 1..] == frames;
  }

  /**
   * `pushQuery` builds its mapper once per call, so a second subscription (a
   * new connection) finds `headerSkipped` already set: the new connection's
   * first frame is not dropped but decoded as a row, so `|rest| + 1` rows come
   * out where a fresh mapper gives `|rest|` (`WebSocketRowsOfFrames`).
   */
  lemma SharedWebSocketMapperOnResubscription(decode: string -> Parsed<QueryRow>, first: string, rest: seq<string>)
    requires decode(first).Parsed?
    requires forall k :: 0 <= k < |rest| ==> decode(rest[k]).Parsed?
    ensures var out := Run(WebSocketStep(decode), true, [first] + rest);
            && out.failure == None
            && |out.items| == |rest| + 1
            && out.items[0] == decode(first).value
  {
    var frames := [first] + rest;
    assert forall k :: 0 <= k < |frames| ==> decode(frames[k]).Parsed? by {
      forall k | 0 <= k < |frames| ensures decode(frames[k]).Parsed? {
        if k > 0 {
          assert frames[k] == rest[k - 1];
        }
      }
    }
    DecodedFrames(decode, frames);
  }

  /**
   * `pushQuery`: the single `request` parameter carries the serialised query
   * request; the frames are handed in order to one fresh
   * WebSocketQueryResponseMapper and the rows are collected until the first failure.
   */
  method PushQuery(request: QueryRequest, serialize: QueryRequest -> string, frames: seq<string>,
                   decode: string -> Parsed<QueryRow>)
    returns (params: map<string, string>, rows: seq<QueryRow>, failure: Option<Failure>)
    ensures params.Keys == {"request"} && params["request"] == serialize(request)
    ensures Trace(rows, failure) == WebSocketRows(frames, decode)
  {
    params := map["request" := serialize(request)];
    var mapper := new WebSocketQueryResponseMapper();
    rows, failure := [], None;
    var i := 0;
    while i < |frames| && failure.None?
      invariant 0 <= i <= |frames|
      invariant mapper.Valid() && mapper.consumed == frames[..i]
      invariant failure.None? ==> WebSocketRows(frames[..i], decode) == Trace(rows, None)
      invariant failure.Some? ==> Trace(rows, failure) == WebSocketRows(frames, decode)
    {
      HeaderSkippedAfter(decode, false, frames[..i]);
      RunSnoc(WebSocketStep(decode), false, frames[..i], frames[i]);
      assert frames[..i] + [frames[i]] == frames[..i + 1];
      var out := mapper.Apply(frames[i], decode);
      match out {
        case Empty =>
        case Just(row) =>
          rows := rows + [row];
        case Error(f) =>
          RunHalts(WebSocketStep(decode), false, frames[..i + 1], frames[i + 1..]);
          assert frames[..i + 1] + frames[i + 1..] == frames;
          failure := Some(f);
      }
      i := i + 1;
    }
    if failure.None? {
      assert frames[..|frames|] == frames;
    }
  }
}

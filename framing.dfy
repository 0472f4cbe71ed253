/**
 * The client side of the `/query` HTTP stream (ReactorWebClient): how one
 * HTTP chunk of the response becomes at most one parsed value, how
 * `postForMany` turns the chunk sequence into a value sequence, and the
 * typed-parse / server-error fallback of `readValue`.
 *
 * The JSON parser is a parameter: `parse(text)` is what Jackson's
 * `readValue` returns for `text`, or the message of the exception it throws.
 */
module StreamFraming {
  import opened Reactive

  predicate StartsWith(s: string, prefix: string)
  {
    |prefix| <= |s| && s[..|prefix|] == prefix
  }

  predicate EndsWith(s: string, suffix: string)
  {
    |suffix| <= |s| && s[|s| - |suffix|..] == suffix
  }

  /** The keep-alive chunks the server sends between rows: exactly ",\n" or exactly "\n". */
  predicate IsKeepAlive(chunk: string)
  {
    chunk == ",\n" || chunk == "\n"
  }

  /**
   * The text of a chunk that is handed to the parser. Only the `[` that opens
   * the response array is ever removed; a closing `]` or a trailing `,` stays.
   */
  function Framed(chunk: string): (text: string)
    ensures StartsWith(chunk, "[") && !EndsWith(chunk, "]") ==> "[" + text == chunk
    ensures !StartsWith(chunk, "[") ==> text == chunk
    ensures EndsWith(chunk, "]") ==> text == chunk
    ensures EndsWith(chunk, ",") ==> EndsWith(text, ",")
  {
    if StartsWith(chunk, "[") && !EndsWith(chunk, "]") then chunk[1..] else chunk
  }

  /** What `readStreamValue` yields for one chunk: nothing, the parsed value, or a runtime failure. */
  function StreamValue<T>(chunk: string, parse: string -> Parsed<T>): (sig: Signal<T>)
    ensures sig.Empty? <==> IsKeepAlive(chunk)
    ensures sig.Just? <==> !IsKeepAlive(chunk) && parse(Framed(chunk)).Parsed?
    ensures sig.Just? ==> sig.value == parse(Framed(chunk)).value
    ensures sig.Error? ==> sig.failure == Runtime(parse(Framed(chunk)).reason)
  {
    if IsKeepAlive(chunk) then Empty
    else
      match parse(Framed(chunk))
      case Parsed(v) => Just(v)
      case Malformed(reason) => Error(Runtime(reason))
  }

  /**
   * `readStreamValue`: rewrites the chunk text through the three conditional
   * adjustments in turn, then parses what is left. The second and third
   * adjustments take the substring from 0 to the full length, so they leave
   * the text as it is.
   */
  method ReadStreamValue<T>(value: string, parse: string -> Parsed<T>) returns (r: Signal<T>)
    ensures r == StreamValue(value, parse)
  {
    if value == ",\n" || value == "\n" {
      return Empty;
    }
    var text := value;
    if StartsWith(text, "[") && !EndsWith(text, "]") {
      text := text[1..];
    }
    if !StartsWith(text, "[") && EndsWith(text, "]") {
      text := text[0..|text|];
    }
    if EndsWith(text, ",") {
      text := text[0..|text|];
    }
    assert text == Framed(value);
    var parsed := parse(text);
    match parsed
    case Parsed(v) => r := Just(v);
    case Malformed(reason) => r := Error(Runtime(reason));
  }

  /** The per-chunk step of `postForMany`; it keeps no state between chunks. */
  function FramingStep<T>(parse: string -> Parsed<T>): ((), string) -> ((), Signal<T>)
  {
    (u: (), chunk: string) => (u, StreamValue(chunk, parse))
  }

  /**
   * `postForMany`: every chunk is mapped through `readStreamValue`, the empty
   * results are filtered out and the rest unwrapped; a thrown failure ends
   * the stream.
   */
  function PostForMany<T>(chunks: seq<string>, parse: string -> Parsed<T>): Trace<T>
  {
    Run(FramingStep(parse), (), chunks)
  }

  /**
   * `postForMany` keeps no state from one chunk to the next: if the first
   * chunks raise no failure, the values of all chunks are their values
   * followed by those the remaining chunks yield on their own.
   */
  lemma PostForManyAppend<T>(xs: seq<string>, ys: seq<string>, parse: string -> Parsed<T>)
    requires PostForMany(xs, parse).failure.None?
    ensures var rest := PostForMany(ys, parse);
            PostForMany(xs + ys, parse) == Trace(PostForMany(xs, parse).items + rest.items, rest.failure)
  {
    RunAppend(FramingStep(parse), (), xs, ys);
    var u: () := StateAfter(FramingStep(parse), (), xs);
    assert u == ();
  }

  /** The values of a non-empty chunk sequence: the first chunk's signal in front of what the rest yields. */
  lemma PostForManyCons<T>(chunks: seq<string>, parse: string -> Parsed<T>)
    requires chunks != []
    ensures var rest := PostForMany(chunks[1..], parse);
            PostForMany(chunks, parse) ==
              match StreamValue(chunks[0], parse)
              case Empty => rest
              case Just(v) => Trace([v] + rest.items, rest.failure)
              case Error(f) => Trace([], Some(f))
  {
    assert FramingStep(parse)((), chunks[0]) == ((), StreamValue(chunks[0], parse));
  }

  /** The chunks that reach the parser, in arrival order. */
  function NonKeepAlive(chunks: seq<string>): (kept: seq<string>)
    ensures |kept| <= |chunks|
    ensures forall c :: c in kept ==> c in chunks && !IsKeepAlive(c)
  {
    if chunks == [] then []
    else if IsKeepAlive(chunks[0]) then NonKeepAlive(chunks[1..])
    else [chunks[0]] + NonKeepAlive(chunks[1..])
  }

  /** Whether the parser accepts every chunk that reaches it. */
  predicate AllParse<T>(chunks: seq<string>, parse: string -> Parsed<T>)
  {
    forall c :: c in chunks && !IsKeepAlive(c) ==> parse(Framed(c)).Parsed?
  }

  /**
   * When every chunk that reaches the parser parses, `postForMany` delivers
   * exactly one value per non-keep-alive chunk, in the order of the chunks,
   * and does not fail.
   */
  lemma {:induction false} PostForManyValues<T>(chunks: seq<string>, parse: string -> Parsed<T>)
    requires AllParse(chunks, parse)
    ensures var out := PostForMany(chunks, parse);
            var kept := NonKeepAlive(chunks);
            && out.failure == None
            && |out.items| == |kept|
            && forall k :: 0 <= k < |kept| ==> parse(Framed(kept[k])) == Parsed(out.items[k])
    decreases |chunks|
  {
    if chunks != [] {
      assert AllParse(chunks[1..], parse) by {
        forall c | c in chunks[1..] ensures c in chunks { }
      }
      PostForManyValues(chunks[1..], parse);
      PostForManyCons(chunks, parse);
      if !IsKeepAlive(chunks[0]) {
        assert NonKeepAlive(chunks) == [chunks[0]] + NonKeepAlive(chunks[1..]);
      }
    }
  }

  /**
   * At most one value per chunk that reaches the parser; a failure that ends
   * the stream is always the runtime failure of some chunk the parser
   * rejected, never a server exception.
   */
  lemma {:induction false} PostForManyFailure<T>(chunks: seq<string>, parse: string -> Parsed<T>)
    ensures var out := PostForMany(chunks, parse);
            && |out.items| <= |NonKeepAlive(chunks)|
            && (out.failure.Some? ==>
                  && out.failure.value.Runtime?
                  && exists c :: c in chunks && !IsKeepAlive(c) && parse(Framed(c)) == Malformed(out.failure.value.cause))
    decreases |chunks|
  {
    if chunks != [] {
      PostForManyFailure(chunks[1..], parse);
      PostForManyCons(chunks, parse);
      var rest := PostForMany(chunks[1..], parse);
      if rest.failure.Some? {
        var c :| c in chunks[1..] && !IsKeepAlive(c) && parse(Framed(c)) == Malformed(rest.failure.value.cause);
        assert c in chunks;
      }
      assert chunks[0] in chunks;
    }
  }

  /** A response made only of keep-alive chunks delivers nothing and does not fail. */
  lemma {:induction false} KeepAliveOnly<T>(chunks: seq<string>, parse: string -> Parsed<T>)
    requires forall k :: 0 <= k < |chunks| ==> IsKeepAlive(chunks[k])
    ensures PostForMany(chunks, parse) == Trace([], None)
    decreases |chunks|
  {
    if chunks != [] {
      assert IsKeepAlive(chunks[0]);
      KeepAliveOnly(chunks[1..], parse);
    }
  }

  /**
   * The first chunk the parser rejects ends the stream with a generic
   * runtime failure carrying the parser's message (never a server
   * exception); the values of the chunks before it are delivered first.
   */
  lemma PostForManyStopsAtMalformed<T>(chunks: seq<string>, parse: string -> Parsed<T>, i: nat)
    requires i < |chunks| && !IsKeepAlive(chunks[i]) && parse(Framed(chunks[i])).Malformed?
    requires AllParse(chunks[..i], parse)
    ensures PostForMany(chunks, parse)
         == Trace(PostForMany(chunks[..i], parse).items, Some(Runtime(parse(Framed(chunks[i])).reason)))
  {
    PostForManyValues(chunks[..i], parse);
    RunSnoc(FramingStep(parse), (), chunks[..i], chunks[i]);
    assert chunks[..i] + [chunks[i]] == chunks[..i + 1];
    RunHalts(FramingStep(parse), (), chunks[..i + 1], chunks[i + 1..]);
    assert chunks[..i + 1] + chunks[i + 1..] == chunks;
  }

  /**
   * `readValue`: the typed parse if it succeeds; otherwise a
   * `KsqlDBServerException` if the text parses as a server error; otherwise a
   * runtime failure wrapping the typed parse's own exception.
   */
  function ReadValue<T>(text: string, parseTyped: string -> Parsed<T>,
                        parseServerError: string -> Parsed<ServerError>): (r: Result<T>)
    ensures r.Ok? <==> parseTyped(text).Parsed?
    ensures r.Ok? ==> r.value == parseTyped(text).value
    ensures r.Err? ==> (r.failure.ServerException? <==> parseServerError(text).Parsed?)
    ensures r.Err? && r.failure.ServerException? ==> r.failure.error == parseServerError(text).value
    ensures r.Err? && !r.failure.ServerException? ==> r.failure == Runtime(parseTyped(text).reason)
  {
    match parseTyped(text)
    case Parsed(v) => Ok(v)
    case Malformed(reason) =>
      match parseServerError(text)
      case Parsed(e) => Err(ServerException(e))
      case Malformed(_) => Err(Runtime(reason))
  }
}

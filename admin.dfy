/**
 * AdminUtil: the text of the CREATE STREAM statement built from a column
 * list, and the decision of `createStreamIfMissing` to issue it only when no
 * listed stream already has the requested name.
 *
 * The server calls are parameters: `listing` is what SHOW STREAMS returned
 * (the stream names of each response, or the failure), and `execute(stmt)`
 * is the sequence of command responses the server returns for `stmt`.
 */
module Admin {
  import opened Reactive

  /** `ColumnDefinition`: a column name and its declared ksqlDB type. */
  datatype ColumnDefinition = ColumnDefinition(name: string, dataType: string)

  function Column(c: ColumnDefinition): string
  {
    c.name + " " + c.dataType
  }

  /** The field list: each column rendered as `name type`, in list order, joined with ", ". */
  function Fields(columns: seq<ColumnDefinition>): (fields: string)
    ensures columns == [] ==> fields == ""
    ensures |columns| == 1 ==> fields == Column(columns[0])
  {
    if columns == [] then ""
    else if |columns| == 1 then Column(columns[0])
    else Column(columns[0]) + ", " + Fields(columns[1..])
  }

  /** Adding a column appends its rendering after a separator, leaving the earlier fields as they were. */
  lemma {:induction false} FieldsAppend(columns: seq<ColumnDefinition>, c: ColumnDefinition)
    requires columns != []
    ensures Fields(columns + [c]) == Fields(columns) + ", " + Column(c)
    decreases |columns|
  {
    if |columns| > 1 {
      assert (columns + [c])[1..] == columns[1..] + [c];
      FieldsAppend(columns[1..], c);
    } else {
      assert (columns + [c])[1..] == [c];
    }
  }

  /**
   * The statement `createStreamFromTopic` sends: the fixed keywords with the
   * name, the field list, the topic and the format inserted verbatim at known
   * offsets, so each can be read back unchanged, with nothing quoted or escaped.
   */
  function CreateStreamStatement(streamName: string, topicName: string, valueFormat: string,
                                 columns: seq<ColumnDefinition>): (stmt: string)
    ensures var fields := Fields(columns);
            var a := 14 + |streamName|;
            var b := a + 2 + |fields|;
            var c := b + 21 + |topicName|;
            var d := c + 17 + |valueFormat|;
            && |stmt| == d + 3
            && stmt[..14] == "CREATE STREAM "
            && stmt[14..a] == streamName
            && stmt[a..a + 2] == " ("
            && stmt[a + 2..b] == fields
            && stmt[b..b + 21] == ") WITH (kafka_topic='"
            && stmt[b + 21..c] == topicName
            && stmt[c..c + 17] == "', value_format='"
            && stmt[c + 17..d] == valueFormat
            && stmt[d..] == "');"
  {
    TextLayout(streamName, topicName, valueFormat, Fields(columns));
    "CREATE STREAM " + streamName + " (" + Fields(columns)
      + ") WITH (kafka_topic='" + topicName + "', value_format='" + valueFormat + "');"
  }

  /**
   * The same layout for an arbitrary field list. It is stated over a plain
   * string so that the slicing proof does not unfold `Fields`, which is
   * recursive and makes the proof too costly.
   */
  lemma TextLayout(streamName: string, topicName: string, valueFormat: string, fields: string)
    ensures var stmt := "CREATE STREAM " + streamName + " (" + fields
              + ") WITH (kafka_topic='" + topicName + "', value_format='" + valueFormat + "');";
            var a := 14 + |streamName|;
            var b := a + 2 + |fields|;
            var c := b + 21 + |topicName|;
            var d := c + 17 + |valueFormat|;
            && |stmt| == d + 3
            && stmt[..14] == "CREATE STREAM "
            && stmt[14..a] == streamName
            && stmt[a..a + 2] == " ("
            && stmt[a + 2..b] == fields
            && stmt[b..b + 21] == ") WITH (kafka_topic='"
            && stmt[b + 21..c] == topicName
            && stmt[c..c + 17] == "', value_format='"
            && stmt[c + 17..d] == valueFormat
            && stmt[d..] == "');"
  {
  }

  /** How many listed names equal `streamName` exactly (case-sensitive). */
  function MatchCount(names: seq<string>, streamName: string): (n: nat)
    ensures n <= |names|
    ensures n > 0 <==> streamName in names
  {
    if names == [] then 0
    else (if names[0] == streamName then 1 else 0) + MatchCount(names[1..], streamName)
  }

  /** What `createStreamIfMissing` sends and what its Mono yields. */
  datatype AdminRun = AdminRun(issued: seq<string>, result: Result<bool>)

  /** `createStreamFromTopic`: sends the statement and yields the last command response. */
  function CreateStreamFromTopic<R>(streamName: string, topicName: string, valueFormat: string,
                                    columns: seq<ColumnDefinition>, execute: string -> Result<seq<R>>): (r: Result<R>)
    ensures var responses := execute(CreateStreamStatement(streamName, topicName, valueFormat, columns));
            && (r.Ok? <==> responses.Ok? && responses.value != [])
            && (responses.Ok? && responses.value == [] ==> r == Err(NoElement))
            && (r.Ok? ==> r.value == responses.value[|responses.value| - 1])
            && (responses.Err? ==> r == Err(responses.failure))
  {
    match execute(CreateStreamStatement(streamName, topicName, valueFormat, columns))
    case Err(f) => Err(f)
    case Ok(responses) =>
      if responses == [] then Err(NoElement) else Ok(responses[|responses| - 1])
  }

  /**
   * `createStreamIfMissing`: every listed stream named exactly `streamName`
   * maps to false; only when there is none is the CREATE statement sent, and
   * its response maps to true; the Mono yields the last of these.
   */
  function CreateStreamIfMissing<R>(listing: Result<seq<seq<string>>>, streamName: string, topicName: string,
                                    valueFormat: string, columns: seq<ColumnDefinition>,
                                    execute: string -> Result<seq<R>>): (out: AdminRun)
    ensures listing.Err? ==> out == AdminRun([], Err(listing.failure))
    ensures listing.Ok? && streamName in Flatten(listing.value) ==> out == AdminRun([], Ok(false))
    ensures listing.Ok? && streamName !in Flatten(listing.value) ==>
              && out.issued == [CreateStreamStatement(streamName, topicName, valueFormat, columns)]
              && (out.result.Ok? <==> CreateStreamFromTopic(streamName, topicName, valueFormat, columns, execute).Ok?)
              && (out.result.Ok? ==> out.result.value)
              && (out.result.Err? ==>
                    out.result.failure == CreateStreamFromTopic(streamName, topicName, valueFormat, columns, execute).failure)
  {
    match listing
    case Err(f) => AdminRun([], Err(f))
    case Ok(responses) =>
      var found := seq(MatchCount(Flatten(responses), streamName), _ => false);
      if found != [] then AdminRun([], Ok(found[|found| - 1]))
      else
        var statement := CreateStreamStatement(streamName, topicName, valueFormat, columns);
        match CreateStreamFromTopic(streamName, topicName, valueFormat, columns, execute)
        case Ok(_) => AdminRun([statement], Ok(true))
        case Err(f) => AdminRun([statement], Err(f))
  }
}

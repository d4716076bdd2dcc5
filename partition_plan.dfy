/**
 * The partition planner of `ingest`: from the projected row and the output prefix it derives
 * the date partition, the S3 output key and the local scratch file name. Pure string
 * arithmetic; the timestamp's format is not checked.
 */
module PartitionPlan {
  import opened Wrappers
  import opened JsValues
  import opened Projection

  /** The file-name suffix of every output file. */
  const FileSuffix := ".snappy.parquet"

  /** The fields of the writer context that the rest of `ingest` reads. */
  datatype WriterContext = WriterContext(
    outputFile: string,
    outputKey: string,
    createPartitions: bool,
    partitionKeyValues: seq<string>,
    partitionValues: seq<string>)

  /** `row.ConnectedTimestamp.substring(...)` throws a TypeError unless the value is a string. */
  datatype PlanError = TimestampNotString

  /** `row[name]`. */
  function Get(row: Row, name: string): Value
  {
    if name in row then row[name] else Undefined
  }

  /** The partition value: the first 10 characters of the timestamp, all of it when shorter. */
  function PartitionDate(timestamp: string): (when: string)
    ensures |when| == if |timestamp| < 10 then |timestamp| else 10
    ensures when <= timestamp
  {
    SubstringFromStart(timestamp, 10);
    Substring(timestamp, 0, 10)
  }

  /** `key + '.snappy.parquet'` for the row's ContactId. */
  function FileName(contactId: Value): string
  {
    ToJsString(contactId) + FileSuffix
  }

  /** The writer context built at the end of the row-building block of `ingest`. */
  function Plan(row: Row, outputPrefix: string, createPartitions: bool): (r: Result<WriterContext, PlanError>)
    ensures r.Failure? <==> !Get(row, "ConnectedTimestamp").Str?
    ensures r.Success? ==>
      var when := PartitionDate(Get(row, "ConnectedTimestamp").s);
      && r.value.partitionValues == [when]
      && r.value.partitionKeyValues == ["when=" + when]
      && r.value.createPartitions == createPartitions
  {
    var key := Get(row, "ContactId");
    var connected := Get(row, "ConnectedTimestamp");
    if !connected.Str? then Failure(TimestampNotString)
    else
      var when := PartitionDate(connected.s);
      Success(WriterContext(
        "/tmp/" + ToJsString(key) + FileSuffix,
        outputPrefix + "/when=" + when + "/" + ToJsString(key) + FileSuffix,
        createPartitions,
        ["when=" + when],
        [when]))
  }

  /**
   * The output key is the prefix, the partition path (the key-value list joined by '/') and the
   * file name; the local file is the same file name under /tmp.
   */
  lemma PlanLayout(row: Row, outputPrefix: string, createPartitions: bool)
    requires Plan(row, outputPrefix, createPartitions).Success?
    ensures var ctx := Plan(row, outputPrefix, createPartitions).value;
      && ctx.outputKey == (outputPrefix + "/") + (Join(ctx.partitionKeyValues, "/") + "/" + FileName(Get(row, "ContactId")))
      && ctx.outputFile == "/tmp/" + FileName(Get(row, "ContactId"))
  {
  }

  /** A timestamp that starts with a 10-character date is partitioned on exactly that date. */
  lemma IsoDatePartition(date: string, rest: string)
    requires |date| == 10
    ensures PartitionDate(date + rest) == date
  {
    assert (date + rest)[..10] == date;
  }

  /**
   * For a timestamp of at least 10 characters, the output key can be read back: the prefix, then
   * '/when=', then the partition value, then '/', then the file name.
   */
  lemma OutputKeyDecodes(row: Row, outputPrefix: string, createPartitions: bool)
    requires Plan(row, outputPrefix, createPartitions).Success?
    requires |Get(row, "ConnectedTimestamp").s| >= 10
    ensures var ctx, n := Plan(row, outputPrefix, createPartitions).value, |outputPrefix|;
      && |ctx.outputKey| == n + 17 + |FileName(Get(row, "ContactId"))|
      && ctx.outputKey[..n] == outputPrefix
      && ctx.outputKey[n..n + 6] == "/when="
      && ctx.outputKey[n + 6..n + 16] == ctx.partitionValues[0]
      && ctx.outputKey[n + 16] == '/'
      && ctx.outputKey[n + 17..] == FileName(Get(row, "ContactId"))
      && ctx.outputKey[|ctx.outputKey| - |FileSuffix|..] == FileSuffix
  {
    var ctx := Plan(row, outputPrefix, createPartitions).value;
    var n := |outputPrefix|;
    var when := ctx.partitionValues[0];
    var file := FileName(Get(row, "ContactId"));
    assert ctx.outputKey == outputPrefix + "/when=" + when + "/" + file;
    assert |when| == 10;
  }
}

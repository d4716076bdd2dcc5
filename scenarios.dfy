/**
 * A sample ingestion, end to end through the model: one contact trace record,
 * one field mapping, its row, its partition and output key, and its registration in the catalog.
 */
module IngestScenarios {
  import opened Wrappers
  import opened JsValues
  import opened IngestConfig
  import opened Projection
  import opened PartitionPlan
  import opened GlueCatalog
  import opened PartitionRegistrar

  function SampleRecord(attributes: map<string, Value>): SourceRecord
  {
    SourceRecord(
      Str("abc123"), Str("2023-05-01T10:00:00Z"), Str("2023-05-01T10:05:00Z"),
      Some(Str("+1555")), Some(Str("+1777")), Some(attributes))
  }

  /** The row projected for the sample record. */
  function SampleRow(): Row
  {
    map[
      "ContactId" := Str("abc123"),
      "ConnectedTimestamp" := Str("2023-05-01T10:00:00Z"),
      "DisconnectedTimestamp" := Str("2023-05-01T10:05:00Z"),
      "SystemEndpoint" := Str("+1555"),
      "CustomerEndpoint" := Str("+1777"),
      "Foo" := Str("bar")]
  }

  /** The record with attribute foo = "bar" under mapping foo -> Foo projects to the sample row. */
  lemma SampleRecordProjected()
    ensures ExpectedRow(SampleRecord(map["foo" := Str("bar")]), [FieldMapping("foo", "Foo")]) == SampleRow()
  {
    var fields := [FieldMapping("foo", "Foo")];
    var row := ExpectedRow(SampleRecord(map["foo" := Str("bar")]), fields);
    assert Outputs(fields) == ["Foo"];
    assert LastWriter(fields, "Foo") == Some(0);
    assert row.Keys == SampleRow().Keys;
  }

  /**
   * A row with ContactId abc123 connected at 2023-05-01T10:00:00Z, such as the sample row, is
   * partitioned on 2023-05-01 and written to <prefix>/when=2023-05-01/abc123.snappy.parquet.
   */
  lemma SampleRowPlanned(row: Row, outputPrefix: string)
    requires Get(row, "ContactId") == Str("abc123")
    requires Get(row, "ConnectedTimestamp") == Str("2023-05-01T10:00:00Z")
    ensures Plan(row, outputPrefix, true) == Success(WriterContext(
      "/tmp/abc123.snappy.parquet",
      outputPrefix + "/when=2023-05-01/abc123.snappy.parquet",
      true,
      ["when=2023-05-01"],
      ["2023-05-01"]))
  {
    SampleDate();
    SamplePlanUnfolded(row, outputPrefix);
    SampleKey(outputPrefix);
    assert "/tmp/" + "abc123" + FileSuffix == "/tmp/abc123.snappy.parquet";
    assert "when=" + "2023-05-01" == "when=2023-05-01";
  }

  lemma SamplePlanUnfolded(row: Row, outputPrefix: string)
    requires Get(row, "ContactId") == Str("abc123")
    requires Get(row, "ConnectedTimestamp") == Str("2023-05-01T10:00:00Z")
    requires PartitionDate("2023-05-01T10:00:00Z") == "2023-05-01"
    ensures Plan(row, outputPrefix, true) == Success(WriterContext(
      "/tmp/" + "abc123" + FileSuffix,
      outputPrefix + "/when=" + "2023-05-01" + "/" + "abc123" + FileSuffix,
      true,
      ["when=" + "2023-05-01"],
      ["2023-05-01"]))
  {
  }

  lemma SampleKey(outputPrefix: string)
    ensures outputPrefix + "/when=" + "2023-05-01" + "/" + "abc123" + FileSuffix
         == outputPrefix + "/when=2023-05-01/abc123.snappy.parquet"
  {
    assert outputPrefix + "/when=" + "2023-05-01" + "/" + "abc123" + FileSuffix
        == outputPrefix + ("/when=" + "2023-05-01" + "/" + "abc123" + FileSuffix);
    assert "/when=" + "2023-05-01" + "/" + "abc123" + FileSuffix == "/when=2023-05-01/abc123.snappy.parquet";
  }

  lemma SampleDate()
    ensures PartitionDate("2023-05-01T10:00:00Z") == "2023-05-01"
  {
    IsoDatePartition("2023-05-01", "T10:00:00Z");
    assert "2023-05-01T10:00:00Z" == "2023-05-01" + "T10:00:00Z";
  }

  /** The same record without attribute foo: column Foo holds the default '0'. */
  lemma SampleRecordDefaulted()
    ensures var row := ExpectedRow(SampleRecord(map[]), [FieldMapping("foo", "Foo")]);
      "Foo" in row && row["Foo"] == Str("0")
  {
    var fields := [FieldMapping("foo", "Foo")];
    assert Outputs(fields) == ["Foo"];
  }

  lemma SampleDescriptor(template: StorageDescriptor)
    requires template.Location == "s3://bucket/ctr/"
    ensures PartitionDescriptor(template, ["when=2023-05-01"]).Location == "s3://bucket/ctr/when=2023-05-01/"
    ensures PartitionDescriptor(template, ["when=2023-05-01"]).Properties == template.Properties
  {
    assert "s3://bucket/ctr/" + "when=2023-05-01" + "/" == "s3://bucket/ctr/when=2023-05-01/";
  }

  /**
   * Registering the sample partition in a table whose location is s3://bucket/ctr/: the first call
   * fetches the template, creates the partition at s3://bucket/ctr/when=2023-05-01/ and resolves to
   * `true`; the second resolves to `false` after one getPartition request and creates nothing.
   */
  method RegisterSampleTwice()
  {
    var t := TableRef("contacts", "ctr");
    var template := StorageDescriptor("s3://bucket/ctr/", map["InputFormat" := "parquet"]);
    var glue := new Glue(map[t := Table(Some(template), map[])], map[]);
    var registrar := new Registrar();
    var ctx := WriterContext(
      "/tmp/abc123.snappy.parquet", "ctr/when=2023-05-01/abc123.snappy.parquet",
      true, ["when=2023-05-01"], ["2023-05-01"]);
    var expected := StorageDescriptor("s3://bucket/ctr/when=2023-05-01/", map["InputFormat" := "parquet"]);

    SampleDescriptor(template);

    var first := registrar.CreatePartition(glue, t, ctx);
    assert first == Success(Created);
    assert glue.calls == [
      GetPartitionCall(t, ["2023-05-01"]),
      GetTableCall(t),
      CreatePartitionCall(t, PartitionInput(expected, ["2023-05-01"]))];
    assert registrar.storageDescriptor == Some(template);

    var second := registrar.CreatePartition(glue, t, ctx);
    assert second == Success(NotCreated);
    assert glue.calls[3..] == [GetPartitionCall(t, ["2023-05-01"])];
  }
}

/**
 * The row builder inside `ingest`: copies five fixed fields out of the parsed contact trace
 * record, then walks the field mappings in order, writing the mapped attribute or the literal
 * default '0' into the row. Later writes win, including over a fixed column.
 */
module Projection {
  import opened Wrappers
  import opened JsValues
  import opened IngestConfig
  import opened Schema

  /**
   * The parsed record, as far as the row builder reads it. An endpoint is `None` when the
   * property is absent or null (reading `.Address` then throws); `Some(a)` holds the value of its
   * `Address` property, `Undefined` when that is missing. `Attributes` is `None` when absent or null.
   */
  datatype SourceRecord = SourceRecord(
    ContactId: Value,
    ConnectedToSystemTimestamp: Value,
    DisconnectTimestamp: Value,
    SystemEndpoint: Option<Value>,
    CustomerEndpoint: Option<Value>,
    Attributes: Option<map<string, Value>>)

  /** The row object: column name to value. */
  type Row = map<string, Value>

  /** The TypeError thrown when a nested property is read off `undefined` or `null`. */
  datatype ProjectionError = NoSystemEndpoint | NoCustomerEndpoint | NoAttributes

  /** The value written for a mapping whose attribute is undefined. */
  const Default: Value := Str("0")

  /** `attributes[key]`: `undefined` for a key that is not there. */
  function Lookup(attributes: map<string, Value>, key: string): Value
  {
    if key in attributes then attributes[key] else Undefined
  }

  /** What a mapping writes: the attribute when it is not `undefined` (even `null`), otherwise '0'. */
  function MappedValue(attributes: map<string, Value>, input: string): (v: Value)
    ensures v != Undefined
    ensures v == Default <==> Lookup(attributes, input) in {Undefined, Default}
    ensures Lookup(attributes, input) != Undefined ==> v == attributes[input]
  {
    var a := Lookup(attributes, input);
    if a != Undefined then a else Default
  }

  /** The index of the last mapping that writes column `name`, if any does. */
  function LastWriter(fields: seq<FieldMapping>, name: string): (r: Option<nat>)
    ensures r.Some? ==> r.value < |fields| && fields[r.value].output == name
    ensures r.Some? ==> forall j :: r.value < j < |fields| ==> fields[j].output != name
    ensures r.None? <==> name !in Outputs(fields)
  {
    if |fields| == 0 then None
    else if fields[|fields| - 1].output == name then Some(|fields| - 1)
    else
      assert Outputs(fields) == Outputs(fields[..|fields| - 1]) + [fields[|fields| - 1].output];
      LastWriter(fields[..|fields| - 1], name)
  }

  /** The attribute bag the mappings read, empty when the record has none. */
  function AttributesOf(src: SourceRecord): map<string, Value>
  {
    if src.Attributes.Some? then src.Attributes.value else map[]
  }

  /** The value the record supplies for fixed column `name`. */
  function FixedValue(src: SourceRecord, name: string): Value
    requires src.SystemEndpoint.Some? && src.CustomerEndpoint.Some?
  {
    if name == "ContactId" then src.ContactId
    else if name == "ConnectedTimestamp" then src.ConnectedToSystemTimestamp
    else if name == "DisconnectedTimestamp" then src.DisconnectTimestamp
    else if name == "SystemEndpoint" then src.SystemEndpoint.value
    else if name == "CustomerEndpoint" then src.CustomerEndpoint.value
    else Undefined
  }

  /**
   * The row the projection must produce, stated column by column: a column some mapping writes
   * holds the value of the last such mapping, any other column holds the record's fixed field.
   */
  function ExpectedRow(src: SourceRecord, fields: seq<FieldMapping>): Row
    requires src.SystemEndpoint.Some? && src.CustomerEndpoint.Some?
  {
    map name | name in FixedColumns + Outputs(fields) ::
      match LastWriter(fields, name)
      case Some(i) => MappedValue(AttributesOf(src), fields[i].input)
      case None => FixedValue(src, name)
  }

  /** Without mappings the row holds the five fixed fields and nothing else. */
  lemma ExpectedRowNoMappings(src: SourceRecord)
    requires src.SystemEndpoint.Some? && src.CustomerEndpoint.Some?
    ensures ExpectedRow(src, []) == map[
      "ContactId" := src.ContactId,
      "ConnectedTimestamp" := src.ConnectedToSystemTimestamp,
      "DisconnectedTimestamp" := src.DisconnectTimestamp,
      "SystemEndpoint" := src.SystemEndpoint.value,
      "CustomerEndpoint" := src.CustomerEndpoint.value]
  {
    assert Outputs([]) == [];
  }

  /** Applying one more mapping to the expected row of a prefix gives the expected row of the longer prefix. */
  lemma ExpectedRowStep(src: SourceRecord, fields: seq<FieldMapping>, k: nat)
    requires src.SystemEndpoint.Some? && src.CustomerEndpoint.Some?
    requires k < |fields|
    ensures ExpectedRow(src, fields[..k + 1]) ==
      ExpectedRow(src, fields[..k])[fields[k].output := MappedValue(AttributesOf(src), fields[k].input)]
  {
    var longer := fields[..k + 1];
    assert longer[..k] == fields[..k];
    OutputsSnoc(fields, k);
  }

  /**
   * What the row-building block yields: the TypeError of the first nested property read off a
   * missing object, or the expected row.
   */
  function Projected(src: SourceRecord, fields: seq<FieldMapping>): Result<Row, ProjectionError>
  {
    if src.SystemEndpoint.None? then Failure(NoSystemEndpoint)
    else if src.CustomerEndpoint.None? then Failure(NoCustomerEndpoint)
    else if src.Attributes.None? && |fields| > 0 then Failure(NoAttributes)
    else Success(ExpectedRow(src, fields))
  }

  /** The row-building block of `ingest`. */
  method ProjectRecord(src: SourceRecord, fields: seq<FieldMapping>) returns (r: Result<Row, ProjectionError>)
    ensures r == Projected(src, fields)
  {
    var row: Row := map[];
    row := row["ContactId" := src.ContactId];
    row := row["ConnectedTimestamp" := src.ConnectedToSystemTimestamp];
    row := row["DisconnectedTimestamp" := src.DisconnectTimestamp];
    if src.SystemEndpoint.None? {
      return Failure(NoSystemEndpoint);
    }
    row := row["SystemEndpoint" := src.SystemEndpoint.value];
    if src.CustomerEndpoint.None? {
      return Failure(NoCustomerEndpoint);
    }
    row := row["CustomerEndpoint" := src.CustomerEndpoint.value];
    ExpectedRowNoMappings(src);
    assert fields[..0] == [];

    for i := 0 to |fields|
      invariant src.Attributes.None? ==> i == 0
      invariant row == ExpectedRow(src, fields[..i])
    {
      if src.Attributes.None? {
        return Failure(NoAttributes);
      }
      var field := fields[i];
      var attribute := Lookup(src.Attributes.value, field.input);
      if attribute != Undefined {
        row := row[field.output := attribute];
      } else {
        row := row[field.output := Default];
      }
      ExpectedRowStep(src, fields, i);
    }
    assert fields[..|fields|] == fields;
    return Success(row);
  }

  /**
   * The projection fails exactly when SystemEndpoint or CustomerEndpoint is missing, or when the
   * record has no Attributes and at least one mapping reads them. A missing ContactId or
   * timestamp is no error: it is copied as `undefined`.
   */
  lemma ProjectionFailures(src: SourceRecord, fields: seq<FieldMapping>)
    ensures Projected(src, fields).Failure? <==>
      src.SystemEndpoint.None? || src.CustomerEndpoint.None? || (src.Attributes.None? && |fields| > 0)
    ensures src.SystemEndpoint.None? ==> Projected(src, fields) == Failure(NoSystemEndpoint)
    ensures src.SystemEndpoint.Some? && src.CustomerEndpoint.None? ==>
      Projected(src, fields) == Failure(NoCustomerEndpoint)
  {
  }

  /** The row has exactly the fixed columns and the configured output columns, no others. */
  lemma RowColumns(src: SourceRecord, fields: seq<FieldMapping>)
    requires src.SystemEndpoint.Some? && src.CustomerEndpoint.Some?
    ensures forall name :: name in ExpectedRow(src, fields) <==>
      name in FixedColumns || name in Outputs(fields)
  {
  }

  /**
   * A fixed column that no mapping writes holds the record's own field: ContactId,
   * ConnectedToSystemTimestamp, DisconnectTimestamp, SystemEndpoint.Address or
   * CustomerEndpoint.Address respectively.
   */
  lemma FixedColumnCopied(src: SourceRecord, fields: seq<FieldMapping>, name: string)
    requires src.SystemEndpoint.Some? && src.CustomerEndpoint.Some?
    requires name in FixedColumns && name !in Outputs(fields)
    ensures name in ExpectedRow(src, fields)
    ensures ExpectedRow(src, fields)[name] == FixedValue(src, name)
  {
  }

  /**
   * The column of the last mapping writing it holds that mapping's attribute when the attribute
   * is defined (a null included), and the string '0' exactly when it is undefined or is itself '0'.
   */
  lemma MappedColumn(src: SourceRecord, fields: seq<FieldMapping>, i: nat)
    requires src.SystemEndpoint.Some? && src.CustomerEndpoint.Some?
    requires i < |fields|
    requires forall j :: i < j < |fields| ==> fields[j].output != fields[i].output
    ensures var row, attrs, f := ExpectedRow(src, fields), AttributesOf(src), fields[i];
      && f.output in row
      && (Lookup(attrs, f.input) != Undefined ==> row[f.output] == attrs[f.input])
      && (Lookup(attrs, f.input) == Undefined ==> row[f.output] == Default)
      && (row[f.output] == Default <==> Lookup(attrs, f.input) == Undefined || Lookup(attrs, f.input) == Default)
  {
    var name := fields[i].output;
    assert name in Outputs(fields);
    var w := LastWriter(fields, name);
    assert w == Some(i);
  }
}

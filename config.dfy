/** The ingest configuration: the list of attribute-to-column mappings read from the config file. */
module IngestConfig {

  /** `{input, output}`: copy attribute `input` of the record into column `output`. */
  datatype FieldMapping = FieldMapping(input: string, output: string)

  /** The configured output column names, in configuration order. */
  function Outputs(fields: seq<FieldMapping>): (names: seq<string>)
    ensures |names| == |fields|
    ensures forall i :: 0 <= i < |fields| ==> names[i] == fields[i].output
  {
    seq(|fields|, i requires 0 <= i < |fields| => fields[i].output)
  }

  lemma OutputsSnoc(fields: seq<FieldMapping>, k: nat)
    requires k < |fields|
    ensures Outputs(fields[..k + 1]) == Outputs(fields[..k]) + [fields[k].output]
  {
  }
}

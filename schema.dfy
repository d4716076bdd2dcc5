/**
 * The parquet schema handed to the columnar writer: five fixed text columns followed by one
 * column per configured output name. The source builds it by assigning keys of a plain
 * object, so a repeated name overwrites an identical entry in place and adds no column.
 */
module Schema {
  import opened IngestConfig

  const UTF8 := "UTF8"
  const SNAPPY := "SNAPPY"

  /** The columns every output file starts with, in this order. */
  const FixedColumns: seq<string> :=
    ["ContactId", "ConnectedTimestamp", "DisconnectedTimestamp", "SystemEndpoint", "CustomerEndpoint"]

  /** The `{type, compression}` value stored under a column name. */
  datatype ColumnType = ColumnType(dataType: string, compression: string)

  /** One schema entry, as the parquet library reads it off the object. */
  datatype Column = Column(name: string, dataType: string, compression: string)

  /**
   * A JavaScript plain object with string keys that are not integer-like: its entries and the
   * order in which its keys were first assigned.
   */
  datatype Dict<V> = Dict(keys: seq<string>, entries: map<string, V>) {

    /** `obj[k] = v`: an existing key keeps its place, a new key goes last. */
    function Set(k: string, v: V): Dict<V>
    {
      Dict(if k in entries then keys else keys + [k], entries[k := v])
    }
  }

  predicate Distinct(s: seq<string>)
  {
    forall i, j :: 0 <= i < j < |s| ==> s[i] != s[j]
  }

  /** The first occurrence of every name in `s`, in the order of those occurrences. */
  function Dedup(s: seq<string>): seq<string>
    decreases |s|
  {
    if s == [] then []
    else
      var d := Dedup(s[..|s| - 1]);
      if s[|s| - 1] in d then d else d + [s[|s| - 1]]
  }

  /** The column names of the schema built for `fields`. */
  function ColumnNames(fields: seq<FieldMapping>): seq<string>
  {
    Dedup(FixedColumns + Outputs(fields))
  }

  /** The schema built for `fields`: every column a UTF8 column with SNAPPY compression. */
  function SchemaOf(fields: seq<FieldMapping>): seq<Column>
  {
    var names := ColumnNames(fields);
    seq(|names|, i requires 0 <= i < |names| => Column(names[i], UTF8, SNAPPY))
  }

  function Names(schema: seq<Column>): (names: seq<string>)
    ensures |names| == |schema|
    ensures forall i :: 0 <= i < |schema| ==> names[i] == schema[i].name
  {
    seq(|schema|, i requires 0 <= i < |schema| => schema[i].name)
  }

  /** The five fixed assignments that open `createSchema`. */
  method FixedInternals() returns (internals: Dict<ColumnType>)
    ensures internals.keys == FixedColumns
    ensures forall k :: k in internals.keys <==> k in internals.entries
    ensures forall k :: k in internals.entries ==> internals.entries[k] == ColumnType(UTF8, SNAPPY)
  {
    internals := Dict([], map[]);
    internals := internals.Set("ContactId", ColumnType(UTF8, SNAPPY));
    internals := internals.Set("ConnectedTimestamp", ColumnType(UTF8, SNAPPY));
    internals := internals.Set("DisconnectedTimestamp", ColumnType(UTF8, SNAPPY));
    internals := internals.Set("SystemEndpoint", ColumnType(UTF8, SNAPPY));
    internals := internals.Set("CustomerEndpoint", ColumnType(UTF8, SNAPPY));
  }

  /** `createSchema`: fills the schema object key by key, then reads it off in key order. */
  method CreateSchema(fields: seq<FieldMapping>) returns (schema: seq<Column>)
    ensures schema == SchemaOf(fields)
  {
    var internals := FixedInternals();
    FixedColumnsDistinct();
    DedupOfDistinct(FixedColumns);
    assert FixedColumns + Outputs(fields[..0]) == FixedColumns;

    var i := 0;
    while i < |fields|
      invariant 0 <= i <= |fields|
      invariant internals.keys == ColumnNames(fields[..i])
      invariant forall k :: k in internals.keys <==> k in internals.entries
      invariant forall k :: k in internals.entries ==> internals.entries[k] == ColumnType(UTF8, SNAPPY)
    {
      ColumnNamesStep(fields, i);
      internals := internals.Set(fields[i].output, ColumnType(UTF8, SNAPPY));
      i := i + 1;
    }
    assert fields[..i] == fields;

    var keys := internals.keys;
    schema := seq(|keys|, j requires 0 <= j < |keys| =>
      Column(keys[j], internals.entries[keys[j]].dataType, internals.entries[keys[j]].compression));
  }

  /** Mapping `k` adds its output name to the column names unless the name is already one of them. */
  lemma ColumnNamesStep(fields: seq<FieldMapping>, k: nat)
    requires k < |fields|
    ensures var before, name := ColumnNames(fields[..k]), fields[k].output;
      ColumnNames(fields[..k + 1]) == if name in before then before else before + [name]
  {
    OutputsSnoc(fields, k);
    var s := FixedColumns + Outputs(fields[..k + 1]);
    assert s[..|s| - 1] == FixedColumns + Outputs(fields[..k]);
  }

  lemma FixedColumnsDistinct()
    ensures Distinct(FixedColumns)
  {
  }

  lemma {:induction false} DedupMembers(s: seq<string>)
    ensures forall x :: x in Dedup(s) <==> x in s
    decreases |s|
  {
    if s != [] {
      DedupMembers(s[..|s| - 1]);
      assert s == s[..|s| - 1] + [s[|s| - 1]];
    }
  }

  lemma {:induction false} DedupDistinct(s: seq<string>)
    ensures Distinct(Dedup(s))
    decreases |s|
  {
    if s != [] {
      DedupDistinct(s[..|s| - 1]);
    }
  }

  lemma {:induction false} DedupOfDistinct(s: seq<string>)
    requires Distinct(s)
    ensures Dedup(s) == s
    decreases |s|
  {
    if s != [] {
      var p := s[..|s| - 1];
      DedupOfDistinct(p);
      assert s[|s| - 1] !in p;
      assert p + [s[|s| - 1]] == s;
    }
  }

  /** Dedup never lengthens, and keeps the length exactly when there is nothing to remove. */
  lemma {:induction false} DedupLength(s: seq<string>)
    ensures |Dedup(s)| <= |s|
    ensures |Dedup(s)| == |s| <==> Distinct(s)
    decreases |s|
  {
    if s != [] {
      var p, x := s[..|s| - 1], s[|s| - 1];
      DedupLength(p);
      DedupMembers(p);
      if Distinct(s) {
        DedupOfDistinct(s);
      } else if x !in p {
        assert !Distinct(p) by {
          var i, j :| 0 <= i < j < |s| && s[i] == s[j];
          assert j < |s| - 1;
          assert p[i] == p[j];
        }
      }
    }
  }

  /** Dedup of a longer list only appends to Dedup of its prefix. */
  lemma {:induction false} DedupPrefix(p: seq<string>, q: seq<string>)
    ensures Dedup(p) <= Dedup(p + q)
    decreases |q|
  {
    if q == [] {
      assert p + q == p;
    } else {
      var q' := q[..|q| - 1];
      DedupPrefix(p, q');
      var s := p + q;
      assert s[..|s| - 1] == p + q';
    }
  }

  lemma DistinctConcat(a: seq<string>, b: seq<string>)
    ensures Distinct(a + b) <==> Distinct(a) && Distinct(b) && forall x :: x in b ==> x !in a
  {
    var s := a + b;
    if Distinct(a) && Distinct(b) && forall x :: x in b ==> x !in a {
      forall i, j | 0 <= i < j < |s| ensures s[i] != s[j] {
        if j < |a| {
          assert s[i] == a[i] && s[j] == a[j];
        } else if i < |a| {
          assert s[i] == a[i] && s[j] == b[j - |a|] && b[j - |a|] in b;
        } else {
          assert s[i] == b[i - |a|] && s[j] == b[j - |a|];
        }
      }
    }
    if Distinct(s) {
      forall i, j | 0 <= i < j < |a| ensures a[i] != a[j] {
        assert s[i] == a[i] && s[j] == a[j];
      }
      forall i, j | 0 <= i < j < |b| ensures b[i] != b[j] {
        assert s[|a| + i] == b[i] && s[|a| + j] == b[j];
      }
      forall x | x in b ensures x !in a {
        var j :| 0 <= j < |b| && b[j] == x;
        forall i | 0 <= i < |a| ensures a[i] != x {
          assert s[i] == a[i] && s[|a| + j] == x;
        }
      }
    }
  }

  /**
   * The schema starts with the five fixed columns in order, every column is UTF8 with SNAPPY
   * compression, no name appears twice, and the names are exactly the fixed names and the
   * configured outputs.
   */
  lemma SchemaLayout(fields: seq<FieldMapping>)
    ensures var schema := SchemaOf(fields);
      && |schema| >= |FixedColumns|
      && Names(schema)[..|FixedColumns|] == FixedColumns
      && (forall c :: c in schema ==> c.dataType == UTF8 && c.compression == SNAPPY)
      && Distinct(Names(schema))
      && (forall n :: n in Names(schema) <==> n in FixedColumns || n in Outputs(fields))
  {
    var all := FixedColumns + Outputs(fields);
    var schema := SchemaOf(fields);
    FixedColumnsDistinct();
    DedupOfDistinct(FixedColumns);
    DedupPrefix(FixedColumns, Outputs(fields));
    DedupDistinct(all);
    DedupMembers(all);
    assert Names(schema) == Dedup(all);
  }

  /**
   * The schema has exactly 5 + N columns for N mappings when, and only when, the output names
   * are pairwise distinct and none of them is a fixed name.
   */
  lemma SchemaWidth(fields: seq<FieldMapping>)
    ensures |SchemaOf(fields)| == |FixedColumns| + |fields| <==>
      Distinct(Outputs(fields)) && forall i :: 0 <= i < |fields| ==> fields[i].output !in FixedColumns
  {
    var outs := Outputs(fields);
    DedupLength(FixedColumns + outs);
    FixedColumnsDistinct();
    DistinctConcat(FixedColumns, outs);
    if forall i :: 0 <= i < |fields| ==> fields[i].output !in FixedColumns {
      forall x | x in outs ensures x !in FixedColumns {
        var i :| 0 <= i < |outs| && outs[i] == x;
      }
    }
  }

  /**
   * Processing mapping `k` either leaves the schema as it was (its name is already a column) or
   * appends exactly that one column at the end.
   */
  lemma SchemaAppends(fields: seq<FieldMapping>, k: nat)
    requires k < |fields|
    ensures var before, after, name := SchemaOf(fields[..k]), SchemaOf(fields[..k + 1]), fields[k].output;
      after == if name in FixedColumns || name in Outputs(fields[..k]) then before
               else before + [Column(name, UTF8, SNAPPY)]
  {
    ColumnNamesStep(fields, k);
    DedupMembers(FixedColumns + Outputs(fields[..k]));
  }

  /** Later mappings never reorder or drop the columns of earlier ones: each prefix's schema is a prefix. */
  lemma SchemaPrefixStable(fields: seq<FieldMapping>, k: nat)
    requires k <= |fields|
    ensures SchemaOf(fields[..k]) <= SchemaOf(fields)
  {
    var p := FixedColumns + Outputs(fields[..k]);
    var rest := Outputs(fields)[k..];
    assert Outputs(fields) == Outputs(fields[..k]) + rest;
    assert FixedColumns + Outputs(fields) == p + rest;
    DedupPrefix(p, rest);
  }
}

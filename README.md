# CTR ingest: record, row, partition and catalog registration

A Dafny model of the core of the contact-trace-record (CTR) ingest Lambda
(`lambda/IngestCTRLambda.js`). For one parsed record the Lambda:

1. builds the parquet schema (`createSchema`): five fixed UTF8/SNAPPY columns, then one column per
   configured output name;
2. builds the row: copies five fixed fields out of the nested record, then applies the field
   mappings in order, writing the attribute or the default `'0'`;
3. plans the partition: `when` is the first 10 characters of the row's `ConnectedTimestamp`, from
   which come the partition key-values, the partition values, the S3 output key and the `/tmp` file;
4. registers the partition in the Glue catalog (`createPartition`), using a process-wide cache of
   the table's storage descriptor.

Files and modules:

- `wrappers.dfy` (`Wrappers`): `Option` and `Result`.
- `js_values.dfy` (`JsValues`): JavaScript values as a parsed record holds them (`undefined`,
  `null`, strings, anything else with its string conversion), `String(v)`, `Array.join` and
  `String.substring`.
- `config.dfy` (`IngestConfig`): the `{input, output}` field mappings.
- `schema.dfy` (`Schema`): `createSchema` as a method that fills an insertion-ordered
  dictionary, proved equal to `SchemaOf`, the first occurrences of the fixed and configured names.
- `projection.dfy` (`Projection`): the row builder as a method whose loop writes into the row
  map, proved equal to `Projected`, a column-by-column definition ("the last mapping that writes a
  column decides it").
- `partition_plan.dfy` (`PartitionPlan`): the pure partition/key computation.
- `catalog.dfy` (`GlueCatalog`): an abstract Glue catalog. It holds tables, per-operation injected
  error codes and a log of the requests it received.
- `registrar.dfy` (`PartitionRegistrar`): `createPartition` as a method of a class holding the
  `storageDescriptor` cache, proved equal to the pure step function `Register`, plus the lemmas
  about `Register`.
- `scenarios.dfy` (`IngestScenarios`): a sample record followed through projection,
  planning and two registrations.

The model follows the code, including these behaviours:

- the schema does not always have 5 + N columns: a repeated output name adds no column;
- a `null` attribute is copied; only an absent (`undefined`) one gets `'0'`;
- a missing `ContactId` is not an error. It is copied as `undefined`, and unless a mapping
  writes the `ContactId` column, the output key and file name then contain the text `undefined`;
- a missing `DisconnectTimestamp` is copied into the row as `undefined` (unless a mapping writes
  that column). It affects neither the key nor the file name;
- a missing or non-string `ConnectedToSystemTimestamp` is copied during projection. Unless a
  mapping writes the `ConnectedTimestamp` column, the `substring` call of the planning step then
  throws (`TimestampNotString`);
- there is no check for empty partition inputs;
- a `getPartition` failure other than `EntityNotFoundException` is not surfaced.
  `createPartition` resolves to `undefined` (`NoResult`), after still fetching the table
  descriptor when none is cached, unless that `getTable` request fails, whose error then
  propagates;
- a partition created concurrently shows up as a create failure (`AlreadyExistsException`), which
  propagates.

## Model

| member | source | states |
|---|---|---|
| Schema.FixedInternals | lambda/IngestCTRLambda.js:269-294 | the five fixed assignments leave the keys ContactId, ConnectedTimestamp, DisconnectedTimestamp, SystemEndpoint, CustomerEndpoint in that order, each mapped to {UTF8, SNAPPY} |
| Schema.CreateSchema | lambda/IngestCTRLambda.js:267-304 | filling the object key by key (a repeated key overwritten in place) and reading it off in key order yields `SchemaOf(fields)` |
| Schema.SchemaLayout | lambda/IngestCTRLambda.js:269-301 | the schema starts with the five fixed columns in order; every column is UTF8 with SNAPPY compression; names are distinct; the names are exactly the fixed names plus the configured outputs |
| Schema.SchemaWidth | lambda/IngestCTRLambda.js:296-301 | the schema has 5 + N columns if and only if the N output names are pairwise distinct and none is a fixed name |
| Schema.SchemaAppends | lambda/IngestCTRLambda.js:296-301 | mapping k leaves the schema unchanged when its name is already a column (fixed or earlier output), and otherwise appends exactly that column at the end |
| Schema.SchemaPrefixStable | lambda/IngestCTRLambda.js:296-301 | the schema of the first k mappings is a prefix of the full schema: configured columns appear in configuration order of first occurrence |
| Schema.DedupLength | lambda/IngestCTRLambda.js:296-301 | removing repeated names never lengthens the list, and keeps its length exactly when the names are distinct |
| Projection.MappedValue | lambda/IngestCTRLambda.js:169-176 | a mapping writes the attribute whenever it is not `undefined` (a `null` included), otherwise the string '0'; the written value is never `undefined` |
| Projection.LastWriter | lambda/IngestCTRLambda.js:165-177 | finds the last mapping that writes a column: it writes that name, no later mapping does, and there is none exactly when the name is not a configured output |
| Projection.ExpectedRowNoMappings | lambda/IngestCTRLambda.js:157-163 | with no mappings the row is exactly ContactId, ConnectedTimestamp, DisconnectedTimestamp, SystemEndpoint, CustomerEndpoint taken from ContactId, ConnectedToSystemTimestamp, DisconnectTimestamp and the two endpoints' Address |
| Projection.ExpectedRowStep | lambda/IngestCTRLambda.js:165-177 | applying mapping k to the row of the first k mappings overwrites one column and gives the row of the first k + 1 mappings |
| Projection.ProjectRecord | lambda/IngestCTRLambda.js:157-177 | the row-building block, with its in-place writes, returns the TypeError of the first missing nested object or the column-by-column expected row |
| Projection.ProjectionFailures | lambda/IngestCTRLambda.js:159-169 | projection fails exactly when SystemEndpoint or CustomerEndpoint is absent or null, or when Attributes is absent and some mapping reads it; SystemEndpoint is reported first |
| Projection.RowColumns | lambda/IngestCTRLambda.js:157-177 | the row's keys are exactly the fixed columns and the configured outputs |
| Projection.FixedColumnCopied | lambda/IngestCTRLambda.js:159-163 | a fixed column that no mapping writes holds the record's corresponding field |
| Projection.MappedColumn | lambda/IngestCTRLambda.js:165-177 | the column of the last mapping writing it holds the attribute when it is defined and '0' when it is undefined, even over a fixed column; it holds '0' exactly when the attribute is undefined or is itself '0' |
| PartitionPlan.PartitionDate | lambda/IngestCTRLambda.js:180 | the partition value is a prefix of the timestamp of length 10, or the whole timestamp when shorter |
| PartitionPlan.Plan | lambda/IngestCTRLambda.js:179-190 | planning fails exactly when ConnectedTimestamp is not a string; otherwise the partition values are [when] and the key-values ["when=" + when] |
| PartitionPlan.PlanLayout | lambda/IngestCTRLambda.js:179-190 | the output key is prefix + "/" + the joined key-values + "/" + ContactId + ".snappy.parquet", and the local file is that file name under /tmp |
| PartitionPlan.IsoDatePartition | lambda/IngestCTRLambda.js:180 | a timestamp beginning with a 10-character date is partitioned on exactly that date |
| PartitionPlan.OutputKeyDecodes | lambda/IngestCTRLambda.js:184 | for timestamps of 10 or more characters the output key reads back as prefix, "/when=", the partition value, "/", the file name, ending in ".snappy.parquet" |
| GlueCatalog.GetPartitionReply | lambda/IngestCTRLambda.js:224 | the abstract getPartition succeeds exactly when no fault is injected and the table has a partition with those values |
| GlueCatalog.GetTableReply | lambda/IngestCTRLambda.js:240 | the abstract getTable succeeds exactly when no fault is injected and the table exists |
| GlueCatalog.CreatePartitionReply | lambda/IngestCTRLambda.js:258 | the abstract createPartition succeeds exactly when no fault is injected, the table exists and the partition does not; it then adds that one partition and changes nothing else |
| GlueCatalog.Glue.GetPartition | lambda/IngestCTRLambda.js:224 | a getPartition request is answered by `GetPartitionReply` and appended to the request log |
| GlueCatalog.Glue.GetTable | lambda/IngestCTRLambda.js:240 | a getTable request is answered by `GetTableReply` and appended to the request log |
| GlueCatalog.Glue.CreatePartition | lambda/IngestCTRLambda.js:258 | a createPartition request updates the tables on success, leaves them on failure, and is appended to the request log |
| PartitionRegistrar.Registrar.constructor | lambda/IngestCTRLambda.js:11 | a cold process starts with no cached storage descriptor |
| PartitionRegistrar.Registrar.CreatePartition | lambda/IngestCTRLambda.js:209-262 | `createPartition` returns, caches, changes in the catalog and requests exactly what `Register` says; a cached descriptor is never replaced |
| PartitionRegistrar.RegisterDisabled | lambda/IngestCTRLambda.js:211-214 | with registration off the result is `false` and no request is made |
| PartitionRegistrar.RegisterExisting | lambda/IngestCTRLambda.js:216-225 | when getPartition succeeds the result is `false` after that single request; no getTable, no create |
| PartitionRegistrar.RegisterOtherFailure | lambda/IngestCTRLambda.js:227-261 | a getPartition failure other than EntityNotFoundException issues no create and leaves the catalog unchanged; with an empty cache and a failing getTable the call rejects with getTable's error code, otherwise it resolves to `undefined`; the cache then holds getTable's answer if it was fetched, else what it held |
| PartitionRegistrar.RegisterTableFailure | lambda/IngestCTRLambda.js:232-241 | on EntityNotFoundException with an empty cache, a failing getTable makes the call reject with its error code after exactly getPartition and getTable, with no create, the catalog unchanged and nothing cached |
| PartitionRegistrar.RegisterNoTemplate | lambda/IngestCTRLambda.js:240-253 | on EntityNotFoundException with an empty cache, a table without a storage descriptor makes reading its Location throw: the call rejects with `NoTemplate` after getPartition and getTable, with no create, the catalog unchanged and nothing cached |
| PartitionRegistrar.RegisterCreateFailure | lambda/IngestCTRLambda.js:244-258 | on EntityNotFoundException with the template cached or fetched, a failing create makes the call reject with the create's error code; the create is the last request, the catalog is unchanged and the template stays cached |
| PartitionRegistrar.RegisterNotFound | lambda/IngestCTRLambda.js:232-259 | on EntityNotFoundException, when the template is cached or fetched successfully, exactly one create is issued, last, with the partition values and a copy of the template whose only change is Location = template Location + key-values joined by "/" + "/"; the template is cached unchanged; the result is `true` exactly when the create succeeds |
| PartitionRegistrar.RegisterChangesOnlyByCreate | lambda/IngestCTRLambda.js:244-259 | the catalog changes only when the result is `true`, and then holds the partition; no table's storage descriptor ever changes |
| PartitionRegistrar.RegisterCache | lambda/IngestCTRLambda.js:232-242 | a cached descriptor is neither refetched nor replaced; with an empty cache getTable is requested at most once, and only its answer can fill the cache |
| PartitionRegistrar.RegisterIdempotent | lambda/IngestCTRLambda.js:216-259 | right after a call that created the partition, the same call again returns `false` with only a getPartition request and no create |
| PartitionRegistrar.GetTableAtMostOnce | lambda/IngestCTRLambda.js:232-242 | over any run of invocations in one process, getTable is requested at most once (never, once cached) when the table exists with a descriptor and getTable does not fail |
| PartitionRegistrar.ObjectInPartition | lambda/IngestCTRLambda.js:253 | the partition's Location followed by the file name equals the table Location followed by the output key after the prefix: the uploaded object lies inside the registered partition |
| IngestScenarios.SampleRecordProjected | lambda/IngestCTRLambda.js:157-177 | the example record with attribute foo = "bar" and mapping foo to Foo projects to the six expected columns |
| IngestScenarios.SampleRecordDefaulted | lambda/IngestCTRLambda.js:169-176 | the same record without foo gets Foo = '0' |
| IngestScenarios.SampleRowPlanned | lambda/IngestCTRLambda.js:179-190 | the example row is partitioned on 2023-05-01 and keyed <prefix>/when=2023-05-01/abc123.snappy.parquet, with local file /tmp/abc123.snappy.parquet |

## Left out

- `exports.handler`, `createState` and `loadIngestConfig`: environment variables, reading the
  configuration file and logging. The output prefix, the create-partitions flag and the database
  and table names are parameters instead. An unset `OUTPUT_PREFIX`, which would print as
  `undefined`, is not modelled.
- `getBucket` and `getKey`: event-shape plumbing and URL percent-decoding of the object key.
- `getSource` and `uploadProcessedFile`: S3 network I/O and `JSON.parse`. The parsed record is an input.
- The parquetjs writer, the row-group size and `fs.unlinkSync`. Only the schema description and
  the row handed to the writer are modelled.
- The Glue SDK and the network: the catalog is an abstract service whose failures are injected
  per operation as error codes. Database and table names only select a table.
- async/await: every call is awaited in turn, so the model is plain sequential code.
- Keys of `Object.prototype` (`constructor`, `__proto__`, ...), used as attribute or column
  names, and integer-like column names, which JavaScript orders first: the model treats both
  objects as plain string-keyed dictionaries in insertion order.
- A configuration without a `fields` array, or with mappings that lack `input` or `output`: the
  configuration is a sequence of string pairs, so the TypeError that `ingestConfig.fields.forEach`
  throws for a missing `fields` is not modelled.
- A parsed record that is `null` or a primitive, for which reading `sourceCTR.ContactId` throws:
  the record is always an object with the six fields, each possibly absent.
- A table storage descriptor without a `Location`: `Location` is a string, so the partition
  location `"undefined"` + key-values + `"/"` that the code then builds is not modelled.
- Attributes or endpoints that are primitives rather than objects (a string `Attributes`
  indexed by name) are not modelled. An endpoint that is present but not an object is taken to
  have an undefined `Address`.
- Strings with characters outside the Basic Multilingual Plane: Dafny's `char` is a Unicode
  scalar value, so `substring` splitting a surrogate pair (and any code-unit count over such
  characters) is not modelled.

/**
 * `createPartition` and the module-level `storageDescriptor` cache: registers the row's date
 * partition in the catalog unless registration is off or the partition already exists, cloning
 * the table's storage descriptor (fetched once per process) with a partition-specific Location.
 */
module PartitionRegistrar {
  import opened Wrappers
  import opened JsValues
  import opened GlueCatalog
  import opened Projection
  import opened PartitionPlan

  /** What `createPartition` resolves to: `false`, `true`, or `undefined` when it falls off the end. */
  datatype Registration = NotCreated | Created | NoResult

  /**
   * What it rejects with: a catalog error from `getTable` or `createPartition`, or the TypeError of
   * reading `.Location` when the table has no storage descriptor.
   */
  datatype RegistrarError = CatalogError(code: string) | NoTemplate

  /** `${template.Location}${keyValues.join('/')}/`. */
  function PartitionLocation(template: StorageDescriptor, keyValues: seq<string>): string
  {
    template.Location + Join(keyValues, "/") + "/"
  }

  /** `{...template, Location: ...}`: a copy of the template that differs only in Location. */
  function PartitionDescriptor(template: StorageDescriptor, keyValues: seq<string>): StorageDescriptor
  {
    template.(Location := PartitionLocation(template, keyValues))
  }

  /** The outcome of one call: its result, the cache and tables after it, and the requests it issued. */
  datatype Step = Step(
    result: Result<Registration, RegistrarError>,
    cache: Option<StorageDescriptor>,
    tables: map<TableRef, Table>,
    issued: seq<Call>)

  /** One call of `createPartition`, from the cache and catalog state before it. */
  function Register(
    cache: Option<StorageDescriptor>, tables: map<TableRef, Table>, faults: map<Op, string>,
    t: TableRef, ctx: WriterContext): Step
  {
    if !ctx.createPartitions then Step(Success(NotCreated), cache, tables, [])
    else
      var found := GetPartitionReply(tables, faults, t, ctx.partitionValues);
      var calls1 := [GetPartitionCall(t, ctx.partitionValues)];
      if found.Success? then Step(Success(NotCreated), cache, tables, calls1)
      else if cache.None? && GetTableReply(tables, faults, t).Failure? then
        Step(Failure(CatalogError(GetTableReply(tables, faults, t).error)), cache, tables, calls1 + [GetTableCall(t)])
      else
        var template := if cache.None? then GetTableReply(tables, faults, t).value else cache;
        var calls2 := if cache.None? then calls1 + [GetTableCall(t)] else calls1;
        if found.error != EntityNotFound then Step(Success(NoResult), template, tables, calls2)
        else if template.None? then Step(Failure(NoTemplate), template, tables, calls2)
        else
          var input := PartitionInput(PartitionDescriptor(template.value, ctx.partitionKeyValues), ctx.partitionValues);
          var created := CreatePartitionReply(tables, faults, t, input);
          var calls3 := calls2 + [CreatePartitionCall(t, input)];
          if created.Failure? then Step(Failure(CatalogError(created.error)), template, tables, calls3)
          else Step(Success(Created), template, created.value, calls3)
  }

  /** The process-wide state of the Lambda module: the cached table storage descriptor. */
  class Registrar {
    var storageDescriptor: Option<StorageDescriptor>

    /** A cold start: nothing cached. */
    constructor ()
      ensures storageDescriptor == None
    {
      storageDescriptor := None;
    }

    /** `createPartition(writerContext)` against table `t`. */
    method CreatePartition(glue: Glue, t: TableRef, ctx: WriterContext) returns (r: Result<Registration, RegistrarError>)
      modifies this, glue
      ensures glue.faults == old(glue.faults)
      ensures var s := Register(old(storageDescriptor), old(glue.tables), glue.faults, t, ctx);
        && r == s.result
        && storageDescriptor == s.cache
        && glue.tables == s.tables
        && glue.calls == old(glue.calls) + s.issued
      ensures old(storageDescriptor).Some? ==> storageDescriptor == old(storageDescriptor)
    {
      if !ctx.createPartitions {
        return Success(NotCreated);
      }
      var found := glue.GetPartition(t, ctx.partitionValues);
      if found.Success? {
        return Success(NotCreated);
      }
      if storageDescriptor.None? {
        var table := glue.GetTable(t);
        if table.Failure? {
          return Failure(CatalogError(table.error));
        }
        storageDescriptor := table.value;
      }
      if found.error == EntityNotFound {
        if storageDescriptor.None? {
          return Failure(NoTemplate);
        }
        var template := storageDescriptor.value;
        var input := PartitionInput(PartitionDescriptor(template, ctx.partitionKeyValues), ctx.partitionValues);
        var created := glue.CreatePartition(t, input);
        if created.Failure? {
          return Failure(CatalogError(created.error));
        }
        return Success(Created);
      }
      return Success(NoResult);
    }
  }

  /** No create request among `calls`. */
  predicate NoCreate(calls: seq<Call>)
  {
    forall i :: 0 <= i < |calls| ==> !calls[i].CreatePartitionCall?
  }

  /** The tables change only through a successful create, which is what `true` reports. */
  lemma RegisterChangesOnlyByCreate(
    cache: Option<StorageDescriptor>, tables: map<TableRef, Table>, faults: map<Op, string>,
    t: TableRef, ctx: WriterContext)
    ensures var s := Register(cache, tables, faults, t, ctx);
      && (s.result == Success(Created) <==> s.tables != tables)
      && (s.result == Success(Created) ==> t in s.tables && ctx.partitionValues in s.tables[t].Partitions)
      && s.tables.Keys == tables.Keys
      && (forall u :: u in tables ==> s.tables[u].StorageDescriptor == tables[u].StorageDescriptor)
  {
    var s := Register(cache, tables, faults, t, ctx);
    if s.result == Success(Created) {
      assert ctx.partitionValues !in tables[t].Partitions;
      assert ctx.partitionValues in s.tables[t].Partitions;
    }
  }

  /** With registration switched off nothing is asked of the catalog and the result is `false`. */
  lemma RegisterDisabled(
    cache: Option<StorageDescriptor>, tables: map<TableRef, Table>, faults: map<Op, string>,
    t: TableRef, ctx: WriterContext)
    requires !ctx.createPartitions
    ensures Register(cache, tables, faults, t, ctx) == Step(Success(NotCreated), cache, tables, [])
  {
  }

  /** A partition that already exists: `false`, after a single getPartition request. */
  lemma RegisterExisting(
    cache: Option<StorageDescriptor>, tables: map<TableRef, Table>, faults: map<Op, string>,
    t: TableRef, ctx: WriterContext)
    requires ctx.createPartitions
    requires GetPartitionReply(tables, faults, t, ctx.partitionValues).Success?
    ensures Register(cache, tables, faults, t, ctx) ==
      Step(Success(NotCreated), cache, tables, [GetPartitionCall(t, ctx.partitionValues)])
  {
  }

  /**
   * A getPartition failure other than not-found is swallowed: no create is issued and the tables
   * stay as they were. With a cold cache getTable is still requested; its failure is what the call
   * rejects with, and otherwise the call resolves to `undefined` with getTable's answer cached.
   */
  lemma RegisterOtherFailure(
    cache: Option<StorageDescriptor>, tables: map<TableRef, Table>, faults: map<Op, string>,
    t: TableRef, ctx: WriterContext)
    requires ctx.createPartitions
    requires GetPartitionReply(tables, faults, t, ctx.partitionValues).Failure?
    requires GetPartitionReply(tables, faults, t, ctx.partitionValues).error != EntityNotFound
    ensures var s := Register(cache, tables, faults, t, ctx);
      var fetched := GetTableReply(tables, faults, t);
      && s.tables == tables
      && NoCreate(s.issued)
      && s.result == (if cache.None? && fetched.Failure? then Failure(CatalogError(fetched.error))
                      else Success(NoResult))
      && s.cache == (if cache.None? && fetched.Success? then fetched.value else cache)
  {
  }

  /**
   * A partition that is not found while nothing is cached and getTable fails: the call rejects
   * with getTable's error code, issues no create, and leaves the catalog and the cache as they were.
   */
  lemma RegisterTableFailure(
    cache: Option<StorageDescriptor>, tables: map<TableRef, Table>, faults: map<Op, string>,
    t: TableRef, ctx: WriterContext, code: string)
    requires ctx.createPartitions
    requires GetPartitionReply(tables, faults, t, ctx.partitionValues) == Failure(EntityNotFound)
    requires cache.None? && GetTableReply(tables, faults, t) == Failure(code)
    ensures var s := Register(cache, tables, faults, t, ctx);
      && s.result == Failure(CatalogError(code))
      && s.issued == [GetPartitionCall(t, ctx.partitionValues), GetTableCall(t)]
      && NoCreate(s.issued)
      && s.tables == tables
      && s.cache == None
  {
  }

  /**
   * A partition that is not found while nothing is cached and the table has no storage
   * descriptor: reading its Location throws, so the call rejects with `NoTemplate`, issues no
   * create and leaves the catalog as it was; nothing is cached.
   */
  lemma RegisterNoTemplate(
    cache: Option<StorageDescriptor>, tables: map<TableRef, Table>, faults: map<Op, string>,
    t: TableRef, ctx: WriterContext)
    requires ctx.createPartitions
    requires GetPartitionReply(tables, faults, t, ctx.partitionValues) == Failure(EntityNotFound)
    requires cache.None? && GetTableReply(tables, faults, t) == Success(None)
    ensures var s := Register(cache, tables, faults, t, ctx);
      && s.result == Failure(NoTemplate)
      && s.issued == [GetPartitionCall(t, ctx.partitionValues), GetTableCall(t)]
      && NoCreate(s.issued)
      && s.tables == tables
      && s.cache == None
  {
  }

  /**
   * A partition that is not found, with the template at hand, whose create fails: the call rejects
   * with the create's error code, the catalog is unchanged and the template stays cached.
   */
  lemma RegisterCreateFailure(
    cache: Option<StorageDescriptor>, tables: map<TableRef, Table>, faults: map<Op, string>,
    t: TableRef, ctx: WriterContext, template: StorageDescriptor)
    requires ctx.createPartitions
    requires GetPartitionReply(tables, faults, t, ctx.partitionValues) == Failure(EntityNotFound)
    requires cache == Some(template) || (cache.None? && GetTableReply(tables, faults, t) == Success(Some(template)))
    requires CreatePartitionReply(tables, faults, t,
      PartitionInput(PartitionDescriptor(template, ctx.partitionKeyValues), ctx.partitionValues)).Failure?
    ensures var input := PartitionInput(PartitionDescriptor(template, ctx.partitionKeyValues), ctx.partitionValues);
      var s := Register(cache, tables, faults, t, ctx);
      && s.result == Failure(CatalogError(CreatePartitionReply(tables, faults, t, input).error))
      && s.issued[|s.issued| - 1] == CreatePartitionCall(t, input)
      && s.tables == tables
      && s.cache == Some(template)
  {
  }

  /**
   * A partition that is not found, with the template at hand: exactly one create is issued, as the
   * last request, for the partition's values and a copy of the template that differs only in
   * Location; the template is cached unchanged; the result is `true` unless the create fails.
   */
  lemma RegisterNotFound(
    cache: Option<StorageDescriptor>, tables: map<TableRef, Table>, faults: map<Op, string>,
    t: TableRef, ctx: WriterContext, template: StorageDescriptor)
    requires ctx.createPartitions
    requires GetPartitionReply(tables, faults, t, ctx.partitionValues) == Failure(EntityNotFound)
    requires cache == Some(template) || (cache.None? && GetTableReply(tables, faults, t) == Success(Some(template)))
    ensures var s := Register(cache, tables, faults, t, ctx);
      && s.cache == Some(template)
      && |s.issued| > 0
      && NoCreate(s.issued[..|s.issued| - 1])
      && s.issued[|s.issued| - 1].CreatePartitionCall?
      && var input := s.issued[|s.issued| - 1].input;
      && input.Values == ctx.partitionValues
      && input.StorageDescriptor.Properties == template.Properties
      && input.StorageDescriptor.Location == template.Location + Join(ctx.partitionKeyValues, "/") + "/"
      && (s.result == Success(Created) <==> CreatePartitionReply(tables, faults, t, input).Success?)
  {
  }

  /** Once a template is cached it is neither refetched nor replaced; a cold cache is fetched at most once. */
  lemma RegisterCache(
    cache: Option<StorageDescriptor>, tables: map<TableRef, Table>, faults: map<Op, string>,
    t: TableRef, ctx: WriterContext)
    ensures var s := Register(cache, tables, faults, t, ctx);
      && (cache.Some? ==> s.cache == cache && multiset(s.issued)[GetTableCall(t)] == 0)
      && (cache.None? ==> multiset(s.issued)[GetTableCall(t)] <= 1)
      && (s.cache != cache ==> s.cache == GetTableReply(tables, faults, t).value)
  {
  }

  /**
   * Idempotence: right after a call that created the partition, a second call with the same
   * writer context resolves to `false` and issues nothing but the getPartition request.
   */
  lemma RegisterIdempotent(
    cache: Option<StorageDescriptor>, tables: map<TableRef, Table>, faults: map<Op, string>,
    t: TableRef, ctx: WriterContext)
    requires GetPartitionOp !in faults
    requires Register(cache, tables, faults, t, ctx).result == Success(Created)
    ensures var first := Register(cache, tables, faults, t, ctx);
      var second := Register(first.cache, first.tables, faults, t, ctx);
      && second.result == Success(NotCreated)
      && second.tables == first.tables
      && second.issued == [GetPartitionCall(t, ctx.partitionValues)]
  {
    RegisterChangesOnlyByCreate(cache, tables, faults, t, ctx);
  }

  /** A run of invocations in one warm process, sharing the cache and the catalog. */
  function RegisterAll(
    cache: Option<StorageDescriptor>, tables: map<TableRef, Table>, faults: map<Op, string>,
    t: TableRef, ctxs: seq<WriterContext>): Step
    decreases |ctxs|
  {
    if ctxs == [] then Step(Success(NotCreated), cache, tables, [])
    else
      var s := Register(cache, tables, faults, t, ctxs[0]);
      var rest := RegisterAll(s.cache, s.tables, faults, t, ctxs[1..]);
      rest.(issued := s.issued + rest.issued)
  }

  /**
   * getTable is requested at most once per process when the table exists, has a storage
   * descriptor and getTable is not failing: after the first fetch the descriptor stays cached.
   */
  lemma {:induction false} GetTableAtMostOnce(
    cache: Option<StorageDescriptor>, tables: map<TableRef, Table>, faults: map<Op, string>,
    t: TableRef, ctxs: seq<WriterContext>)
    requires GetTableOp !in faults && t in tables && tables[t].StorageDescriptor.Some?
    ensures var s := RegisterAll(cache, tables, faults, t, ctxs);
      && multiset(s.issued)[GetTableCall(t)] <= (if cache.None? then 1 else 0)
      && (cache.Some? ==> s.cache == cache)
    decreases |ctxs|
  {
    if ctxs != [] {
      var s := Register(cache, tables, faults, t, ctxs[0]);
      RegisterCache(cache, tables, faults, t, ctxs[0]);
      RegisterChangesOnlyByCreate(cache, tables, faults, t, ctxs[0]);
      assert cache.None? && s.cache.None? ==> multiset(s.issued)[GetTableCall(t)] == 0;
      GetTableAtMostOnce(s.cache, s.tables, faults, t, ctxs[1..]);
      var rest := RegisterAll(s.cache, s.tables, faults, t, ctxs[1..]);
      assert multiset(s.issued + rest.issued) == multiset(s.issued) + multiset(rest.issued);
    }
  }

  /**
   * The object written under the output key lies in the registered partition: when the table's
   * location is the prefix's S3 folder, the partition location followed by the file name is the
   * table location followed by the output key's part after the prefix.
   */
  lemma ObjectInPartition(row: Row, outputPrefix: string, createPartitions: bool, template: StorageDescriptor)
    requires Plan(row, outputPrefix, createPartitions).Success?
    ensures var ctx := Plan(row, outputPrefix, createPartitions).value;
      PartitionLocation(template, ctx.partitionKeyValues) + FileName(Get(row, "ContactId")) ==
        template.Location + ctx.outputKey[|outputPrefix| + 1..]
  {
    var ctx := Plan(row, outputPrefix, createPartitions).value;
    PlanLayout(row, outputPrefix, createPartitions);
    var tail := Join(ctx.partitionKeyValues, "/") + "/" + FileName(Get(row, "ContactId"));
    assert ctx.outputKey == (outputPrefix + "/") + tail;
    assert ctx.outputKey[|outputPrefix + "/"|..] == tail;
  }
}

/**
 * An abstract stand-in for the Glue data catalog client used by `createPartition`: tables with
 * their storage descriptors and partitions, failures injected per operation, and a log of the
 * requests it received.
 */
module GlueCatalog {
  import opened Wrappers

  /** The error code of a lookup for a table or partition that does not exist. */
  const EntityNotFound := "EntityNotFoundException"

  /** The error code of a create for a partition that already exists. */
  const AlreadyExists := "AlreadyExistsException"

  /** A storage descriptor: its `Location` and every other property, by name. */
  datatype StorageDescriptor = StorageDescriptor(Location: string, Properties: map<string, string>)

  /** The `PartitionInput` of a create-partition request. */
  datatype PartitionInput = PartitionInput(StorageDescriptor: StorageDescriptor, Values: seq<string>)

  /** `{DatabaseName, TableName}` as read from the environment. */
  datatype TableRef = TableRef(DatabaseName: string, TableName: string)

  /** A table: its storage descriptor (possibly unset) and its partitions by value list. */
  datatype Table = Table(StorageDescriptor: Option<StorageDescriptor>, Partitions: map<seq<string>, StorageDescriptor>)

  datatype Op = GetPartitionOp | GetTableOp | CreatePartitionOp

  /** One request sent to the catalog. */
  datatype Call =
    | GetPartitionCall(table: TableRef, values: seq<string>)
    | GetTableCall(table: TableRef)
    | CreatePartitionCall(table: TableRef, input: PartitionInput)

  /** `getPartition`: an injected failure, not-found, or the partition's descriptor. */
  function GetPartitionReply(tables: map<TableRef, Table>, faults: map<Op, string>, t: TableRef, values: seq<string>)
    : (r: Result<StorageDescriptor, string>)
    ensures r.Success? <==> GetPartitionOp !in faults && t in tables && values in tables[t].Partitions
  {
    if GetPartitionOp in faults then Failure(faults[GetPartitionOp])
    else if t !in tables || values !in tables[t].Partitions then Failure(EntityNotFound)
    else Success(tables[t].Partitions[values])
  }

  /** `getTable`: an injected failure, not-found, or the table's storage descriptor. */
  function GetTableReply(tables: map<TableRef, Table>, faults: map<Op, string>, t: TableRef)
    : (r: Result<Option<StorageDescriptor>, string>)
    ensures r.Success? <==> GetTableOp !in faults && t in tables
  {
    if GetTableOp in faults then Failure(faults[GetTableOp])
    else if t !in tables then Failure(EntityNotFound)
    else Success(tables[t].StorageDescriptor)
  }

  /** `createPartition`: an injected failure, not-found, already-exists, or the updated tables. */
  function CreatePartitionReply(tables: map<TableRef, Table>, faults: map<Op, string>, t: TableRef, input: PartitionInput)
    : (r: Result<map<TableRef, Table>, string>)
    ensures r.Success? <==>
      CreatePartitionOp !in faults && t in tables && input.Values !in tables[t].Partitions
    ensures r.Success? ==>
      && r.value.Keys == tables.Keys
      && (forall u :: u in tables && u != t ==> r.value[u] == tables[u])
      && r.value[t].StorageDescriptor == tables[t].StorageDescriptor
      && r.value[t].Partitions == tables[t].Partitions[input.Values := input.StorageDescriptor]
  {
    if CreatePartitionOp in faults then Failure(faults[CreatePartitionOp])
    else if t !in tables then Failure(EntityNotFound)
    else if input.Values in tables[t].Partitions then Failure(AlreadyExists)
    else
      var table := tables[t];
      Success(tables[t := table.(Partitions := table.Partitions[input.Values := input.StorageDescriptor])])
  }

  /** The catalog service seen through its client. */
  class Glue {
    var tables: map<TableRef, Table>
    var faults: map<Op, string>
    var calls: seq<Call>

    constructor (tables: map<TableRef, Table>, faults: map<Op, string>)
      ensures this.tables == tables && this.faults == faults && calls == []
    {
      this.tables := tables;
      this.faults := faults;
      calls := [];
    }

    method GetPartition(t: TableRef, values: seq<string>) returns (r: Result<StorageDescriptor, string>)
      modifies this
      ensures r == GetPartitionReply(tables, faults, t, values)
      ensures tables == old(tables) && faults == old(faults)
      ensures calls == old(calls) + [GetPartitionCall(t, values)]
    {
      r := GetPartitionReply(tables, faults, t, values);
      calls := calls + [GetPartitionCall(t, values)];
    }

    method GetTable(t: TableRef) returns (r: Result<Option<StorageDescriptor>, string>)
      modifies this
      ensures r == GetTableReply(tables, faults, t)
      ensures tables == old(tables) && faults == old(faults)
      ensures calls == old(calls) + [GetTableCall(t)]
    {
      r := GetTableReply(tables, faults, t);
      calls := calls + [GetTableCall(t)];
    }

    method CreatePartition(t: TableRef, input: PartitionInput) returns (r: Result<(), string>)
      modifies this
      ensures var reply := CreatePartitionReply(old(tables), faults, t, input);
        && (r.Success? <==> reply.Success?)
        && (r.Failure? ==> r.error == reply.error && tables == old(tables))
        && (r.Success? ==> tables == reply.value)
      ensures faults == old(faults)
      ensures calls == old(calls) + [CreatePartitionCall(t, input)]
    {
      var reply := CreatePartitionReply(tables, faults, t, input);
      if reply.Success? {
        tables := reply.value;
        r := Success(());
      } else {
        r := Failure(reply.error);
      }
      calls := calls + [CreatePartitionCall(t, input)];
    }
  }
}

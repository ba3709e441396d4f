/**
 * The schema source registry (`vm::SchemaSource`, `vm::SchemaSourceList`):
 * the input schemas a composite output schema is assembled from, in
 * precedence order, each with its table name and, optionally, the column
 * sources of its columns.
 */
module SchemaSources {
  import opened Wrappers

  /** A `const vm::Schema*`: the schema is owned elsewhere; only its identity is kept. */
  datatype SchemaRef = SchemaRef(address: nat)

  /** A `const vm::ColumnSourceList*`, owned elsewhere like the schema. */
  datatype ColumnSourceListRef = ColumnSourceListRef(address: nat)

  /** One contributing schema; `sources == None` is the null `sources_` pointer. */
  datatype SchemaSource = SchemaSource(
    tableName: string,
    schema: SchemaRef,
    sources: Option<ColumnSourceListRef>)

  /** `SchemaSource(const vm::Schema*)`. */
  function UnnamedSchemaSource(schema: SchemaRef): (ss: SchemaSource)
    ensures ss.tableName == "" && ss.schema == schema && ss.sources == None
  {
    SchemaSource("", schema, None)
  }

  /** `SchemaSource(const std::string&, const vm::Schema*)`. */
  function NamedSchemaSource(tableName: string, schema: SchemaRef): (ss: SchemaSource)
    ensures ss.tableName == tableName && ss.schema == schema && ss.sources == None
  {
    SchemaSource(tableName, schema, None)
  }

  /** `SchemaSource(const std::string&, const vm::Schema*, const vm::ColumnSourceList*)`. */
  function SourcedSchemaSource(
    tableName: string, schema: SchemaRef, sources: Option<ColumnSourceListRef>): (ss: SchemaSource)
    ensures ss.tableName == tableName && ss.schema == schema && ss.sources == sources
  {
    SchemaSource(tableName, schema, sources)
  }

  /** An append-only list of schema sources; position = precedence of the input schema. */
  class SchemaSourceList {
    var schemaSourceList: seq<SchemaSource>

    constructor ()
      ensures schemaSourceList == []
    {
      schemaSourceList := [];
    }

    /** `AddSchemaSource(const vm::Schema*)`: appends an unnamed source without column sources. */
    method AddSchemaSource(schema: SchemaRef)
      modifies this
      ensures schemaSourceList == old(schemaSourceList) + [NamedSchemaSource("", schema)]
    {
      schemaSourceList := schemaSourceList + [NamedSchemaSource("", schema)];
    }

    /** `AddSchemaSource(const std::string&, const vm::Schema*)`. */
    method AddNamedSchemaSource(tableName: string, schema: SchemaRef)
      modifies this
      ensures schemaSourceList == old(schemaSourceList) + [NamedSchemaSource(tableName, schema)]
    {
      schemaSourceList := schemaSourceList + [NamedSchemaSource(tableName, schema)];
    }

    /** `AddSchemaSource(const std::string&, const vm::Schema*, const vm::ColumnSourceList*)`. */
    method AddSourcedSchemaSource(
      tableName: string, schema: SchemaRef, sources: Option<ColumnSourceListRef>)
      modifies this
      ensures schemaSourceList
           == old(schemaSourceList) + [SourcedSchemaSource(tableName, schema, sources)]
    {
      schemaSourceList := schemaSourceList + [SourcedSchemaSource(tableName, schema, sources)];
    }

    /** `AddSchemaSources(const SchemaSourceList&)`: appends every entry of `other`, in order. */
    method AddSchemaSources(other: SchemaSourceList)
      requires other != this
      modifies this
      ensures schemaSourceList == old(schemaSourceList) + other.schemaSourceList
      ensures |schemaSourceList| == |old(schemaSourceList)| + |other.schemaSourceList|
    {
      var i := 0;
      while i < |other.schemaSourceList|
        invariant 0 <= i <= |other.schemaSourceList|
        invariant schemaSourceList == old(schemaSourceList) + other.schemaSourceList[..i]
      {
        schemaSourceList := schemaSourceList + [other.schemaSourceList[i]];
        i := i + 1;
      }
    }

    /** `GetSchemaSourceSlice(idx)`: the source of the `idx`-th input schema. */
    function GetSchemaSourceSlice(idx: nat): (ss: SchemaSource)
      reads this
      requires idx < GetSchemaSourceListSize()
      ensures ss == schemaSourceList[idx]
    {
      schemaSourceList[idx]
    }

    /** `GetSchemaSlice(idx)`: the schema of the `idx`-th input schema. */
    function GetSchemaSlice(idx: nat): (schema: SchemaRef)
      reads this
      requires idx < GetSchemaSourceListSize()
      ensures schema == GetSchemaSourceSlice(idx).schema
    {
      schemaSourceList[idx].schema
    }

    /** `GetSchemaSourceListSize()`. */
    function GetSchemaSourceListSize(): (n: nat)
      reads this
      ensures n == |schemaSourceList|
    {
      |schemaSourceList|
    }
  }

  /** Three sources appended to an empty list come back from the slice accessors in order. */
  method AppendInOrder(a: SchemaRef, b: SchemaRef, c: SchemaRef) returns (list: SchemaSourceList)
    ensures fresh(list)
    ensures list.GetSchemaSourceListSize() == 3
    ensures list.GetSchemaSlice(0) == a && list.GetSchemaSlice(1) == b && list.GetSchemaSlice(2) == c
  {
    list := new SchemaSourceList();
    list.AddSchemaSource(a);
    list.AddNamedSchemaSource("t", b);
    list.AddSourcedSchemaSource("u", c, None);
  }
}

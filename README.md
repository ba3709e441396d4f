# Catalog value layer of the SQL engine's virtual machine

This project models the concrete part of `src/vm/catalog.h` of the FeSQL
engine (OpenMLDB), the layer beneath its abstract handler interfaces:

- **Column provenance** (`ColumnSource`): an output column is either copied
  from column `c` of input schema `s`, a literal constant, or of unknown
  origin. `ToString` prints `->Column:<s>:<c>`, `->Value:<expr>` or `->None`
  for plan printing. The model adds a reader for that text,
  `ParseSourceText`. It proves that the text gives back the tag, both indices
  and the printed expression. So no two column-reference sources print alike,
  and constant sources print alike only when their expressions do.
  `std::to_string` on a `uint32_t` is modelled by `Decimal.U32ToString`, with
  its exact inverse `ParseU32`.
- **Schema source registry** (`SchemaSource`, `SchemaSourceList`): an
  append-only list of (table name, schema, optional column-source list)
  triples. The list is a class with a `seq` field. Each `AddSchemaSource`
  overload states the exact new contents. The bulk `AddSchemaSources` loop
  carries an invariant that the list is the old list followed by the part of
  the other list copied so far.
- **Handler hierarchy defaults** (`RowHandler`, `TableHandler`,
  `PartitionHandler`): the kind tag and the type name are plain values, since
  every class defines them. For every other virtual member function, each
  abstract class's answer is one of three things. It is a body returning a
  value, a pure virtual declaration, or nothing of its own (left to the
  codec's `ListV`).
  `PartitionHandler` resolves the members it does not declare to the
  `TableHandler` ones, as C++ virtual dispatch does. "Absent" results (null
  iterators, null handlers) are `None`.

Modules: `Wrappers` (Option), `Ints` (`u32`, `u64`), `Decimal`,
`ColumnSources`, `SchemaSources`, `Handlers`.

Pointers to objects owned elsewhere become identity values: a schema
(`SchemaRef`), a column-source list (`ColumnSourceListRef`), iterators and
handlers. A null pointer is `None`. `ConstNode::GetExprString` is foreign
code. It is the parameter `exprString` of `ToString`, so every property about
constant sources holds whatever that function prints.

## Model

| member | source | states |
|---|---|---|
| `Decimal.Dec` | src/vm/catalog.h:63-64 | the decimal rendering of a number is non-empty, all digits, has no leading zero, contains no ':', and is "0" exactly for 0 |
| `Decimal.U32ToString` | src/vm/catalog.h:63-64 | `std::to_string` of a `uint32_t` is a canonical numeral without ':' of at most 10 characters |
| `Decimal.DecParse` | src/vm/catalog.h:63-64 | reading a string as a decimal numeral yields `n` if and only if the string is the rendering of `n` |
| `Decimal.U32Parse` | src/vm/catalog.h:63-64 | the same if-and-only-if for `uint32_t` values: the index rendering is injective and invertible |
| `ColumnSources.DefaultSource` | src/vm/catalog.h:47-48 | the default column source has type `kSourceNone` and schema and column indices 0 |
| `ColumnSources.ConstSource` | src/vm/catalog.h:49-53 | a source built from a literal node has type `kSourceConst`, indices 0, and `const_value()` is that node |
| `ColumnSources.ColumnRef` | src/vm/catalog.h:54-58 | a source built from `(schema_idx, column_idx)` has type `kSourceColumn` and returns both indices unchanged from its accessors |
| `ColumnSources.ColumnSource.Type` | src/vm/catalog.h:71 | `type()` is `kSourceColumn`, `kSourceConst` or `kSourceNone` exactly for column, constant and none sources |
| `ColumnSources.ColumnSource.SchemaIdx` | src/vm/catalog.h:72 | `schema_idx()` is the stored schema index of a column source and 0 for the others, as their constructors set it |
| `ColumnSources.ColumnSource.ColumnIdx` | src/vm/catalog.h:73 | `column_idx()` is the stored column index of a column source and 0 for the others |
| `ColumnSources.ColumnSource.ConstValue` | src/vm/catalog.h:74 | `const_value()` of a constant source is the node it was built from |
| `ColumnSources.ColumnSource.ToString` | src/vm/catalog.h:60-70 | the text starts with `->Column:` exactly for column sources and with `->Value:` exactly for constant sources, and is `->None` exactly for sources without provenance; total over the three tags |
| `ColumnSources.ToStringRoundTrip` | src/vm/catalog.h:60-70 | reading back the text of any source gives its tag, both indices of a column source, and the expression text of a constant source |
| `ColumnSources.ParseSourceTextSound` | src/vm/catalog.h:60-70 | any text the reader accepts is exactly the `ToString` text of a column source, a constant source or the none source |
| `ColumnSources.ToStringDistinguishes` | src/vm/catalog.h:60-70 | two sources with the same text have the same type; column sources with the same text are equal; constant sources with the same text print the same expression |
| `SchemaSources.UnnamedSchemaSource` | src/vm/catalog.h:98-99 | the one-argument constructor stores the schema, an empty table name and a null source list |
| `SchemaSources.NamedSchemaSource` | src/vm/catalog.h:100-101 | the two-argument constructor stores the name and the schema and a null source list |
| `SchemaSources.SourcedSchemaSource` | src/vm/catalog.h:102-104 | the three-argument constructor stores all three fields unchanged |
| `SchemaSources.SchemaSourceList.constructor` | src/vm/catalog.h:144 | a new list is empty |
| `SchemaSources.SchemaSourceList.AddSchemaSource` | src/vm/catalog.h:111-113 | the list becomes the old list followed by one entry with table name "", the given schema and no source list |
| `SchemaSources.SchemaSourceList.AddNamedSchemaSource` | src/vm/catalog.h:114-117 | the list becomes the old list followed by one entry with the given name and schema and no source list |
| `SchemaSources.SchemaSourceList.AddSourcedSchemaSource` | src/vm/catalog.h:119-124 | the list becomes the old list followed by one entry holding the three given fields |
| `SchemaSources.SchemaSourceList.AddSchemaSources` | src/vm/catalog.h:125-129 | the list becomes the old list followed by all of the other list's entries in their order; the size is the sum of both sizes; the other list is unchanged |
| `SchemaSources.SchemaSourceList.GetSchemaSourceSlice` | src/vm/catalog.h:134-136 | for an index below the size, the entry stored at that position |
| `SchemaSources.SchemaSourceList.GetSchemaSlice` | src/vm/catalog.h:137-139 | for an index below the size, the schema of the entry `GetSchemaSourceSlice` returns |
| `SchemaSources.SchemaSourceList.GetSchemaSourceListSize` | src/vm/catalog.h:140-142 | the number of entries stored |
| `SchemaSources.AppendInOrder` | src/vm/catalog.h:111-142 | three schemas appended to a new list through the three overloads come back from `GetSchemaSlice` at positions 0, 1, 2, and the size is 3 |
| `Handlers.Handler.GetHandlerType` | src/vm/catalog.h:178-223 | `kRowHandler`, `kTableHandler`, `kPartitionHandler` exactly for the row, table and partition handler classes |
| `Handlers.Handler.GetHandlerTypeName` | src/vm/catalog.h:180-232 | the type name reads back as the class's own kind tag |
| `Handlers.Handler.GetIterator` | src/vm/catalog.h:172-217 | row and partition handlers return a null row iterator; `TableHandler` declares no `GetIterator` of its own |
| `Handlers.Handler.GetCount` | src/vm/catalog.h:176-198 | 0 for row and table handlers; the partition handler inherits the table body, so also 0 |
| `Handlers.Handler.At` | src/vm/catalog.h:177-224 | every class returns a default-constructed row, whatever the position |
| `Handlers.Handler.GetValue` | src/vm/catalog.h:179 | `RowHandler::GetValue` is pure virtual |
| `Handlers.Handler.GetWindowIterator` | src/vm/catalog.h:196-221 | pure virtual in `TableHandler`; a null window iterator in `PartitionHandler` |
| `Handlers.Handler.GetPartitionWindowIterator` | src/vm/catalog.h:222 | the window iterator without an index name is pure virtual in `PartitionHandler` |
| `Handlers.Handler.GetPartition` | src/vm/catalog.h:201-205 | a null partition handler, in `TableHandler` and inherited by `PartitionHandler` |
| `Handlers.Handler.GetOrderType` | src/vm/catalog.h:207-233 | `kNoneOrder` in `TableHandler` and again in `PartitionHandler` |
| `Handlers.Handler.GetSegment` | src/vm/catalog.h:225-229 | `PartitionHandler::GetSegment` returns a null table handler |
| `Handlers.HandlerTypeOneToOne` | src/vm/catalog.h:178-232 | the kind tags of the three handler classes are pairwise distinct, their type names are pairwise distinct, and each name reads back as its class's tag |
| `Handlers.HandlerTypeOfNameSound` | src/vm/catalog.h:178-232 | a string reads back as a tag exactly when it is the type name of the class with that tag |
| `Handlers.BaseDefaults` | src/vm/catalog.h:172-233 | every class counts 0 rows and returns an empty row from `At`; row and partition handlers hand out no row iterator; table handlers give no partition and `kNoneOrder`; a partition handler gives no window iterator for an index name and no segment |
| `Handlers.PartitionIsATable` | src/vm/catalog.h:198-233 | a partition handler is a table handler and answers count, `At`, `GetPartition` and `GetOrderType` the way a table handler does; it defines the row iterator and the named window iterator, which `TableHandler` leaves undefined or pure virtual |

## Left out

- `Catalog` (src/vm/catalog.h:237-251) is pure virtual throughout; it has no behaviour to state.
- `DataHandler`'s members and the handlers' `GetSchema`, `GetName`, `GetDatabase`, `GetTypes`, `GetIndex`, `GetValue` and the unnamed `GetWindowIterator()` are pure virtual. Only `GetValue` and `GetWindowIterator()` appear, as `PureVirtual`.
- The `GetIterator(int8_t*)` raw-pointer overloads always return null. They are pointer plumbing and are not modelled.
- `ColInfo`, `IndexSt` and the `Types`/`IndexHint`/`Schema`/`IndexList` aliases are records that nothing in the file operates on. A schema is only an identity.
- `Row`, `RowIterator`, `WindowIterator` and `ListV` are codec code. Their internals are not part of this model. Iterators and handlers handed out are only present or absent. A row is only "default-constructed" or not.
- `ColumnSources.ColumnSource.ConstValue` requires a constant source. For other tags the source returns a default-constructed `ConstNode`, which the model does not represent.
- `SchemaSources.SchemaSourceList.AddSchemaSources` requires a list other than the receiver. Appending a list to itself invalidates the loop's iterators in the source, so its outcome is undefined.
- The `schema_source_list()` accessor is the public field `schemaSourceList`.
- Accessors take an index below the size. Out-of-range `operator[]` is undefined behaviour in the source.
- Ownership and lifetimes are not modelled: `shared_ptr`/`unique_ptr`, the non-owning `schema_` and `sources_` pointers. Sharing handlers across concurrently running plan branches is not modelled either.
- A null `Schema*` passed to `AddSchemaSource` is not distinguished from other schemas. A schema is an identity value, and nothing in the file reads through it.

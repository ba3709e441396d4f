/**
 * The data handler hierarchy (`vm::RowHandler`, `vm::TableHandler`,
 * `vm::PartitionHandler`): what each abstract class itself answers for its
 * virtual member functions before a storage engine overrides them.  A
 * `PartitionHandler` is a `TableHandler`; every member it does not declare
 * resolves to the `TableHandler` one, as C++ virtual dispatch does.
 */
module Handlers {
  import opened Wrappers
  import opened Ints

  /** `enum HandlerType`: the runtime kind tag. */
  datatype HandlerType = RowHandlerType | TableHandlerType | PartitionHandlerType

  /** `enum OrderType`. */
  datatype OrderType = DescOrder | AscOrder | NoneOrder

  /** A `RowIterator` handed out by a handler (codec code, identity only). */
  datatype RowIteratorRef = RowIteratorRef(address: nat)

  /** A `WindowIterator` handed out by a handler (codec code, identity only). */
  datatype WindowIteratorRef = WindowIteratorRef(address: nat)

  /** A shared pointer to another handler (identity only). */
  datatype HandlerRef = HandlerRef(address: nat)

  /** A `codec::Row`: a default-constructed, empty row, or one holding data. */
  datatype Row = EmptyRow | RowData(address: nat)

  /**
   * What a class supplies for one virtual member function: a body returning
   * `value`, a pure virtual declaration that concrete engines must define, or
   * nothing of its own, leaving the member to `codec::ListV<Row>`, which is
   * not part of this model.
   */
  datatype Member<T> = Defined(value: T) | PureVirtual | FromListV

  /** The three abstract handler classes. */
  datatype Handler = RowHandler | TableHandler | PartitionHandler {

    /** Is-a `TableHandler`: the members declared in `TableHandler` apply. */
    predicate IsTableHandler() {
      TableHandler? || PartitionHandler?
    }

    /** `GetHanlderType()`. */
    function GetHandlerType(): (t: HandlerType)
      ensures t == RowHandlerType <==> RowHandler?
      ensures t == TableHandlerType <==> TableHandler?
      ensures t == PartitionHandlerType <==> PartitionHandler?
    {
      match this
      case RowHandler => RowHandlerType
      case TableHandler => TableHandlerType
      case PartitionHandler => PartitionHandlerType
    }

    /** `GetHandlerTypeName()`. */
    function GetHandlerTypeName(): (name: string)
      ensures HandlerTypeOfName(name) == Some(GetHandlerType())
    {
      match this
      case RowHandler => "RowHandler"
      case TableHandler => "TableHandler"
      case PartitionHandler => "PartitionHandler"
    }

    /** `GetIterator()`: a null iterator; `TableHandler` declares none of its own. */
    function GetIterator(): (r: Member<Option<RowIteratorRef>>)
      ensures TableHandler? ==> r == FromListV
      ensures !TableHandler? ==> r == Defined(None)
    {
      match this
      case RowHandler => Defined(None)
      case TableHandler => FromListV
      case PartitionHandler => Defined(None)
    }

    /** `GetCount()`: 0; `PartitionHandler` inherits the `TableHandler` body. */
    function GetCount(): (r: Member<u64>)
      ensures r == Defined(0)
      decreases PartitionHandler?
    {
      match this
      case RowHandler => Defined(0)
      case TableHandler => Defined(0)
      case PartitionHandler => TableHandler.GetCount()
    }

    /** `At(pos)`: a default-constructed row, whatever the position. */
    function At(pos: u64): (r: Member<Row>)
      ensures r == Defined(EmptyRow)
    {
      match this
      case RowHandler => Defined(EmptyRow)
      case TableHandler => Defined(EmptyRow)
      case PartitionHandler => Defined(EmptyRow)
    }

    /** `RowHandler::GetValue()`: pure virtual. */
    function GetValue(): (r: Member<Row>)
      requires RowHandler?
      ensures r.PureVirtual?
    {
      PureVirtual
    }

    /** `GetWindowIterator(idx_name)`: pure virtual in `TableHandler`, null in `PartitionHandler`. */
    function GetWindowIterator(idxName: string): (r: Member<Option<WindowIteratorRef>>)
      requires IsTableHandler()
      ensures TableHandler? ==> r.PureVirtual?
      ensures PartitionHandler? ==> r == Defined(None)
    {
      if PartitionHandler? then Defined(None) else PureVirtual
    }

    /** `PartitionHandler::GetWindowIterator()` without an index name: pure virtual. */
    function GetPartitionWindowIterator(): (r: Member<Option<WindowIteratorRef>>)
      requires PartitionHandler?
      ensures r.PureVirtual?
    {
      PureVirtual
    }

    /** `GetPartition(table_handler, index_name)`: a null partition handler. */
    function GetPartition(table: HandlerRef, indexName: string): (r: Member<Option<HandlerRef>>)
      requires IsTableHandler()
      ensures r == Defined(None)
      decreases PartitionHandler?
    {
      if PartitionHandler? then TableHandler.GetPartition(table, indexName) else Defined(None)
    }

    /** `GetOrderType()`: no order guarantee, declared again in `PartitionHandler`. */
    function GetOrderType(): (r: Member<OrderType>)
      requires IsTableHandler()
      ensures r == Defined(NoneOrder)
    {
      Defined(NoneOrder)
    }

    /** `PartitionHandler::GetSegment(partition_handler, key)`: a null table handler. */
    function GetSegment(partition: HandlerRef, key: string): (r: Member<Option<HandlerRef>>)
      requires PartitionHandler?
      ensures r == Defined(None)
    {
      Defined(None)
    }
  }

  /** The handler type named by a `GetHandlerTypeName()` string, if any. */
  function HandlerTypeOfName(name: string): Option<HandlerType> {
    if name == "RowHandler" then Some(RowHandlerType)
    else if name == "TableHandler" then Some(TableHandlerType)
    else if name == "PartitionHandler" then Some(PartitionHandlerType)
    else None
  }

  /**
   * The kind tag and the type name each identify the class: distinct classes
   * have distinct tags and distinct names, and the name reads back as the tag.
   */
  lemma HandlerTypeOneToOne(h: Handler, g: Handler)
    ensures h.GetHandlerType() == g.GetHandlerType() <==> h == g
    ensures h.GetHandlerTypeName() == g.GetHandlerTypeName() <==> h == g
    ensures HandlerTypeOfName(h.GetHandlerTypeName()) == Some(h.GetHandlerType())
  {
  }

  /** A name that reads back as a tag is exactly the name of that tag's class. */
  lemma HandlerTypeOfNameSound(name: string, t: HandlerType)
    ensures HandlerTypeOfName(name) == Some(t)
        <==> exists h: Handler :: h.GetHandlerType() == t && h.GetHandlerTypeName() == name
  {
    if HandlerTypeOfName(name) == Some(t) {
      var h := match t
        case RowHandlerType => RowHandler
        case TableHandlerType => TableHandler
        case PartitionHandlerType => PartitionHandler;
      assert h.GetHandlerType() == t && h.GetHandlerTypeName() == name;
    }
  }

  /**
   * The defaults of the base classes: no rows, no iterators, no partition or
   * segment lookup, no order guarantee.
   */
  lemma BaseDefaults(h: Handler, pos: u64, name: string, ref: HandlerRef)
    ensures h.GetCount() == Defined(0)
    ensures h.At(pos) == Defined(EmptyRow)
    ensures !h.TableHandler? ==> h.GetIterator() == Defined(None)
    ensures h.IsTableHandler() ==> h.GetPartition(ref, name) == Defined(None)
    ensures h.IsTableHandler() ==> h.GetOrderType() == Defined(NoneOrder)
    ensures h.PartitionHandler? ==> h.GetWindowIterator(name) == Defined(None)
    ensures h.PartitionHandler? ==> h.GetSegment(ref, name) == Defined(None)
  {
  }

  /**
   * A `PartitionHandler` answers every `TableHandler` query with a body the way
   * a `TableHandler` does, and it supplies bodies for the row iterator and the
   * named window iterator where `TableHandler` has none.
   */
  lemma PartitionIsATable(pos: u64, name: string, ref: HandlerRef)
    ensures PartitionHandler.IsTableHandler()
    ensures PartitionHandler.GetCount() == TableHandler.GetCount()
    ensures PartitionHandler.At(pos) == TableHandler.At(pos)
    ensures PartitionHandler.GetPartition(ref, name) == TableHandler.GetPartition(ref, name)
    ensures PartitionHandler.GetOrderType() == TableHandler.GetOrderType()
    ensures TableHandler.GetWindowIterator(name) == PureVirtual
    ensures PartitionHandler.GetWindowIterator(name) == Defined(None)
    ensures TableHandler.GetIterator() == FromListV
    ensures PartitionHandler.GetIterator() == Defined(None)
  {
  }
}

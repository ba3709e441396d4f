/**
 * Column provenance (`vm::ColumnSource`): for one output column, whether it is
 * copied from a column of one of the input schemas, is a literal constant, or
 * has no recorded origin; and the text form `ToString` gives it for plan
 * printing.
 */
module ColumnSources {
  import opened Wrappers
  import opened Ints
  import opened Decimal

  /**
   * `node::ConstNode`, the literal expression node a constant source holds.
   * It belongs to the expression tree; only its printed form matters here, and
   * that is supplied from outside as `exprString` (`ConstNode::GetExprString`).
   */
  type ConstNode

  /** `enum SourceType`. */
  datatype SourceType = SourceColumn | SourceConst | SourceNone

  /** The three kinds of provenance; exactly one is active. */
  datatype ColumnSource =
    | Column(schema: u32, column: u32)
    | Const(node: ConstNode)
    | NoSource
  {
    /** `type()`. */
    function Type(): (t: SourceType)
      ensures t == SourceColumn <==> Column?
      ensures t == SourceConst <==> Const?
      ensures t == SourceNone <==> NoSource?
    {
      match this
      case Column(_, _) => SourceColumn
      case Const(_) => SourceConst
      case NoSource => SourceNone
    }

    /** `schema_idx()`: the constructors other than the column one store 0. */
    function SchemaIdx(): (idx: u32)
      ensures Column? ==> idx == schema
      ensures !Column? ==> idx == 0
    {
      if Column? then schema else 0
    }

    /** `column_idx()`: the constructors other than the column one store 0. */
    function ColumnIdx(): (idx: u32)
      ensures Column? ==> idx == column
      ensures !Column? ==> idx == 0
    {
      if Column? then column else 0
    }

    /** `const_value()` of a constant source. */
    function ConstValue(): (n: ConstNode)
      requires Const?
      ensures this == Const(n)
    {
      node
    }

    /** `ToString()`: the text plan printing shows for this source. */
    function ToString(exprString: ConstNode -> string): (text: string)
      ensures Column? <==> IsPrefix(ColumnPrefix, text)
      ensures Const? <==> IsPrefix(ValuePrefix, text)
      ensures NoSource? <==> text == NoneText
    {
      match this
      case Column(s, c) =>
        var text := ColumnPrefix + U32ToString(s) + ":" + U32ToString(c);
        assert text[..|ColumnPrefix|] == ColumnPrefix && text[2] == 'C';
        text
      case Const(n) =>
        var text := ValuePrefix + exprString(n);
        assert text[..|ValuePrefix|] == ValuePrefix && text[2] == 'V';
        text
      case NoSource => NoneText
    }
  }

  const ColumnPrefix := "->Column:"
  const ValuePrefix := "->Value:"
  const NoneText := "->None"

  /** `ColumnSource()`: the default constructor. */
  function DefaultSource(): (cs: ColumnSource)
    ensures cs.Type() == SourceNone
    ensures cs.SchemaIdx() == 0 && cs.ColumnIdx() == 0
  {
    NoSource
  }

  /** `ColumnSource(const node::ConstNode&)`. */
  function ConstSource(n: ConstNode): (cs: ColumnSource)
    ensures cs.Type() == SourceConst
    ensures cs.SchemaIdx() == 0 && cs.ColumnIdx() == 0
    ensures cs.Const? && cs.ConstValue() == n
  {
    Const(n)
  }

  /** `ColumnSource(uint32_t schema_idx, uint32_t column_idx)`. */
  function ColumnRef(schemaIdx: u32, columnIdx: u32): (cs: ColumnSource)
    ensures cs.Type() == SourceColumn
    ensures cs.SchemaIdx() == schemaIdx && cs.ColumnIdx() == columnIdx
  {
    Column(schemaIdx, columnIdx)
  }

  /** What a reader of a printed plan can tell about a column source. */
  datatype SourceText =
    | ColumnText(schemaIdx: u32, columnIdx: u32)
    | ValueText(expr: string)
    | NoneSourceText

  /** The information `ToString` is meant to convey about `cs`. */
  function Describe(cs: ColumnSource, exprString: ConstNode -> string): SourceText {
    match cs
    case Column(s, c) => ColumnText(s, c)
    case Const(n) => ValueText(exprString(n))
    case NoSource => NoneSourceText
  }

  predicate IsPrefix(p: string, t: string) {
    |p| <= |t| && t[..|p|] == p
  }

  /** Index of the first ':' in `s`, or `|s|` when there is none. */
  function FirstColon(s: string): (i: nat)
    ensures i <= |s|
    ensures i < |s| ==> s[i] == ':'
    ensures forall j :: 0 <= j < i ==> s[j] != ':'
  {
    if s == [] then 0 else if s[0] == ':' then 0 else 1 + FirstColon(s[1..])
  }

  /** Reads back the "<schema>:<column>" tail of a column source's text. */
  function ParseIndexPair(rest: string): Option<SourceText> {
    var i := FirstColon(rest);
    if i == |rest| then None
    else
      match (ParseU32(rest[..i]), ParseU32(rest[i + 1..]))
      case (Some(s), Some(c)) => Some(ColumnText(s, c))
      case _ => None
  }

  /** Reads back the text `ToString` writes; anything else is rejected. */
  function ParseSourceText(t: string): Option<SourceText> {
    if t == NoneText then Some(NoneSourceText)
    else if IsPrefix(ValuePrefix, t) then Some(ValueText(t[|ValuePrefix|..]))
    else if IsPrefix(ColumnPrefix, t) then ParseIndexPair(t[|ColumnPrefix|..])
    else None
  }

  lemma IndexPairRoundTrip(s: u32, c: u32)
    ensures ParseIndexPair(U32ToString(s) + ":" + U32ToString(c)) == Some(ColumnText(s, c))
  {
    var a, b := U32ToString(s), U32ToString(c);
    var rest := a + ":" + b;
    var i := FirstColon(rest);
    assert rest[|a|] == ':';
    assert forall j :: 0 <= j < |a| ==> rest[j] == a[j];
    assert i == |a|;
    assert rest[..i] == a && rest[i + 1..] == b;
    U32Parse(a, s);
    U32Parse(b, c);
  }

  /** Parsing the text of any column source recovers exactly what it describes. */
  lemma ToStringRoundTrip(cs: ColumnSource, exprString: ConstNode -> string)
    ensures ParseSourceText(cs.ToString(exprString)) == Some(Describe(cs, exprString))
  {
    var t := cs.ToString(exprString);
    match cs
    case Column(s, c) =>
      assert t[2] == 'C';
      assert t != NoneText && !IsPrefix(ValuePrefix, t);
      assert t[..|ColumnPrefix|] == ColumnPrefix;
      assert t[|ColumnPrefix|..] == U32ToString(s) + ":" + U32ToString(c);
      IndexPairRoundTrip(s, c);
    case Const(n) =>
      assert t[2] == 'V';
      assert t != NoneText;
      assert t[..|ValuePrefix|] == ValuePrefix;
      assert t[|ValuePrefix|..] == exprString(n);
    case NoSource =>
  }

  lemma IndexPairSound(rest: string, s: u32, c: u32)
    requires ParseIndexPair(rest) == Some(ColumnText(s, c))
    ensures rest == U32ToString(s) + ":" + U32ToString(c)
  {
    var i := FirstColon(rest);
    assert ParseU32(rest[..i]) == Some(s) && ParseU32(rest[i + 1..]) == Some(c);
    U32Parse(rest[..i], s);
    U32Parse(rest[i + 1..], c);
    assert rest == rest[..i] + ":" + rest[i + 1..];
  }

  lemma ColumnTextSound(t: string, d: SourceText)
    requires IsPrefix(ColumnPrefix, t)
    requires ParseIndexPair(t[|ColumnPrefix|..]) == Some(d)
    ensures d.ColumnText?
    ensures t == ColumnPrefix + U32ToString(d.schemaIdx) + ":" + U32ToString(d.columnIdx)
  {
    var rest := t[|ColumnPrefix|..];
    assert d.ColumnText? by {
      match ParseIndexPair(rest)
      case Some(ColumnText(_, _)) =>
      case _ =>
    }
    IndexPairSound(rest, d.schemaIdx, d.columnIdx);
    calc {
      t;
      t[..|ColumnPrefix|] + rest;
      ColumnPrefix + rest;
    }
  }

  /** Whatever `ParseSourceText` accepts is the text `ToString` writes for it. */
  lemma ParseSourceTextSound(t: string, d: SourceText)
    requires ParseSourceText(t) == Some(d)
    ensures d.ColumnText? ==> t == Column(d.schemaIdx, d.columnIdx).ToString(_ => "")
    ensures d.ValueText? ==> t == ValuePrefix + d.expr
    ensures d.NoneSourceText? ==> t == NoSource.ToString(_ => "")
  {
    if t == NoneText {
    } else if IsPrefix(ValuePrefix, t) {
      assert t == t[..|ValuePrefix|] + t[|ValuePrefix|..];
    } else {
      ColumnTextSound(t, d);
    }
  }

  /**
   * Two column sources with the same text have the same type; column sources
   * with the same text are equal, and constant sources print the same
   * expression.
   */
  lemma ToStringDistinguishes(a: ColumnSource, b: ColumnSource, exprString: ConstNode -> string)
    requires a.ToString(exprString) == b.ToString(exprString)
    ensures a.Type() == b.Type()
    ensures a.Column? ==> a == b
    ensures a.Const? ==> b.Const? && exprString(a.node) == exprString(b.node)
  {
    ToStringRoundTrip(a, exprString);
    ToStringRoundTrip(b, exprString);
  }
}

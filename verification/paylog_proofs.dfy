/**
  The log format as a schema: a list of (field, length) pairs whose encoding the renderer
  replays field by field, and a few concrete log records.
*/
module PaylogProofs {
  import opened Bytes
  import opened Paylog
  import Tables

  /** One column of the log format. */
  datatype Column = Column(kind: FieldKind, length: byte)

  /** The tag bytes of a field as they appear in the log-format reply. */
  function FieldTag(kind: FieldKind): seq<byte>
  {
    match kind
    case Date => [0x9A]
    case TxType => [0x9C]
    case Time => [0x9F, 0x21]
    case Currency => [0x5F, 0x2A]
    case Amount => [0x9F, 0x02]
    case Merchant => [0x9F, 0x4E]
    case Counter => [0x9F, 0x36]
    case Country => [0x9F, 0x1A]
    case CryptoInfo => [0x9F, 0x27]
  }

  function EncodeSchema(schema: seq<Column>): seq<byte>
  {
    if schema == [] then []
    else FieldTag(schema[0].kind) + [schema[0].length] + EncodeSchema(schema[1..])
  }

  /** Reference rendering: the schema's fields in order, each starting where the previous ended. */
  function RenderColumns(field: FieldPrinter, schema: seq<Column>, entry: seq<byte>, e: nat): Result<seq<Token>>
  {
    if schema == [] then Success([])
    else
      var f :- field(schema[0].kind, schema[0].length as nat, entry, e);
      var rest :- RenderColumns(field, schema[1..], entry, f.next);
      Success(f.tokens + rest)
  }

  /** Where the entry cursor stands after a field (0 after a failed one, which ends the line). */
  function NextOf(f: Result<Rendered>): nat
  {
    if f.Success? then f.value.next else 0
  }

  /** A field followed by the rest of the line: either failure propagates. */
  function Continue(f: Result<Rendered>, rest: Result<seq<Token>>): Result<seq<Token>>
  {
    if f.Failure? then Failure(f.error)
    else if rest.Failure? then rest
    else Success(f.value.tokens + rest.value)
  }

  /** The format holds column `c` at index `i`: its tag bytes, then its length byte. */
  predicate ColumnAt(format: seq<byte>, i: nat, c: Column)
  {
    var t := FieldTag(c.kind);
    && i + |t| < |format|
    && format[i] == t[0]
    && (|t| == 2 ==> format[i + 1] == t[1])
    && format[i + |t|] == c.length
  }

  /** The format holds the schema's columns from index `i`, then the status word 90 00 and nothing else. */
  predicate EncodedAt(format: seq<byte>, i: nat, schema: seq<Column>)
    decreases schema
  {
    if schema == [] then i + 2 == |format| && format[i] == 0x90 && format[i + 1] == 0x00
    else ColumnAt(format, i, schema[0]) && EncodedAt(format, i + |FieldTag(schema[0].kind)| + 1, schema[1..])
  }

  /** A column's tag and length bytes, placed after any prefix, are found where they were put. */
  lemma ColumnPlaced(pre: seq<byte>, c: Column, tail: seq<byte>)
    ensures ColumnAt(pre + (FieldTag(c.kind) + [c.length]) + tail, |pre|, c)
  {
    var format := pre + (FieldTag(c.kind) + [c.length]) + tail;
    var t := FieldTag(c.kind);
    assert format[|pre|] == t[0];
    assert |t| == 2 ==> format[|pre| + 1] == t[1];
    assert format[|pre| + |t|] == c.length;
  }

  /** An encoded schema followed by the status word is laid out column by column. */
  lemma {:induction false} EncodingLaidOut(pre: seq<byte>, schema: seq<Column>)
    ensures EncodedAt(pre + EncodeSchema(schema) + [0x90, 0x00], |pre|, schema)
    decreases schema
  {
    var status: seq<byte> := [0x90, 0x00];
    if schema == [] {
      assert pre + EncodeSchema(schema) + status == pre + status;
    } else {
      var c := schema[0];
      var head := FieldTag(c.kind) + [c.length];
      var tail := EncodeSchema(schema[1..]) + status;
      assert pre + EncodeSchema(schema) + status == pre + head + tail == pre + head + EncodeSchema(schema[1..]) + status;
      ColumnPlaced(pre, c, tail);
      EncodingLaidOut(pre + head, schema[1..]);
    }
  }

  /** The tag bytes of every field select that field in the format loop. */
  lemma FieldTagDispatch(format: seq<byte>, i: nat, c: Column)
    requires ColumnAt(format, i, c)
    ensures TagAtIndex(format, i) == Some(Dispatch(c.kind, |FieldTag(c.kind)|))
  {
  }

  /** One step of the format loop at a recognised tag: print the field, then continue after its length byte. */
  lemma DispatchStep(field: FieldPrinter, format: seq<byte>, i: nat, d: Dispatch, entry: seq<byte>, e: nat)
    requires i + d.width < |format| && TagAtIndex(format, i) == Some(d)
    ensures var f := field(d.kind, format[i + d.width] as nat, entry, e);
            FormatLoop(field, format, entry, i, e)
            == Continue(f, FormatLoop(field, format, entry, i + d.width + 1, NextOf(f)))
  {
    assert At(format, i + d.width) == Success(format[i + d.width]);
  }

  lemma ColumnStep(field: FieldPrinter, format: seq<byte>, i: nat, c: Column, entry: seq<byte>, e: nat)
    requires ColumnAt(format, i, c)
    ensures var f := field(c.kind, c.length as nat, entry, e);
            FormatLoop(field, format, entry, i, e)
            == Continue(f, FormatLoop(field, format, entry, i + |FieldTag(c.kind)| + 1, NextOf(f)))
  {
    FieldTagDispatch(format, i, c);
    DispatchStep(field, format, i, Dispatch(c.kind, |FieldTag(c.kind)|), entry, e);
  }

  lemma ColumnsStep(field: FieldPrinter, schema: seq<Column>, entry: seq<byte>, e: nat)
    requires schema != []
    ensures var f := field(schema[0].kind, schema[0].length as nat, entry, e);
            RenderColumns(field, schema, entry, e) == Continue(f, RenderColumns(field, schema[1..], entry, NextOf(f)))
  {
  }

  /** The status word 90 00 matches no tag and prints nothing. */
  lemma TrailerPrintsNothing(field: FieldPrinter, format: seq<byte>, i: nat, entry: seq<byte>, e: nat)
    requires EncodedAt(format, i, [])
    ensures FormatLoop(field, format, entry, i, e) == Success([])
  {
    assert TagAtIndex(format, i) == None;
    assert FormatLoop(field, format, entry, i + 1, e) == FormatLoop(field, format, entry, i + 2, e);
  }

  /**
    Whatever the field printer, the format loop over an encoded schema prints the schema's
    columns in order, each starting where the previous one left the entry cursor.
  */
  lemma {:induction false} ReplayFrom(field: FieldPrinter, format: seq<byte>, i: nat, schema: seq<Column>, entry: seq<byte>, e: nat)
    requires EncodedAt(format, i, schema)
    ensures FormatLoop(field, format, entry, i, e) == RenderColumns(field, schema, entry, e)
    decreases schema
  {
    if schema == [] {
      TrailerPrintsNothing(field, format, i, entry, e);
    } else {
      var f := field(schema[0].kind, schema[0].length as nat, entry, e);
      ColumnStep(field, format, i, schema[0], entry, e);
      ColumnsStep(field, schema, entry, e);
      ReplayFrom(field, format, i + |FieldTag(schema[0].kind)| + 1, schema[1..], entry, NextOf(f));
    }
  }

  /**
    A log-format reply made of a schema followed by the status word renders every entry as
    the schema's fields in order: the trailing 90 00 matches no tag and prints nothing.
  */
  lemma SchemaReplay(schema: seq<Column>, entry: seq<byte>)
    ensures RenderEntry(EncodeSchema(schema) + [0x90, 0x00], entry, 0, 0) == RenderColumns(RenderField, schema, entry, 0)
  {
    EncodingLaidOut([], schema);
    assert [] + EncodeSchema(schema) + [0x90, 0x00] == EncodeSchema(schema) + [0x90, 0x00];
    ReplayFrom(RenderField, EncodeSchema(schema) + [0x90, 0x00], 0, schema, entry, 0);
  }

  /** Whatever column comes first, the format's first byte after `i` is a tag lead or 90. */
  lemma FirstByteOfEncoding(format: seq<byte>, i: nat, schema: seq<Column>)
    requires EncodedAt(format, i, schema)
    ensures i < |format| && format[i] in {0x9A, 0x9C, 0x9F, 0x5F, 0x90}
  {
    if schema != [] {
      assert ColumnAt(format, i, schema[0]);
    }
  }

  /**
    The GET DATA reply's own tag 9F 4F and its length byte select no field, unless the length
    byte is itself 9A or 9C: the loop steps over all three bytes.
  */
  lemma HeaderSkipped(field: FieldPrinter, format: seq<byte>, ll: byte, schema: seq<Column>, entry: seq<byte>, e: nat)
    requires 3 <= |format| && format[0] == 0x9F && format[1] == 0x4F && format[2] == ll
    requires ll != 0x9A && ll != 0x9C
    requires EncodedAt(format, 3, schema)
    ensures FormatLoop(field, format, entry, 0, e) == FormatLoop(field, format, entry, 3, e)
  {
    FirstByteOfEncoding(format, 3, schema);
    assert TagAtIndex(format, 0) == None && TagAtIndex(format, 1) == None && TagAtIndex(format, 2) == None;
    assert FormatLoop(field, format, entry, 1, e) == FormatLoop(field, format, entry, 2, e);
    assert FormatLoop(field, format, entry, 2, e) == FormatLoop(field, format, entry, 3, e);
  }

  /**
    The log format as a card sends it: tag 9F 4F and a length byte before the (tag, length)
    pairs. Every entry is printed column by column, as for the bare pairs.
  */
  lemma LogFormatReplay(ll: byte, schema: seq<Column>, entry: seq<byte>)
    requires ll != 0x9A && ll != 0x9C
    ensures RenderEntry([0x9F, 0x4F, ll] + EncodeSchema(schema) + [0x90, 0x00], entry, 0, 0)
            == RenderColumns(RenderField, schema, entry, 0)
  {
    var format := [0x9F, 0x4F, ll] + EncodeSchema(schema) + [0x90, 0x00];
    EncodingLaidOut([0x9F, 0x4F, ll], schema);
    assert format[0] == 0x9F && format[1] == 0x4F && format[2] == ll;
    HeaderSkipped(RenderField, format, ll, schema, entry, 0);
    ReplayFrom(RenderField, format, 3, schema, entry, 0);
  }

  /** The amount 00 00 00 15 50 00 prints "1550.00": four integer digits, then the fifth byte. */
  lemma AmountExample()
    ensures var r := RenderField(Amount, 6, [0x00, 0x00, 0x00, 0x15, 0x50, 0x00], 0);
            r.Success? && r.value.next == 6
            && r.value.tokens == [Label("Amount"), Hex(0x15), Hex(0x50), Lit("."), Hex(0x00), EndField]
  {
    var v: seq<byte> := [0x00, 0x00, 0x00, 0x15, 0x50, 0x00];
    assert v[0..6] == v;
    assert AmountRun(v, 6, false) == [];
    assert AmountRun(v, 5, false) == [Hex(0x00)];
    assert AmountRun(v, 4, false) == [Hex(0x50), Lit("."), Hex(0x00)];
    assert AmountRun(v, 3, true) == [Hex(0x15), Hex(0x50), Lit("."), Hex(0x00)];
    assert AmountRun(v, 0, true) == AmountRun(v, 3, true);
    assert Take(v, 0, 6) == Success(v);
    assert FieldBody(Amount, 6, v, 0) == Success(Rendered(AmountRun(v, 0, true), 6));
    assert LabelOf(Amount) == "Amount";
  }

  /** A zero amount keeps its fifth and sixth bytes: "00.00". */
  lemma ZeroAmountExample()
    ensures var r := RenderField(Amount, 6, [0, 0, 0, 0, 0, 0], 0);
            r.Success? && r.value.next == 6
            && r.value.tokens == [Label("Amount"), Hex(0x00), Lit("."), Hex(0x00), EndField]
  {
    var v: seq<byte> := [0, 0, 0, 0, 0, 0];
    assert v[0..6] == v;
    assert AmountRun(v, 6, false) == [];
    assert AmountRun(v, 5, false) == [Hex(0x00)];
    assert AmountRun(v, 4, true) == [Hex(0x00), Lit("."), Hex(0x00)];
    assert AmountRun(v, 0, true) == AmountRun(v, 4, true);
    assert Take(v, 0, 6) == Success(v);
    assert FieldBody(Amount, 6, v, 0) == Success(Rendered(AmountRun(v, 0, true), 6));
    assert LabelOf(Amount) == "Amount";
  }

  /** Currency 09 78 is a known code: "EUR", and exactly two bytes are consumed. */
  lemma KnownCurrencyExample()
    ensures var r := RenderField(Currency, 3, [0x09, 0x78, 0xFF], 0);
            r.Success? && r.value.next == 2 && r.value.tokens == [Label("Currency"), Lit("EUR"), EndField]
  {
    assert 0x09 * 0x100 + 0x78 == 0x978;
    assert LabelOf(Currency) == "Currency";
  }

  /** Currency 00 01 is unknown: its declared bytes are printed in hex and consumed. */
  lemma UnknownCurrencyExample()
    ensures var r := RenderField(Currency, 2, [0x00, 0x01], 0);
            r.Success? && r.value.next == 2
            && r.value.tokens == [Label("Currency"), Hex(0x00), Hex(0x01), EndField]
  {
    var v: seq<byte> := [0x00, 0x01];
    assert v[0..2] == v;
    assert 1 !in Tables.CurrencyCodes;
    assert LabelOf(Currency) == "Currency";
  }

  /** The transaction type consumes one byte even when the format declares more. */
  lemma TypeConsumesOneByte()
    ensures var r := RenderField(TxType, 2, [0x01, 0x00], 0);
            r.Success? && r.value.next == 1 && r.value.tokens == [Label("Type"), Lit("Withdrawal"), EndField]
  {
    assert LabelOf(TxType) == "Type";
  }
}

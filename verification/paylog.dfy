/**
  The transaction-log renderer `CCInfo::printPaylog` (ccinfo.cc:229-350). The log-format
  reply is replayed as a list of tag/length pairs that slice each opaque log record; the
  output is a sequence of tokens standing for what the source writes to standard output.
*/
module Paylog {
  import opened Bytes
  import Tables

  /**
    Output tokens: `Index(n)` is "n: ", `Label(l)` is "l: ", `Lit(s)` is the text `s`,
    `Hex(b)` is the byte as the source's HEX formatter prints it, `Char(b)` the byte as a
    character, `EndField` is "; ".
  */
  datatype Token = Index(n: nat) | Label(name: string) | Lit(text: string) | Hex(b: byte) | Char(b: byte) | EndField

  /** The log fields the renderer knows. */
  datatype FieldKind = Date | TxType | Time | Currency | Amount | Merchant | Counter | Country | CryptoInfo

  function TagOf(kind: FieldKind): nat
  {
    match kind
    case Date => 0x9A
    case TxType => 0x9C
    case Time => 0x9F21
    case Currency => 0x5F2A
    case Amount => 0x9F02
    case Merchant => 0x9F4E
    case Counter => 0x9F36
    case Country => 0x9F1A
    case CryptoInfo => 0x9F27
  }

  /** The label printed before a field, from the tag-label table. */
  function LabelOf(kind: FieldKind): string
  {
    Tables.LogFormatTags[TagOf(kind)]
  }

  /** The two-byte tags the renderer dispatches on (ccinfo.cc:263-345). */
  function TwoByteField(b0: byte, b1: byte): Option<FieldKind>
  {
    if b0 == 0x9F && b1 == 0x21 then Some(Time)
    else if b0 == 0x5F && b1 == 0x2A then Some(Currency)
    else if b0 == 0x9F && b1 == 0x02 then Some(Amount)
    else if b0 == 0x9F && b1 == 0x4E then Some(Merchant)
    else if b0 == 0x9F && b1 == 0x36 then Some(Counter)
    else if b0 == 0x9F && b1 == 0x1A then Some(Country)
    else if b0 == 0x9F && b1 == 0x27 then Some(CryptoInfo)
    else None
  }

  /** Every byte as HEX, each preceded by `first` (first byte) or `sep` (the others). */
  function Joined(v: seq<byte>, first: seq<Token>, sep: seq<Token>): (t: seq<Token>)
    ensures |t| == if v == [] then 0 else |first| + 1 + (|v| - 1) * (|sep| + 1)
  {
    if v == [] then [] else first + [Hex(v[0])] + Joined(v[1..], sep, sep)
  }

  /**
    With a one-token separator, `first` leads and the bytes then sit at every other
    position, each one after the first preceded by the separator.
  */
  lemma {:induction false} JoinedAt(v: seq<byte>, first: seq<Token>, sep: seq<Token>)
    requires |sep| == 1 && v != []
    ensures var t := Joined(v, first, sep);
            t[..|first|] == first
            && forall k :: 0 <= k < |v| ==>
                 t[|first| + 2 * k] == Hex(v[k]) && (k > 0 ==> t[|first| + 2 * k - 1] == sep[0])
    decreases |v|
  {
    var t := Joined(v, first, sep);
    var rest := Joined(v[1..], sep, sep);
    assert t == first + [Hex(v[0])] + rest;
    if |v| > 1 {
      JoinedAt(v[1..], sep, sep);
      forall k | 0 < k < |v|
        ensures t[|first| + 2 * k] == Hex(v[k]) && t[|first| + 2 * k - 1] == sep[0]
      {
        assert v[k] == v[1..][k - 1];
        assert t[|first| + 2 * k] == rest[2 * (k - 1) + 1];
        assert t[|first| + 2 * k - 1] == rest[2 * (k - 1)];
      }
    }
  }

  function Hexes(v: seq<byte>): (t: seq<Token>)
    ensures |t| == |v| && forall k :: 0 <= k < |v| ==> t[k] == Hex(v[k])
  {
    if v == [] then [] else [Hex(v[0])] + Hexes(v[1..])
  }

  function Chars(v: seq<byte>): (t: seq<Token>)
    ensures |t| == |v| && forall k :: 0 <= k < |v| ==> t[k] == Char(v[k])
  {
    if v == [] then [] else [Char(v[0])] + Chars(v[1..])
  }

  /**
    The amount loop (ccinfo.cc:293-304) over the field's bytes from `j`: while `suppressing`,
    zero bytes among the first four are skipped (they are still consumed); the first byte
    printed ends the suppression; "." follows the fifth byte.
  */
  function AmountRun(v: seq<byte>, j: nat, suppressing: bool): seq<Token>
    decreases |v| - j
  {
    if j >= |v| then []
    else if j < 4 && suppressing && v[j] == 0 then AmountRun(v, j + 1, true)
    else [Hex(v[j])] + (if j == 4 then [Lit(".")] else []) + AmountRun(v, j + 1, false)
  }

  /** The number of leading zero bytes among the first four bytes of `v`, from index `j`. */
  function LeadingZeros(v: seq<byte>, j: nat): (z: nat)
    requires j <= 4
    ensures (j + z <= 4 && j + z <= |v|) || (z == 0 && j > |v|)
    decreases 4 - j
  {
    if j < 4 && j < |v| && v[j] == 0 then 1 + LeadingZeros(v, j + 1) else 0
  }

  /**
    An amount as a reader sees it: bytes `z..` up to the fifth as the integer part with its
    leading zero bytes dropped, then "." and the remaining bytes.
  */
  function AmountFrom(v: seq<byte>, z: nat): seq<Token>
    requires z <= 4 && z <= |v|
  {
    if |v| < 5 then Hexes(v[z..]) else Hexes(v[z..5]) + [Lit(".")] + Hexes(v[5..])
  }

  lemma {:induction false} AmountRunHexTail(v: seq<byte>, j: nat)
    requires 5 <= j <= |v|
    ensures AmountRun(v, j, false) == Hexes(v[j..])
    decreases |v| - j
  {
    if j < |v| {
      AmountRunHexTail(v, j + 1);
      assert v[j..] == [v[j]] + v[j + 1..];
    }
  }

  lemma AmountFromCons(v: seq<byte>, j: nat)
    requires j < 4 && j < |v|
    ensures AmountFrom(v, j) == [Hex(v[j])] + AmountFrom(v, j + 1)
  {
    if |v| >= 5 {
      assert v[j..5] == [v[j]] + v[j + 1..5];
    } else {
      assert v[j..] == [v[j]] + v[j + 1..];
    }
  }

  lemma {:induction false} AmountRunPlain(v: seq<byte>, j: nat)
    requires j <= 4 && j <= |v|
    ensures AmountRun(v, j, false) == AmountFrom(v, j)
    decreases |v| - j
  {
    if j == |v| {
    } else if j == 4 {
      AmountRunHexTail(v, 5);
      assert v[4..5] == [v[4]];
    } else {
      assert AmountRun(v, j, false) == [Hex(v[j])] + AmountRun(v, j + 1, false);
      AmountRunPlain(v, j + 1);
      AmountFromCons(v, j);
    }
  }

  lemma {:induction false} AmountRunSuppressing(v: seq<byte>, j: nat)
    requires j <= 4 && j <= |v|
    ensures AmountRun(v, j, true) == AmountFrom(v, j + LeadingZeros(v, j))
    decreases 4 - j
  {
    if j < 4 && j < |v| && v[j] == 0 {
      AmountRunSuppressing(v, j + 1);
    } else {
      AmountRunPlain(v, j);
    }
  }

  /**
    The amount loop prints exactly the reader's view of the amount: leading zero bytes among
    the first four dropped, never the fifth byte or later, and "." right after the fifth.
  */
  lemma AmountMatchesReading(v: seq<byte>)
    ensures AmountRun(v, 0, true) == AmountFrom(v, LeadingZeros(v, 0))
  {
    AmountRunSuppressing(v, 0);
  }

  /** A rendered field and the entry cursor after it. */
  datatype Rendered = Rendered(tokens: seq<Token>, next: nat)

  /** The big-endian two-byte code at `e` (`data[e] << 8 | data[e + 1]`). */
  function CodeAt(entry: seq<byte>, e: nat): nat
    requires e + 1 < |entry|
  {
    entry[e] as nat * 0x100 + entry[e + 1] as nat
  }

  /**
    A currency or country field: a code found in `table` prints its symbol and consumes
    exactly 2 bytes whatever the declared length; an unknown code prints the declared number
    of bytes in hex and consumes them.
  */
  function CodeField(table: map<nat, string>, len: nat, entry: seq<byte>, e: nat): Result<Rendered>
  {
    var hi :- At(entry, e);
    var lo :- At(entry, e + 1);
    var code := hi as nat * 0x100 + lo as nat;
    if code in table then Success(Rendered([Lit(table[code])], e + 2))
    else
      var v :- Take(entry, e, len);
      Success(Rendered(Hexes(v), e + len))
  }

  /** How the bytes of a field consumed at its declared length are printed. */
  function SlicedTokens(kind: FieldKind, v: seq<byte>): seq<Token>
  {
    match kind
    case Date => Joined(v, [Lit("20")], [Lit("/")])
    case Time => Joined(v, [], [Lit(":")])
    case Amount => AmountRun(v, 0, true)
    case Merchant => Chars(v)
    case _ => Hexes(v)
  }

  /** The body of a field of kind `kind` with declared length `len`, read from the entry at `e`. */
  function FieldBody(kind: FieldKind, len: nat, entry: seq<byte>, e: nat): Result<Rendered>
  {
    if kind == TxType then
      var b :- At(entry, e);
      Success(Rendered([Lit(if b != 0 then "Withdrawal" else "Payment")], e + 1))
    else if kind == Currency then CodeField(Tables.CurrencyCodes, len, entry, e)
    else if kind == Country then CodeField(Tables.CountryCodes, len, entry, e)
    else
      var v :- Take(entry, e, len);
      Success(Rendered(SlicedTokens(kind, v), e + len))
  }

  /** Fields whose bytes are all consumed as declared. */
  predicate Sliced(kind: FieldKind)
  {
    kind in {Date, Time, Amount, Merchant, Counter, CryptoInfo}
  }

  function CodeTable(kind: FieldKind): map<nat, string>
  {
    if kind == Currency then Tables.CurrencyCodes else Tables.CountryCodes
  }

  /** One field: its label, its body and "; ". */
  function RenderField(kind: FieldKind, len: nat, entry: seq<byte>, e: nat): Result<Rendered>
  {
    var body :- FieldBody(kind, len, entry, e);
    Success(Rendered([Label(LabelOf(kind))] + body.tokens + [EndField], body.next))
  }

  /**
    What one field prints and how far it moves the entry cursor: by the declared length for
    date, time, amount, merchant, counter and cryptogram information, by exactly 1 for the
    transaction type, and for a currency or country code by 2 when the code is in its table
    (printing its symbol) and by the declared length otherwise (printing those bytes in hex).
    Reading past the entry fails.
  */
  lemma FieldAdvance(kind: FieldKind, len: nat, entry: seq<byte>, e: nat)
    ensures var r := RenderField(kind, len, entry, e);
            r.Success? ==>
              |r.value.tokens| >= 2 && r.value.tokens[0] == Label(LabelOf(kind))
              && r.value.tokens[|r.value.tokens| - 1] == EndField
    ensures var r := RenderField(kind, len, entry, e);
            Sliced(kind) ==> (r.Success? <==> e + len <= |entry|) && (r.Success? ==> r.value.next == e + len)
    ensures var r := RenderField(kind, len, entry, e);
            kind == TxType ==> (r.Success? <==> e < |entry|) && (r.Success? ==> r.value.next == e + 1)
    ensures var r := RenderField(kind, len, entry, e);
            kind in {Currency, Country} ==>
              (r.Success? <==> e + 1 < |entry| && (CodeAt(entry, e) in CodeTable(kind) || e + len <= |entry|))
    ensures var r := RenderField(kind, len, entry, e);
            kind in {Currency, Country} && r.Success? ==>
              if CodeAt(entry, e) in CodeTable(kind)
              then r.value.next == e + 2 && r.value.tokens[1] == Lit(CodeTable(kind)[CodeAt(entry, e)])
              else r.value.next == e + len && r.value.tokens[1..|r.value.tokens| - 1] == Hexes(entry[e..e + len])
  {
  }

  /**
    What a field prints between its label and "; ": "Withdrawal" for a non-zero type byte
    and "Payment" otherwise; the date as "20" and its bytes separated by "/"; the time with
    ":"; the amount as the reader sees it; the merchant name as characters; counter and
    cryptogram information in hex.
  */
  lemma FieldPrints(kind: FieldKind, len: nat, entry: seq<byte>, e: nat)
    ensures var r := RenderField(kind, len, entry, e);
            kind == TxType && r.Success? ==>
              r.value.tokens[1..|r.value.tokens| - 1] == [Lit(if entry[e] != 0 then "Withdrawal" else "Payment")]
    ensures var r := RenderField(kind, len, entry, e);
            Sliced(kind) && r.Success? ==>
              var v := entry[e..e + len];
              var body := r.value.tokens[1..|r.value.tokens| - 1];
              (kind == Date ==> body == Joined(v, [Lit("20")], [Lit("/")]))
              && (kind == Time ==> body == Joined(v, [], [Lit(":")]))
              && (kind == Amount ==> body == AmountFrom(v, LeadingZeros(v, 0)))
              && (kind == Merchant ==> body == Chars(v))
              && (kind in {Counter, CryptoInfo} ==> body == Hexes(v))
  {
    var r := RenderField(kind, len, entry, e);
    if Sliced(kind) && r.Success? {
      var body := FieldBody(kind, len, entry, e);
      assert body == Success(Rendered(SlicedTokens(kind, entry[e..e + len]), e + len));
      assert r.value.tokens[1..|r.value.tokens| - 1] == body.value.tokens;
      if kind == Amount {
        AmountMatchesReading(entry[e..e + len]);
      }
    }
  }

  /** A recognised tag in the log format: the field it announces and how many bytes the tag takes. */
  datatype Dispatch = Dispatch(kind: FieldKind, width: nat)

  /**
    The tag test at index `i` of the format loop: the one-byte tags 9A and 9C are checked
    first; a two-byte tag needs a second byte inside the format.
  */
  function TagAtIndex(format: seq<byte>, i: nat): (d: Option<Dispatch>)
    requires i < |format|
    ensures d.Some? ==> d.value.width in {1, 2} && i + d.value.width <= |format|
  {
    if format[i] == 0x9A then Some(Dispatch(Date, 1))
    else if format[i] == 0x9C then Some(Dispatch(TxType, 1))
    else if i + 1 < |format| && TwoByteField(format[i], format[i + 1]).Some? then
      Some(Dispatch(TwoByteField(format[i], format[i + 1]).value, 2))
    else None
  }

  /** How one field is printed: its kind, declared length, the entry and the entry cursor. */
  type FieldPrinter = (FieldKind, nat, seq<byte>, nat) -> Result<Rendered>

  /**
    The format loop over the log-format bytes from `i` with the entry cursor at `e`. Each
    known tag reads its length byte, prints its field with `field` and resumes the loop after
    the length byte; any other byte is stepped over without moving the entry cursor.
  */
  function FormatLoop(field: FieldPrinter, format: seq<byte>, entry: seq<byte>, i: nat, e: nat): Result<seq<Token>>
    decreases |format| - i
  {
    if i >= |format| then Success([])
    else
      match TagAtIndex(format, i)
      case None => FormatLoop(field, format, entry, i + 1, e)
      case Some(d) =>
        var len :- At(format, i + d.width);
        var f :- field(d.kind, len as nat, entry, e);
        var rest :- FormatLoop(field, format, entry, i + d.width + 1, f.next);
        Success(f.tokens + rest)
  }

  /** The fields of one entry, as the format loop prints them with the field printer above. */
  function RenderEntry(format: seq<byte>, entry: seq<byte>, i: nat, e: nat): Result<seq<Token>>
  {
    FormatLoop(RenderField, format, entry, i, e)
  }

  /** One output line: the entry's index, then its fields. */
  function RenderLine(format: seq<byte>, entry: seq<byte>, index: nat): Result<seq<Token>>
  {
    var fields :- RenderEntry(format, entry, 0, 0);
    Success([Index(index)] + fields)
  }

  /**
    The entry loop from `index`: one line per entry, in order, stopping at the first entry of
    size 0 (the log holds fewer records than its capacity).
  */
  function RenderPaylog(format: seq<byte>, entries: seq<seq<byte>>, index: nat): (r: seq<Result<seq<Token>>>)
    requires index <= |entries|
    ensures index + |r| <= |entries|
    ensures forall n :: index <= n < index + |r| ==>
              entries[n] != [] && r[n - index] == RenderLine(format, entries[n], n)
    ensures index + |r| < |entries| ==> entries[index + |r|] == []
    decreases |entries| - index
  {
    if index == |entries| || entries[index] == [] then []
    else
      var rest := RenderPaylog(format, entries, index + 1);
      var r := [RenderLine(format, entries[index], index)] + rest;
      r
  }
}

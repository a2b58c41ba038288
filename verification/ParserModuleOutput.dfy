/** The parse-input block and the output descriptors of the parser-module ABI. */
module ParserModuleOutput {
  import opened Prelude
  import opened LittleEndian
  import opened ByteBuffers
  import opened ParserModuleAbi

  // ---------- parse input ----------

  const INPUT_HEADER_SIZE := 24

  datatype ParseInput<T> = ParseInput(hasTimestamp: bool, timestamp: int64, payload: T)

  function EncInput(input: ParseInput<Bytes>): (r: Bytes)
    ensures |r| == INPUT_HEADER_SIZE + |input.payload|
  {
    EncLittle(if input.hasTimestamp then 1 else 0, 1) + (Zeros(7) + (EncLittle(ToUnsigned64(input.timestamp), 8) +
    (EncLittle(|input.payload|, 8) + input.payload)))
  }

  method WriteParseInput(input: ParseInput<Bytes>) returns (r: Option<Bytes>)
    ensures r == if |EncInput(input)| <= UINT64_MAX then Some(EncInput(input)) else None
  {
    if INPUT_HEADER_SIZE + |input.payload| > UINT64_MAX {
      return None;
    }
    var writer := new ByteWriter();
    writer.Word(if input.hasTimestamp then 1 else 0, 1);
    writer.Zeros(7);
    writer.Word(ToUnsigned64(input.timestamp), 8);
    writer.Word(|input.payload|, 8);
    writer.Append(input.payload);
    assert writer.out == EncInput(input);
    r := Some(writer.out);
  }

  /** Only the timestamp flag may be set, and the payload is exactly what follows the header. */
  predicate InputReadable(b: Bytes) {
    |b| >= INPUT_HEADER_SIZE && WordAt(b, 0, 1) <= 1 && WordAt(b, 16, 8) == |b| - INPUT_HEADER_SIZE
  }

  function InputOf(b: Bytes): ParseInput<Span>
    requires |b| >= INPUT_HEADER_SIZE
  {
    WordLimits();
    ParseInput(WordAt(b, 0, 1) == 1, ToSigned64(WordAt(b, 8, 8)), Span(INPUT_HEADER_SIZE, |b| - INPUT_HEADER_SIZE))
  }

  method ReadParseInput(b: Bytes) returns (r: Option<ParseInput<Span>>)
    ensures r == if InputReadable(b) then Some(InputOf(b)) else None
  {
    WordLimits();
    var reader := new ByteReader(b);
    var ok, flags, timestamp, length;
    ok, flags := reader.Word(1);
    if ok { ok := reader.Take(7); }
    if ok { ok, timestamp := reader.Word(8); }
    if ok { ok, length := reader.Word(8); }
    if !ok || flags > 1 || length != reader.Remaining() {
      return None;
    }
    var start := reader.position;
    ok := reader.Take(length);
    r := Some(ParseInput(flags == 1, ToSigned64(timestamp), Span(start, length)));
  }

  lemma InputBack(input: ParseInput<Bytes>)
    requires |EncInput(input)| <= UINT64_MAX
    ensures var b := EncInput(input);
            && InputReadable(b)
            && InputOf(b).hasTimestamp == input.hasTimestamp && InputOf(b).timestamp == input.timestamp
            && InBlock(b, InputOf(b).payload) && Content(b, InputOf(b).payload) == input.payload
  {
    WordLimits();
    var b := EncInput(input);
    var size := EncLittle(|input.payload|, 8) + input.payload;
    var timestamp := EncLittle(ToUnsigned64(input.timestamp), 8) + size;
    assert b[0..] == b;
    NextWord(b, 0, if input.hasTimestamp then 1 else 0, 1, Zeros(7) + timestamp);
    assert b[8..] == b[1..][7..] == timestamp;
    NextWord(b, 8, ToUnsigned64(input.timestamp), 8, size);
    NextWord(b, 16, |input.payload|, 8, input.payload);
  }

  // ---------- output descriptors ----------

  const OBJECT_FIXED_SIZE := 36
  const SCALAR_FIXED_SIZE := 24
  const FIELD_PREFIX_SIZE := 9

  datatype Splice = Splice(fieldNumber: uint32, inputOffset: uint64, inputLength: uint64)

  datatype ScalarValue<T> = Float64(word: uint64) | Int64(signed: int64) | Uint64(unsigned: uint64) | Bool(flag: bool) | Text(text: T)

  datatype ScalarField<T> = ScalarField(name: T, value: ScalarValue<T>)

  datatype Output<T> =
    | ObjectOutput(objectType: uint16, splice: Option<Splice>, wire: T)
    | ScalarOutput(hasTimestamp: bool, timestamp: int64, fields: seq<ScalarField<T>>)

  // ---------- object outputs ----------

  const NO_SPLICE := Splice(0, 0, 0)

  function SpliceOf(splice: Option<Splice>): Splice {
    if splice.Some? then splice.value else NO_SPLICE
  }

  function EncSplice(splice: Option<Splice>, t: Bytes): (r: Bytes)
    ensures |r| == 22 + |t|
  {
    EncLittle(if splice.Some? then 1 else 0, 2) + (EncLittle(SpliceOf(splice).fieldNumber, 4) +
    (EncLittle(SpliceOf(splice).inputOffset, 8) + (EncLittle(SpliceOf(splice).inputLength, 8) + t)))
  }

  function EncObject(objectType: uint16, splice: Option<Splice>, wire: Bytes): (r: Bytes)
    ensures |r| == OBJECT_FIXED_SIZE + |wire|
  {
    EncLittle(VERSION, 2) + (EncLittle(OBJECT_ROUTE, 1) + (EncLittle(0, 1) + (EncLittle(objectType, 2) +
    EncSplice(splice, EncLittle(|wire|, 8) + wire))))
  }

  predicate ObjectReadable(b: Bytes) {
    && |b| >= OBJECT_FIXED_SIZE
    && WordAt(b, 0, 2) == VERSION && WordAt(b, 2, 1) == OBJECT_ROUTE
    && WordAt(b, 6, 2) <= 1
    && WordAt(b, 28, 8) == |b| - OBJECT_FIXED_SIZE
  }

  function ObjectOf(b: Bytes): Output<Span>
    requires |b| >= OBJECT_FIXED_SIZE
  {
    WordLimits();
    ObjectOutput(WordAt(b, 4, 2),
                 if WordAt(b, 6, 2) == 1 then Some(Splice(WordAt(b, 8, 4), WordAt(b, 12, 8), WordAt(b, 20, 8))) else None,
                 Span(OBJECT_FIXED_SIZE, |b| - OBJECT_FIXED_SIZE))
  }

  /** With or without a splice, an object output is read as it was written. */
  lemma ObjectBack(objectType: uint16, splice: Option<Splice>, wire: Bytes)
    requires OBJECT_FIXED_SIZE + |wire| <= UINT64_MAX
    ensures var b := EncObject(objectType, splice, wire);
            && ObjectReadable(b)
            && ObjectOf(b) == ObjectOutput(objectType, splice, Span(OBJECT_FIXED_SIZE, |wire|))
            && Content(b, Span(OBJECT_FIXED_SIZE, |wire|)) == wire
  {
    WordLimits();
    var b, s := EncObject(objectType, splice, wire), SpliceOf(splice);
    var size := EncLittle(|wire|, 8) + wire;
    var length := EncLittle(s.inputLength, 8) + size;
    var offset := EncLittle(s.inputOffset, 8) + length;
    var number := EncLittle(s.fieldNumber, 4) + offset;
    var count := EncSplice(splice, size);
    var kind := EncLittle(objectType, 2) + count;
    assert b[0..] == b;
    NextWord(b, 0, VERSION, 2, EncLittle(OBJECT_ROUTE, 1) + (EncLittle(0, 1) + kind));
    NextWord(b, 2, OBJECT_ROUTE, 1, EncLittle(0, 1) + kind);
    NextWord(b, 3, 0, 1, kind);
    NextWord(b, 4, objectType, 2, count);
    NextWord(b, 6, if splice.Some? then 1 else 0, 2, number);
    NextWord(b, 8, s.fieldNumber, 4, offset);
    NextWord(b, 12, s.inputOffset, 8, length);
    NextWord(b, 20, s.inputLength, 8, size);
    NextWord(b, 28, |wire|, 8, wire);
  }

  method WriteSplice(writer: ByteWriter, splice: Option<Splice>, ghost t: Bytes)
    modifies writer
    ensures writer.out + t == old(writer.out) + EncSplice(splice, t)
  {
    var s := SpliceOf(splice);
    ghost var length := EncLittle(s.inputLength, 8) + t;
    ghost var offset := EncLittle(s.inputOffset, 8) + length;
    writer.Word(if splice.Some? then 1 else 0, 2, EncLittle(s.fieldNumber, 4) + offset);
    writer.Word(s.fieldNumber, 4, offset);
    writer.Word(s.inputOffset, 8, length);
    writer.Word(s.inputLength, 8, t);
  }

  method WriteObject(objectType: uint16, splice: Option<Splice>, wire: Bytes) returns (r: Option<Bytes>)
    ensures r == if OBJECT_FIXED_SIZE + |wire| <= UINT64_MAX then Some(EncObject(objectType, splice, wire)) else None
  {
    if OBJECT_FIXED_SIZE + |wire| > UINT64_MAX {
      return None;
    }
    var writer := new ByteWriter();
    ghost var tail := EncLittle(|wire|, 8) + wire;
    ghost var splices := EncSplice(splice, tail);
    ghost var kind := EncLittle(objectType, 2) + splices;
    assert [] + EncObject(objectType, splice, wire) == EncObject(objectType, splice, wire);
    writer.Word(VERSION, 2, EncLittle(OBJECT_ROUTE, 1) + (EncLittle(0, 1) + kind));
    writer.Word(OBJECT_ROUTE, 1, EncLittle(0, 1) + kind);
    writer.Word(0, 1, kind);
    writer.Word(objectType, 2, splices);
    WriteSplice(writer, splice, tail);
    writer.Word(|wire|, 8, wire);
    writer.Append(wire);
    r := Some(writer.out);
  }

  // ---------- scalar outputs ----------

  function KindOf<T>(value: ScalarValue<T>): byte {
    match value
    case Float64(_) => 0
    case Int64(_) => 1
    case Uint64(_) => 2
    case Bool(_) => 3
    case Text(_) => 4
  }

  function EncValue(value: ScalarValue<Bytes>): (r: Bytes)
    ensures |r| >= 1
    ensures value.Text? ==> |r| == 4 + |value.text|
    ensures value.Bool? ==> |r| == 1
    ensures value.Float64? || value.Int64? || value.Uint64? ==> |r| == 8
  {
    match value
    case Float64(word) => EncLittle(word, 8)
    case Int64(signed) => EncLittle(ToUnsigned64(signed), 8)
    case Uint64(unsigned) => EncLittle(unsigned, 8)
    case Bool(flag) => EncLittle(if flag then 1 else 0, 1)
    case Text(text) => EncLittle(|text|, 4) + text
  }

  function NamesOf(fields: seq<ScalarField<Bytes>>): (r: seq<Bytes>)
    ensures |r| == |fields|
  {
    seq(|fields|, i requires 0 <= i < |fields| => fields[i].name)
  }

  /** The rows of the fields: where its name lies, its kind and its value. The first name lies at `at`. */
  function EncRows(fields: seq<ScalarField<Bytes>>, at: nat): (r: Bytes)
    ensures |r| >= 10 * |fields|
    ensures |r| == RowsSize(fields)
  {
    if |fields| == 0 then []
    else
      EncLittle(at, 4) + (EncLittle(|fields[0].name|, 4) + (EncLittle(KindOf(fields[0].value), 1) +
      (EncValue(fields[0].value) + EncRows(fields[1..], at + |fields[0].name|))))
  }

  function RowsSize(fields: seq<ScalarField<Bytes>>): nat {
    if |fields| == 0 then 0 else FIELD_PREFIX_SIZE + |EncValue(fields[0].value)| + RowsSize(fields[1..])
  }

  function NamesStart(fields: seq<ScalarField<Bytes>>): nat {
    SCALAR_FIXED_SIZE + RowsSize(fields)
  }

  function EncScalarHeader(hasTimestamp: bool, timestamp: int64, count: nat): (r: Bytes)
    ensures |r| == SCALAR_FIXED_SIZE
  {
    EncLittle(VERSION, 2) + (EncLittle(SCALAR_ROUTE, 1) + (EncLittle(0, 1) + (EncLittle(if hasTimestamp then 1 else 0, 1) +
    (Zeros(7) + (EncLittle(ToUnsigned64(timestamp), 8) + EncLittle(count, 4))))))
  }

  function EncScalar(hasTimestamp: bool, timestamp: int64, fields: seq<ScalarField<Bytes>>): (r: Bytes)
    ensures |r| == NamesStart(fields) + Sum(NamesOf(fields))
  {
    EncScalarHeader(hasTimestamp, timestamp, |fields|) + (EncRows(fields, NamesStart(fields)) + Joined(NamesOf(fields)))
  }

  /** The writer accepts a scalar output exactly when its block fits 32-bit offsets. */
  predicate ScalarWritable(fields: seq<ScalarField<Bytes>>) {
    NamesStart(fields) + Sum(NamesOf(fields)) <= UINT32_MAX
  }

  function ValueSize(value: ScalarValue<Bytes>): Option<nat> {
    match value
    case Bool(_) => Some(1)
    case Text(text) => if |text| > UINT32_MAX then None else Some(4 + |text|)
    case _ => Some(8)
  }

  /** First pass of the writer: where the rows end. */
  method RowsEnd(fields: seq<ScalarField<Bytes>>) returns (end: Option<nat>)
    ensures end.Some? ==> end.value == NamesStart(fields)
    ensures end.None? ==> NamesStart(fields) + Sum(NamesOf(fields)) > UINT32_MAX
  {
    var values := SCALAR_FIXED_SIZE;
    for index := 0 to |fields|
      invariant 0 <= values && values + RowsSize(fields[index..]) == NamesStart(fields)
    {
      var field := fields[index];
      assert fields[index..][0] == field && fields[index..][1..] == fields[index + 1..];
      SumFits(NamesOf(fields), index);
      assert NamesOf(fields)[index] == field.name;
      var size := ValueSize(field.value);
      assert values + FIELD_PREFIX_SIZE + |EncValue(field.value)| <= NamesStart(fields);
      if size.None? {
        return None;
      }
      if |field.name| > UINT32_MAX || values + FIELD_PREFIX_SIZE > UINT64_MAX || values + FIELD_PREFIX_SIZE + size.value > UINT64_MAX {
        return None;
      }
      values := values + FIELD_PREFIX_SIZE + size.value;
    }
    end := Some(values);
  }

  /** Second pass: the offset of each name. */
  method NameOffsets(names: seq<Bytes>, start: nat) returns (offsets: Option<seq<uint32>>)
    ensures offsets.Some? <==> names == [] || start + Sum(names) <= UINT32_MAX
    ensures offsets.Some? ==>
              |offsets.value| == |names| && forall i :: 0 <= i < |names| ==> offsets.value[i] == start + SumUpTo(names, i)
  {
    var found: seq<uint32> := [];
    var total := start;
    for index := 0 to |names|
      invariant |found| == index && total == start + SumUpTo(names, index) && (index > 0 ==> total <= UINT32_MAX)
      invariant forall i :: 0 <= i < index ==> found[i] == start + SumUpTo(names, i)
    {
      SumFits(names, index);
      SumPrefix(names, index);
      if total > UINT32_MAX {
        return None;
      }
      found := found + [total];
      total := total + |names[index]|;
      if total > UINT32_MAX {
        return None;
      }
    }
    assert names[..|names|] == names;
    offsets := Some(found);
  }

  method WriteValue(writer: ByteWriter, value: ScalarValue<Bytes>, ghost rest: Bytes)
    requires value.Text? ==> |value.text| <= UINT32_MAX
    modifies writer
    ensures writer.out + rest == old(writer.out) + (EncLittle(KindOf(value), 1) + (EncValue(value) + rest))
  {
    writer.Word(KindOf(value), 1, EncValue(value) + rest);
    match value {
      case Float64(word) => writer.Word(word, 8, rest);
      case Int64(signed) => writer.Word(ToUnsigned64(signed), 8, rest);
      case Uint64(unsigned) => writer.Word(unsigned, 8, rest);
      case Bool(flag) => writer.Word(if flag then 1 else 0, 1, rest);
      case Text(text) =>
        assert EncLittle(|text|, 4) + (text + rest) == EncValue(value) + rest;
        writer.Word(|text|, 4, text + rest);
        writer.Append(text);
    }
  }

  predicate TextsFit(fields: seq<ScalarField<Bytes>>) {
    forall i :: 0 <= i < |fields| ==> fields[i].value.Text? ==> |fields[i].value.text| <= UINT32_MAX
  }

  lemma {:induction false} WritableTextsFit(fields: seq<ScalarField<Bytes>>)
    requires RowsSize(fields) <= UINT32_MAX
    ensures TextsFit(fields)
  {
    if |fields| > 0 {
      WritableTextsFit(fields[1..]);
      assert forall i :: 0 < i < |fields| ==> fields[i] == fields[1..][i - 1];
    }
  }

  function EncRow(field: ScalarField<Bytes>, at: nat, rest: Bytes): Bytes {
    EncLittle(at, 4) + (EncLittle(|field.name|, 4) + (EncLittle(KindOf(field.value), 1) + (EncValue(field.value) + rest)))
  }

  function RowsFrom(fields: seq<ScalarField<Bytes>>, start: nat, index: nat): Bytes
    requires index <= |fields|
  {
    EncRows(fields[index..], start + SumUpTo(NamesOf(fields), index))
  }

  lemma NextRow(fields: seq<ScalarField<Bytes>>, start: nat, index: nat)
    requires index < |fields|
    ensures RowsFrom(fields, start, index) ==
            EncRow(fields[index], start + SumUpTo(NamesOf(fields), index), RowsFrom(fields, start, index + 1))
  {
    SumPrefix(NamesOf(fields), index);
    assert NamesOf(fields)[index] == fields[index].name;
    assert fields[index..][0] == fields[index] && fields[index..][1..] == fields[index + 1..];
  }

  lemma AllRows(fields: seq<ScalarField<Bytes>>, start: nat)
    ensures RowsFrom(fields, start, 0) == EncRows(fields, start) && RowsFrom(fields, start, |fields|) == []
  {
    assert fields[0..] == fields;
    assert fields[|fields|..] == [];
  }

  method WriteRow(writer: ByteWriter, field: ScalarField<Bytes>, offset: uint32, ghost rest: Bytes)
    requires field.value.Text? ==> |field.value.text| <= UINT32_MAX
    modifies writer
    ensures writer.out + rest == old(writer.out) + EncRow(field, offset, rest)
  {
    ghost var value := EncLittle(KindOf(field.value), 1) + (EncValue(field.value) + rest);
    writer.Word(offset, 4, EncLittle(|field.name|, 4) + value);
    writer.Word(|field.name|, 4, value);
    WriteValue(writer, field.value, rest);
  }

  /** `left[i]` is what rows `i` and beyond still have to add. */
  method WriteRows(writer: ByteWriter, fields: seq<ScalarField<Bytes>>, offsets: seq<uint32>, ghost left: seq<Bytes>)
    requires |offsets| == |fields| && |left| == |fields| + 1 && TextsFit(fields)
    requires forall i :: 0 <= i < |fields| ==> left[i] == EncRow(fields[i], offsets[i], left[i + 1])
    modifies writer
    ensures writer.out + left[|fields|] == old(writer.out) + left[0]
  {
    for index := 0 to |fields|
      invariant writer.out + left[index] == old(writer.out) + left[0]
    {
      WriteRow(writer, fields[index], offsets[index], left[index + 1]);
    }
  }

  method WriteTable(writer: ByteWriter, fields: seq<ScalarField<Bytes>>, offsets: seq<uint32>, start: nat)
    requires |offsets| == |fields| && TextsFit(fields)
    requires forall i :: 0 <= i < |fields| ==> offsets[i] == start + SumUpTo(NamesOf(fields), i)
    modifies writer
    ensures writer.out == old(writer.out) + EncRows(fields, start)
  {
    ghost var left := seq(|fields| + 1, i requires 0 <= i <= |fields| => RowsFrom(fields, start, i));
    forall i | 0 <= i < |fields| ensures left[i] == EncRow(fields[i], offsets[i], left[i + 1]) {
      NextRow(fields, start, i);
    }
    WriteRows(writer, fields, offsets, left);
    AllRows(fields, start);
    assert writer.out + [] == writer.out;
  }

  method WriteScalarHeader(writer: ByteWriter, hasTimestamp: bool, timestamp: int64, count: nat)
    requires writer.out == []
    modifies writer
    ensures writer.out == EncScalarHeader(hasTimestamp, timestamp, count)
  {
    ghost var time := EncLittle(ToUnsigned64(timestamp), 8) + EncLittle(count, 4);
    ghost var flag := EncLittle(if hasTimestamp then 1 else 0, 1) + (Zeros(7) + time);
    writer.Word(VERSION, 2, EncLittle(SCALAR_ROUTE, 1) + (EncLittle(0, 1) + flag));
    writer.Word(SCALAR_ROUTE, 1, EncLittle(0, 1) + flag);
    writer.Word(0, 1, flag);
    writer.Word(if hasTimestamp then 1 else 0, 1, Zeros(7) + time);
    ghost var before := writer.out;
    writer.Zeros(7);
    assert writer.out + time == before + (Zeros(7) + time);
    writer.Word(ToUnsigned64(timestamp), 8, EncLittle(count, 4));
    writer.Word(count, 4);
  }

  method WriteNames(writer: ByteWriter, fields: seq<ScalarField<Bytes>>)
    modifies writer
    ensures writer.out == old(writer.out) + Joined(NamesOf(fields))
  {
    for index := 0 to |fields|
      invariant writer.out + Joined(NamesOf(fields)[index..]) == old(writer.out) + Joined(NamesOf(fields))
    {
      assert NamesOf(fields)[index..][0] == fields[index].name;
      assert NamesOf(fields)[index..][1..] == NamesOf(fields)[index + 1..];
      writer.Append(fields[index].name);
    }
  }

  method WriteScalar(hasTimestamp: bool, timestamp: int64, fields: seq<ScalarField<Bytes>>) returns (r: Option<Bytes>)
    ensures r == if ScalarWritable(fields) then Some(EncScalar(hasTimestamp, timestamp, fields)) else None
  {
    if |fields| > UINT32_MAX {
      return None;
    }
    var start := RowsEnd(fields);
    if start.None? {
      return None;
    }
    var offsets := NameOffsets(NamesOf(fields), start.value);
    if offsets.None? {
      return None;
    }
    WritableTextsFit(fields);
    var writer := new ByteWriter();
    WriteScalarHeader(writer, hasTimestamp, timestamp, |fields|);
    WriteTable(writer, fields, offsets.value, start.value);
    ghost var rows := EncRows(fields, start.value);
    Regroup(EncScalarHeader(hasTimestamp, timestamp, |fields|), rows, Joined(NamesOf(fields)));
    WriteNames(writer, fields);
    r := Some(writer.out);
  }

  // ---------- reading scalar outputs ----------

  datatype Row = Row(name: Span, value: ScalarValue<Span>)

  datatype ValueRead = NoValue | ValueRead(value: ScalarValue<Span>, next: nat)

  function ReadValueAt(b: Bytes, kind: nat, pos: nat): (r: ValueRead)
    requires pos <= |b|
    ensures r.ValueRead? ==> pos < r.next <= |b| && (r.value.Text? ==> InBlock(b, r.value.text))
  {
    WordLimits();
    if kind <= 2 then
      if pos + 8 > |b| then NoValue
      else
        var word := WordAt(b, pos, 8);
        ValueRead(if kind == 0 then Float64(word) else if kind == 1 then Int64(ToSigned64(word)) else Uint64(word), pos + 8)
    else if kind == 3 then
      if pos + 1 > |b| || WordAt(b, pos, 1) > 1 then NoValue else ValueRead(Bool(WordAt(b, pos, 1) == 1), pos + 1)
    else if kind == 4 then
      if pos + 4 > |b| || pos + 4 + WordAt(b, pos, 4) > |b| then NoValue
      else ValueRead(Text(Span(pos + 4, WordAt(b, pos, 4))), pos + 4 + WordAt(b, pos, 4))
    else NoValue
  }

  /** One element of a list read at a position, and where the next one starts. */
  datatype ReadOne<+R> = NothingRead | OneRead(row: R, next: nat)

  function ReadRow(b: Bytes, pos: nat): (r: ReadOne<Row>)
    ensures r.OneRead? ==> pos < r.next <= |b| && (r.row.value.Text? ==> InBlock(b, r.row.value.text))
  {
    if pos + FIELD_PREFIX_SIZE > |b| then NothingRead
    else
      var v := ReadValueAt(b, WordAt(b, pos + 8, 1), pos + FIELD_PREFIX_SIZE);
      if v.NoValue? then NothingRead else OneRead(Row(Span(WordAt(b, pos, 4), WordAt(b, pos + 4, 4)), v.value), v.next)
  }

  /** `count` elements one after the other. */
  function ReadMany<R>(read: nat -> ReadOne<R>, pos: nat, count: nat): (r: Option<seq<R>>)
    ensures r.Some? ==> |r.value| == count
    decreases count
  {
    if count == 0 then Some([])
    else
      var first := read(pos);
      if first.NothingRead? then None
      else
        var rest := ReadMany(read, first.next, count - 1);
        if rest.None? then None else Some([first.row] + rest.value)
  }

  lemma {:induction false} EachIsRead<R>(read: nat -> ReadOne<R>, pos: nat, count: nat, i: nat)
    requires i < count && ReadMany(read, pos, count).Some?
    ensures exists at :: read(at).OneRead? && read(at).row == ReadMany(read, pos, count).value[i]
    decreases count
  {
    if i > 0 {
      EachIsRead(read, read(pos).next, count - 1, i - 1);
    }
  }

  /** Elements known at consecutive places are what is read. */
  lemma {:induction false} ManyRead<R>(read: nat -> ReadOne<R>, places: seq<nat>, rows: seq<R>, i: nat)
    requires |places| == |rows| + 1 && i <= |rows|
    requires forall j :: 0 <= j < |rows| ==> read(places[j]) == OneRead(rows[j], places[j + 1])
    ensures ReadMany(read, places[i], |rows| - i) == Some(rows[i..])
    decreases |rows| - i
  {
    if i < |rows| {
      ManyRead(read, places, rows, i + 1);
      assert rows[i..] == [rows[i]] + rows[i + 1..];
    }
  }

  function RowReader(b: Bytes): nat -> ReadOne<Row> {
    (pos: nat) => ReadRow(b, pos)
  }

  function ReadRows(b: Bytes, pos: nat, count: nat): Option<seq<Row>> {
    ReadMany(RowReader(b), pos, count)
  }

  predicate NamesInBlock(b: Bytes, rows: seq<Row>) {
    forall i :: 0 <= i < |rows| ==> InBlock(b, rows[i].name)
  }

  predicate ScalarHeaderOk(b: Bytes) {
    && |b| >= SCALAR_FIXED_SIZE
    && WordAt(b, 0, 2) == VERSION && WordAt(b, 2, 1) == SCALAR_ROUTE
    && WordAt(b, 4, 1) <= 1
    && WordAt(b, 20, 4) <= (|b| - SCALAR_FIXED_SIZE) / (FIELD_PREFIX_SIZE + 1)
  }

  predicate ScalarReadable(b: Bytes) {
    ScalarHeaderOk(b) &&
    var rows := ReadRows(b, SCALAR_FIXED_SIZE, WordAt(b, 20, 4));
    rows.Some? && NamesInBlock(b, rows.value)
  }

  function FieldsOfRows(rows: seq<Row>): (r: seq<ScalarField<Span>>)
    ensures |r| == |rows|
  {
    seq(|rows|, i requires 0 <= i < |rows| => ScalarField(rows[i].name, rows[i].value))
  }

  function ScalarOf(b: Bytes): Output<Span>
    requires ScalarReadable(b)
  {
    WordLimits();
    ScalarOutput(WordAt(b, 4, 1) == 1, ToSigned64(WordAt(b, 12, 8)), FieldsOfRows(ReadRows(b, SCALAR_FIXED_SIZE, WordAt(b, 20, 4)).value))
  }

  /** What the reader makes of any block. */
  function ReadOutput(b: Bytes): Option<Output<Span>> {
    if ObjectReadable(b) then Some(ObjectOf(b)) else if ScalarReadable(b) then Some(ScalarOf(b)) else None
  }

  // ---------- what is read is what was written ----------

  predicate ValueMatches(b: Bytes, seen: ScalarValue<Span>, value: ScalarValue<Bytes>) {
    match value
    case Text(text) => seen.Text? && InBlock(b, seen.text) && Content(b, seen.text) == text
    case Float64(word) => seen == Float64(word)
    case Int64(signed) => seen == Int64(signed)
    case Uint64(unsigned) => seen == Uint64(unsigned)
    case Bool(flag) => seen == Bool(flag)
  }

  lemma ValueBack(b: Bytes, pos: nat, value: ScalarValue<Bytes>, rest: Bytes)
    requires pos <= |b| && b[pos..] == EncValue(value) + rest
    requires value.Text? ==> |value.text| <= UINT32_MAX
    ensures var r := ReadValueAt(b, KindOf(value), pos);
            r.ValueRead? && r.next == pos + |EncValue(value)| && b[r.next..] == rest && ValueMatches(b, r.value, value)
  {
    WordLimits();
    match value
    case Float64(word) => NextWord(b, pos, word, 8, rest);
    case Int64(signed) => NextWord(b, pos, ToUnsigned64(signed), 8, rest);
    case Uint64(unsigned) => NextWord(b, pos, unsigned, 8, rest);
    case Bool(flag) => NextWord(b, pos, if flag then 1 else 0, 1, rest);
    case Text(text) => TextBack(b, pos, text, rest);
  }

  lemma TextBack(b: Bytes, pos: nat, text: Bytes, rest: Bytes)
    requires pos <= |b| && b[pos..] == EncValue(Text(text)) + rest && |text| <= UINT32_MAX
    ensures var r := ReadValueAt(b, 4, pos);
            && r == ValueRead(Text(Span(pos + 4, |text|)), pos + 4 + |text|)
            && Content(b, Span(pos + 4, |text|)) == text && b[r.next..] == rest
  {
    WordLimits();
    assert b[pos..] == EncLittle(|text|, 4) + (text + rest);
    NextWord(b, pos, |text|, 4, text + rest);
    var at := pos + 4;
    assert b[at..at + |text|] == b[at..][..|text|] == text;
    assert b[at + |text|..] == b[at..][|text|..] == rest;
  }

  predicate RowMatches(b: Bytes, row: Row, field: ScalarField<Bytes>, at: nat) {
    row.name == Span(at, |field.name|) && ValueMatches(b, row.value, field.value)
  }

  lemma RowBack(b: Bytes, pos: nat, field: ScalarField<Bytes>, at: nat, rest: Bytes)
    requires pos <= |b| && b[pos..] == EncRow(field, at, rest)
    requires at <= UINT32_MAX && |field.name| <= UINT32_MAX && (field.value.Text? ==> |field.value.text| <= UINT32_MAX)
    ensures var r := ReadRow(b, pos); r.OneRead? && b[r.next..] == rest && RowMatches(b, r.row, field, at)
  {
    WordLimits();
    var value := EncValue(field.value) + rest;
    var kind := EncLittle(KindOf(field.value), 1) + value;
    NextWord(b, pos, at, 4, EncLittle(|field.name|, 4) + kind);
    NextWord(b, pos + 4, |field.name|, 4, kind);
    NextWord(b, pos + 8, KindOf(field.value), 1, value);
    ValueBack(b, pos + 9, field.value, rest);
  }

  predicate RowsMatch(b: Bytes, rows: seq<Row>, fields: seq<ScalarField<Bytes>>, start: nat) {
    |rows| == |fields| &&
    forall j :: 0 <= j < |fields| ==> RowMatchesField(b, rows[j], fields, start, j)
  }

  predicate RowMatchesField(b: Bytes, row: Row, fields: seq<ScalarField<Bytes>>, start: nat, j: nat)
    requires j < |fields|
  {
    RowMatches(b, row, fields[j], start + SumUpTo(NamesOf(fields), j))
  }

  /** Where row `j` starts when the block ends with the rows from there and `tail` more bytes. */
  function RowPlace(b: Bytes, fields: seq<ScalarField<Bytes>>, start: nat, tail: nat, j: nat): int
    requires j <= |fields|
  {
    |b| - tail - |RowsFrom(fields, start, j)|
  }

  /** The encoded rows from `j` on lie at `pos`, with something after them. */
  predicate RowsLieAt(b: Bytes, pos: int, fields: seq<ScalarField<Bytes>>, start: nat, j: nat, tail: Bytes) {
    j <= |fields| && 0 <= pos <= |b| && b[pos..] == RowsFrom(fields, start, j) + tail
  }

  lemma OneRowBack(b: Bytes, pos: nat, fields: seq<ScalarField<Bytes>>, start: nat, j: nat, tail: Bytes)
    requires j < |fields| && RowsLieAt(b, pos, fields, start, j, tail)
    requires start + Sum(NamesOf(fields)) <= UINT32_MAX && TextsFit(fields)
    ensures var r := ReadRow(b, pos);
            && r.OneRead? && RowMatchesField(b, r.row, fields, start, j)
            && RowsLieAt(b, r.next, fields, start, j + 1, tail)
  {
    var at, left := start + SumUpTo(NamesOf(fields), j), RowsFrom(fields, start, j + 1);
    NextRow(fields, start, j);
    RowThenTail(fields[j], at, left, tail);
    SumFits(NamesOf(fields), j);
    assert NamesOf(fields)[j] == fields[j].name;
    RowBack(b, pos, fields[j], at, left + tail);
  }

  lemma PlaceOfRow(b: Bytes, pos: int, fields: seq<ScalarField<Bytes>>, start: nat, j: nat, tail: Bytes)
    requires RowsLieAt(b, pos, fields, start, j, tail)
    ensures pos == RowPlace(b, fields, start, |tail|, j)
  {
  }

  lemma RowThenTail(field: ScalarField<Bytes>, at: nat, left: Bytes, tail: Bytes)
    ensures EncRow(field, at, left) + tail == EncRow(field, at, left + tail)
  {
  }

  lemma {:induction false} RowsLie(b: Bytes, pos: nat, fields: seq<ScalarField<Bytes>>, start: nat, tail: Bytes, j: nat)
    requires RowsLieAt(b, pos, fields, start, 0, tail) && j <= |fields|
    requires start + Sum(NamesOf(fields)) <= UINT32_MAX && TextsFit(fields)
    ensures RowsLieAt(b, RowPlace(b, fields, start, |tail|, j), fields, start, j, tail)
  {
    if j == 0 {
      PlaceOfRow(b, pos, fields, start, 0, tail);
    } else {
      var before := RowPlace(b, fields, start, |tail|, j - 1);
      RowsLie(b, pos, fields, start, tail, j - 1);
      OneRowBack(b, before, fields, start, j - 1, tail);
      PlaceOfRow(b, ReadRow(b, before).next, fields, start, j, tail);
    }
  }

  lemma RowAtPlace(b: Bytes, pos: nat, fields: seq<ScalarField<Bytes>>, start: nat, tail: Bytes, j: nat)
    requires RowsLieAt(b, pos, fields, start, 0, tail) && j < |fields|
    requires start + Sum(NamesOf(fields)) <= UINT32_MAX && TextsFit(fields)
    ensures var at := RowPlace(b, fields, start, |tail|, j);
            && at >= 0 && ReadRow(b, at).OneRead?
            && ReadRow(b, at).next == RowPlace(b, fields, start, |tail|, j + 1)
            && RowMatchesField(b, ReadRow(b, at).row, fields, start, j)
  {
    var at := RowPlace(b, fields, start, |tail|, j);
    RowsLie(b, pos, fields, start, tail, j);
    OneRowBack(b, at, fields, start, j, tail);
    PlaceOfRow(b, ReadRow(b, at).next, fields, start, j + 1, tail);
  }

  lemma RowsBack(b: Bytes, pos: nat, fields: seq<ScalarField<Bytes>>, start: nat, tail: Bytes)
    requires RowsLieAt(b, pos, fields, start, 0, tail)
    requires start + Sum(NamesOf(fields)) <= UINT32_MAX && TextsFit(fields)
    ensures var r := ReadRows(b, pos, |fields|); r.Some? && RowsMatch(b, r.value, fields, start)
  {
    var places: seq<nat> := RowPlaces(b, pos, fields, start, tail);
    forall j | 0 <= j < |fields|
      ensures ReadRow(b, places[j]).OneRead? && ReadRow(b, places[j]).next == places[j + 1]
      ensures RowMatchesField(b, ReadRow(b, places[j]).row, fields, start, j)
    {
      RowAtPlace(b, pos, fields, start, tail, j);
    }
    var rows := seq(|fields|, j requires 0 <= j < |fields| && ReadRow(b, places[j]).OneRead? => ReadRow(b, places[j]).row);
    ManyRead(RowReader(b), places, rows, 0);
    assert rows[0..] == rows;
  }

  ghost function RowPlaces(b: Bytes, pos: nat, fields: seq<ScalarField<Bytes>>, start: nat, tail: Bytes): (places: seq<nat>)
    requires RowsLieAt(b, pos, fields, start, 0, tail)
    requires start + Sum(NamesOf(fields)) <= UINT32_MAX && TextsFit(fields)
    ensures |places| == |fields| + 1 && places[0] == pos
    ensures forall j :: 0 <= j <= |fields| ==> places[j] == RowPlace(b, fields, start, |tail|, j)
  {
    PlaceOfRow(b, pos, fields, start, 0, tail);
    assert forall j :: 0 <= j <= |fields| ==> RowPlace(b, fields, start, |tail|, j) >= 0 by {
      forall j | 0 <= j <= |fields| ensures RowPlace(b, fields, start, |tail|, j) >= 0 {
        RowsLie(b, pos, fields, start, tail, j);
      }
    }
    seq(|fields| + 1, j requires 0 <= j <= |fields| && RowPlace(b, fields, start, |tail|, j) >= 0 => RowPlace(b, fields, start, |tail|, j))
  }

  lemma ScalarHeaderBack(b: Bytes, hasTimestamp: bool, timestamp: int64, count: nat, rest: Bytes)
    requires b == EncScalarHeader(hasTimestamp, timestamp, count) + rest && 10 * count <= |rest| && count <= UINT32_MAX
    ensures ScalarHeaderOk(b) && WordAt(b, 20, 4) == count && b[SCALAR_FIXED_SIZE..] == rest
    ensures WordAt(b, 4, 1) == (if hasTimestamp then 1 else 0) && WordAt(b, 12, 8) == ToUnsigned64(timestamp)
  {
    WordLimits();
    var h := EncScalarHeader(hasTimestamp, timestamp, count);
    var time := EncLittle(ToUnsigned64(timestamp), 8) + EncLittle(count, 4);
    var flag := EncLittle(if hasTimestamp then 1 else 0, 1) + (Zeros(7) + time);
    assert h[0..] == h;
    NextWord(h, 0, VERSION, 2, EncLittle(SCALAR_ROUTE, 1) + (EncLittle(0, 1) + flag));
    NextWord(h, 2, SCALAR_ROUTE, 1, EncLittle(0, 1) + flag);
    NextWord(h, 3, 0, 1, flag);
    NextWord(h, 4, if hasTimestamp then 1 else 0, 1, Zeros(7) + time);
    assert h[12..] == h[5..][7..] == time;
    NextWord(h, 12, ToUnsigned64(timestamp), 8, EncLittle(count, 4));
    assert EncLittle(count, 4) + [] == EncLittle(count, 4);
    NextWord(h, 20, count, 4, []);
    WordInFirst(h, rest, 0, 2);
    WordInFirst(h, rest, 2, 1);
    WordInFirst(h, rest, 4, 1);
    WordInFirst(h, rest, 12, 8);
    WordInFirst(h, rest, 20, 4);
  }

  /** Every name offset of a written block points at its name. */
  lemma NamePointsAtName(hasTimestamp: bool, timestamp: int64, fields: seq<ScalarField<Bytes>>, i: nat)
    requires i < |fields|
    ensures var b := EncScalar(hasTimestamp, timestamp, fields);
            var name := Span(NamesStart(fields) + SumUpTo(NamesOf(fields), i), |fields[i].name|);
            InBlock(b, name) && Content(b, name) == fields[i].name
  {
    var header, rows := EncScalarHeader(hasTimestamp, timestamp, |fields|), EncRows(fields, NamesStart(fields));
    var names, at := Joined(NamesOf(fields)), SumUpTo(NamesOf(fields), i);
    JoinedSlice(NamesOf(fields), i);
    SliceAfter(header, rows, names, at, |fields[i].name|);
  }

  predicate FieldMatches(b: Bytes, seen: ScalarField<Span>, field: ScalarField<Bytes>) {
    InBlock(b, seen.name) && Content(b, seen.name) == field.name && ValueMatches(b, seen.value, field.value)
  }

  /** Any number of scalar fields of any kind: what the reader finds in a written block is what was written. */
  lemma ScalarBack(hasTimestamp: bool, timestamp: int64, fields: seq<ScalarField<Bytes>>)
    requires ScalarWritable(fields)
    ensures var b := EncScalar(hasTimestamp, timestamp, fields);
            && ScalarReadable(b)
            && ScalarOf(b).hasTimestamp == hasTimestamp && ScalarOf(b).timestamp == timestamp
            && |ScalarOf(b).fields| == |fields|
            && forall i :: 0 <= i < |fields| ==> FieldMatches(b, ScalarOf(b).fields[i], fields[i])
  {
    WordLimits();
    var b := EncScalar(hasTimestamp, timestamp, fields);
    var rows, names := EncRows(fields, NamesStart(fields)), Joined(NamesOf(fields));
    WritableTextsFit(fields);
    ScalarHeaderBack(b, hasTimestamp, timestamp, |fields|, rows + names);
    AllRows(fields, NamesStart(fields));
    RowsBack(b, SCALAR_FIXED_SIZE, fields, NamesStart(fields), names);
    RowsGiveFields(hasTimestamp, timestamp, fields, ReadRows(b, SCALAR_FIXED_SIZE, |fields|).value);
  }

  lemma RowsGiveFields(hasTimestamp: bool, timestamp: int64, fields: seq<ScalarField<Bytes>>, rows: seq<Row>)
    requires RowsMatch(EncScalar(hasTimestamp, timestamp, fields), rows, fields, NamesStart(fields))
    ensures var b := EncScalar(hasTimestamp, timestamp, fields);
            NamesInBlock(b, rows) && forall i :: 0 <= i < |fields| ==> FieldMatches(b, FieldsOfRows(rows)[i], fields[i])
  {
    var b := EncScalar(hasTimestamp, timestamp, fields);
    forall i | 0 <= i < |fields| ensures InBlock(b, rows[i].name) && FieldMatches(b, FieldsOfRows(rows)[i], fields[i]) {
      NamePointsAtName(hasTimestamp, timestamp, fields, i);
      assert RowMatchesField(b, rows[i], fields, NamesStart(fields), i);
    }
  }

  // ---------- the dispatching writer and reader ----------

  predicate OutputWritable(output: Output<Bytes>) {
    match output
    case ObjectOutput(_, _, wire) => OBJECT_FIXED_SIZE + |wire| <= UINT64_MAX
    case ScalarOutput(_, _, fields) => ScalarWritable(fields)
  }

  function EncOutput(output: Output<Bytes>): Bytes {
    match output
    case ObjectOutput(objectType, splice, wire) => EncObject(objectType, splice, wire)
    case ScalarOutput(hasTimestamp, timestamp, fields) => EncScalar(hasTimestamp, timestamp, fields)
  }

  method WriteOutputDescriptor(output: Output<Bytes>) returns (r: Option<Bytes>)
    ensures r == if OutputWritable(output) then Some(EncOutput(output)) else None
  {
    match output {
      case ObjectOutput(objectType, splice, wire) => r := WriteObject(objectType, splice, wire);
      case ScalarOutput(hasTimestamp, timestamp, fields) => r := WriteScalar(hasTimestamp, timestamp, fields);
    }
  }

  method ReadValue(reader: ByteReader, kind: nat) returns (r: ValueRead)
    requires reader.Valid()
    modifies reader
    ensures reader.Valid() && r == ReadValueAt(reader.bytes, kind, old(reader.position))
    ensures r.ValueRead? ==> reader.position == r.next
  {
    WordLimits();
    var ok, word;
    if kind <= 2 {
      ok, word := reader.Word(8);
      if !ok { return NoValue; }
      r := ValueRead(if kind == 0 then Float64(word) else if kind == 1 then Int64(ToSigned64(word)) else Uint64(word), reader.position);
    } else if kind == 3 {
      ok, word := reader.Word(1);
      if !ok || word > 1 { return NoValue; }
      r := ValueRead(Bool(word != 0), reader.position);
    } else if kind == 4 {
      ok, word := reader.Word(4);
      if !ok { return NoValue; }
      var start := reader.position;
      ok := reader.Take(word);
      if !ok { return NoValue; }
      r := ValueRead(Text(Span(start, word)), reader.position);
    } else {
      r := NoValue;
    }
  }

  method ReadNextRow(reader: ByteReader) returns (r: ReadOne<Row>)
    requires reader.Valid()
    modifies reader
    ensures reader.Valid() && r == ReadRow(reader.bytes, old(reader.position))
    ensures r.OneRead? ==> reader.position == r.next
  {
    var ok, offset, length, kind;
    ok, offset := reader.Word(4);
    if ok { ok, length := reader.Word(4); }
    if ok { ok, kind := reader.Word(1); }
    if !ok {
      return NothingRead;
    }
    var value := ReadValue(reader, kind);
    r := if value.NoValue? then NothingRead else OneRead(Row(Span(offset, length), value.value), reader.position);
  }

  method ReadAllRows(reader: ByteReader, count: nat) returns (r: Option<seq<Row>>)
    requires reader.Valid()
    modifies reader
    ensures reader.Valid() && r == ReadRows(reader.bytes, old(reader.position), count)
  {
    var b := reader.bytes;
    ghost var whole := ReadRows(b, reader.position, count);
    var rows: seq<Row> := [];
    for index := 0 to count
      invariant reader.Valid()
      invariant whole.Some? <==> ReadRows(b, reader.position, count - index).Some?
      invariant whole.Some? ==> whole.value == rows + ReadRows(b, reader.position, count - index).value
    {
      ghost var at := reader.position;
      var row := ReadNextRow(reader);
      assert RowReader(b)(at) == row;
      if row.NothingRead? {
        return None;
      }
      rows := rows + [row.row];
    }
    assert rows + [] == rows;
    r := Some(rows);
  }

  method ReadOutputDescriptor(b: Bytes) returns (r: Option<Output<Span>>)
    ensures r == ReadOutput(b)
  {
    WordLimits();
    var reader := new ByteReader(b);
    var ok, version, route;
    ok, version := reader.Word(2);
    if ok { ok, route := reader.Word(1); }
    if ok { ok := reader.Take(1); }
    if !ok || version != VERSION {
      return None;
    }
    if route == OBJECT_ROUTE {
      r := ReadObject(reader);
    } else if route == SCALAR_ROUTE {
      r := ReadScalar(reader);
    } else {
      r := None;
    }
  }

  predicate HeaderRead(b: Bytes, route: byte) {
    |b| >= 4 && WordAt(b, 0, 2) == VERSION && WordAt(b, 2, 1) == route
  }

  method ReadObject(reader: ByteReader) returns (r: Option<Output<Span>>)
    requires reader.Valid() && reader.position == 4 && HeaderRead(reader.bytes, OBJECT_ROUTE)
    modifies reader
    ensures r == if ObjectReadable(reader.bytes) then Some(ObjectOf(reader.bytes)) else None
  {
    WordLimits();
    var ok, objectType, count, number, offset, length, size;
    ok, objectType := reader.Word(2);
    if ok { ok, count := reader.Word(2); }
    if ok { ok, number := reader.Word(4); }
    if ok { ok, offset := reader.Word(8); }
    if ok { ok, length := reader.Word(8); }
    if ok { ok, size := reader.Word(8); }
    if !ok || count > 1 || size != reader.Remaining() {
      return None;
    }
    var start := reader.position;
    ok := reader.Take(size);
    r := Some(ObjectOutput(objectType, if count == 1 then Some(Splice(number, offset, length)) else None, Span(start, size)));
  }

  method ReadScalar(reader: ByteReader) returns (r: Option<Output<Span>>)
    requires reader.Valid() && reader.position == 4 && HeaderRead(reader.bytes, SCALAR_ROUTE)
    modifies reader
    ensures r == if ScalarReadable(reader.bytes) then Some(ScalarOf(reader.bytes)) else None
  {
    WordLimits();
    var b := reader.bytes;
    var ok, flag, timestamp, count;
    ok, flag := reader.Word(1);
    if ok { ok := reader.Take(7); }
    if ok { ok, timestamp := reader.Word(8); }
    if ok { ok, count := reader.Word(4); }
    if !ok || flag > 1 || count > reader.Remaining() / (FIELD_PREFIX_SIZE + 1) {
      return None;
    }
    var rows := ReadAllRows(reader, count);
    if rows.None? {
      return None;
    }
    var fields := CheckNames(b, rows.value);
    r := if fields.None? then None else Some(ScalarOutput(flag != 0, ToSigned64(timestamp), fields.value));
  }

  method CheckNames(b: Bytes, rows: seq<Row>) returns (fields: Option<seq<ScalarField<Span>>>)
    ensures fields == if NamesInBlock(b, rows) then Some(FieldsOfRows(rows)) else None
  {
    var checked: seq<ScalarField<Span>> := [];
    for index := 0 to |rows|
      invariant NamesInBlock(b, rows[..index]) && checked == FieldsOfRows(rows[..index])
    {
      var row := rows[index];
      assert rows[..index + 1] == rows[..index] + [row];
      if row.name.offset > |b| || row.name.length > |b| - row.name.offset {
        return None;
      }
      checked := checked + [ScalarField(row.name, row.value)];
    }
    assert rows[..|rows|] == rows;
    fields := Some(checked);
  }

  /** Whatever block the reader accepts, every view it returns lies inside it. */
  lemma OutputViewsInside(b: Bytes)
    requires ReadOutput(b).Some?
    ensures match ReadOutput(b).value
            case ObjectOutput(_, _, wire) => InBlock(b, wire)
            case ScalarOutput(_, _, fields) =>
              forall i :: 0 <= i < |fields| ==>
                InBlock(b, fields[i].name) && (fields[i].value.Text? ==> InBlock(b, fields[i].value.text))
  {
    if !ObjectReadable(b) {
      var count := WordAt(b, 20, 4);
      var rows := ReadRows(b, SCALAR_FIXED_SIZE, count).value;
      forall i | 0 <= i < count && rows[i].value.Text? ensures InBlock(b, rows[i].value.text) {
        EachIsRead(RowReader(b), SCALAR_FIXED_SIZE, count, i);
        var at :| RowReader(b)(at).OneRead? && RowReader(b)(at).row == rows[i];
        assert ReadRow(b, at).row == rows[i];
      }
    }
  }

  predicate OutputMatches(b: Bytes, seen: Output<Span>, output: Output<Bytes>) {
    match output
    case ObjectOutput(objectType, splice, wire) =>
      && seen.ObjectOutput? && seen.objectType == objectType && seen.splice == splice
      && InBlock(b, seen.wire) && Content(b, seen.wire) == wire
    case ScalarOutput(hasTimestamp, timestamp, fields) =>
      && seen.ScalarOutput? && seen.hasTimestamp == hasTimestamp && seen.timestamp == timestamp
      && |seen.fields| == |fields|
      && forall i :: 0 <= i < |fields| ==> FieldMatches(b, seen.fields[i], fields[i])
  }

  /** Every descriptor the writer accepts is read back unchanged. */
  lemma OutputBack(output: Output<Bytes>)
    requires OutputWritable(output)
    ensures var b := EncOutput(output); ReadOutput(b).Some? && OutputMatches(b, ReadOutput(b).value, output)
  {
    match output
    case ObjectOutput(objectType, splice, wire) => ObjectBack(objectType, splice, wire);
    case ScalarOutput(hasTimestamp, timestamp, fields) => ScalarBack(hasTimestamp, timestamp, fields);
  }
}

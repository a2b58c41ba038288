/** The binding-info block of the parser-module ABI. */
module ParserModuleAbi {
  import opened Prelude
  import opened LittleEndian
  import opened ByteBuffers

  // What a reader accepts is stated on the words of the block, by position; a view is the range it covers.

  /** A borrowed view into a block. */
  datatype Span = Span(offset: nat, length: nat)

  predicate InBlock(b: Bytes, view: Span) {
    view.offset <= |b| && view.length <= |b| - view.offset
  }

  function Content(b: Bytes, view: Span): Bytes
    requires InBlock(b, view)
  {
    b[view.offset..view.offset + view.length]
  }

  const SCALAR_ROUTE: byte := 1
  const OBJECT_ROUTE: byte := 2
  const VERSION := 1

  predicate ValidRoute(route: nat) {
    route == SCALAR_ROUTE || route == OBJECT_ROUTE
  }

  function Sum(fields: seq<Bytes>): nat {
    if |fields| == 0 then 0 else |fields[0]| + Sum(fields[1..])
  }

  function Joined(fields: seq<Bytes>): (r: Bytes)
    ensures |r| == Sum(fields)
  {
    if |fields| == 0 then [] else fields[0] + Joined(fields[1..])
  }

  lemma {:induction false} SumPrefix(fields: seq<Bytes>, k: nat)
    requires k < |fields|
    ensures Sum(fields[..k + 1]) == Sum(fields[..k]) + |fields[k]|
    ensures Sum(fields[..k + 1]) <= Sum(fields)
    decreases k
  {
    if k == 0 {
      assert fields[..1][1..] == [] && fields[..1][0] == fields[0];
    } else {
      SumPrefix(fields[1..], k - 1);
      assert fields[..k + 1][1..] == fields[1..][..k] && fields[..k][1..] == fields[1..][..k - 1];
    }
  }

  /** A field sits where the fields before it end. */
  lemma {:induction false} JoinedSlice(fields: seq<Bytes>, k: nat)
    requires k < |fields|
    ensures Sum(fields[..k]) + |fields[k]| <= Sum(fields)
    ensures Joined(fields)[Sum(fields[..k])..Sum(fields[..k]) + |fields[k]|] == fields[k]
    decreases k
  {
    if k > 0 {
      JoinedSlice(fields[1..], k - 1);
      assert fields[..k][1..] == fields[1..][..k - 1];
    }
  }

  // ---------- binding info ----------

  const BINDING_HEADER_SIZE := 16
  const BINDING_FIELD_COUNT := 6
  const BINDING_DESCRIPTOR_SIZE := 8
  const BINDING_FIELDS_START := 64

  datatype BindingInfo<T> = BindingInfo(
    route: byte,
    claimIndex: uint32,
    expectedObjectType: uint16,
    encoding: T,
    typeName: T,
    schema: T,
    claimId: T,
    configJson: T,
    schemaDigest: T)

  /** The six fields in table order. */
  function FieldsOf<T>(info: BindingInfo<T>): (r: seq<T>)
    ensures |r| == BINDING_FIELD_COUNT
  {
    [info.encoding, info.typeName, info.schema, info.claimId, info.configJson, info.schemaDigest]
  }

  function BindingHeader(info: BindingInfo<Bytes>): Bytes {
    EncLittle(VERSION, 2) + (EncLittle(info.route, 2) + (EncLittle(info.claimIndex, 4) +
    (EncLittle(info.expectedObjectType, 2) + (EncLittle(0, 2) + EncLittle(BINDING_FIELD_COUNT, 4)))))
  }

  /** Offset and length of each field, the first field lying at `start`. */
  function Table(fields: seq<Bytes>, start: nat): (r: Bytes)
    ensures |r| == BINDING_DESCRIPTOR_SIZE * |fields|
  {
    if |fields| == 0 then []
    else EncLittle(start, 4) + (EncLittle(|fields[0]|, 4) + Table(fields[1..], start + |fields[0]|))
  }

  function EncBinding(info: BindingInfo<Bytes>): (r: Bytes)
    ensures |r| == BINDING_FIELDS_START + Sum(FieldsOf(info))
  {
    BindingHeader(info) + (Table(FieldsOf(info), BINDING_FIELDS_START) + Joined(FieldsOf(info)))
  }

  /** What the writer accepts: a known route and a block of at most 2^32 - 1 bytes. */
  predicate BindingWritable(info: BindingInfo<Bytes>) {
    ValidRoute(info.route) && BINDING_FIELDS_START + Sum(FieldsOf(info)) <= UINT32_MAX
  }

  lemma SumFits(fields: seq<Bytes>, k: nat)
    requires k < |fields|
    ensures |fields[k]| <= Sum(fields) && Sum(fields[..k]) <= Sum(fields)
  {
    JoinedSlice(fields, k);
  }

  function SumUpTo(fields: seq<Bytes>, k: nat): nat
    requires k <= |fields|
  {
    Sum(fields[..k])
  }

  /** The offset of each field, as long as everything fits 32 bits. */
  method FieldOffsets(fields: seq<Bytes>) returns (offsets: Option<seq<uint32>>)
    ensures offsets.Some? <==> BINDING_FIELDS_START + Sum(fields) <= UINT32_MAX
    ensures offsets.Some? ==>
              && |offsets.value| == |fields|
              && forall i :: 0 <= i < |fields| ==> offsets.value[i] == BINDING_FIELDS_START + SumUpTo(fields, i)
  {
    var found: seq<uint32> := [];
    var total := BINDING_FIELDS_START;
    for index := 0 to |fields|
      invariant |found| == index && total == BINDING_FIELDS_START + SumUpTo(fields, index)
      invariant forall i :: 0 <= i < index ==> found[i] == BINDING_FIELDS_START + SumUpTo(fields, i)
    {
      SumFits(fields, index);
      SumPrefix(fields, index);
      if |fields[index]| > UINT32_MAX || total > UINT32_MAX {
        return None;
      }
      found := found + [total];
      total := total + |fields[index]|;
    }
    assert fields[..|fields|] == fields;
    offsets := if total > UINT32_MAX then None else Some(found);
  }

  method WriteBindingHeader(writer: ByteWriter, info: BindingInfo<Bytes>)
    requires writer.out == []
    modifies writer
    ensures writer.out == BindingHeader(info)
  {
    ghost var count := EncLittle(BINDING_FIELD_COUNT, 4);
    ghost var reserved := EncLittle(0, 2) + count;
    ghost var kind := EncLittle(info.expectedObjectType, 2) + reserved;
    ghost var claim := EncLittle(info.claimIndex, 4) + kind;
    writer.Word(VERSION, 2, EncLittle(info.route, 2) + claim);
    writer.Word(info.route, 2, claim);
    writer.Word(info.claimIndex, 4, kind);
    writer.Word(info.expectedObjectType, 2, reserved);
    writer.Word(0, 2, count);
    writer.Word(BINDING_FIELD_COUNT, 4);
  }

  /** The rows of the table from row `k` on. */
  function TableFrom(fields: seq<Bytes>, k: nat): Bytes
    requires k <= |fields|
  {
    Table(fields[k..], BINDING_FIELDS_START + SumUpTo(fields, k))
  }

  lemma NextTableRow(fields: seq<Bytes>, k: nat)
    requires k < |fields|
    ensures TableFrom(fields, k) ==
            EncLittle(BINDING_FIELDS_START + SumUpTo(fields, k), 4) + (EncLittle(|fields[k]|, 4) + TableFrom(fields, k + 1))
  {
    SumPrefix(fields, k);
    assert fields[k..][0] == fields[k] && fields[k..][1..] == fields[k + 1..];
  }

  method WriteTable(writer: ByteWriter, fields: seq<Bytes>, offsets: seq<uint32>)
    requires |offsets| == |fields|
    requires forall i :: 0 <= i < |fields| ==> offsets[i] == BINDING_FIELDS_START + SumUpTo(fields, i)
    modifies writer
    ensures writer.out == old(writer.out) + Table(fields, BINDING_FIELDS_START)
  {
    WholeTable(fields);
    NoTableLeft(fields);
    for index := 0 to |fields|
      invariant writer.out + TableFrom(fields, index) == old(writer.out) + TableFrom(fields, 0)
    {
      NextTableRow(fields, index);
      ghost var rest := TableFrom(fields, index + 1);
      writer.Word(offsets[index], 4, EncLittle(|fields[index]|, 4) + rest);
      writer.Word(|fields[index]|, 4, rest);
    }
    assert writer.out + [] == writer.out;
  }

  lemma WholeTable(fields: seq<Bytes>)
    ensures TableFrom(fields, 0) == Table(fields, BINDING_FIELDS_START)
  {
    assert fields[0..] == fields;
  }

  lemma NoTableLeft(fields: seq<Bytes>)
    ensures TableFrom(fields, |fields|) == []
  {
  }

  method WriteFields(writer: ByteWriter, fields: seq<Bytes>)
    modifies writer
    ensures writer.out == old(writer.out) + Joined(fields)
  {
    for index := 0 to |fields|
      invariant writer.out + Joined(fields[index..]) == old(writer.out) + Joined(fields)
    {
      assert fields[index..][1..] == fields[index + 1..];
      writer.Append(fields[index]);
    }
  }

  method WriteBindingInfo(info: BindingInfo<Bytes>) returns (r: Option<Bytes>)
    ensures r == if BindingWritable(info) then Some(EncBinding(info)) else None
  {
    if !ValidRoute(info.route) {
      return None;
    }
    var fields := FieldsOf(info);
    var offsets := FieldOffsets(fields);
    if offsets.None? {
      return None;
    }
    var writer := new ByteWriter();
    WriteBindingHeader(writer, info);
    WriteTable(writer, fields, offsets.value);
    WriteFields(writer, fields);
    assert writer.out == EncBinding(info);
    r := Some(writer.out);
  }

  function Descriptor(b: Bytes, i: nat): Span
    requires BINDING_HEADER_SIZE + BINDING_DESCRIPTOR_SIZE * (i + 1) <= |b|
  {
    var at := BINDING_HEADER_SIZE + BINDING_DESCRIPTOR_SIZE * i;
    Span(WordAt(b, at, 4), WordAt(b, at + 4, 4))
  }

  predicate DescriptorsInBlock(b: Bytes, count: nat)
    requires BINDING_HEADER_SIZE + BINDING_DESCRIPTOR_SIZE * count <= |b|
  {
    forall i :: 0 <= i < count ==> InBlock(b, Descriptor(b, i))
  }

  predicate BindingHeaderOk(b: Bytes) {
    && |b| >= BINDING_HEADER_SIZE
    && WordAt(b, 0, 2) == VERSION
    && ValidRoute(WordAt(b, 2, 2))
    && BINDING_FIELD_COUNT <= WordAt(b, 12, 4) <= (|b| - BINDING_HEADER_SIZE) / BINDING_DESCRIPTOR_SIZE
  }

  /** What the reader accepts: at least six descriptors, and every one of them, known or not, in range. */
  predicate BindingReadable(b: Bytes) {
    BindingHeaderOk(b) && DescriptorsInBlock(b, WordAt(b, 12, 4))
  }

  /** The value of an accepted block, read off its first 64 bytes. */
  function BindingOf(b: Bytes): BindingInfo<Span>
    requires |b| >= BINDING_FIELDS_START && ValidRoute(WordAt(b, 2, 2))
  {
    WordLimits();
    BindingInfo(WordAt(b, 2, 2), WordAt(b, 4, 4), WordAt(b, 8, 2), Descriptor(b, 0), Descriptor(b, 1), Descriptor(b, 2),
                Descriptor(b, 3), Descriptor(b, 4), Descriptor(b, 5))
  }

  /** The descriptor loop: all of them must be in range, the first six are kept. */
  method ReadDescriptors(reader: ByteReader, count: nat) returns (r: Option<seq<Span>>)
    requires reader.Valid() && reader.position == BINDING_HEADER_SIZE
    requires BINDING_FIELD_COUNT <= count && BINDING_HEADER_SIZE + BINDING_DESCRIPTOR_SIZE * count <= |reader.bytes|
    modifies reader
    ensures r.Some? <==> DescriptorsInBlock(reader.bytes, count)
    ensures r.Some? ==> |r.value| == BINDING_FIELD_COUNT
    ensures r.Some? ==> forall i :: 0 <= i < BINDING_FIELD_COUNT ==> r.value[i] == Descriptor(reader.bytes, i)
  {
    var b := reader.bytes;
    var fields: seq<Span> := [];
    for index := 0 to count
      invariant reader.Valid() && reader.position == BINDING_HEADER_SIZE + BINDING_DESCRIPTOR_SIZE * index
      invariant DescriptorsInBlock(b, index)
      invariant |fields| == if index < BINDING_FIELD_COUNT then index else BINDING_FIELD_COUNT
      invariant forall i :: 0 <= i < |fields| ==> fields[i] == Descriptor(b, i)
    {
      var _, offset := reader.Word(4);
      var _, length := reader.Word(4);
      assert Span(offset, length) == Descriptor(b, index);
      if offset > |b| || length > |b| - offset {
        assert !InBlock(b, Descriptor(b, index));
        return None;
      }
      if index < BINDING_FIELD_COUNT {
        fields := fields + [Span(offset, length)];
      }
    }
    r := Some(fields);
  }

  method ReadBindingInfo(b: Bytes) returns (r: Option<BindingInfo<Span>>)
    ensures r.Some? <==> BindingReadable(b)
    ensures r.Some? ==> r.value == BindingOf(b)
  {
    var reader := new ByteReader(b);
    WordLimits();
    var version, route, claimIndex, expectedObjectType, count;
    var ok;
    ok, version := reader.Word(2);
    if ok { ok, route := reader.Word(2); }
    if ok { ok, claimIndex := reader.Word(4); }
    if ok { ok, expectedObjectType := reader.Word(2); }
    if ok { ok := reader.Take(2); }
    if ok { ok, count := reader.Word(4); }
    if !ok || version != VERSION || !ValidRoute(route) || count < BINDING_FIELD_COUNT {
      return None;
    }
    if count > reader.Remaining() / BINDING_DESCRIPTOR_SIZE {
      return None;
    }
    var fields := ReadDescriptors(reader, count);
    if fields.None? {
      return None;
    }
    var f := fields.value;
    r := Some(BindingInfo(route, claimIndex, expectedObjectType, f[0], f[1], f[2], f[3], f[4], f[5]));
  }

  // ---------- binding info: what is read is what was written ----------

  lemma HeaderWords(info: BindingInfo<Bytes>)
    ensures var h := BindingHeader(info);
            && |h| == BINDING_HEADER_SIZE
            && WordAt(h, 0, 2) == VERSION && WordAt(h, 2, 2) == info.route && WordAt(h, 4, 4) == info.claimIndex
            && WordAt(h, 8, 2) == info.expectedObjectType && WordAt(h, 12, 4) == BINDING_FIELD_COUNT
  {
    WordLimits();
    var count := EncLittle(BINDING_FIELD_COUNT, 4);
    var reserved := EncLittle(0, 2) + count;
    var kind := EncLittle(info.expectedObjectType, 2) + reserved;
    var claim := EncLittle(info.claimIndex, 4) + kind;
    var route := EncLittle(info.route, 2) + claim;
    var h := BindingHeader(info);
    assert h[0..] == h;
    NextWord(h, 0, VERSION, 2, route);
    NextWord(h, 2, info.route, 2, claim);
    NextWord(h, 4, info.claimIndex, 4, kind);
    NextWord(h, 8, info.expectedObjectType, 2, reserved);
    NextWord(h, 10, 0, 2, count);
    assert count + [] == count;
    NextWord(h, 12, BINDING_FIELD_COUNT, 4, []);
  }

  lemma {:induction false} TableSuffix(fields: seq<Bytes>, k: nat)
    requires k <= |fields|
    ensures 8 * k <= |TableFrom(fields, 0)| && TableFrom(fields, 0)[8 * k..] == TableFrom(fields, k)
  {
    WholeTable(fields);
    if k > 0 {
      TableSuffix(fields, k - 1);
      NextTableRow(fields, k - 1);
      var offset, length := EncLittle(BINDING_FIELDS_START + SumUpTo(fields, k - 1), 4), EncLittle(|fields[k - 1]|, 4);
      AfterTwo(TableFrom(fields, 0), 8 * (k - 1), offset, length, TableFrom(fields, k));
    }
  }

  lemma AfterTwo(b: Bytes, at: nat, x: Bytes, y: Bytes, rest: Bytes)
    requires at <= |b| && b[at..] == x + (y + rest)
    ensures at + |x| + |y| <= |b| && b[at + |x| + |y|..] == rest
  {
    assert b[at + |x| + |y|..] == b[at..][|x| + |y|..];
  }

  /** Row `k` of the table gives the place and the length of field `k`. */
  lemma TableRow(fields: seq<Bytes>, k: nat)
    requires k < |fields| && BINDING_FIELDS_START + Sum(fields) <= UINT32_MAX
    ensures var table := Table(fields, BINDING_FIELDS_START);
            && WordAt(table, 8 * k, 4) == BINDING_FIELDS_START + SumUpTo(fields, k)
            && WordAt(table, 8 * k + 4, 4) == |fields[k]|
  {
    WordLimits();
    SumFits(fields, k);
    WholeTable(fields);
    TableSuffix(fields, k);
    NextTableRow(fields, k);
    var table, rest := TableFrom(fields, 0), TableFrom(fields, k + 1);
    NextWord(table, 8 * k, BINDING_FIELDS_START + SumUpTo(fields, k), 4, EncLittle(|fields[k]|, 4) + rest);
    NextWord(table, 8 * k + 4, |fields[k]|, 4, rest);
  }

  lemma WordInMiddle(a: Bytes, b: Bytes, c: Bytes, at: nat, n: nat)
    requires at + n <= |b|
    ensures WordAt(a + (b + c), |a| + at, n) == WordAt(b, at, n)
  {
    WordInSecond(a, b + c, |a| + at, n);
    WordInFirst(b, c, at, n);
  }

  lemma DescriptorWritten(info: BindingInfo<Bytes>, k: nat)
    requires BindingWritable(info) && k < BINDING_FIELD_COUNT
    ensures Descriptor(EncBinding(info), k) == Span(BINDING_FIELDS_START + SumUpTo(FieldsOf(info), k), |FieldsOf(info)[k]|)
  {
    var fields, header := FieldsOf(info), BindingHeader(info);
    var table, data := Table(FieldsOf(info), BINDING_FIELDS_START), Joined(FieldsOf(info));
    HeaderWords(info);
    TableRow(fields, k);
    WordInMiddle(header, table, data, 8 * k, 4);
    WordInMiddle(header, table, data, 8 * k + 4, 4);
  }

  lemma FieldPlaced(info: BindingInfo<Bytes>, k: nat)
    requires k < BINDING_FIELD_COUNT
    ensures var view := Span(BINDING_FIELDS_START + SumUpTo(FieldsOf(info), k), |FieldsOf(info)[k]|);
            InBlock(EncBinding(info), view) && Content(EncBinding(info), view) == FieldsOf(info)[k]
  {
    var fields, header := FieldsOf(info), BindingHeader(info);
    HeaderWords(info);
    JoinedSlice(fields, k);
    SliceAfter(header, Table(fields, BINDING_FIELDS_START), Joined(fields), SumUpTo(fields, k), |fields[k]|);
  }

  /** Descriptor `k` of an encoded block views field `k`. */
  lemma DescriptorViewsField(info: BindingInfo<Bytes>, k: nat)
    requires BindingWritable(info) && k < BINDING_FIELD_COUNT
    ensures InBlock(EncBinding(info), Descriptor(EncBinding(info), k))
    ensures Content(EncBinding(info), Descriptor(EncBinding(info), k)) == FieldsOf(info)[k]
  {
    DescriptorWritten(info, k);
    FieldPlaced(info, k);
  }

  lemma SliceAfter(a: Bytes, b: Bytes, c: Bytes, at: nat, n: nat)
    requires at + n <= |c|
    ensures (a + (b + c))[|a| + |b| + at..|a| + |b| + at + n] == c[at..at + n]
  {
  }

  function Resolve(b: Bytes, info: BindingInfo<Span>): BindingInfo<Bytes>
    requires forall view :: view in FieldsOf(info) ==> InBlock(b, view)
  {
    BindingInfo(info.route, info.claimIndex, info.expectedObjectType, Content(b, info.encoding), Content(b, info.typeName),
                Content(b, info.schema), Content(b, info.claimId), Content(b, info.configJson), Content(b, info.schemaDigest))
  }

  lemma EncodedHeader(info: BindingInfo<Bytes>)
    requires BindingWritable(info)
    ensures BindingHeaderOk(EncBinding(info)) && WordAt(EncBinding(info), 12, 4) == BINDING_FIELD_COUNT
    ensures WordAt(EncBinding(info), 2, 2) == info.route && WordAt(EncBinding(info), 4, 4) == info.claimIndex
    ensures WordAt(EncBinding(info), 8, 2) == info.expectedObjectType
  {
    var header, rest := BindingHeader(info), Table(FieldsOf(info), BINDING_FIELDS_START) + Joined(FieldsOf(info));
    HeaderWords(info);
    WordInFirst(header, rest, 0, 2);
    WordInFirst(header, rest, 2, 2);
    WordInFirst(header, rest, 4, 4);
    WordInFirst(header, rest, 8, 2);
    WordInFirst(header, rest, 12, 4);
  }

  /** Reading a written block gives back the header and all six fields. */
  lemma BindingBack(info: BindingInfo<Bytes>)
    requires BindingWritable(info)
    ensures var b := EncBinding(info);
            && BindingReadable(b)
            && (forall view :: view in FieldsOf(BindingOf(b)) ==> InBlock(b, view))
            && Resolve(b, BindingOf(b)) == info
  {
    var b := EncBinding(info);
    EncodedHeader(info);
    forall k | 0 <= k < BINDING_FIELD_COUNT
      ensures InBlock(b, Descriptor(b, k)) && Content(b, Descriptor(b, k)) == FieldsOf(info)[k]
    {
      DescriptorViewsField(info, k);
    }
  }

  /** Views of any accepted block lie inside it. */
  lemma BindingViewsInside(b: Bytes, view: Span)
    requires BindingReadable(b) && view in FieldsOf(BindingOf(b))
    ensures InBlock(b, view)
  {
    assert forall i :: 0 <= i < BINDING_FIELD_COUNT ==> InBlock(b, Descriptor(b, i));
  }

  /** Further descriptors are checked and then ignored: the value depends on the first 64 bytes only. */
  lemma OnlySixDescriptorsMatter(a: Bytes, b: Bytes)
    requires BindingReadable(a) && BindingReadable(b) && a[..BINDING_FIELDS_START] == b[..BINDING_FIELDS_START]
    ensures BindingOf(a) == BindingOf(b)
  {
    var head := a[..BINDING_FIELDS_START];
    forall c: Bytes, pos: nat, n: nat | c in {a, b} && pos + n <= BINDING_FIELDS_START
      ensures WordAt(c, pos, n) == WordAt(head, pos, n)
    {
      assert c == head + c[BINDING_FIELDS_START..];
      WordInFirst(head, c[BINDING_FIELDS_START..], pos, n);
    }
  }
}

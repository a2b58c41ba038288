/** The blocks of the parser-module ABI by their byte positions: what a reader of version 1 accepts, and where it finds what. */
module ParserModuleLayout {
  import opened Prelude
  import opened LittleEndian
  import opened ByteBuffers
  import opened ParserModuleAbi
  import opened ParserModuleOutput

  // ---------- binding info ----------

  /** Descriptor i, its offset before its length, covers bytes of the block. */
  predicate CoversBytes(b: Bytes, i: nat)
    requires 24 + 8 * i <= |b|
  {
    FourAt(b, 16 + 8 * i) + FourAt(b, 20 + 8 * i) <= |b|
  }

  /** Version 1, one of the two routes, at least six descriptors, all of them there and every one of them within the block; and
      nothing else is asked. */
  lemma BindingAcceptedExactly(b: Bytes)
    ensures BindingReadable(b) <==>
              && |b| >= 16 && TwoAt(b, 0) == 1 && TwoAt(b, 2) in {1, 2} && FourAt(b, 12) >= 6
              && 16 + 8 * FourAt(b, 12) <= |b|
              && forall i :: 0 <= i < FourAt(b, 12) ==> CoversBytes(b, i)
  {
    if |b| >= 16 {
      WordBytes(b, 0);
      WordBytes(b, 2);
      WordBytes(b, 12);
      EightFit(|b| - 16, FourAt(b, 12));
      if 16 + 8 * FourAt(b, 12) <= |b| {
        forall i | 0 <= i < FourAt(b, 12) ensures InBlock(b, Descriptor(b, i)) <==> CoversBytes(b, i) {
          DescriptorBytes(b, i);
        }
      }
    }
  }

  lemma EightFit(room: nat, count: nat)
    ensures count <= room / 8 <==> 8 * count <= room
  {
  }

  lemma DescriptorBytes(b: Bytes, i: nat)
    requires 16 + 8 * (i + 1) <= |b|
    ensures Descriptor(b, i) == Span(FourAt(b, 16 + 8 * i), FourAt(b, 20 + 8 * i))
  {
    WordBytes(b, 16 + 8 * i);
    WordBytes(b, 20 + 8 * i);
  }

  /** Where the reader finds the header and the six fields. */
  lemma BindingReadAt(b: Bytes)
    requires BindingReadable(b)
    ensures BindingOf(b).route == b[2] && BindingOf(b).claimIndex == FourAt(b, 4) && BindingOf(b).expectedObjectType == TwoAt(b, 8)
  {
    BindingAcceptedExactly(b);
    WordBytes(b, 2);
    WordBytes(b, 4);
    WordBytes(b, 8);
  }

  lemma BindingFieldsAt(b: Bytes)
    requires BindingReadable(b)
    ensures BindingOf(b).encoding == Span(FourAt(b, 16), FourAt(b, 20)) && BindingOf(b).typeName == Span(FourAt(b, 24), FourAt(b, 28))
    ensures BindingOf(b).schema == Span(FourAt(b, 32), FourAt(b, 36)) && BindingOf(b).claimId == Span(FourAt(b, 40), FourAt(b, 44))
    ensures BindingOf(b).configJson == Span(FourAt(b, 48), FourAt(b, 52))
    ensures BindingOf(b).schemaDigest == Span(FourAt(b, 56), FourAt(b, 60))
  {
    DescriptorBytes(b, 0);
    DescriptorBytes(b, 1);
    DescriptorBytes(b, 2);
    DescriptorBytes(b, 3);
    DescriptorBytes(b, 4);
    DescriptorBytes(b, 5);
  }

  /** The writer puts the first field at byte 64 and each other behind the one before. */
  lemma BindingWrittenAt(info: BindingInfo<Bytes>)
    requires BindingWritable(info)
    ensures var b := EncBinding(info);
            && |b| >= 64
            && FourAt(b, 16) == 64 && FourAt(b, 24) == 64 + |info.encoding|
            && FourAt(b, 32) == FourAt(b, 24) + |info.typeName| && FourAt(b, 40) == FourAt(b, 32) + |info.schema|
            && FourAt(b, 48) == FourAt(b, 40) + |info.claimId| && FourAt(b, 56) == FourAt(b, 48) + |info.configJson|
  {
    var b, fields := EncBinding(info), FieldsOf(info);
    WrittenDescriptor(info, 0);
    forall k: nat | k < 5 ensures FourAt(b, 24 + 8 * k) == FourAt(b, 16 + 8 * k) + |fields[k]| {
      WrittenDescriptor(info, k);
      WrittenDescriptor(info, k + 1);
      SumPrefix(fields, k);
    }
    assert FourAt(b, 24 + 8 * 0) == FourAt(b, 16 + 8 * 0) + |fields[0]|;
    assert FourAt(b, 24 + 8 * 1) == FourAt(b, 16 + 8 * 1) + |fields[1]|;
    assert FourAt(b, 24 + 8 * 2) == FourAt(b, 16 + 8 * 2) + |fields[2]|;
    assert FourAt(b, 24 + 8 * 3) == FourAt(b, 16 + 8 * 3) + |fields[3]|;
    assert FourAt(b, 24 + 8 * 4) == FourAt(b, 16 + 8 * 4) + |fields[4]|;
  }

  lemma WrittenDescriptor(info: BindingInfo<Bytes>, k: nat)
    requires BindingWritable(info) && k < 6
    ensures FourAt(EncBinding(info), 16 + 8 * k) == 64 + SumUpTo(FieldsOf(info), k)
  {
    DescriptorWritten(info, k);
    DescriptorBytes(EncBinding(info), k);
  }

  /** The reserved bytes are zero. */
  lemma BindingReserved(info: BindingInfo<Bytes>)
    ensures EncBinding(info)[10] == 0 && EncBinding(info)[11] == 0
  {
    HeaderWords(info);
    var head := EncLittle(VERSION, 2) + (EncLittle(info.route, 2) + (EncLittle(info.claimIndex, 4) + EncLittle(info.expectedObjectType, 2)));
    assert BindingHeader(info) == head + (EncLittle(0, 2) + EncLittle(BINDING_FIELD_COUNT, 4));
    assert EncLittle(0, 2) == [0, 0];
  }

  // ---------- parse input ----------

  /** No flag but the first, and a payload that is all of the rest. */
  lemma InputAcceptedExactly(b: Bytes)
    ensures InputReadable(b) <==> |b| >= 24 && b[0] <= 1 && EightAt(b, 16) == |b| - 24
  {
    if |b| >= 24 {
      WordBytes(b, 0);
      LongWordBytes(b, 16);
    }
  }

  lemma InputReadAt(b: Bytes)
    requires InputReadable(b)
    ensures InputOf(b) == ParseInput(b[0] == 1, ToSigned64(EightAt(b, 8)), Span(24, |b| - 24))
  {
    WordBytes(b, 0);
    LongWordBytes(b, 8);
  }

  // ---------- outputs ----------

  /** An object output: version 1, route 2, at most one splice, and wire bytes that are all of the rest. */
  lemma ObjectAcceptedExactly(b: Bytes)
    ensures ObjectReadable(b) <==>
              |b| >= 36 && TwoAt(b, 0) == 1 && b[2] == 2 && TwoAt(b, 6) <= 1 && EightAt(b, 28) == |b| - 36
  {
    if |b| >= 36 {
      WordBytes(b, 0);
      WordBytes(b, 2);
      WordBytes(b, 6);
      LongWordBytes(b, 28);
    }
  }

  lemma ObjectReadAt(b: Bytes)
    requires ObjectReadable(b)
    ensures ObjectOf(b) ==
            ObjectOutput(TwoAt(b, 4),
                         if TwoAt(b, 6) == 1 then Some(Splice(FourAt(b, 8), EightAt(b, 12), EightAt(b, 20))) else None,
                         Span(36, |b| - 36))
  {
    WordBytes(b, 4);
    WordBytes(b, 6);
    WordBytes(b, 8);
    LongWordBytes(b, 12);
    LongWordBytes(b, 20);
  }

  /** A scalar output: version 1, route 1, a flag that is one or zero, and room for as many rows as it claims. */
  lemma ScalarHeaderExactly(b: Bytes)
    ensures ScalarHeaderOk(b) <==>
              |b| >= 24 && TwoAt(b, 0) == 1 && b[2] == 1 && b[4] <= 1 && 24 + 10 * FourAt(b, 20) <= |b|
  {
    if |b| >= 24 {
      WordBytes(b, 0);
      WordBytes(b, 2);
      WordBytes(b, 4);
      WordBytes(b, 20);
      TenFit(|b| - 24, FourAt(b, 20));
    }
  }

  lemma TenFit(room: nat, count: nat)
    ensures count <= room / 10 <==> 10 * count <= room
  {
  }

  lemma ScalarReadAt(b: Bytes)
    requires ScalarReadable(b)
    ensures ScalarOf(b).hasTimestamp == (b[4] == 1) && ScalarOf(b).timestamp == ToSigned64(EightAt(b, 12))
    ensures |ScalarOf(b).fields| == FourAt(b, 20)
  {
    WordBytes(b, 4);
    LongWordBytes(b, 12);
    WordBytes(b, 20);
  }

  /** Reads one value by the number of its kind. */
  lemma ValueReadAt(b: Bytes, pos: nat)
    requires pos <= |b|
    ensures ReadValueAt(b, 0, pos) == if pos + 8 <= |b| then ValueRead(Float64(EightAt(b, pos)), pos + 8) else NoValue
    ensures ReadValueAt(b, 1, pos) == if pos + 8 <= |b| then ValueRead(Int64(ToSigned64(EightAt(b, pos))), pos + 8) else NoValue
    ensures ReadValueAt(b, 2, pos) == if pos + 8 <= |b| then ValueRead(Uint64(EightAt(b, pos)), pos + 8) else NoValue
    ensures ReadValueAt(b, 3, pos) == if pos < |b| && b[pos] <= 1 then ValueRead(Bool(b[pos] == 1), pos + 1) else NoValue
    ensures ReadValueAt(b, 4, pos) ==
            if pos + 4 <= |b| && pos + 4 + FourAt(b, pos) <= |b|
            then ValueRead(Text(Span(pos + 4, FourAt(b, pos))), pos + 4 + FourAt(b, pos)) else NoValue
    ensures forall kind: nat :: kind > 4 ==> ReadValueAt(b, kind, pos) == NoValue
  {
    WordBytes(b, pos);
    if pos + 8 <= |b| {
      LongWordBytes(b, pos);
    }
  }

  /** A row is the place and the length of its name, the kind, and the value; the next one follows behind the value. */
  lemma RowReadAt(b: Bytes, pos: nat)
    ensures pos + 9 > |b| ==> ReadRow(b, pos) == NothingRead
    ensures pos + 9 <= |b| ==>
              var value := ReadValueAt(b, b[pos + 8], pos + 9);
              ReadRow(b, pos) == if value.NoValue? then NothingRead
                                 else OneRead(Row(Span(FourAt(b, pos), FourAt(b, pos + 4)), value.value), value.next)
  {
    WordBytes(b, pos);
    WordBytes(b, pos + 4);
    WordBytes(b, pos + 8);
  }

  /** What cannot be an output: another version, or a route that is neither. */
  lemma OtherOutputsRefused(b: Bytes)
    requires |b| >= 3 && (TwoAt(b, 0) != 1 || b[2] !in {1, 2})
    ensures ReadOutput(b) == None
  {
    ObjectAcceptedExactly(b);
    ScalarHeaderExactly(b);
  }
}

/** The protobuf wire format of builtin_wire, as functions on bytes: what is written and what any bytes mean. */
module ProtobufWire {
  import opened Prelude
  import opened LittleEndian
  import opened Base128

  // ---------- wire types and tags ----------

  /** The low three bits of a tag; only four values name an encoding. */
  type WireType = x: int | 0 <= x < 8

  const VARINT: WireType := 0
  const FIXED64: WireType := 1
  const LENGTH_DELIMITED: WireType := 2
  const FIXED32: WireType := 5

  datatype Tag = Tag(field: uint32, wire: WireType)

  /** The outcome of a read: whether it succeeded, and what is left. A failed read may have moved. */
  datatype Read<+T> = Read(ok: bool, value: T, rest: Bytes)

  // ---------- varints ----------

  const MAX_VARINT_BYTES := 10

  /** The first value too large for the varint bytes at index `i` and beyond. */
  function VarintLimit(i: nat): (n: nat)
    requires i < MAX_VARINT_BYTES
    ensures n > 0
    decreases MAX_VARINT_BYTES - i
  {
    if i == MAX_VARINT_BYTES - 1 then 2 else 0x80 * VarintLimit(i + 1)
  }

  lemma VarintLimitIsWord()
    ensures VarintLimit(0) == TWO_TO_THE_64
  {
    assert VarintLimit(8) == 0x100;
    assert VarintLimit(6) == 0x40_0000;
    assert VarintLimit(4) == 0x10_0000_0000;
    assert VarintLimit(2) == 0x4_0000_0000_0000;
  }

  /** Reads on from byte `i` of a varint: seven payload bits a byte, at most ten bytes, and of the tenth
      only its lowest bit may be set. The value is that of the bytes from `i` on. */
  function ReadVarintFrom(b: Bytes, i: nat): (r: Read<nat>)
    requires i <= MAX_VARINT_BYTES
    ensures |r.rest| <= |b|
    ensures r.ok ==> i < MAX_VARINT_BYTES && r.value < VarintLimit(i) && |r.rest| < |b|
    decreases MAX_VARINT_BYTES - i
  {
    if |b| == 0 || i == MAX_VARINT_BYTES then Read(false, 0, b)
    else if i == MAX_VARINT_BYTES - 1 && b[0] % 0x80 > 1 then Read(false, 0, b[1..])
    else if b[0] < 0x80 then Read(true, b[0], b[1..])
    else
      var r := ReadVarintFrom(b[1..], i + 1);
      Read(r.ok, b[0] % 0x80 + 0x80 * r.value, r.rest)
  }

  function ReadVarint(b: Bytes): (r: Read<uint64>)
    ensures |r.rest| <= |b| && (r.ok ==> |r.rest| < |b|)
  {
    var r := ReadVarintFrom(b, 0);
    VarintLimitIsWord();
    Read(r.ok, if r.ok then r.value else 0, r.rest)
  }

  lemma {:induction false} VarintBackFrom(v: nat, i: nat, t: Bytes)
    requires i < MAX_VARINT_BYTES && v < VarintLimit(i)
    ensures ReadVarintFrom(EncVarint(v) + t, i) == Read(true, v, t)
    decreases v
  {
    if v < 0x80 {
      assert (EncVarint(v) + t)[1..] == t;
    } else {
      assert (EncVarint(v) + t)[1..] == EncVarint(v / 0x80) + t;
      VarintBackFrom(v / 0x80, i + 1, t);
    }
  }

  /** Every 64-bit value reads back, and nothing after it is touched. */
  lemma VarintBack(v: uint64, t: Bytes)
    ensures ReadVarint(EncVarint(v) + t) == Read(true, v, t)
  {
    VarintLimitIsWord();
    VarintBackFrom(v, 0, t);
  }

  // ---------- fixed words ----------

  function EncFixed64(v: uint64): Bytes {
    EncLittle(v, 8)
  }

  function EncFixed32(v: uint32): Bytes {
    EncLittle(v, 4)
  }

  /** A short buffer fails without moving. */
  function ReadFixed64(b: Bytes): (r: Read<uint64>)
    ensures |r.rest| <= |b|
  {
    WordLimits();
    if |b| < 8 then Read(false, 0, b) else Read(true, DecLittle(b[..8]), b[8..])
  }

  function ReadFixed32(b: Bytes): (r: Read<uint32>)
    ensures |r.rest| <= |b|
  {
    WordLimits();
    if |b| < 4 then Read(false, 0, b) else Read(true, DecLittle(b[..4]), b[4..])
  }

  lemma Fixed64Back(v: uint64, t: Bytes)
    ensures ReadFixed64(EncFixed64(v) + t) == Read(true, v, t)
  {
    WordLimits();
    LittleBack(v, 8);
    assert (EncFixed64(v) + t)[..8] == EncFixed64(v) && (EncFixed64(v) + t)[8..] == t;
  }

  lemma Fixed32Back(v: uint32, t: Bytes)
    ensures ReadFixed32(EncFixed32(v) + t) == Read(true, v, t)
  {
    WordLimits();
    LittleBack(v, 4);
    assert (EncFixed32(v) + t)[..4] == EncFixed32(v) && (EncFixed32(v) + t)[4..] == t;
  }

  // ---------- tags ----------

  function EncTag(tag: Tag): Bytes {
    EncVarint(tag.field * 8 + tag.wire)
  }

  /** The field number keeps the low 32 bits of the shifted varint; field zero is malformed. */
  function ReadTag(b: Bytes): (r: Read<Tag>)
    ensures |r.rest| <= |b| && (r.ok ==> |r.rest| < |b|)
  {
    var raw := ReadVarint(b);
    var tag := Tag(raw.value / 8 % TWO_TO_THE_32, raw.value % 8);
    Read(raw.ok && raw.value != 0 && tag.field != 0, tag, raw.rest)
  }

  lemma TagBack(tag: Tag, t: Bytes)
    requires tag.field != 0
    ensures ReadTag(EncTag(tag) + t) == Read(true, tag, t)
  {
    VarintBack(tag.field * 8 + tag.wire, t);
  }

  // ---------- length-delimited payloads ----------

  function EncLengthDelimited(data: Bytes): Bytes {
    EncVarint(|data|) + data
  }

  /** A length past the end fails with the length already consumed. */
  function ReadBytes(b: Bytes): (r: Read<Bytes>)
    ensures |r.rest| <= |b|
    ensures r.ok ==> |r.value| < |b|
  {
    var size := ReadVarint(b);
    if !size.ok || size.value > |size.rest| then Read(false, [], size.rest)
    else Read(true, size.rest[..size.value], size.rest[size.value..])
  }

  lemma BytesBack(data: Bytes, t: Bytes)
    requires |data| <= UINT64_MAX
    ensures ReadBytes(EncLengthDelimited(data) + t) == Read(true, data, t)
  {
    assert EncLengthDelimited(data) + t == EncVarint(|data|) + (data + t);
    VarintBack(|data|, data + t);
  }

  // ---------- skipping ----------

  function SkipCount(n: nat, b: Bytes): Read<()> {
    if |b| < n then Read(false, (), b) else Read(true, (), b[n..])
  }

  function Skip(wire: WireType, b: Bytes): (r: Read<()>)
    ensures |r.rest| <= |b|
  {
    if wire == VARINT then var r := ReadVarint(b); Read(r.ok, (), r.rest)
    else if wire == FIXED64 then SkipCount(8, b)
    else if wire == LENGTH_DELIMITED then var r := ReadBytes(b); Read(r.ok, (), r.rest)
    else if wire == FIXED32 then SkipCount(4, b)
    else Read(false, (), b)
  }

  // ---------- the field loop ----------

  /** What a field handler does: whether it took the field, the decoded value so far, what is left. */
  datatype Step<+S> = Step(handled: bool, state: S, rest: Bytes)

  type Handler<!S> = (S, Tag, Bytes) -> Step<S>

  datatype Parsed<+S> = Parsed(ok: bool, state: S)

  /** A reader never moves backwards. */
  ghost predicate Advances<S(!new)>(h: Handler<S>) {
    forall s: S, tag: Tag, b: Bytes :: |h(s, tag, b).rest| <= |b|
  }

  /** parseFields: read a tag, offer the field to the handler, skip it if the handler declines. Each tag
      consumes a byte, so the loop ends. */
  function ParseFields<S(!new)>(h: Handler<S>, s: S, b: Bytes): Parsed<S>
    requires Advances(h)
    decreases |b|
  {
    if |b| == 0 then Parsed(true, s)
    else
      var tag := ReadTag(b);
      if !tag.ok then Parsed(false, s)
      else
        var step := h(s, tag.value, tag.rest);
        if step.handled then ParseFields(h, step.state, step.rest)
        else
          var skipped := Skip(tag.value.wire, step.rest);
          if !skipped.ok then Parsed(false, step.state)
          else ParseFields(h, step.state, skipped.rest)
  }

  /** One field on the wire. */
  datatype Field = Field(tag: Tag, payload: Bytes)

  function EncField(f: Field): Bytes {
    EncTag(f.tag) + f.payload
  }

  function VarintField(field: uint32, v: nat): Field {
    Field(Tag(field, VARINT), EncVarint(v))
  }

  function Fixed64Field(field: uint32, word: uint64): Field {
    Field(Tag(field, FIXED64), EncFixed64(word))
  }

  function BytesField(field: uint32, data: Bytes): Field {
    Field(Tag(field, LENGTH_DELIMITED), EncLengthDelimited(data))
  }

  /** The handler takes the field whatever follows it. */
  ghost predicate Takes<S(!new)>(h: Handler<S>, s: S, f: Field, s': S) {
    forall t: Bytes {:trigger h(s, f.tag, f.payload + t)} :: h(s, f.tag, f.payload + t) == Step(true, s', t)
  }

  /** A field that the handler takes is one step of the loop. */
  lemma TakeOne<S(!new)>(h: Handler<S>, s: S, f: Field, s': S, t: Bytes)
    requires Advances(h) && f.tag.field != 0 && Takes(h, s, f, s')
    ensures ParseFields(h, s, EncField(f) + t) == ParseFields(h, s', t)
  {
    assert h(s, f.tag, f.payload + t) == Step(true, s', t);
    assert EncField(f) + t == EncTag(f.tag) + (f.payload + t);
    TagBack(f.tag, f.payload + t);
  }

  lemma TakeTwo<S(!new)>(h: Handler<S>, s: S, f1: Field, s1: S, f2: Field, s2: S, t: Bytes)
    requires Advances(h) && f1.tag.field != 0 && f2.tag.field != 0
    requires Takes(h, s, f1, s1) && Takes(h, s1, f2, s2)
    ensures ParseFields(h, s, EncField(f1) + (EncField(f2) + t)) == ParseFields(h, s2, t)
  {
    TakeOne(h, s, f1, s1, EncField(f2) + t);
    TakeOne(h, s1, f2, s2, t);
  }

  lemma TakeThree<S(!new)>(h: Handler<S>, s: S, f1: Field, s1: S, f2: Field, s2: S, f3: Field, s3: S, t: Bytes)
    requires Advances(h) && f1.tag.field != 0 && f2.tag.field != 0 && f3.tag.field != 0
    requires Takes(h, s, f1, s1) && Takes(h, s1, f2, s2) && Takes(h, s2, f3, s3)
    ensures ParseFields(h, s, EncField(f1) + (EncField(f2) + (EncField(f3) + t))) == ParseFields(h, s3, t)
  {
    TakeTwo(h, s, f1, s1, f2, s2, EncField(f3) + t);
    TakeOne(h, s2, f3, s3, t);
  }

  // The last fields of a message.

  lemma FinishOne<S(!new)>(h: Handler<S>, s: S, f: Field, s': S)
    requires Advances(h) && f.tag.field != 0 && Takes(h, s, f, s')
    ensures ParseFields(h, s, EncField(f)) == Parsed(true, s')
  {
    assert EncField(f) + [] == EncField(f);
    TakeOne(h, s, f, s', []);
  }

  lemma FinishTwo<S(!new)>(h: Handler<S>, s: S, f1: Field, s1: S, f2: Field, s2: S)
    requires Advances(h) && f1.tag.field != 0 && f2.tag.field != 0
    requires Takes(h, s, f1, s1) && Takes(h, s1, f2, s2)
    ensures ParseFields(h, s, EncField(f1) + EncField(f2)) == Parsed(true, s2)
  {
    TakeOne(h, s, f1, s1, EncField(f2));
    FinishOne(h, s1, f2, s2);
  }

  lemma FinishThree<S(!new)>(h: Handler<S>, s: S, f1: Field, s1: S, f2: Field, s2: S, f3: Field, s3: S)
    requires Advances(h) && f1.tag.field != 0 && f2.tag.field != 0 && f3.tag.field != 0
    requires Takes(h, s, f1, s1) && Takes(h, s1, f2, s2) && Takes(h, s2, f3, s3)
    ensures ParseFields(h, s, EncField(f1) + (EncField(f2) + EncField(f3))) == Parsed(true, s3)
  {
    TakeOne(h, s, f1, s1, EncField(f2) + EncField(f3));
    FinishTwo(h, s1, f2, s2, f3, s3);
  }

  // ---------- which inputs parse ----------

  /** A sequence of complete fields: every tag well formed, every payload all there. */
  predicate WellFormed(b: Bytes)
    decreases |b|
  {
    |b| == 0 ||
    (var tag := ReadTag(b);
     tag.ok && (var field := Skip(tag.value.wire, tag.rest); field.ok && WellFormed(field.rest)))
  }

  /** A handler that returns false only without moving, and otherwise consumes exactly its field. */
  ghost predicate Honest<S(!new)>(h: Handler<S>) {
    forall s: S, tag: Tag, b: Bytes ::
      var step := h(s, tag, b);
      if step.handled then Skip(tag.wire, b) == Read(true, (), step.rest) else step.rest == b && step.state == s
  }

  /** With an honest handler the loop accepts exactly the sequences of complete fields. */
  lemma {:induction false} HonestAcceptsWellFormed<S(!new)>(h: Handler<S>, s: S, b: Bytes)
    requires Honest(h) && Advances(h)
    ensures ParseFields(h, s, b).ok <==> WellFormed(b)
    decreases |b|
  {
    if |b| > 0 && ReadTag(b).ok {
      var tag := ReadTag(b);
      var step := h(s, tag.value, tag.rest);
      var field := Skip(tag.value.wire, tag.rest);
      if field.ok {
        HonestAcceptsWellFormed(h, step.state, field.rest);
      }
    }
  }

  /** A handler that is honest but for this: when one of the `fields` is incomplete, its failed read has
      moved to where the failed skip of the field would end, and the loop then skips from there. */
  ghost predicate Rereads<S(!new)>(h: Handler<S>, fields: Tag -> bool) {
    forall s: S, tag: Tag, b: Bytes ::
      var step := h(s, tag, b);
      if step.handled then Skip(tag.wire, b) == Read(true, (), step.rest)
      else step.state == s && step.rest == if fields(tag) && !Skip(tag.wire, b).ok then Skip(tag.wire, b).rest else b
  }

  /** Complete fields, except that one of the `fields` may be incomplete if what is left behind its failed
      read can be skipped as such a field. */
  predicate Accepted(fields: Tag -> bool, b: Bytes)
    decreases |b|
  {
    |b| == 0 ||
    (var tag := ReadTag(b);
     tag.ok &&
     (var field := Skip(tag.value.wire, tag.rest);
      if field.ok then Accepted(fields, field.rest)
      else fields(tag.value) && Skip(tag.value.wire, field.rest).ok && Accepted(fields, Skip(tag.value.wire, field.rest).rest)))
  }

  /** Such a handler makes the loop accept exactly those inputs. */
  lemma {:induction false} RereadsAcceptExactly<S(!new)>(h: Handler<S>, fields: Tag -> bool, s: S, b: Bytes)
    requires Rereads(h, fields) && Advances(h)
    ensures ParseFields(h, s, b).ok <==> Accepted(fields, b)
    decreases |b|
  {
    if |b| > 0 && ReadTag(b).ok {
      var tag := ReadTag(b);
      var step := h(s, tag.value, tag.rest);
      var field := Skip(tag.value.wire, tag.rest);
      if field.ok {
        RereadsAcceptExactly(h, fields, step.state, field.rest);
      } else if fields(tag.value) && Skip(tag.value.wire, field.rest).ok {
        RereadsAcceptExactly(h, fields, s, Skip(tag.value.wire, field.rest).rest);
      }
    }
  }

  // ---------- concatenation ----------

  /** What one complete read says about a longer buffer. */
  lemma {:induction false} VarintFromExtends(a: Bytes, t: Bytes, i: nat)
    requires i <= MAX_VARINT_BYTES && ReadVarintFrom(a, i).ok
    ensures ReadVarintFrom(a + t, i) == ReadVarintFrom(a, i).(rest := ReadVarintFrom(a, i).rest + t)
    decreases |a|
  {
    assert (a + t)[1..] == a[1..] + t;
    if a[0] >= 0x80 {
      VarintFromExtends(a[1..], t, i + 1);
    }
  }

  lemma VarintExtends(a: Bytes, t: Bytes)
    requires ReadVarint(a).ok
    ensures ReadVarint(a + t) == ReadVarint(a).(rest := ReadVarint(a).rest + t)
  {
    VarintFromExtends(a, t, 0);
  }

  lemma TagExtends(a: Bytes, t: Bytes)
    requires ReadTag(a).ok
    ensures ReadTag(a + t) == ReadTag(a).(rest := ReadTag(a).rest + t)
  {
    VarintExtends(a, t);
  }

  lemma BytesExtend(a: Bytes, t: Bytes)
    requires ReadBytes(a).ok
    ensures ReadBytes(a + t) == ReadBytes(a).(rest := ReadBytes(a).rest + t)
  {
    VarintExtends(a, t);
    var size := ReadVarint(a);
    assert (size.rest + t)[..size.value] == size.rest[..size.value];
    assert (size.rest + t)[size.value..] == size.rest[size.value..] + t;
  }

  lemma SkipExtends(wire: WireType, a: Bytes, t: Bytes)
    requires Skip(wire, a).ok
    ensures Skip(wire, a + t) == Read(true, (), Skip(wire, a).rest + t)
  {
    if wire == VARINT {
      VarintExtends(a, t);
    } else if wire == LENGTH_DELIMITED {
      BytesExtend(a, t);
    } else {
      var n := if wire == FIXED64 then 8 else 4;
      assert (a + t)[n..] == a[n..] + t;
    }
  }

  /** On complete fields with a known tag: the handler takes exactly the field or declines without moving, and looks no
      further than the field. */
  ghost predicate Tidy<S(!new)>(h: Handler<S>, known: Tag -> bool) {
    forall s: S, tag: Tag, a: Bytes, t: Bytes {:trigger h(s, tag, a + t)} ::
      known(tag) && Skip(tag.wire, a).ok ==>
        var step := h(s, tag, a);
        && h(s, tag, a + t) == step.(rest := step.rest + t)
        && if step.handled then step.rest == Skip(tag.wire, a).rest else step.rest == a && step.state == s
  }

  function AnyTag(tag: Tag): bool {
    true
  }

  /** A sequence of complete fields, all with known tags. */
  predicate FieldsOf(known: Tag -> bool, b: Bytes)
    decreases |b|
  {
    |b| == 0 ||
    (var tag := ReadTag(b);
     tag.ok && known(tag.value) && (var field := Skip(tag.value.wire, tag.rest); field.ok && FieldsOf(known, field.rest)))
  }

  lemma {:induction false} AnyFields(b: Bytes)
    ensures FieldsOf(AnyTag, b) <==> WellFormed(b)
    decreases |b|
  {
    if |b| > 0 && ReadTag(b).ok && Skip(ReadTag(b).value.wire, ReadTag(b).rest).ok {
      AnyFields(Skip(ReadTag(b).value.wire, ReadTag(b).rest).rest);
    }
  }

  /** Parsing a concatenation is parsing the second part from the state the first one left. */
  lemma {:induction false} ParseConcat<S(!new)>(h: Handler<S>, known: Tag -> bool, s: S, a: Bytes, b: Bytes)
    requires Tidy(h, known) && Advances(h) && FieldsOf(known, a)
    ensures ParseFields(h, s, a).ok
    ensures ParseFields(h, s, a + b) == ParseFields(h, ParseFields(h, s, a).state, b)
    decreases |a|
  {
    if |a| == 0 {
      assert a + b == b;
    } else {
      TagExtends(a, b);
      var tag := ReadTag(a);
      var field := Skip(tag.value.wire, tag.rest);
      SkipExtends(tag.value.wire, tag.rest, b);
      var step := h(s, tag.value, tag.rest);
      assert tag.rest + [] == tag.rest;
      assert h(s, tag.value, tag.rest + b) == step.(rest := step.rest + b);
      ParseConcat(h, known, step.state, field.rest, b);
    }
  }

  /** An incomplete field behind complete ones: where its failed read has moved, everything depends on whether
      what is left skips as such a field, and parsing then goes on behind that. */
  lemma IncompleteFieldReread<S(!new)>(h: Handler<S>, known: Tag -> bool, fields: Tag -> bool, s: S, a: Bytes, tag: Tag, rest: Bytes)
    requires Tidy(h, known) && Rereads(h, fields) && Advances(h) && FieldsOf(known, a)
    requires tag.field != 0 && fields(tag) && !Skip(tag.wire, rest).ok
    ensures var s' := ParseFields(h, s, a).state;
            var again := Skip(tag.wire, Skip(tag.wire, rest).rest);
            ParseFields(h, s, a + (EncTag(tag) + rest)) == if again.ok then ParseFields(h, s', again.rest) else Parsed(false, s')
  {
    ParseConcat(h, known, s, a, EncTag(tag) + rest);
    TagBack(tag, rest);
    var step := h(ParseFields(h, s, a).state, tag, rest);
    assert !step.handled;
  }

  // ---------- unknown fields ----------

  /** The payload of one complete field of the given wire type. */
  predicate IsPayload(wire: WireType, p: Bytes) {
    Skip(wire, p) == Read(true, (), [])
  }

  /** A field no handler knows is passed over: the handler declines this tag without moving. */
  lemma UnknownFieldSkipped<S(!new)>(h: Handler<S>, s: S, tag: Tag, payload: Bytes, t: Bytes)
    requires Advances(h) && tag.field != 0 && IsPayload(tag.wire, payload)
    requires h(s, tag, payload + t) == Step(false, s, payload + t)
    ensures ParseFields(h, s, EncField(Field(tag, payload)) + t) == ParseFields(h, s, t)
  {
    assert EncField(Field(tag, payload)) + t == EncTag(tag) + (payload + t);
    TagBack(tag, payload + t);
    SkipExtends(tag.wire, payload, t);
    assert [] + t == t;
  }

  /** Declining with the reader moved makes the loop skip from there. */
  lemma DeclinedFurtherOn<S(!new)>(h: Handler<S>, s: S, f: Field, t: Bytes, rest: Bytes)
    requires Advances(h) && f.tag.field != 0 && h(s, f.tag, f.payload + t) == Step(false, s, rest)
    ensures var next := Skip(f.tag.wire, rest);
            ParseFields(h, s, EncField(f) + t) == if next.ok then ParseFields(h, s, next.rest) else Parsed(false, s)
  {
    assert EncField(f) + t == EncTag(f.tag) + (f.payload + t);
    TagBack(f.tag, f.payload + t);
  }

  ghost predicate Declines<S(!new)>(h: Handler<S>, tag: Tag) {
    forall s: S, b: Bytes :: h(s, tag, b) == Step(false, s, b)
  }

  /** Inserting a complete unknown field at a boundary between two parts changes nothing. */
  lemma UnknownFieldInserted<S(!new)>(h: Handler<S>, known: Tag -> bool, s: S, a: Bytes, tag: Tag, payload: Bytes, b: Bytes)
    requires Tidy(h, known) && Advances(h) && FieldsOf(known, a)
    requires tag.field != 0 && IsPayload(tag.wire, payload) && Declines(h, tag)
    ensures ParseFields(h, s, a + (EncField(Field(tag, payload)) + b)) == ParseFields(h, s, a + b)
  {
    var s' := ParseFields(h, s, a).state;
    ParseConcat(h, known, s, a, EncField(Field(tag, payload)) + b);
    ParseConcat(h, known, s, a, b);
    assert h(s', tag, payload + b) == Step(false, s', payload + b);
    UnknownFieldSkipped(h, s', tag, payload, b);
  }

  // ---------- repeated fields ----------

  /** One message field for each element, in order. */
  function EncElements<E>(field: uint32, enc: E -> Bytes, xs: seq<E>): Bytes {
    if |xs| == 0 then []
    else EncField(BytesField(field, enc(xs[0]))) + EncElements(field, enc, xs[1..])
  }

  lemma ElementFits<E>(field: uint32, enc: E -> Bytes, xs: seq<E>, x: E)
    requires x in xs
    ensures |enc(x)| < |EncElements(field, enc, xs)|
  {
    if x != xs[0] {
      ElementFits(field, enc, xs[1..], x);
    }
  }

  /** The handler appends the element to the list that `put` places in the decoded value. */
  ghost predicate Appends<S(!new), E(!new)>(h: Handler<S>, put: seq<E> -> S, field: uint32, enc: E -> Bytes, x: E) {
    forall done: seq<E> {:trigger Takes(h, put(done), BytesField(field, enc(x)), put(done + [x]))} ::
      Takes(h, put(done), BytesField(field, enc(x)), put(done + [x]))
  }

  lemma FirstElement<E>(field: uint32, enc: E -> Bytes, xs: seq<E>, t: Bytes)
    requires |xs| > 0
    ensures EncElements(field, enc, xs) + t == EncField(BytesField(field, enc(xs[0]))) + (EncElements(field, enc, xs[1..]) + t)
  {
  }

  lemma NoElement<E>(field: uint32, enc: E -> Bytes, done: seq<E>, xs: seq<E>, t: Bytes)
    requires |xs| == 0
    ensures EncElements(field, enc, xs) + t == t && done + xs == done
  {
  }

  lemma MoveFirst<E>(done: seq<E>, xs: seq<E>)
    requires |xs| > 0
    ensures (done + [xs[0]]) + xs[1..] == done + xs
  {
  }

  lemma ElementAppends<S(!new), E(!new)>(h: Handler<S>, put: seq<E> -> S, field: uint32, enc: E -> Bytes, done: seq<E>,
                                         xs: seq<E>, t: Bytes)
    requires Advances(h) && field != 0 && |xs| > 0 && Appends(h, put, field, enc, xs[0])
    ensures ParseFields(h, put(done), EncElements(field, enc, xs) + t) ==
            ParseFields(h, put(done + [xs[0]]), EncElements(field, enc, xs[1..]) + t)
  {
    FirstElement(field, enc, xs, t);
    TakeOne(h, put(done), BytesField(field, enc(xs[0])), put(done + [xs[0]]), EncElements(field, enc, xs[1..]) + t);
  }

  /** A whole list of message fields joins what is there already, in order. */
  lemma {:induction false} ElementsAppend<S(!new), E(!new)>(h: Handler<S>, put: seq<E> -> S, field: uint32,
                                                           enc: E -> Bytes, done: seq<E>, xs: seq<E>, t: Bytes)
    requires Advances(h) && field != 0 && forall x :: x in xs ==> Appends(h, put, field, enc, x)
    ensures ParseFields(h, put(done), EncElements(field, enc, xs) + t) == ParseFields(h, put(done + xs), t)
    decreases |xs|
  {
    if |xs| == 0 {
      NoElement(field, enc, done, xs, t);
    } else {
      ElementAppends(h, put, field, enc, done, xs, t);
      ElementsAppend(h, put, field, enc, done + [xs[0]], xs[1..], t);
      MoveFirst(done, xs);
    }
  }

  // ---------- packed words ----------

  function EncWords32(vs: seq<uint32>): (b: Bytes)
    ensures |b| == 4 * |vs|
  {
    if |vs| == 0 then [] else EncFixed32(vs[0]) + EncWords32(vs[1..])
  }

  function DecWords32(b: Bytes): (vs: seq<uint32>)
    requires |b| % 4 == 0
  {
    WordLimits();
    if |b| == 0 then [] else [DecLittle(b[..4])] + DecWords32(b[4..])
  }

  lemma {:induction false} Words32Back(vs: seq<uint32>)
    ensures DecWords32(EncWords32(vs)) == vs
  {
    if |vs| > 0 {
      var b := EncWords32(vs);
      Fixed32Back(vs[0], EncWords32(vs[1..]));
      assert b[..4] == EncFixed32(vs[0]) && b[4..] == EncWords32(vs[1..]);
      Words32Back(vs[1..]);
    }
  }

  /** packedFixed32 omits an empty list. */
  function EncPacked32(field: uint32, vs: seq<uint32>): Bytes {
    if |vs| == 0 then [] else EncField(BytesField(field, EncWords32(vs)))
  }

  /** Appends the words of a packed payload; a length that is no multiple of four fails, already consumed. */
  function ReadPacked32(out: seq<uint32>, b: Bytes): (r: Step<seq<uint32>>)
    ensures |r.rest| <= |b|
  {
    var payload := ReadBytes(b);
    if !payload.ok || |payload.value| % 4 != 0 then Step(false, out, payload.rest)
    else Step(true, out + DecWords32(payload.value), payload.rest)
  }

  lemma PackedPayloadBack(out: seq<uint32>, payload: Bytes, t: Bytes)
    requires |payload| <= UINT64_MAX && |payload| % 4 == 0
    ensures ReadPacked32(out, EncLengthDelimited(payload) + t) == Step(true, out + DecWords32(payload), t)
  {
    BytesBack(payload, t);
  }

  /** A packed list of words is read back behind the words already there. */
  lemma Packed32Back(out: seq<uint32>, vs: seq<uint32>, payload: Bytes, t: Bytes)
    requires payload == EncWords32(vs) && |payload| <= UINT64_MAX
    ensures ReadPacked32(out, EncLengthDelimited(payload) + t) == Step(true, out + vs, t)
  {
    PackedPayloadBack(out, payload, t);
    Words32Back(vs);
  }
}
